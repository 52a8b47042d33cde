/** The HTML escaping both edge functions apply to user-supplied text before
    sending it with `parse_mode: 'HTML'`.  The two functions carry identical
    copies of the helper; it is defined once here. */
module Html {
  import opened Strings

  /** Four global replacements in the order of the source: `&` first, so that
      the `&` of the entities inserted afterwards is not escaped again. */
  function EscapeHtml(s: string): string {
    ReplaceAll(ReplaceAll(ReplaceAll(ReplaceAll(s, '&', "&amp;"), '<', "&lt;"), '>', "&gt;"), '"', "&quot;")
  }

  /** The characters the helper rewrites. */
  predicate IsSpecial(c: char) {
    c == '&' || c == '<' || c == '>' || c == '"'
  }

  /** Reference definition: how a single character is escaped. */
  function EscapeChar(c: char): string {
    if c == '&' then "&amp;"
    else if c == '<' then "&lt;"
    else if c == '>' then "&gt;"
    else if c == '"' then "&quot;"
    else [c]
  }

  /** Reference definition: every character escaped on its own, left to right. */
  function EscapeEach(s: string): string {
    if s == [] then [] else EscapeChar(s[0]) + EscapeEach(s[1..])
  }

  /** One of the four entities the helper produces starts at position `i` of `r`. */
  predicate EntityAt(r: string, i: nat)
    requires i <= |r|
  {
    "&amp;" <= r[i..] || "&lt;" <= r[i..] || "&gt;" <= r[i..] || "&quot;" <= r[i..]
  }

  /** Every `&` of `r` begins one of the four entities. */
  predicate AmpersandsAreEntities(r: string) {
    forall i :: 0 <= i < |r| && r[i] == '&' ==> EntityAt(r, i)
  }

  /** Decoding of the four entities, the inverse of the helper. */
  function Unescape(r: string): string
    decreases |r|
  {
    if r == [] then []
    else if "&amp;" <= r then ['&'] + Unescape(r[5..])
    else if "&lt;" <= r then ['<'] + Unescape(r[4..])
    else if "&gt;" <= r then ['>'] + Unescape(r[4..])
    else if "&quot;" <= r then ['"'] + Unescape(r[6..])
    else [r[0]] + Unescape(r[1..])
  }

  lemma EscapeHtmlAppend(a: string, b: string)
    ensures EscapeHtml(a + b) == EscapeHtml(a) + EscapeHtml(b)
  {
    var a1, b1 := ReplaceAll(a, '&', "&amp;"), ReplaceAll(b, '&', "&amp;");
    ReplaceAllAppend(a, b, '&', "&amp;");
    var a2, b2 := ReplaceAll(a1, '<', "&lt;"), ReplaceAll(b1, '<', "&lt;");
    ReplaceAllAppend(a1, b1, '<', "&lt;");
    var a3, b3 := ReplaceAll(a2, '>', "&gt;"), ReplaceAll(b2, '>', "&gt;");
    ReplaceAllAppend(a2, b2, '>', "&gt;");
    ReplaceAllAppend(a3, b3, '"', "&quot;");
  }

  /** On one character, the four passes give the reference escape. */
  lemma EscapeHtmlChar(c: char)
    ensures EscapeHtml([c]) == EscapeChar(c)
  {
    ReplaceAllOne(c, '&', "&amp;");
    if c == '&' {
      EscapeAmpersand();
    } else {
      ReplaceAllOne(c, '<', "&lt;");
      if c == '<' {
        EscapeLess();
      } else {
        ReplaceAllOne(c, '>', "&gt;");
        if c != '>' {
          ReplaceAllOne(c, '"', "&quot;");
        } else {
          ReplaceAllAbsent("&gt;", '"', "&quot;");
        }
      }
    }
  }

  /** The entity inserted by the first pass survives the three later ones. */
  lemma EscapeAmpersand()
    ensures ReplaceAll(ReplaceAll(ReplaceAll("&amp;", '<', "&lt;"), '>', "&gt;"), '"', "&quot;") == "&amp;"
  {
    LaterPassesKeep("&amp;");
  }

  lemma EscapeLess()
    ensures ReplaceAll(ReplaceAll("&lt;", '>', "&gt;"), '"', "&quot;") == "&lt;"
  {
    var e := "&lt;";
    LaterPassesKeep(e);
    ReplaceAllAbsent(e, '<', "&lt;");
  }

  lemma LaterPassesKeep(e: string)
    requires '<' !in e && '>' !in e && '"' !in e
    ensures ReplaceAll(ReplaceAll(ReplaceAll(e, '<', "&lt;"), '>', "&gt;"), '"', "&quot;") == e
  {
    ReplaceAllAbsent(e, '<', "&lt;");
    ReplaceAllAbsent(e, '>', "&gt;");
    ReplaceAllAbsent(e, '"', "&quot;");
  }

  /** The source's four passes equal the one-pass reference definition. */
  lemma {:induction false} EscapeHtmlIsEscapeEach(s: string)
    ensures EscapeHtml(s) == EscapeEach(s)
  {
    if s != [] {
      assert s == [s[0]] + s[1..];
      EscapeHtmlAppend([s[0]], s[1..]);
      EscapeHtmlChar(s[0]);
      EscapeHtmlIsEscapeEach(s[1..]);
    }
  }

  /** The escaped text holds no `<`, `>` or `"`: it cannot open or close a tag
      or leave an attribute value. */
  lemma {:induction false} EscapedHasNoMarkup(s: string)
    ensures var r := EscapeHtml(s); '<' !in r && '>' !in r && '"' !in r
  {
    EscapeHtmlIsEscapeEach(s);
    EscapeEachHasNoMarkup(s);
  }

  lemma {:induction false} EscapeEachHasNoMarkup(s: string)
    ensures var r := EscapeEach(s); '<' !in r && '>' !in r && '"' !in r
  {
    if s != [] {
      EscapeEachHasNoMarkup(s[1..]);
    }
  }

  /** Every `&` of the escaped text begins one of the four entities. */
  lemma {:induction false} AmpersandsStartEntities(s: string)
    ensures AmpersandsAreEntities(EscapeHtml(s))
  {
    EscapeHtmlIsEscapeEach(s);
    EscapeEachAmpersands(s);
  }

  lemma {:induction false} EscapeEachAmpersands(s: string)
    ensures AmpersandsAreEntities(EscapeEach(s))
  {
    if s != [] {
      var head, rest := EscapeChar(s[0]), EscapeEach(s[1..]);
      var r := head + rest;
      EscapeEachAmpersands(s[1..]);
      forall i | 0 <= i < |r| && r[i] == '&'
        ensures EntityAt(r, i)
      {
        if i < |head| {
          assert i == 0 && IsSpecial(s[0]);
          assert r[i..] == head + rest;
          assert head <= r[i..];
        } else {
          var j := i - |head|;
          assert rest[j] == r[i] && r[i..] == rest[j..];
          assert AmpersandsAreEntities(rest);
          assert EntityAt(rest, j);
        }
      }
    }
  }

  /** Text without the four special characters passes through unchanged. */
  lemma EscapeHtmlIdentity(s: string)
    requires forall i :: 0 <= i < |s| ==> !IsSpecial(s[i])
    ensures EscapeHtml(s) == s
  {
    ReplaceAllAbsent(s, '&', "&amp;");
    ReplaceAllAbsent(s, '<', "&lt;");
    ReplaceAllAbsent(s, '>', "&gt;");
    ReplaceAllAbsent(s, '"', "&quot;");
  }

  /** Every other character, the apostrophe included, is kept as it is. */
  lemma EscapeHtmlKeeps(c: char)
    requires !IsSpecial(c)
    ensures EscapeHtml([c]) == [c]
  {
    EscapeHtmlChar(c);
  }

  /** Decoding the four entities gives back the original text. */
  lemma {:induction false} UnescapeEscapeHtml(s: string)
    ensures Unescape(EscapeHtml(s)) == s
  {
    EscapeHtmlIsEscapeEach(s);
    UnescapeEscapeEach(s);
  }

  lemma {:induction false} UnescapeEscapeEach(s: string)
    ensures Unescape(EscapeEach(s)) == s
  {
    if s != [] {
      UnescapeEscapeEach(s[1..]);
      UnescapeEscapedChar(s[0], EscapeEach(s[1..]));
      assert s == [s[0]] + s[1..];
    }
  }

  /** Decoding consumes the escape of one character, whatever follows it. */
  lemma UnescapeEscapedChar(c: char, rest: string)
    ensures Unescape(EscapeChar(c) + rest) == [c] + Unescape(rest)
  {
    var r := EscapeChar(c) + rest;
    if c == '&' {
      assert "&amp;" <= r && r[5..] == rest;
    } else if c == '<' {
      assert r[1] == 'l' && "&lt;" <= r && r[4..] == rest;
    } else if c == '>' {
      assert r[1] == 'g' && "&gt;" <= r && r[4..] == rest;
    } else if c == '"' {
      assert r[1] == 'q' && "&quot;" <= r && r[6..] == rest;
    } else {
      assert r[0] == c && r[1..] == rest;
    }
  }

  /** Different texts escape differently. */
  lemma EscapeHtmlInjective(a: string, b: string)
    requires EscapeHtml(a) == EscapeHtml(b)
    ensures a == b
  {
    UnescapeEscapeHtml(a);
    UnescapeEscapeHtml(b);
  }

  /** The tag delimiters of a text, in order: what decides its HTML structure. */
  function Markup(s: string): string {
    if s == [] then [] else MarkupChar(s[0]) + Markup(s[1..])
  }

  function MarkupChar(c: char): string {
    if c == '<' || c == '>' then [c] else []
  }

  lemma {:induction false} MarkupAppend(a: string, b: string)
    ensures Markup(a + b) == Markup(a) + Markup(b)
  {
    if a == [] {
      assert a + b == b;
    } else {
      var ab := a + b;
      assert ab[0] == a[0] && ab[1..] == a[1..] + b;
      MarkupAppend(a[1..], b);
      calc {
        Markup(ab);
        MarkupChar(a[0]) + Markup(a[1..] + b);
        MarkupChar(a[0]) + (Markup(a[1..]) + Markup(b));
        (MarkupChar(a[0]) + Markup(a[1..])) + Markup(b);
      }
    }
  }

  lemma {:induction false} MarkupAbsent(s: string)
    requires '<' !in s && '>' !in s
    ensures Markup(s) == []
  {
    if s != [] {
      MarkupAbsent(s[1..]);
    }
  }

  /** Text without tags between two parts adds nothing to their tags. */
  lemma MarkupAround(o: string, x: string, c: string)
    requires Markup(x) == []
    ensures Markup(o + x + c) == Markup(o) + Markup(c)
  {
    MarkupAppend(o, x);
    MarkupAppend(o + x, c);
  }

  /** Swapping tag-free text between the same neighbours keeps the tags. */
  lemma MarkupCongruent(o: string, x1: string, x2: string, c1: string, c2: string)
    requires Markup(x1) == [] && Markup(x2) == [] && Markup(c1) == Markup(c2)
    ensures Markup(o + x1 + c1) == Markup(o + x2 + c2)
  {
    MarkupAround(o, x1, c1);
    MarkupAround(o, x2, c2);
  }

  /** Between fixed neighbours, two texts give the same tags exactly when
      they have the same tags themselves. */
  lemma MarkupAroundIff(o: string, x1: string, x2: string, c: string)
    ensures Markup(o + x1 + c) == Markup(o + x2 + c) <==> Markup(x1) == Markup(x2)
  {
    MarkupAppend(o, x1);
    MarkupAppend(o + x1, c);
    MarkupAppend(o, x2);
    MarkupAppend(o + x2, c);
    var m, m1, m2, mc := Markup(o), Markup(x1), Markup(x2), Markup(c);
    if m + m1 + mc == m + m2 + mc {
      assert m1 == (m + m1 + mc)[|m|..|m| + |m1|];
      assert m2 == (m + m2 + mc)[|m|..|m| + |m2|];
    }
  }

  /** Joining pieces that carry the same tags, one for one, gives texts that
      carry the same tags. */
  lemma {:induction false} MarkupJoinSame(p1: seq<string>, p2: seq<string>, sep: string)
    requires |p1| == |p2|
    requires forall i :: 0 <= i < |p1| ==> Markup(p1[i]) == Markup(p2[i])
    ensures Markup(Join(p1, sep)) == Markup(Join(p2, sep))
    decreases |p1|
  {
    if |p1| > 1 {
      assert forall i :: 0 <= i < |p1[1..]| ==> p1[1..][i] == p1[i + 1] && p2[1..][i] == p2[i + 1];
      MarkupJoinSame(p1[1..], p2[1..], sep);
      MarkupAppend(p1[0] + sep, Join(p1[1..], sep));
      MarkupAppend(p1[0], sep);
      MarkupAppend(p2[0] + sep, Join(p2[1..], sep));
      MarkupAppend(p2[0], sep);
    }
  }

  lemma MarkupJoinFourSame(a1: string, b1: string, c1: string, d1: string,
                           a2: string, b2: string, c2: string, d2: string, sep: string)
    requires Markup(a1) == Markup(a2) && Markup(b1) == Markup(b2) && Markup(c1) == Markup(c2) && Markup(d1) == Markup(d2)
    ensures Markup(Join([a1, b1, c1, d1], sep)) == Markup(Join([a2, b2, c2, d2], sep))
  {
    var p1, p2 := [a1, b1, c1, d1], [a2, b2, c2, d2];
    assert forall i :: 0 <= i < |p1| ==> Markup(p1[i]) == Markup(p2[i]);
    MarkupJoinSame(p1, p2, sep);
  }

  lemma MarkupJoinFiveSame(a1: string, b1: string, c1: string, d1: string, e1: string,
                           a2: string, b2: string, c2: string, d2: string, e2: string, sep: string)
    requires Markup(a1) == Markup(a2) && Markup(b1) == Markup(b2) && Markup(c1) == Markup(c2)
    requires Markup(d1) == Markup(d2) && Markup(e1) == Markup(e2)
    ensures Markup(Join([a1, b1, c1, d1, e1], sep)) == Markup(Join([a2, b2, c2, d2, e2], sep))
  {
    var p1, p2 := [a1, b1, c1, d1, e1], [a2, b2, c2, d2, e2];
    assert forall i :: 0 <= i < |p1| ==> Markup(p1[i]) == Markup(p2[i]);
    MarkupJoinSame(p1, p2, sep);
  }

  /** Escaped text adds no tag delimiter to a message. */
  lemma MarkupOfEscaped(s: string)
    ensures Markup(EscapeHtml(s)) == []
  {
    EscapedHasNoMarkup(s);
    MarkupAbsent(EscapeHtml(s));
  }
}
