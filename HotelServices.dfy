/** The services list of the hotel page: the configured `hotel_info` text is cut
    at every backslash-`n` pair and each piece is read as an icon, a title and
    an optional description by the pattern `^(\p{Emoji}\s*)?(.+?)(:\s*(.*))?$`
    with the `u` flag.

    The pattern is modelled in two halves.  `Fits` says declaratively which ways
    of cutting a line the pattern accepts, and `Precedes` is the order in which
    a backtracking matcher tries them; `MatchLine` computes the first accepted
    cut and is proved to be exactly that.  Whether a code point has the Unicode
    property Emoji is a parameter `isEmoji`. */
module HotelServices {
  import opened Strings

  /** One entry of the list: `icon` and `description` are null or non-empty. */
  datatype Service = Service(icon: Option<string>, title: string, description: Option<string>)

  /** A way of cutting a line `L` the pattern may accept: the optional group 1
      (the emoji and the spaces after it) is `L[..p]`, absent when `p == 0`;
      the title, group 2, is `L[p..e]`; when `d` is present, group 3 starts
      with the `:` at `e` and group 4 is `L[d..]`. */
  datatype Shape = Shape(p: nat, e: nat, d: Option<nat>)

  /** Group 1 is absent, or one emoji followed by spaces (`\s` includes line
      terminators). */
  ghost predicate HeadFits(L: string, isEmoji: char -> bool, p: nat) {
    p == 0 || (p <= |L| && isEmoji(L[0]) && AllSpace(L[1..p]))
  }

  /** The title is at least one character that `.` matches. */
  ghost predicate TitleFits(L: string, p: nat, e: nat) {
    p < e <= |L| && NoBreak(L[p..e])
  }

  /** Either group 3 is absent and the title reaches the end (`$` without the
      `m` flag), or a `:`, spaces, and a description `.*` reaching the end. */
  ghost predicate TailFits(L: string, e: nat, d: Option<nat>)
    requires e <= |L|
  {
    if d.None? then e == |L|
    else e < |L| && L[e] == ':' && e + 1 <= d.value <= |L|
         && AllSpace(L[e + 1..d.value]) && NoBreak(L[d.value..])
  }

  /** The pattern accepts the line cut as `s`. */
  ghost predicate Fits(L: string, isEmoji: char -> bool, s: Shape) {
    HeadFits(L, isEmoji, s.p) && TitleFits(L, s.p, s.e) && TailFits(L, s.e, s.d)
  }

  /** Group 3 taken, with a longer greedy `\s*` (a later start of group 4),
      is tried before `b`. */
  predicate Later(a: Option<nat>, b: Option<nat>) {
    a.Some? && (b.None? || a.value > b.value)
  }

  /** The backtracking order: a longer group 1 first (the greedy `?` and `\s*`),
      then a shorter title (the lazy `+?`), then group 3 taken with the longest
      `\s*`. */
  predicate Precedes(a: Shape, b: Shape) {
    a.p > b.p || (a.p == b.p && (a.e < b.e || (a.e == b.e && Later(a.d, b.d))))
  }

  /** The end of the run of spaces starting at `i`. */
  function RunEnd(L: string, i: nat): (r: nat)
    requires i <= |L|
    ensures i <= r <= |L| && AllSpace(L[i..r])
    ensures r == |L| || !IsSpace(L[r])
    decreases |L| - i
  {
    if i < |L| && IsSpace(L[i]) then
      var r := RunEnd(L, i + 1);
      assert L[i..r] == [L[i]] + L[i + 1..r];
      r
    else i
  }

  /** Spaces starting at `i` end no later than `RunEnd(L, i)`. */
  lemma {:induction false} RunEndBounds(L: string, i: nat, j: nat)
    requires i <= j <= |L| && AllSpace(L[i..j])
    ensures j <= RunEnd(L, i)
    decreases j - i
  {
    if i < j {
      assert L[i..j][0] == L[i];
      var t := L[i + 1..j];
      forall k | 0 <= k < |t| ensures IsSpace(t[k]) {
        assert t[k] == L[i..j][k + 1];
      }
      RunEndBounds(L, i + 1, j);
    }
  }

  /** How group 3 and group 4 match when the title ends at `e`: `Some(None)`
      when no group 3 is needed, `Some(Some(d))` for the first accepted `d`,
      `None` when nothing fits. */
  function BestTail(L: string, e: nat): (r: Option<Option<nat>>)
    requires e <= |L|
    ensures e == |L| ==> r == Some(None)
    ensures r.Some? ==> TailFits(L, e, r.value) && forall d :: TailFits(L, e, d) ==> !Later(d, r.value)
    ensures r.None? ==> forall d :: !TailFits(L, e, d)
  {
    if e == |L| then Some(None)
    else
      TailFitsAtColon(L, e);
      if L[e] == ':' && NoBreak(L[RunEnd(L, e + 1)..]) then Some(Some(RunEnd(L, e + 1)))
      else None
  }

  /** Before the end of the line, group 3 needs the `:` at `e`, and group 4
      starts no later than the greedy run of spaces ends: so the rest of the
      line from there holds no line terminator either. */
  lemma TailFitsAtColon(L: string, e: nat)
    requires e < |L|
    ensures forall x: Option<nat> :: TailFits(L, e, x) ==>
      && x.Some? && L[e] == ':' && x.value <= RunEnd(L, e + 1) && NoBreak(L[RunEnd(L, e + 1)..])
  {
    forall x: Option<nat> | TailFits(L, e, x)
      ensures x.Some? && L[e] == ':' && x.value <= RunEnd(L, e + 1) && NoBreak(L[RunEnd(L, e + 1)..])
    {
      RunEndBounds(L, e + 1, x.value);
      var d := RunEnd(L, e + 1);
      assert forall k :: 0 <= k < |L[d..]| ==> L[d..][k] == L[x.value..][k + d - x.value];
    }
  }

  /** The first title end, from `e` on, for group 1 ending at `p`. */
  function FindEnd(L: string, p: nat, e: nat): (r: Option<Shape>)
    requires p < e <= |L| && NoBreak(L[p..e - 1])
    ensures r.Some? ==> r.value.p == p && e <= r.value.e && TitleFits(L, p, r.value.e) && TailFits(L, r.value.e, r.value.d)
    ensures r.Some? ==> forall s: Shape :: s.p == p && e <= s.e && TitleFits(L, p, s.e) && TailFits(L, s.e, s.d) ==> !Precedes(s, r.value)
    ensures r.None? ==> forall s: Shape :: s.p == p && e <= s.e && TitleFits(L, p, s.e) ==> !TailFits(L, s.e, s.d)
    decreases |L| - e
  {
    if IsLineTerminator(L[e - 1]) then
      assert forall s: Shape :: s.p == p && e <= s.e <= |L| ==> !NoBreak(L[p..s.e]) by {
        forall s: Shape | s.p == p && e <= s.e <= |L| ensures !NoBreak(L[p..s.e]) {
          assert L[p..s.e][e - 1 - p] == L[e - 1];
        }
      }
      None
    else
      assert NoBreak(L[p..e]) by {
        assert forall k :: 0 <= k < e - 1 - p ==> L[p..e][k] == L[p..e - 1][k];
      }
      var t := BestTail(L, e);
      if t.Some? then Some(Shape(p, e, t.value))
      else FindEnd(L, p, e + 1)
  }

  /** The first accepted cut whose group 1 ends at `p`. */
  function TryAt(L: string, isEmoji: char -> bool, p: nat): (r: Option<Shape>)
    requires p <= |L| && HeadFits(L, isEmoji, p)
    ensures r.Some? ==> r.value.p == p && Fits(L, isEmoji, r.value)
    ensures r.Some? ==> forall s: Shape :: s.p == p && Fits(L, isEmoji, s) ==> !Precedes(s, r.value)
    ensures r.None? ==> forall s: Shape :: s.p == p ==> !Fits(L, isEmoji, s)
  {
    if p < |L| then FindEnd(L, p, p + 1) else None
  }

  /** Group 1 with `\s*` ending at `p`, then at the shorter ends, then absent. */
  function TryDown(L: string, isEmoji: char -> bool, p: nat): (r: Option<Shape>)
    requires |L| >= 1 && isEmoji(L[0]) && 1 <= p <= RunEnd(L, 1)
    ensures r.Some? ==> r.value.p <= p && Fits(L, isEmoji, r.value)
    ensures r.Some? ==> forall s: Shape :: s.p <= p && Fits(L, isEmoji, s) ==> !Precedes(s, r.value)
    ensures r.None? ==> forall s: Shape :: s.p <= p ==> !Fits(L, isEmoji, s)
    decreases p
  {
    assert AllSpace(L[1..p]) by {
      assert forall k :: 0 <= k < p - 1 ==> L[1..p][k] == L[1..RunEnd(L, 1)][k];
    }
    var r := TryAt(L, isEmoji, p);
    if r.Some? then r
    else if p == 1 then TryAt(L, isEmoji, 0)
    else TryDown(L, isEmoji, p - 1)
  }

  /** `line.match(...)`: the cut the backtracking matcher settles on, which is
      the first accepted one in the order `Precedes`, or none at all. */
  function MatchLine(L: string, isEmoji: char -> bool): (r: Option<Shape>)
    ensures r.Some? ==> Fits(L, isEmoji, r.value)
    ensures r.Some? ==> forall s :: Fits(L, isEmoji, s) ==> !Precedes(s, r.value)
    ensures r.None? ==> forall s :: !Fits(L, isEmoji, s)
  {
    if |L| > 0 && isEmoji(L[0]) then
      assert forall s :: Fits(L, isEmoji, s) ==> s.p <= RunEnd(L, 1) by {
        forall s | Fits(L, isEmoji, s) ensures s.p <= RunEnd(L, 1) {
          if s.p > 0 {
            RunEndBounds(L, 1, s.p);
          }
        }
      }
      TryDown(L, isEmoji, RunEnd(L, 1))
    else
      TryAt(L, isEmoji, 0)
  }

  /** `x || null` for a string `x`. */
  function NonEmpty(x: string): (r: Option<string>)
    ensures r.Some? <==> x != []
    ensures r.Some? ==> r.value == x
  {
    if x == [] then None else Some(x)
  }

  /** One entry of the list: the trimmed groups 1, 2 and 4 when the pattern
      matches, the untouched line as the title when it does not. */
  function ParseLine(L: string, isEmoji: char -> bool): (r: Service)
    ensures r.icon != Some([]) && r.description != Some([])
  {
    var m := MatchLine(L, isEmoji);
    if m.None? then Service(None, L, None)
    else
      var s := m.value;
      Service(if s.p > 0 then NonEmpty(Trim(L[..s.p])) else None,
              Trim(L[s.p..s.e]),
              if s.d.Some? then NonEmpty(Trim(L[s.d.value..])) else None)
  }

  // ---------------------------------------------------------------------
  // The order and the matcher.

  /** `Precedes` orders any two different cuts one way or the other, so the
      first accepted cut is unique. */
  lemma PrecedesTotal(a: Shape, b: Shape)
    requires a != b
    ensures Precedes(a, b) || Precedes(b, a)
  {
  }

  lemma PrecedesIrreflexive(a: Shape)
    ensures !Precedes(a, a)
  {
  }

  /** The matcher's result is the only accepted cut that no accepted cut
      precedes. */
  lemma MatchIsFirst(L: string, isEmoji: char -> bool, c: Shape)
    requires Fits(L, isEmoji, c)
    requires forall s :: Fits(L, isEmoji, s) ==> !Precedes(s, c)
    ensures MatchLine(L, isEmoji) == Some(c)
  {
    var r := MatchLine(L, isEmoji);
    assert r.Some?;
    if r.value != c {
      PrecedesTotal(r.value, c);
    }
  }

  // ---------------------------------------------------------------------
  // What a line reads as.

  /** Where the title of a line without line terminators starts: after the
      emoji and its spaces, keeping one character for the title when the
      spaces reach the end; at 0 when the line does not start with an emoji
      followed by something. */
  function TitleStart(L: string, isEmoji: char -> bool): (p: nat)
    requires NoBreak(L)
    ensures p < |L| || L == []
  {
    if |L| >= 2 && isEmoji(L[0]) then
      (if RunEnd(L, 1) < |L| then RunEnd(L, 1) else |L| - 1)
    else 0
  }

  /** `e` is the first `:` after the first character of the title, or the end
      of the line when there is none. */
  ghost predicate FirstColon(L: string, p: nat, e: nat) {
    p < e <= |L| && (e < |L| ==> L[e] == ':') && forall i :: p < i < e ==> L[i] != ':'
  }

  /** A line without line terminators always matches: the icon is its first
      code point when that is an emoji and something follows; the title runs
      from after the icon and its spaces to the first `:` after the title's
      first character, or to the end; the description is what follows that
      `:`; all three trimmed, and an empty icon or description is null. */
  lemma ParseUnbrokenLine(L: string, isEmoji: char -> bool, e: nat)
    requires L != [] && NoBreak(L)
    requires isEmoji(L[0]) ==> !IsSpace(L[0])
    requires FirstColon(L, TitleStart(L, isEmoji), e)
    ensures ParseLine(L, isEmoji) == Service(
      if isEmoji(L[0]) && |L| >= 2 then Some([L[0]]) else None,
      Trim(L[TitleStart(L, isEmoji)..e]),
      if e < |L| then NonEmpty(Trim(L[e + 1..])) else None)
  {
    var c := UnbrokenShape(L, isEmoji, e);
    UnbrokenFits(L, isEmoji, e);
    UnbrokenFirst(L, isEmoji, e);
    MatchIsFirst(L, isEmoji, c);
    UnbrokenIcon(L, isEmoji);
    if e < |L| {
      UnbrokenDescription(L, e);
    }
  }

  /** The cut `ParseUnbrokenLine` describes: group 1 up to `TitleStart`, the
      title up to `e`, and group 4 after the spaces that follow the `:`. */
  function UnbrokenShape(L: string, isEmoji: char -> bool, e: nat): Shape
    requires NoBreak(L) && e <= |L|
  {
    Shape(TitleStart(L, isEmoji), e, if e < |L| then Some(RunEnd(L, e + 1)) else None)
  }

  lemma UnbrokenFits(L: string, isEmoji: char -> bool, e: nat)
    requires L != [] && NoBreak(L)
    requires FirstColon(L, TitleStart(L, isEmoji), e)
    ensures Fits(L, isEmoji, UnbrokenShape(L, isEmoji, e))
  {
    var p := TitleStart(L, isEmoji);
    assert NoBreak(L[p..e]) by {
      assert forall k :: 0 <= k < e - p ==> L[p..e][k] == L[p + k];
    }
    if p > 0 {
      assert AllSpace(L[1..p]) by {
        assert forall k :: 0 <= k < p - 1 ==> L[1..p][k] == L[1..RunEnd(L, 1)][k];
      }
    }
    if e < |L| {
      var d := RunEnd(L, e + 1);
      assert NoBreak(L[d..]) by {
        assert forall k :: 0 <= k < |L| - d ==> L[d..][k] == L[d + k];
      }
    }
  }

  lemma UnbrokenFirst(L: string, isEmoji: char -> bool, e: nat)
    requires L != [] && NoBreak(L)
    requires FirstColon(L, TitleStart(L, isEmoji), e)
    ensures forall s :: Fits(L, isEmoji, s) ==> !Precedes(s, UnbrokenShape(L, isEmoji, e))
  {
    var p, c := TitleStart(L, isEmoji), UnbrokenShape(L, isEmoji, e);
    forall s | Fits(L, isEmoji, s) ensures !Precedes(s, c) {
      if s.p > 0 {
        RunEndBounds(L, 1, s.p);
      }
      if s.p == p && s.e < |L| {
        assert L[s.e] == ':';
      }
      if s.p == p && s.e == e && s.d.Some? {
        RunEndBounds(L, e + 1, s.d.value);
      }
    }
  }

  /** Group 1 trims to the emoji alone. */
  lemma UnbrokenIcon(L: string, isEmoji: char -> bool)
    requires L != [] && NoBreak(L)
    requires isEmoji(L[0]) ==> !IsSpace(L[0])
    ensures var p := TitleStart(L, isEmoji);
      (if p > 0 then NonEmpty(Trim(L[..p])) else None) == (if isEmoji(L[0]) && |L| >= 2 then Some([L[0]]) else None)
  {
    var p := TitleStart(L, isEmoji);
    if p > 0 {
      assert L[..p] == [L[0]] + L[1..p];
      assert AllSpace(L[1..p]) by {
        assert forall k :: 0 <= k < p - 1 ==> L[1..p][k] == L[1..RunEnd(L, 1)][k];
      }
      TrimEndSkipsTrailingSpace([L[0]], L[1..p]);
    }
  }

  /** The spaces `\s*` takes after the `:` do not change the trimmed description. */
  lemma UnbrokenDescription(L: string, e: nat)
    requires e < |L|
    ensures NonEmpty(Trim(L[RunEnd(L, e + 1)..])) == NonEmpty(Trim(L[e + 1..]))
  {
    var d := RunEnd(L, e + 1);
    assert L[e + 1..] == L[e + 1..d] + L[d..];
    TrimSkipsLeadingSpace(L[e + 1..d], L[d..]);
  }

  /** An empty piece (two separators in a row, or one at either end) does not
      match, and is kept as an entry with an empty title. */
  lemma EmptyPiece(isEmoji: char -> bool)
    ensures ParseLine([], isEmoji) == Service(None, [], None)
  {
  }

  /** A line terminator outside the spaces after a leading emoji, in a line
      without a `:`, makes the match fail, so the line is kept whole as the
      title. */
  lemma BrokenLineFallsBack(L: string, isEmoji: char -> bool, i: nat)
    requires ':' !in L
    requires i < |L| && IsLineTerminator(L[i])
    requires !isEmoji(L[0]) || i >= RunEnd(L, 1)
    ensures ParseLine(L, isEmoji) == Service(None, L, None)
  {
    forall s | Fits(L, isEmoji, s) ensures s.p <= i && s.e == |L| {
      if s.p > 0 {
        RunEndBounds(L, 1, s.p);
      }
    }
    forall s: Shape | s.p <= i < s.e <= |L| ensures !NoBreak(L[s.p..s.e]) {
      assert L[s.p..s.e][i - s.p] == L[i];
    }
    assert MatchLine(L, isEmoji).None?;
  }

  /** Only spaces and line terminators after the `:` (which `\s*` takes
      whole) still make a match, with a null description: a line break there
      does not make the line fall back. */
  lemma BlankDescription(L: string, isEmoji: char -> bool, title: string, ws: string)
    requires title != [] && NoBreak(title) && ':' !in title && !isEmoji(title[0])
    requires AllSpace(ws) && L == title + [':'] + ws
    ensures ParseLine(L, isEmoji) == Service(None, Trim(title), None)
  {
    var e := |title|;
    assert L[..e] == title && L[e + 1..] == ws;
    RunEndBounds(L, e + 1, |L|);
    var c := Shape(0, e, Some(|L|));
    assert Fits(L, isEmoji, c);
    forall i | 0 <= i < e ensures L[i] != ':' {
      assert L[i] == title[i];
    }
    MatchIsFirst(L, isEmoji, c);
    TrimAllSpace(L[|L|..]);
  }

  /** A line break in the spaces after a leading emoji does not make the
      line fall back either: `\s*` takes it, and the rest, up to the end, is
      the title. */
  lemma EmojiBreakTitle(L: string, isEmoji: char -> bool, x: char, ws: string, t: string)
    requires isEmoji(x) && !IsSpace(x)
    requires ws != [] && AllSpace(ws)
    requires t != [] && NoBreak(t) && !IsSpace(t[0]) && ':' !in t
    requires L == [x] + ws + t
    ensures ParseLine(L, isEmoji) == Service(Some([x]), Trim(t), None)
  {
    var p := 1 + |ws|;
    assert L[1..p] == ws && L[p..] == t && L[..p] == [x] + ws && L[0] == x;
    var c := Shape(p, |L|, None);
    assert Fits(L, isEmoji, c);
    forall s | Fits(L, isEmoji, s) ensures !Precedes(s, c) {
      HeadStopsAtTitle(L, isEmoji, p, s.p);
    }
    MatchIsFirst(L, isEmoji, c);
    assert L[p..|L|] == t;
    TrimEndSkipsTrailingSpace([x], ws);
    assert TrimStart([x] + ws) == [x] + ws;
    assert Trim(L[..p]) == [x];
  }

  /** Group 1 cannot reach past a character that is not a space. */
  lemma HeadStopsAtTitle(L: string, isEmoji: char -> bool, p: nat, q: nat)
    requires 1 <= p < |L| && !IsSpace(L[p])
    ensures q > p ==> !HeadFits(L, isEmoji, q)
  {
    if q > p && q <= |L| {
      assert L[1..q][p - 1] == L[p];
    }
  }

  /** The usual way a line is written: the icon and a space, the title, and
      `: ` with the description, the icon and the description optional. */
  function Render(svc: Service): string {
    Head(svc) + svc.title + Tail(svc)
  }

  function Head(svc: Service): string {
    if svc.icon.Some? then svc.icon.value + [' '] else []
  }

  function Tail(svc: Service): string {
    if svc.description.Some? then [':', ' '] + svc.description.value else []
  }

  /** A trimmed text, non-empty, on one line. */
  predicate Word(x: string) {
    x != [] && !IsSpace(x[0]) && !IsSpace(x[|x| - 1]) && NoBreak(x)
  }

  /** The entries `Render` writes unambiguously: a one-character emoji icon, a
      title without `:` that does not itself start with an emoji when there is
      no icon, and a description on one line. */
  predicate WellFormed(svc: Service, isEmoji: char -> bool) {
    && (svc.icon.Some? ==> |svc.icon.value| == 1 && isEmoji(svc.icon.value[0]) && !IsSpace(svc.icon.value[0]))
    && Word(svc.title) && ':' !in svc.title
    && (svc.icon.None? ==> !isEmoji(svc.title[0]))
    && (svc.description.Some? ==> Word(svc.description.value))
  }

  /** Reading a rendered entry gives it back. */
  lemma {:induction false} ParseRender(svc: Service, isEmoji: char -> bool)
    requires WellFormed(svc, isEmoji)
    ensures ParseLine(Render(svc), isEmoji) == svc
  {
    var L, p := Render(svc), |Head(svc)|;
    var e := p + |svc.title|;
    RenderNoBreak(svc, isEmoji);
    RenderStart(svc, isEmoji);
    RenderColon(svc, isEmoji);
    assert Trim(L[p..e]) == svc.title by {
      RenderSlices(svc);
      TrimOfTrimmed(svc.title);
    }
    assert (if e < |L| then NonEmpty(Trim(L[e + 1..])) else None) == svc.description by {
      RenderSlices(svc);
      if svc.description.Some? {
        var d := svc.description.value;
        TrimSkipsLeadingSpace([' '], d);
        TrimOfTrimmed(d);
      }
    }
    ParseUnbrokenLineAs(L, isEmoji, e, svc.icon, svc.title, svc.description);
  }

  /** `ParseUnbrokenLine` with the three fields named. */
  lemma ParseUnbrokenLineAs(L: string, isEmoji: char -> bool, e: nat, icon: Option<string>, title: string,
                            description: Option<string>)
    requires L != [] && NoBreak(L)
    requires isEmoji(L[0]) ==> !IsSpace(L[0])
    requires FirstColon(L, TitleStart(L, isEmoji), e)
    requires icon == if isEmoji(L[0]) && |L| >= 2 then Some([L[0]]) else None
    requires title == Trim(L[TitleStart(L, isEmoji)..e])
    requires description == if e < |L| then NonEmpty(Trim(L[e + 1..])) else None
    ensures ParseLine(L, isEmoji) == Service(icon, title, description)
  {
    ParseUnbrokenLine(L, isEmoji, e);
  }

  /** The parts of a rendered line as slices of it. */
  lemma RenderSlices(svc: Service)
    ensures var L, p := Render(svc), |Head(svc)|;
      && p + |svc.title| <= |L|
      && L[..p] == Head(svc) && L[p..p + |svc.title|] == svc.title && L[p + |svc.title|..] == Tail(svc)
      && (svc.description.Some? ==> L[p + |svc.title| + 1..] == [' '] + svc.description.value)
  {
    ThreeSlices(Head(svc), svc.title, Tail(svc));
    if svc.description.Some? {
      assert Tail(svc)[1..] == [' '] + svc.description.value;
    }
  }

  lemma ThreeSlices(a: string, b: string, c: string)
    ensures var L := a + b + c;
      && L[..|a|] == a && L[|a|..|a| + |b|] == b && L[|a| + |b|..] == c
      && (c != [] ==> L[|a| + |b| + 1..] == c[1..])
  {
    var L := a + b + c;
    assert L[|a| + |b|..] == c;
    if c != [] {
      assert L[|a| + |b| + 1..] == L[|a| + |b|..][1..];
    }
  }

  lemma RenderNoBreak(svc: Service, isEmoji: char -> bool)
    requires WellFormed(svc, isEmoji)
    ensures NoBreak(Render(svc))
  {
    NoBreakAppend(Head(svc), svc.title);
    if svc.description.Some? {
      NoBreakAppend([':', ' '], svc.description.value);
    }
    NoBreakAppend(Head(svc) + svc.title, Tail(svc));
  }

  /** The rendered line starts with the icon exactly when there is one, and
      the title starts after it and its space. */
  lemma RenderStart(svc: Service, isEmoji: char -> bool)
    requires WellFormed(svc, isEmoji)
    ensures var L := Render(svc);
      && L != [] && (isEmoji(L[0]) ==> !IsSpace(L[0]))
      && (isEmoji(L[0]) && |L| >= 2 <==> svc.icon.Some?)
      && (svc.icon.Some? ==> [L[0]] == svc.icon.value)
      && TitleStart(L, isEmoji) == |Head(svc)|
  {
    var L := Render(svc);
    RenderNoBreak(svc, isEmoji);
    if svc.icon.Some? {
      assert L[0] == svc.icon.value[0] && L[1] == ' ' && L[2] == svc.title[0];
      assert RunEnd(L, 2) == 2;
    } else {
      assert L[0] == svc.title[0];
    }
  }

  /** The first `:` after the title's first character is the one `Render`
      puts after the title. */
  lemma RenderColon(svc: Service, isEmoji: char -> bool)
    requires WellFormed(svc, isEmoji)
    ensures var L, p := Render(svc), |Head(svc)|;
      FirstColon(L, p, p + |svc.title|)
  {
    RenderSlices(svc);
    ColonAfterTitle(Render(svc), |Head(svc)|, svc.title, Tail(svc));
  }

  /** A title without `:` followed by nothing or by a `:` ends at the first `:`. */
  lemma ColonAfterTitle(L: string, p: nat, title: string, tail: string)
    requires title != [] && ':' !in title
    requires p + |title| <= |L| && L[p..p + |title|] == title && L[p + |title|..] == tail
    requires tail == [] || tail[0] == ':'
    ensures FirstColon(L, p, p + |title|)
  {
    var e := p + |title|;
    forall i | p < i < e ensures L[i] != ':' {
      assert L[i] == title[i - p];
    }
    if e < |L| {
      assert L[e] == tail[0];
    }
  }

  // ---------------------------------------------------------------------
  // Cutting `hotel_info` into pieces.

  /** The separator: a backslash followed by the letter `n`, as stored in the
      theme, not a newline character. */
  const Sep: string := ['\\', 'n']

  /** The number of backslash-`n` pairs in `s`, counted position by position. */
  function Occurrences(s: string): nat {
    if |s| < 2 then 0
    else (if s[0] == '\\' && s[1] == 'n' then 1 else 0) + Occurrences(s[1..])
  }

  /** One piece per separator plus one, because a `\` cannot start a pair
      that overlaps the one before. */
  lemma {:induction false} PieceCount(s: string)
    ensures |Split(s, Sep)| == Occurrences(s) + 1
    decreases |s|
  {
    if Sep <= s {
      PieceCount(s[2..]);
      assert s[1..][1..] == s[2..];
      assert Occurrences(s[1..]) == Occurrences(s[2..]);
    } else if s != [] {
      PieceCount(s[1..]);
      assert |s| >= 2 ==> !(s[0] == '\\' && s[1] == 'n');
    }
  }

  /** No piece holds a separator, and the pieces joined back with it give the
      text: together these fix the pieces. */
  lemma {:induction false} PiecesHaveNoSeparator(s: string)
    ensures forall k :: 0 <= k < |Split(s, Sep)| ==> Occurrences(Split(s, Sep)[k]) == 0
    ensures Join(Split(s, Sep), Sep) == s
    decreases |s|
  {
    JoinSplit(s, Sep);
    if Sep <= s {
      PiecesHaveNoSeparator(s[2..]);
      var r := Split(s, Sep);
      assert r == [[]] + Split(s[2..], Sep);
      assert forall k :: 1 <= k < |r| ==> r[k] == Split(s[2..], Sep)[k - 1];
    } else if s != [] {
      var rest := Split(s[1..], Sep);
      PiecesHaveNoSeparator(s[1..]);
      var head := [s[0]] + rest[0];
      var r := Split(s, Sep);
      assert r == [head] + rest[1..];
      assert head[1..] == rest[0];
      assert rest[0] <= s[1..];
      assert Occurrences(head) == 0;
      assert forall k :: 1 <= k < |r| ==> r[k] == rest[k];
    }
  }

  /** The `services` array: one entry per piece, in order. */
  function Services(info: string, isEmoji: char -> bool): (r: seq<Service>)
    ensures |r| == |Split(info, Sep)| == Occurrences(info) + 1
    ensures forall k :: 0 <= k < |r| ==> r[k] == ParseLine(Split(info, Sep)[k], isEmoji)
  {
    PieceCount(info);
    var pieces := Split(info, Sep);
    seq(|pieces|, k requires 0 <= k < |pieces| => ParseLine(pieces[k], isEmoji))
  }

  /** A text without separators is a single entry. */
  lemma SingleEntry(info: string, isEmoji: char -> bool)
    requires '\\' !in info
    ensures Services(info, isEmoji) == [ParseLine(info, isEmoji)]
  {
    SplitOneChar(info);
  }

  /** Without a backslash the two-character separator never occurs. */
  lemma {:induction false} SplitOneChar(info: string)
    requires '\\' !in info
    ensures Split(info, Sep) == [info]
    decreases |info|
  {
    if info != [] {
      assert info[0] != '\\';
      SplitOneChar(info[1..]);
      assert [info[0]] + info[1..] == info;
    }
  }

  // ---------------------------------------------------------------------
  // The page.

  /** The event's `theme_json`, as far as this page reads it. */
  datatype Theme = Theme(hotelInfo: Option<string>)

  /** The state of the theme query: still loading, failed, or done with a
      theme that may be null. */
  datatype Query = Query(isLoading: bool, failed: bool, theme: Option<Theme>)

  /** What the page renders. */
  datatype View = LoadingView | ErrorView | ServiceList(services: seq<Service>)

  /** The page: the loading view first, then the error view for a failed
      query, a null theme or a missing or empty `hotel_info`, and otherwise
      the services list. */
  function Page(q: Query, isEmoji: char -> bool): (v: View)
    ensures v.LoadingView? <==> q.isLoading
    ensures v.ErrorView? <==> !q.isLoading && (q.failed || q.theme.None? || !Truthy(q.theme.value.hotelInfo))
    ensures v.ServiceList? ==> v.services == Services(q.theme.value.hotelInfo.value, isEmoji) && |v.services| >= 1
  {
    if q.isLoading then LoadingView
    else if q.failed || q.theme.None? || !Truthy(q.theme.value.hotelInfo) then ErrorView
    else ServiceList(Services(q.theme.value.hotelInfo.value, isEmoji))
  }
}
