/** The `callback_data` of the "answer" button: the notifier encodes the
    question id into it and the dispatcher decodes it when the button is pressed. */
module Payload {
  import opened Strings

  const Prefix: string := "answer:"

  /** The notifier's `answer:${question_id}`. */
  function Encode(questionId: string): (data: string)
    ensures Prefix <= data && data[|Prefix|..] == questionId
  {
    Prefix + questionId
  }

  /** The dispatcher's rule: the data must be truthy and start with `answer:`;
      the id is then `data.split(':')[1]`, the text between the first and the
      second colon. */
  function Decode(data: Option<string>): (r: Option<string>)
    ensures r.Some? <==> Truthy(data) && Prefix <= data.value
    ensures r.Some? ==> ':' !in r.value && r.value <= data.value[|Prefix|..]
    ensures r.Some? && |r.value| < |data.value| - |Prefix| ==> data.value[|Prefix| + |r.value|] == ':'
  {
    if Truthy(data) && Prefix <= data.value then
      var rest := data.value[|Prefix|..];
      assert data.value == "answer" + [':'] + rest;
      SplitAtFirst("answer", ':', rest);
      FirstPiece(rest, ':');
      Some(Split(data.value, ":")[1])
    else None
  }

  /** The first piece of a split on one character is the text before the first
      occurrence of that character. */
  lemma {:induction false} FirstPiece(s: string, c: char)
    ensures var p := Split(s, [c])[0];
      p <= s && c !in p && (|p| < |s| ==> s[|p|] == c)
  {
    if s != [] && !([c] <= s) {
      FirstPiece(s[1..], c);
    }
  }

  /** The question id comes back from the button exactly when it holds no colon. */
  lemma RoundTrip(questionId: string)
    ensures Decode(Some(Encode(questionId))) == Some(questionId) <==> ':' !in questionId
  {
    var data := Encode(questionId);
    if ':' !in questionId {
      assert data == "answer" + [':'] + questionId;
      SplitAtFirst("answer", ':', questionId);
      SplitAbsent(questionId, ':');
    }
  }

  /** With a colon in it, the id comes back cut short at its first colon. */
  lemma RoundTripTruncates(questionId: string)
    ensures var r := Decode(Some(Encode(questionId)));
      r.Some? && r.value <= questionId && ':' !in r.value
      && (|r.value| < |questionId| ==> questionId[|r.value|] == ':')
  {
  }
}
