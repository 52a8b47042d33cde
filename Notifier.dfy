/** The `notify_speaker` edge function: tells a speaker about a new question
    and attaches the button that starts the answer hand-shake. */
module Notifier {
  import opened Strings
  import opened Html
  import opened Schema
  import Payload

  /** The JSON body posted by the question form.  `when` stands for the
      date and time of `timestamp` as rendered in Europe/Moscow.  The fields the
      handler hands to `escapeHtml` may be missing, which makes it throw. */
  datatype Request = Request(
    speakerId: string,
    text: Option<string>,
    askerName: Option<string>,
    askerUsername: Option<string>,
    isAnonymous: bool,
    when: string,
    questionId: string)

  /** Why the handler answers 500. */
  datatype Failure =
    | SpeakerNotFound            // lookup error or no row: the handler's own error
    | MissingValue               // a TypeError: a null `telegram_id`, or `escapeHtml(undefined)`
    | TelegramError(message: string)

  datatype Response = Delivered | Failed(failure: Failure)

  /** What the gateway answered to the one `sendMessage` call. */
  datatype GatewayReply = GatewayReply(ok: bool, description: Option<string>)

  const SpeakerNotFoundMessage: string := "Не удалось найти спикера"
  const DefaultTelegramMessage: string := "Ошибка Telegram API"
  const AnswerLabel: string := "Ответить"
  const AnonymousLine: string := "🤫 <b>От:</b> Аноним"
  const ToOpen: string := "📨 <b>Новый вопрос спикеру:</b> <i>"
  const ToClose: string := "</i>"
  const FromOpen: string := "🙋 <b>От:</b> "
  const UserOpen: string := " (<code>@"
  const UserClose: string := "</code>)"
  const WhenOpen: string := "🕒 <b>Когда:</b> "
  const TextOpen: string := "💬 <b>Вопрос:</b>\n"
  const Blank: string := "\n\n"

  /** The text of the `{error}` body of a 500 answer; a TypeError's message is
      the JavaScript engine's and is not modelled. */
  function ErrorMessage(f: Failure): (r: Option<string>)
    ensures r.None? <==> f.MissingValue?
    ensures f.SpeakerNotFound? ==> r == Some(SpeakerNotFoundMessage)
    ensures f.TelegramError? ==> r == Some(f.message)
  {
    match f
    case SpeakerNotFound => Some(SpeakerNotFoundMessage)
    case MissingValue => None
    case TelegramError(m) => Some(m)
  }

  /** The chat id of a speaker: trimmed, then one leading `@` dropped. */
  function NormalizeChatId(telegramId: string): string {
    var t := Trim(telegramId);
    if "@" <= t then t[1..] else t
  }

  function LineTo(speakerName: string): string {
    ToOpen + EscapeHtml(speakerName) + ToClose
  }

  /** The sender line, or None where `escapeHtml(asker_name)` would throw. */
  function LineFrom(isAnonymous: bool, askerName: Option<string>, askerUsername: Option<string>): Option<string> {
    if isAnonymous then Some(AnonymousLine)
    else if askerName.None? then None
    else Some(FromOpen + EscapeHtml(askerName.value) + UserPart(askerUsername))
  }

  /** ` (<code>@username</code>)` when the username is truthy, else nothing. */
  function UserPart(username: Option<string>): string {
    if Truthy(username) then UserOpen + EscapeHtml(username.value) + UserClose else ""
  }

  function LineWhen(when: string): string {
    WhenOpen + when
  }

  function LineText(text: string): string {
    TextOpen + EscapeHtml(text)
  }

  /** The four lines joined by blank lines, or None where composing throws. */
  function Compose(speakerName: string, req: Request): Option<string> {
    var from := LineFrom(req.isAnonymous, req.askerName, req.askerUsername);
    if from.None? || req.text.None? then None
    else Some(Join([LineTo(speakerName), from.value, LineWhen(req.when), LineText(req.text.value)], Blank))
  }

  /** One row with one button whose data is `answer:<question_id>`. */
  function Keyboard(questionId: string): seq<seq<Button>> {
    [[Button(AnswerLabel, Payload.Encode(questionId))]]
  }

  /** The handler.  `lookupFails` is an error from the `speakers` query; `reply`
      is what the gateway answers to the send, when there is one.  `sent` is the
      one gateway call, if it is made. */
  method NotifySpeaker(speakers: map<string, Speaker>, lookupFails: bool, req: Request, reply: GatewayReply)
    returns (sent: Option<Outgoing>, response: Response)
    ensures lookupFails || req.speakerId !in speakers ==> sent == None && response == Failed(SpeakerNotFound)
    ensures !lookupFails && req.speakerId in speakers ==>
      var speaker := speakers[req.speakerId];
      var html := Compose(speaker.name, req);
      if speaker.telegramId.None? || html.None? then
        sent == None && response == Failed(MissingValue)
      else
        sent == Some(SendMessage(NormalizeChatId(speaker.telegramId.value), html.value, Some(Keyboard(req.questionId))))
    ensures sent.Some? ==> response == if reply.ok then Delivered
      else Failed(TelegramError(if Truthy(reply.description) then reply.description.value else DefaultTelegramMessage))
  {
    if lookupFails || req.speakerId !in speakers {
      return None, Failed(SpeakerNotFound);
    }
    var speaker := speakers[req.speakerId];
    if speaker.telegramId.None? {
      return None, Failed(MissingValue);
    }
    var chatId := Trim(speaker.telegramId.value);
    if "@" <= chatId {
      chatId := chatId[1..];
    }
    var html := Compose(speaker.name, req);
    if html.None? {
      return None, Failed(MissingValue);
    }
    sent := Some(SendMessage(chatId, html.value, Some(Keyboard(req.questionId))));
    if !reply.ok {
      var message := if Truthy(reply.description) then reply.description.value else DefaultTelegramMessage;
      response := Failed(TelegramError(message));
    } else {
      response := Delivered;
    }
  }

  /** Exactly one leading `@` is removed from the trimmed id, and nothing else changes. */
  lemma ChatIdStripsOneAt(telegramId: string)
    ensures var t, r := Trim(telegramId), NormalizeChatId(telegramId);
      && (if "@" <= t then t == "@" + r else t == r)
      && |t| - |r| <= 1
  {
  }

  /** On an id without surrounding spaces only a leading `@` is dropped. */
  lemma ChatIdOfTrimmed(t: string)
    requires t != [] && !IsSpace(t[0]) && !IsSpace(t[|t| - 1])
    ensures NormalizeChatId(t) == if t[0] == '@' then t[1..] else t
  {
    TrimOfTrimmed(t);
  }

  /** Composing fails exactly when the text is missing, or the asker's name is
      missing on a question that is not anonymous. */
  lemma ComposeFails(speakerName: string, req: Request)
    ensures Compose(speakerName, req).None? <==> req.text.None? || (!req.isAnonymous && req.askerName.None?)
  {
  }

  /** The message is the recipient, sender, date and question lines, in that
      order, separated by blank lines. */
  lemma MessageLayout(speakerName: string, req: Request)
    requires Compose(speakerName, req).Some?
    ensures Compose(speakerName, req).value ==
      LineTo(speakerName) + Blank + LineFrom(req.isAnonymous, req.askerName, req.askerUsername).value
      + Blank + LineWhen(req.when) + Blank + LineText(req.text.value)
  {
    var a, b, c, d := LineTo(speakerName), LineFrom(req.isAnonymous, req.askerName, req.askerUsername).value,
      LineWhen(req.when), LineText(req.text.value);
    JoinFour(a, b, c, d, Blank);
  }

  /** An anonymous question's sender line, and so its message, does not depend
      on the asker's name or username. */
  lemma AnonymousHidesAsker(speakerName: string, req: Request, name: Option<string>, username: Option<string>)
    requires req.isAnonymous
    ensures LineFrom(true, req.askerName, req.askerUsername) == Some(AnonymousLine)
    ensures Compose(speakerName, req) == Compose(speakerName, req.(askerName := name, askerUsername := username))
  {
  }

  /** The username part appears exactly when the username is truthy. */
  lemma SenderLine(name: string, username: Option<string>)
    ensures var line := LineFrom(false, Some(name), username).value;
      && FromOpen + EscapeHtml(name) <= line
      && (Truthy(username) <==> |line| > |FromOpen + EscapeHtml(name)|)
      && (Truthy(username) ==> line[|FromOpen + EscapeHtml(name)|..] == UserOpen + EscapeHtml(username.value) + UserClose)
  {
  }

  /** The tags of the message come from the template alone: two messages for
      the same anonymity, the same presence of a username and the same date
      line have the same `<` and `>`, whatever names and texts they carry. */
  lemma MarkupIndependentOfContent(name1: string, req1: Request, name2: string, req2: Request)
    requires Compose(name1, req1).Some? && Compose(name2, req2).Some?
    requires req1.isAnonymous == req2.isAnonymous && req1.when == req2.when
    requires Truthy(req1.askerUsername) == Truthy(req2.askerUsername)
    ensures Markup(Compose(name1, req1).value) == Markup(Compose(name2, req2).value)
  {
    var from1 := LineFrom(req1.isAnonymous, req1.askerName, req1.askerUsername).value;
    var from2 := LineFrom(req2.isAnonymous, req2.askerName, req2.askerUsername).value;
    LineToMarkup(name1, name2);
    LineTextMarkup(req1.text.value, req2.text.value);
    LineFromMarkup(req1, req2);
    MarkupJoinFourSame(LineTo(name1), from1, LineWhen(req1.when), LineText(req1.text.value),
                       LineTo(name2), from2, LineWhen(req2.when), LineText(req2.text.value), Blank);
  }

  /** The recipient line has the same tags whatever the speaker's name. */
  lemma LineToMarkup(name1: string, name2: string)
    ensures Markup(LineTo(name1)) == Markup(LineTo(name2))
  {
    MarkupOfEscaped(name1);
    MarkupOfEscaped(name2);
    MarkupCongruent(ToOpen, EscapeHtml(name1), EscapeHtml(name2), ToClose, ToClose);
  }

  /** The question line has the same tags whatever the question. */
  lemma LineTextMarkup(text1: string, text2: string)
    ensures Markup(LineText(text1)) == Markup(LineText(text2))
  {
    MarkupOfEscaped(text1);
    MarkupOfEscaped(text2);
    MarkupCongruent(TextOpen, EscapeHtml(text1), EscapeHtml(text2), [], []);
    assert TextOpen + EscapeHtml(text1) + [] == LineText(text1);
    assert TextOpen + EscapeHtml(text2) + [] == LineText(text2);
  }

  /** The sender line has the same tags for the same anonymity and the same
      presence of a username, whatever the name and username. */
  lemma LineFromMarkup(req1: Request, req2: Request)
    requires LineFrom(req1.isAnonymous, req1.askerName, req1.askerUsername).Some?
    requires LineFrom(req2.isAnonymous, req2.askerName, req2.askerUsername).Some?
    requires req1.isAnonymous == req2.isAnonymous && Truthy(req1.askerUsername) == Truthy(req2.askerUsername)
    ensures Markup(LineFrom(req1.isAnonymous, req1.askerName, req1.askerUsername).value)
         == Markup(LineFrom(req2.isAnonymous, req2.askerName, req2.askerUsername).value)
  {
    if !req1.isAnonymous {
      var u1, u2 := req1.askerUsername, req2.askerUsername;
      assert Markup(UserPart(u1)) == Markup(UserPart(u2)) by {
        if Truthy(u1) {
          MarkupOfEscaped(u1.value);
          MarkupOfEscaped(u2.value);
          MarkupCongruent(UserOpen, EscapeHtml(u1.value), EscapeHtml(u2.value), UserClose, UserClose);
        }
      }
      MarkupOfEscaped(req1.askerName.value);
      MarkupOfEscaped(req2.askerName.value);
      MarkupCongruent(FromOpen, EscapeHtml(req1.askerName.value), EscapeHtml(req2.askerName.value), UserPart(u1), UserPart(u2));
    }
  }

  /** The keyboard is one row with one "answer" button whose data is
      `answer:<question_id>`, whatever the id. */
  lemma KeyboardShape(questionId: string)
    ensures |Keyboard(questionId)| == 1 && |Keyboard(questionId)[0]| == 1
    ensures Keyboard(questionId)[0][0].text == AnswerLabel
    ensures Keyboard(questionId)[0][0].callbackData == Payload.Encode(questionId)
  {
  }

  /** The button carries the question id back to the dispatcher intact
      whenever the id holds no colon. */
  lemma KeyboardRoundTrip(questionId: string)
    requires ':' !in questionId
    ensures Payload.Decode(Some(Keyboard(questionId)[0][0].callbackData)) == Some(questionId)
  {
    Payload.RoundTrip(questionId);
  }
}
