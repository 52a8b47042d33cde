/** The `register_user` edge function: the bot's webhook.  It keeps each
    participant's `pending_question_id`, the one-slot mailbox of the answer
    hand-shake: a press of "answer" fills it, the sender's next text message is
    recorded as the answer and empties it, and `/start` refreshes the profile. */
module Dispatcher {
  import opened Strings
  import opened Html
  import opened Schema
  import Payload

  /** The parts of a Telegram update the handler reads. */
  datatype User = User(id: nat, username: Option<string>, firstName: Option<string>, lastName: Option<string>)
  datatype CallbackQuery = CallbackQuery(id: string, data: Option<string>, from: User)
  datatype Message = Message(text: Option<string>, from: Option<User>)
  datatype Update = Update(callbackQuery: Option<CallbackQuery>, message: Option<Message>)

  /** The `status` of the JSON answer; `Error` is the 500 answer of the catch block. */
  datatype Status = Ok(telegramId: nat) | Ignored | CallbackProcessed | AnswerProcessed | Error

  /** The store calls whose failure the model distinguishes. */
  datatype Site = PointerUpsert | ParticipantSelect | QuestionSelect | AnswerUpdate | PointerClear | ProfileUpsert

  /** What the handler takes from outside: `now` is `new Date().toISOString()`,
      `localTime` the Moscow date and time of the answer, `failing` the store
      calls that return an error. */
  datatype Env = Env(now: string, localTime: string, failing: set<Site>)

  /** A write the handler issues to the store, whether or not it succeeds. */
  datatype Write =
    | SetPending(telegramId: string, questionId: string)
    | RecordAnswer(questionId: string, answerText: string, answeredAt: string)
    | ClearPending(telegramId: string)
    | SetProfile(telegramId: string, username: Option<string>, fullName: Option<string>)

  /** The three tables. */
  datatype Db = Db(
    participants: map<string, Participant>,
    questions: map<string, Question>,
    speakers: map<string, Speaker>)

  /** The effect of one update: the new tables, the gateway calls and store
      writes it makes, in order, and the answer. */
  datatype Outcome = Outcome(db: Db, sends: seq<Outgoing>, writes: seq<Write>, status: Status)

  const InstructionText: string := "📝 Напишите свой ответ в одном сообщении."
  const CallbackAckText: string := "Напишите ваш ответ в следующем сообщении"
  const ConfirmationText: string := "✅ Ваш ответ отправлен автору вопроса!"
  const StartCommand: string := "/start"
  const NoticeOpen: string := "✉️ <b>Ответ на ваш вопрос:</b> <i>"
  const NoticeClose: string := "</i>"
  const NoticeFrom: string := "👤 <b>От:</b> "
  const NoticeTime: string := "🕒 <b>Время:</b> "
  const NoticeAnswer: string := "📩 <b>Ответ:</b> "

  /** The `participants` key of a Telegram user: `from.id.toString()`.  The key
      spells the id, so two users never share a row. */
  function Key(id: nat): (r: string)
    ensures DigitsValue(r) == id
  {
    Decimal(id)
  }

  /** `from.username || null`: an empty username is stored as null. */
  function Username(u: User): (r: Option<string>)
    ensures r.Some? <==> Truthy(u.username)
    ensures r.Some? ==> r == u.username && r.value != []
  {
    if Truthy(u.username) then u.username else None
  }

  /** `[first_name, last_name].filter(Boolean).join(' ') || null`. */
  function FullName(u: User): Option<string> {
    var parts := (if Truthy(u.firstName) then [u.firstName.value] else [])
               + (if Truthy(u.lastName) then [u.lastName.value] else []);
    var joined := Join(parts, " ");
    if joined == [] then None else Some(joined)
  }

  /** The greeting sent after `/start`: its six lines joined by newlines, with
      `full_name` inserted as it is. */
  function WelcomeText(fullName: Option<string>): string {
    WelcomeOpen + (if fullName.Some? then fullName.value else "друг") + WelcomeClose
  }

  const WelcomeOpen: string := "👋 Привет, "

  const WelcomeClose: string :=
    "!\n\nЭто бот конференции SecretPointConf2025.\nНажмите на кнопку «Меню мероприятия» внизу, "
    + "чтобы получить расписание, проголосовать за доклады или задать вопрос спикеру.\n\n"
    + "Если что-то не понятно — пишите сюда в чат, я помогу!"

  /** The message that tells the asker their question was answered. */
  function AnswerNotice(questionText: string, speakerName: string, localTime: string, answer: string): string {
    Join([NoticeOpen + EscapeHtml(questionText) + NoticeClose, "",
          NoticeFrom + EscapeHtml(speakerName),
          NoticeTime + localTime,
          NoticeAnswer + EscapeHtml(answer)], "\n")
  }

  /** The upsert on `telegram_id` that sets only `pending_question_id`. */
  function UpsertPending(ps: map<string, Participant>, key: string, questionId: string): (r: map<string, Participant>)
    ensures r.Keys == ps.Keys + {key}
    ensures r[key].pendingQuestionId == Some(questionId)
    ensures key in ps ==> r[key].username == ps[key].username && r[key].fullName == ps[key].fullName
    ensures key !in ps ==> r[key].username == None && r[key].fullName == None
    ensures forall k :: k in ps && k != key ==> r[k] == ps[k]
  {
    if key in ps then ps[key := ps[key].(pendingQuestionId := Some(questionId))]
    else ps[key := Participant(Some(questionId), None, None)]
  }

  /** The upsert on `telegram_id` that sets only `username` and `full_name`. */
  function UpsertProfile(ps: map<string, Participant>, key: string, username: Option<string>, fullName: Option<string>)
    : (r: map<string, Participant>)
    ensures r.Keys == ps.Keys + {key}
    ensures r[key].username == username && r[key].fullName == fullName
    ensures r[key].pendingQuestionId == if key in ps then ps[key].pendingQuestionId else None
    ensures forall k :: k in ps && k != key ==> r[k] == ps[k]
  {
    if key in ps then ps[key := ps[key].(username := username, fullName := fullName)]
    else ps[key := Participant(None, username, fullName)]
  }

  /** The pending question of `key`, when its pointer is truthy and the query succeeds. */
  function Pending(db: Db, key: string, env: Env): Option<string> {
    if ParticipantSelect !in env.failing && key in db.participants
       && Truthy(db.participants[key].pendingQuestionId)
    then db.participants[key].pendingQuestionId
    else None
  }

  /** The `questions` query joined with `speakers!inner`: it yields a row only
      when the question exists and its speaker does too. */
  predicate Resolves(db: Db, questionId: string, env: Env) {
    && QuestionSelect !in env.failing
    && questionId in db.questions
    && db.questions[questionId].speakerId.Some?
    && db.questions[questionId].speakerId.value in db.speakers
  }

  function Answered(q: Question, answer: string, at: string): Question {
    q.(answerText := Some(answer), answeredAt := Some(at), isAnswered := Some(true))
  }

  /** A press of an `answer:` button. */
  function PressStep(db: Db, cb: CallbackQuery, questionId: string, env: Env): Outcome {
    var key := Key(cb.from.id);
    var ps := if PointerUpsert in env.failing then db.participants else UpsertPending(db.participants, key, questionId);
    Outcome(db.(participants := ps),
            [SendMessage(key, InstructionText, None), AnswerCallbackQuery(cb.id, CallbackAckText)],
            [SetPending(key, questionId)],
            CallbackProcessed)
  }

  /** A text message taken as an answer, or None when it is not one and the
      handler goes on to the `/start` check. */
  function AnswerStep(db: Db, m: Message, answer: string, env: Env): Option<Outcome> {
    if m.from.None? then Some(Outcome(db, [], [], Error))
    else
      var key := Key(m.from.value.id);
      var pending := Pending(db, key, env);
      if pending.None? || !Resolves(db, pending.value, env) then None
      else
        var qid := pending.value;
        var q := db.questions[qid];
        var speaker := db.speakers[q.speakerId.value];
        var qs := if AnswerUpdate in env.failing then db.questions else db.questions[qid := Answered(q, answer, env.now)];
        var ps := if PointerClear in env.failing then db.participants
                  else db.participants[key := db.participants[key].(pendingQuestionId := None)];
        var notice := if Truthy(q.authorTelegramId)
                      then [SendMessage(q.authorTelegramId.value, AnswerNotice(q.text, speaker.name, env.localTime, answer), None)]
                      else [];
        Some(Outcome(Db(ps, qs, db.speakers),
                     notice + [SendMessage(key, ConfirmationText, None)],
                     [RecordAnswer(qid, answer, env.now), ClearPending(key)],
                     AnswerProcessed))
  }

  /** The `/start` command; everything else that reaches it is ignored. */
  function StartStep(db: Db, message: Option<Message>, env: Env): Outcome {
    if message.None? || message.value.text != Some(StartCommand) then Outcome(db, [], [], Ignored)
    else if message.value.from.None? then Outcome(db, [], [], Error)
    else
      var user := message.value.from.value;
      var key := Key(user.id);
      var writes := [SetProfile(key, Username(user), FullName(user))];
      if ProfileUpsert in env.failing then Outcome(db, [], writes, Error)
      else Outcome(db.(participants := UpsertProfile(db.participants, key, Username(user), FullName(user))),
                   [SendMessage(key, WelcomeText(FullName(user)), None)],
                   writes,
                   Ok(user.id))
  }

  /** The handler's whole effect on one update, branch by branch as in the source. */
  function Step(db: Db, u: Update, env: Env): Outcome {
    if u.callbackQuery.Some? && Payload.Decode(u.callbackQuery.value.data).Some? then
      PressStep(db, u.callbackQuery.value, Payload.Decode(u.callbackQuery.value.data).value, env)
    else if u.message.Some? && Truthy(u.message.value.text) then
      var answered := AnswerStep(db, u.message.value, u.message.value.text.value, env);
      if answered.Some? then answered.value else StartStep(db, u.message, env)
    else StartStep(db, u.message, env)
  }

  /** The bot's view of the world: the tables it reads and writes, every call
      it has made to the gateway and every write it has issued to the store. */
  class RelayBot {
    var participants: map<string, Participant>
    var questions: map<string, Question>
    var speakers: map<string, Speaker>
    var outbox: seq<Outgoing>
    var issued: seq<Write>

    function State(): Db
      reads this
    {
      Db(participants, questions, speakers)
    }

    constructor (db: Db)
      ensures State() == db && outbox == [] && issued == []
    {
      participants, questions, speakers := db.participants, db.questions, db.speakers;
      outbox, issued := [], [];
    }

    method Send(call: Outgoing)
      modifies this
      ensures outbox == old(outbox) + [call]
      ensures State() == old(State()) && issued == old(issued)
    {
      outbox := outbox + [call];
    }

    method Issue(w: Write)
      modifies this
      ensures issued == old(issued) + [w]
      ensures State() == old(State()) && outbox == old(outbox)
    {
      issued := issued + [w];
    }

    /** Serves one webhook call. */
    method HandleUpdate(u: Update, env: Env) returns (status: Status)
      modifies this
      ensures var o := Step(old(State()), u, env);
        && State() == o.db
        && outbox == old(outbox) + o.sends
        && issued == old(issued) + o.writes
        && status == o.status
    {
      if u.callbackQuery.Some? {
        var cb := u.callbackQuery.value;
        var questionId := Payload.Decode(cb.data);
        if questionId.Some? {
          status := HandlePress(cb, questionId.value, env);
          return;
        }
      }
      if u.message.Some? && Truthy(u.message.value.text) {
        var done;
        done, status := HandleAnswer(u.message.value, u.message.value.text.value, env);
        if done {
          return;
        }
      }
      status := HandleStart(u.message, env);
    }

    method HandlePress(cb: CallbackQuery, questionId: string, env: Env) returns (status: Status)
      modifies this
      ensures var o := PressStep(old(State()), cb, questionId, env);
        && State() == o.db
        && outbox == old(outbox) + o.sends
        && issued == old(issued) + o.writes
        && status == o.status
    {
      var key := Key(cb.from.id);
      Issue(SetPending(key, questionId));
      if PointerUpsert !in env.failing {
        participants := UpsertPending(participants, key, questionId);
      }
      Send(SendMessage(key, InstructionText, None));
      Send(AnswerCallbackQuery(cb.id, CallbackAckText));
      status := CallbackProcessed;
    }

    /** `done` is false when the message is not an answer and the `/start`
        check comes next. */
    method HandleAnswer(m: Message, answer: string, env: Env) returns (done: bool, status: Status)
      modifies this
      ensures var o := AnswerStep(old(State()), m, answer, env);
        && done == o.Some?
        && (if done then
              State() == o.value.db && outbox == old(outbox) + o.value.sends
              && issued == old(issued) + o.value.writes && status == o.value.status
            else
              State() == old(State()) && outbox == old(outbox) && issued == old(issued))
    {
      if m.from.None? {
        return true, Error;
      }
      var key := Key(m.from.value.id);
      var pending := Pending(State(), key, env);
      if pending.None? || !Resolves(State(), pending.value, env) {
        return false, Ignored;
      }
      var qid := pending.value;
      var q := questions[qid];
      var speaker := speakers[q.speakerId.value];
      Issue(RecordAnswer(qid, answer, env.now));
      if AnswerUpdate !in env.failing {
        questions := questions[qid := Answered(q, answer, env.now)];
      }
      Issue(ClearPending(key));
      if PointerClear !in env.failing {
        participants := participants[key := participants[key].(pendingQuestionId := None)];
      }
      if Truthy(q.authorTelegramId) {
        Send(SendMessage(q.authorTelegramId.value, AnswerNotice(q.text, speaker.name, env.localTime, answer), None));
      }
      Send(SendMessage(key, ConfirmationText, None));
      return true, AnswerProcessed;
    }

    method HandleStart(message: Option<Message>, env: Env) returns (status: Status)
      modifies this
      ensures var o := StartStep(old(State()), message, env);
        && State() == o.db
        && outbox == old(outbox) + o.sends
        && issued == old(issued) + o.writes
        && status == o.status
    {
      if message.None? || message.value.text != Some(StartCommand) {
        return Ignored;
      }
      if message.value.from.None? {
        return Error;
      }
      var user := message.value.from.value;
      var key := Key(user.id);
      var username, fullName := Username(user), FullName(user);
      Issue(SetProfile(key, username, fullName));
      if ProfileUpsert in env.failing {
        return Error;
      }
      participants := UpsertProfile(participants, key, username, fullName);
      Send(SendMessage(key, WelcomeText(fullName), None));
      status := Ok(user.id);
    }
  }

  // ---------------------------------------------------------------------
  // Properties of one update and of short sequences of updates.

  /** The update is a press of an `answer:` button. */
  predicate IsPress(u: Update) {
    u.callbackQuery.Some? && Payload.Decode(u.callbackQuery.value.data).Some?
  }

  /** `m[k]` is the same in both maps, present or absent. */
  predicate SameRow<V(==)>(m1: map<string, V>, m2: map<string, V>, k: string) {
    (k in m1 <==> k in m2) && (k in m1 ==> m1[k] == m2[k])
  }

  /** The update is a text message from `user` and not a button press. */
  predicate IsTextFrom(u: Update, user: User) {
    && !IsPress(u)
    && u.message.Some? && Truthy(u.message.value.text)
    && u.message.value.from == Some(user)
  }

  /** An `answer:` press points the presser's row, keyed by the decimal user id,
      at the id decoded from the button; it touches no question, and it reports
      success even when the upsert fails, because that error is only logged. */
  lemma PressSetsPointer(db: Db, u: Update, env: Env)
    requires IsPress(u)
    ensures var cb := u.callbackQuery.value;
      var key, qid, o := Key(cb.from.id), Payload.Decode(cb.data).value, Step(db, u, env);
      && o.status == CallbackProcessed
      && o.db.questions == db.questions && o.db.speakers == db.speakers
      && o.writes == [SetPending(key, qid)]
      && o.sends == [SendMessage(key, InstructionText, None), AnswerCallbackQuery(cb.id, CallbackAckText)]
      && (PointerUpsert in env.failing ==> o.db == db)
      && (PointerUpsert !in env.failing ==>
            && key in o.db.participants
            && o.db.participants[key].pendingQuestionId == Some(qid)
            && (key in db.participants ==> o.db.participants[key] == db.participants[key].(pendingQuestionId := Some(qid)))
            && (key !in db.participants ==> o.db.participants[key] == Participant(Some(qid), None, None))
            && forall k :: k != key ==> SameRow(db.participants, o.db.participants, k))
  {
  }

  /** Two presses by the same user with no message between them leave the
      pointer at the second question. */
  lemma LastWriteWins(db: Db, cb1: CallbackQuery, cb2: CallbackQuery, env1: Env, env2: Env)
    requires cb1.from.id == cb2.from.id
    requires Payload.Decode(cb1.data).Some? && Payload.Decode(cb2.data).Some?
    requires PointerUpsert !in env2.failing
    ensures var mid := Step(db, Update(Some(cb1), None), env1).db;
      var last := Step(mid, Update(Some(cb2), None), env2).db;
      Key(cb2.from.id) in last.participants
      && last.participants[Key(cb2.from.id)].pendingQuestionId == Payload.Decode(cb2.data)
  {
    PressSetsPointer(Step(db, Update(Some(cb1), None), env1).db, Update(Some(cb2), None), env2);
  }

  /** A callback that is not an `answer:` press, in an update without a message,
      changes nothing, sends nothing and is ignored. */
  lemma OtherCallbacksIgnored(db: Db, cb: CallbackQuery, env: Env)
    requires Payload.Decode(cb.data).None?
    ensures Step(db, Update(Some(cb), None), env) == Outcome(db, [], [], Ignored)
  {
  }

  /** A text message from a sender without a row, or with a null or empty
      pointer, records no answer and notifies no asker; unless it is `/start`
      it changes nothing and is ignored. */
  lemma NoPendingNoAnswer(db: Db, u: Update, user: User, env: Env)
    requires IsTextFrom(u, user)
    requires Key(user.id) !in db.participants || !Truthy(db.participants[Key(user.id)].pendingQuestionId)
    ensures var o := Step(db, u, env);
      && o.db.questions == db.questions
      && (o.sends == [] || o.sends == [SendMessage(Key(user.id), WelcomeText(FullName(user)), None)])
      && (u.message.value.text != Some(StartCommand) ==> o == Outcome(db, [], [], Ignored))
  {
  }

  /** A text message from a sender whose pointer names a question that resolves
      together with its speaker is recorded as that question's answer: the answer
      write is issued before the clearing of the pointer, and neither's failure
      stops the other or the reply `answer_processed`. */
  lemma AnswerRecorded(db: Db, u: Update, user: User, env: Env)
    requires IsTextFrom(u, user)
    requires Pending(db, Key(user.id), env).Some?
    requires Resolves(db, Pending(db, Key(user.id), env).value, env)
    ensures var key, qid, text := Key(user.id), Pending(db, Key(user.id), env).value, u.message.value.text.value;
      var o := Step(db, u, env);
      && o.status == AnswerProcessed
      && o.writes == [RecordAnswer(qid, text, env.now), ClearPending(key)]
      && o.db.speakers == db.speakers
      && o.db.questions == (if AnswerUpdate in env.failing then db.questions
                            else db.questions[qid := Answered(db.questions[qid], text, env.now)])
      && o.db.participants == (if PointerClear in env.failing then db.participants
                               else db.participants[key := db.participants[key].(pendingQuestionId := None)])
  {
  }

  /** The asker is messaged exactly when the question records a truthy
      `author_telegram_id`, at that id, with the escaped question, speaker name
      and answer; the speaker's confirmation always follows.  Nothing depends on
      whether the store writes succeeded. */
  lemma WhoGetsNotified(db: Db, u: Update, user: User, env: Env)
    requires IsTextFrom(u, user)
    requires Pending(db, Key(user.id), env).Some?
    requires Resolves(db, Pending(db, Key(user.id), env).value, env)
    ensures var q := db.questions[Pending(db, Key(user.id), env).value];
      var name := db.speakers[q.speakerId.value].name;
      var notice := AnswerNotice(q.text, name, env.localTime, u.message.value.text.value);
      Step(db, u, env).sends ==
        (if Truthy(q.authorTelegramId) then [SendMessage(q.authorTelegramId.value, notice, None)] else [])
        + [SendMessage(Key(user.id), ConfirmationText, None)]
  {
  }

  /** Once the pointer is cleared, a further message from the same sender
      records nothing: each press yields at most one answer. */
  lemma SecondMessageNotAnswer(db: Db, u1: Update, u2: Update, user: User, env1: Env, env2: Env)
    requires IsTextFrom(u1, user) && IsTextFrom(u2, user)
    requires Pending(db, Key(user.id), env1).Some?
    requires Resolves(db, Pending(db, Key(user.id), env1).value, env1)
    requires PointerClear !in env1.failing
    ensures var mid := Step(db, u1, env1).db;
      Step(mid, u2, env2).db.questions == mid.questions
  {
    AnswerRecorded(db, u1, user, env1);
    NoPendingNoAnswer(Step(db, u1, env1).db, u2, user, env2);
  }

  /** A press for `q1`, then a press for `q2`, then a message: `q2` is answered
      and `q1` is left as it was. */
  lemma OverwriteThenAnswer(db: Db, cb1: CallbackQuery, cb2: CallbackQuery, u: Update, user: User, env: Env)
    requires cb1.from == user && cb2.from == user && IsTextFrom(u, user)
    requires Payload.Decode(cb1.data).Some? && Payload.Decode(cb2.data).Some?
    requires env.failing == {}
    requires Truthy(Payload.Decode(cb2.data)) && Resolves(db, Payload.Decode(cb2.data).value, env)
    ensures var q1, q2 := Payload.Decode(cb1.data).value, Payload.Decode(cb2.data).value;
      var db2 := Step(Step(db, Update(Some(cb1), None), env).db, Update(Some(cb2), None), env).db;
      var last := Step(db2, u, env).db;
      && last.questions[q2] == Answered(db.questions[q2], u.message.value.text.value, env.now)
      && (q1 != q2 && q1 in db.questions ==> last.questions[q1] == db.questions[q1])
  {
    var db1 := Step(db, Update(Some(cb1), None), env).db;
    PressSetsPointer(db, Update(Some(cb1), None), env);
    PressSetsPointer(db1, Update(Some(cb2), None), env);
    var db2 := Step(db1, Update(Some(cb2), None), env).db;
    assert Pending(db2, Key(user.id), env) == Payload.Decode(cb2.data);
    AnswerRecorded(db2, u, user, env);
  }

  /** A pointer that does not resolve (no such question, no speaker row, or a
      failed query) is neither used nor cleared: the message goes on to the
      `/start` check, and no question changes. */
  lemma UnresolvablePending(db: Db, u: Update, user: User, env: Env)
    requires IsTextFrom(u, user)
    requires Pending(db, Key(user.id), env).Some?
    requires !Resolves(db, Pending(db, Key(user.id), env).value, env)
    ensures var o, key := Step(db, u, env), Key(user.id);
      && o == StartStep(db, u.message, env)
      && o.db.questions == db.questions
      && key in o.db.participants
      && o.db.participants[key].pendingQuestionId == db.participants[key].pendingQuestionId
  {
  }

  /** `/start` from a sender with no usable pending question upserts only the
      profile, keeps the pointer, greets the sender and answers `ok`; a failed
      upsert is rethrown and answered with 500. */
  lemma StartRefreshesProfile(db: Db, u: Update, user: User, env: Env)
    requires IsTextFrom(u, user) && u.message.value.text == Some(StartCommand)
    requires Pending(db, Key(user.id), env).None? || !Resolves(db, Pending(db, Key(user.id), env).value, env)
    ensures var o, key := Step(db, u, env), Key(user.id);
      && o.writes == [SetProfile(key, Username(user), FullName(user))]
      && o.db.questions == db.questions && o.db.speakers == db.speakers
      && (ProfileUpsert in env.failing ==> o.status == Error && o.db == db && o.sends == [])
      && (ProfileUpsert !in env.failing ==>
            && o.status == Ok(user.id)
            && o.sends == [SendMessage(key, WelcomeText(FullName(user)), None)]
            && key in o.db.participants
            && o.db.participants[key] == Participant(
                 if key in db.participants then db.participants[key].pendingQuestionId else None,
                 Username(user), FullName(user))
            && forall k :: k != key ==> SameRow(db.participants, o.db.participants, k))
  {
  }

  /** `/start` from a sender whose pending question resolves is taken as the
      answer, because the answer branch runs first. */
  lemma StartTakenAsAnswer(db: Db, u: Update, user: User, env: Env)
    requires IsTextFrom(u, user) && u.message.value.text == Some(StartCommand)
    requires Pending(db, Key(user.id), env).Some?
    requires Resolves(db, Pending(db, Key(user.id), env).value, env)
    requires AnswerUpdate !in env.failing
    ensures var o := Step(db, u, env);
      o.status == AnswerProcessed
      && o.db.questions[Pending(db, Key(user.id), env).value].answerText == Some(StartCommand)
  {
    AnswerRecorded(db, u, user, env);
  }

  /** A question answered before is answered again when its button is pressed
      again: the newer answer replaces the older one. */
  lemma AnswerCanBeReplaced(db: Db, u: Update, user: User, env: Env)
    requires IsTextFrom(u, user)
    requires Pending(db, Key(user.id), env).Some?
    requires Resolves(db, Pending(db, Key(user.id), env).value, env)
    requires db.questions[Pending(db, Key(user.id), env).value].isAnswered == Some(true)
    requires AnswerUpdate !in env.failing
    ensures var qid := Pending(db, Key(user.id), env).value;
      Step(db, u, env).db.questions[qid].answerText == u.message.value.text
  {
    AnswerRecorded(db, u, user, env);
  }

  /** `full_name`: the truthy first and last names joined by a space, null if
      there are none. */
  lemma FullNameCases(u: User)
    ensures FullName(u) ==
      if Truthy(u.firstName) && Truthy(u.lastName) then Some(u.firstName.value + " " + u.lastName.value)
      else if Truthy(u.firstName) then u.firstName
      else if Truthy(u.lastName) then u.lastName
      else None
  {
    if Truthy(u.firstName) && Truthy(u.lastName) {
      var parts := [u.firstName.value, u.lastName.value];
      assert parts[1..] == [u.lastName.value];
      assert Join(parts, " ") == u.firstName.value + " " + u.lastName.value;
      assert Join(parts, " ") != [];
    }
  }

  /** A question marked answered carries its answer text and time. */
  ghost predicate AnswersComplete(db: Db) {
    forall q :: q in db.questions && db.questions[q].isAnswered == Some(true) ==>
      db.questions[q].answerText.Some? && db.questions[q].answeredAt.Some?
  }

  /** The three answer columns are set in one update, so no update breaks
      `AnswersComplete`. */
  lemma StepKeepsAnswersComplete(db: Db, u: Update, env: Env)
    requires AnswersComplete(db)
    ensures AnswersComplete(Step(db, u, env).db)
  {
  }

  /** The text, author and speaker of a question. */
  predicate SameQuestion(a: Question, b: Question) {
    a.text == b.text && a.authorTelegramId == b.authorTelegramId && a.speakerId == b.speakerId
  }

  /** The keys of the users an update comes from. */
  function Senders(u: Update): set<string> {
    (if u.callbackQuery.Some? then {Key(u.callbackQuery.value.from.id)} else {})
    + (if u.message.Some? && u.message.value.from.Some? then {Key(u.message.value.from.value.id)} else {})
  }

  /** What one update can change: speakers never; no row is deleted and no
      question created; a question keeps its text, author and speaker; and only
      the sender's participant row changes. */
  lemma StepFrame(db: Db, u: Update, env: Env)
    ensures var o := Step(db, u, env);
      && o.db.speakers == db.speakers
      && o.db.questions.Keys == db.questions.Keys
      && (forall q :: q in db.questions ==> SameQuestion(o.db.questions[q], db.questions[q]))
      && db.participants.Keys <= o.db.participants.Keys
      && (forall k :: k !in Senders(u) ==> SameRow(db.participants, o.db.participants, k))
  {
    var o := Step(db, u, env);
    if u.callbackQuery.Some? && Payload.Decode(u.callbackQuery.value.data).Some? {
      var cb := u.callbackQuery.value;
      PressFrame(db, cb, Payload.Decode(cb.data).value, env);
      assert Key(cb.from.id) in Senders(u);
    } else if u.message.Some? && Truthy(u.message.value.text) && AnswerStep(db, u.message.value, u.message.value.text.value, env).Some? {
      AnswerFrame(db, u.message.value, u.message.value.text.value, env);
    } else {
      StartFrame(db, u.message, env);
    }
  }

  /** The Telegram ids of the users an update comes from. */
  function SenderIds(u: Update): set<nat> {
    (if u.callbackQuery.Some? then {u.callbackQuery.value.from.id} else {})
    + (if u.message.Some? && u.message.value.from.Some? then {u.message.value.from.value.id} else {})
  }

  /** Because a key spells its user's id, an update leaves the row of every
      Telegram user other than its sender as it was. */
  lemma OtherUsersUntouched(db: Db, u: Update, env: Env, id: nat)
    requires id !in SenderIds(u)
    ensures SameRow(db.participants, Step(db, u, env).db.participants, Key(id))
  {
    StepFrame(db, u, env);
    if Key(id) in Senders(u) {
      if u.callbackQuery.Some? && Key(id) == Key(u.callbackQuery.value.from.id) {
        DecimalInjective(id, u.callbackQuery.value.from.id);
      } else {
        DecimalInjective(id, u.message.value.from.value.id);
      }
    }
  }

  /** `after` differs from `db` only as `StepFrame` allows, with `sender` the
      only participant whose row may change. */
  ghost predicate Framed(db: Db, after: Db, sender: Option<string>) {
    && after.speakers == db.speakers
    && after.questions.Keys == db.questions.Keys
    && (forall q :: q in db.questions ==> SameQuestion(after.questions[q], db.questions[q]))
    && db.participants.Keys <= after.participants.Keys
    && (forall k :: Some(k) != sender ==> SameRow(db.participants, after.participants, k))
  }

  lemma PressFrame(db: Db, cb: CallbackQuery, questionId: string, env: Env)
    ensures Framed(db, PressStep(db, cb, questionId, env).db, Some(Key(cb.from.id)))
  {
  }

  lemma AnswerFrame(db: Db, m: Message, answer: string, env: Env)
    requires AnswerStep(db, m, answer, env).Some?
    ensures Framed(db, AnswerStep(db, m, answer, env).value.db, if m.from.Some? then Some(Key(m.from.value.id)) else None)
  {
  }

  lemma StartFrame(db: Db, message: Option<Message>, env: Env)
    ensures Framed(db, StartStep(db, message, env).db,
                   if message.Some? && message.value.from.Some? then Some(Key(message.value.from.value.id)) else None)
  {
  }

  /** The end-to-end example: question `q1` of asker `u1` to speaker `s1`; the
      speaker, Telegram user 42, presses its button and then writes "3pm". */
  lemma EndToEnd(env: Env)
    requires env.failing == {}
    ensures var q1 := Question("What time?", Some("u1"), Some("s1"), None, None, Some(false));
      var db := Db(map[], map["q1" := q1], map["s1" := Speaker("Speaker", Some("@jdoe"))]);
      var speaker := User(42, None, None, None);
      var press := Update(Some(CallbackQuery("cb", Some(Payload.Encode("q1")), speaker)), None);
      var reply := Update(None, Some(Message(Some("3pm"), Some(speaker))));
      var o1 := Step(db, press, env);
      var o2 := Step(o1.db, reply, env);
      && o1.db.participants[Key(42)].pendingQuestionId == Some("q1")
      && o2.db.questions["q1"] == Answered(q1, "3pm", env.now)
      && o2.db.participants[Key(42)].pendingQuestionId == None
      && o2.sends[0] == SendMessage("u1", AnswerNotice("What time?", "Speaker", env.localTime, "3pm"), None)
  {
    var q1 := Question("What time?", Some("u1"), Some("s1"), None, None, Some(false));
    var db := Db(map[], map["q1" := q1], map["s1" := Speaker("Speaker", Some("@jdoe"))]);
    var speaker := User(42, None, None, None);
    var press := Update(Some(CallbackQuery("cb", Some(Payload.Encode("q1")), speaker)), None);
    var reply := Update(None, Some(Message(Some("3pm"), Some(speaker))));
    Payload.RoundTrip("q1");
    PressSetsPointer(db, press, env);
    var db1 := Step(db, press, env).db;
    AnswerRecorded(db1, reply, speaker, env);
    WhoGetsNotified(db1, reply, speaker, env);
  }

  /** The tags of the notice come from its template: the question, the
      speaker's name and the answer, being escaped, add none. */
  lemma NoticeMarkupFixed(q1: string, s1: string, a1: string, q2: string, s2: string, a2: string, localTime: string)
    ensures Markup(AnswerNotice(q1, s1, localTime, a1)) == Markup(AnswerNotice(q2, s2, localTime, a2))
  {
    var x1, y1, z1, x2, y2, z2 := EscapeHtml(q1), EscapeHtml(s1), EscapeHtml(a1), EscapeHtml(q2), EscapeHtml(s2), EscapeHtml(a2);
    MarkupOfEscaped(q1);
    MarkupOfEscaped(s1);
    MarkupOfEscaped(a1);
    MarkupOfEscaped(q2);
    MarkupOfEscaped(s2);
    MarkupOfEscaped(a2);
    MarkupCongruent(NoticeOpen, x1, x2, NoticeClose, NoticeClose);
    MarkupCongruent(NoticeFrom, y1, y2, [], []);
    MarkupCongruent(NoticeAnswer, z1, z2, [], []);
    assert NoticeFrom + y1 + [] == NoticeFrom + y1 && NoticeFrom + y2 + [] == NoticeFrom + y2;
    assert NoticeAnswer + z1 + [] == NoticeAnswer + z1 && NoticeAnswer + z2 + [] == NoticeAnswer + z2;
    MarkupJoinFiveSame(NoticeOpen + x1 + NoticeClose, "", NoticeFrom + y1, NoticeTime + localTime, NoticeAnswer + z1,
                       NoticeOpen + x2 + NoticeClose, "", NoticeFrom + y2, NoticeTime + localTime, NoticeAnswer + z2, "\n");
  }

  /** Unlike every other text the relay sends, the greeting inserts
      `full_name` without escaping it: two greetings carry the same tags
      exactly when the two names do, so the tags of a name reach the message. */
  lemma WelcomeNameUnescaped(name1: string, name2: string)
    ensures Markup(WelcomeText(Some(name1))) == Markup(WelcomeText(Some(name2))) <==> Markup(name1) == Markup(name2)
  {
    MarkupAroundIff(WelcomeOpen, name1, name2, WelcomeClose);
  }
}
