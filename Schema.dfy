/** The rows of the three tables the relay uses, with the columns it reads or
    writes, and the calls it makes to the Telegram Bot API. */
module Schema {
  import opened Strings

  /** A row of `participants`, keyed by `telegram_id`, the decimal form of a
      Telegram user id.  `pending_question_id` is the relay's per-participant state. */
  datatype Participant = Participant(
    pendingQuestionId: Option<string>,
    username: Option<string>,
    fullName: Option<string>)

  /** A row of `questions`, keyed by `id`. */
  datatype Question = Question(
    text: string,
    authorTelegramId: Option<string>,
    speakerId: Option<string>,
    answerText: Option<string>,
    answeredAt: Option<string>,
    isAnswered: Option<bool>)

  /** A row of `speakers`, keyed by `id`.  `telegram_id` may carry a leading `@`. */
  datatype Speaker = Speaker(name: string, telegramId: Option<string>)

  /** An inline-keyboard button: its label and the `callback_data` it sends back. */
  datatype Button = Button(text: string, callbackData: string)

  /** One call to the Telegram Bot API. */
  datatype Outgoing =
    | SendMessage(chatId: string, text: string, keyboard: Option<seq<seq<Button>>>)
    | AnswerCallbackQuery(callbackQueryId: string, text: string)
}
