# Conference relay bot and hotel services page, modelled in Dafny

The conference app lets attendees ask speakers questions, and a Telegram bot relays the answers back. Two edge functions implement the bot:

- **`notify_speaker`** (`Notifier`) tells a speaker about a new question.
  - It looks up the speaker and normalises their chat id: trimmed, with one leading `@` removed.
  - It composes a four-part HTML message: recipient, sender (or "anonymous"), date, and question. Every user-supplied field is HTML-escaped.
  - It attaches an "answer" button whose callback data is `answer:<question id>` (`Payload`).
  - It maps the gateway's reply to success or to a 500 error.
- **`register_user`** (`Dispatcher`) is the bot's webhook. Each participant row keeps a `pending_question_id`, a one-slot mailbox for the answer handshake:
  - a press of an `answer:` button stores the decoded question id there;
  - the presser's next text message is recorded as that question's answer, the asker is notified, and the slot is cleared;
  - `/start` upserts the user's profile and sends a greeting;
  - every other update is ignored.

  The webhook answers with the status `callback_processed`, `answer_processed`, `ok` or `ignored`, or with a 500 error.

The hotel services page (`HotelServices`) reads the event's `hotel_info` text. It splits the text at each backslash-`n` pair (the two characters, not a newline). It reads each piece with the pattern `^(\p{Emoji}\s*)?(.+?)(:\s*(.*))?$` (with the `u` flag) into an icon, a title and an optional description. A piece the pattern rejects becomes an entry whose title is the whole piece.

Layout:

- `Strings` holds the JavaScript string primitives the code uses: `trim`, `split`, `join`, `replace(/c/g, …)`, and number-to-string. They follow the ECMAScript definitions of white space and line terminator.
- `Html` defines `escapeHtml` once; both functions carry identical copies.
- `Schema` holds the table rows and the gateway calls.

How each part is modelled:

- The webhook is a class `RelayBot`. Its fields are:
  - the three tables, as maps;
  - the log of gateway calls (`outbox`);
  - the log of store writes issued (`issued`).

  `HandleUpdate` and its branch methods are proved equal to the pure function `Step`, and the properties of the handshake are lemmas about `Step`.
- Store failures are modelled by `Env.failing`, the set of store calls that return an error. The clock and the Moscow-time rendering of dates are opaque strings passed in.
- The notifier is a method that changes nothing. It returns the one gateway call it makes and the response.
- The regular expression is modelled in two halves:
  - `Fits` says declaratively which cuts of a line the pattern accepts;
  - `Precedes` is the order in which a backtracking matcher tries them.

  `MatchLine` is proved to return the first accepted cut, or nothing exactly when no cut is accepted.

Behaviour of the code worth noting, which the model keeps:

- A pointer that does not resolve is neither used nor cleared. The resolve fails when the question is absent, its speaker row is absent, or the query fails. The message then goes on to the `/start` check (`UnresolvablePending`).
- A question can be answered more than once. Pressing its button again and writing again replaces the answer (`AnswerCanBeReplaced`).
- `/start` from a user whose pointer resolves is recorded as the answer, because the answer branch runs first (`StartTakenAsAnswer`).
- An error from the pointer upsert on a button press is only logged. The press still reports `callback_processed`.
- The sender line shows the username as ` (<code>@username</code>)`.
- The greeting inserts `full_name` without escaping it, although the message is sent as HTML (`WelcomeNameUnescaped`).
- A line terminator does not always make the pattern fail:
  - `\s` also matches line terminators;
  - so a line terminator can still match inside the `\s*` after a leading emoji, when text follows the emoji's spaces, or inside the `\s*` after the `:`, for the spaces the greedy `\s*` takes;
  - two such cases are proved: an emoji, spaces, then a colon-free title that starts with a non-space (`EmojiBreakTitle`); and a title without a leading emoji, a `:`, then only spaces (`BlankDescription`).
- Digits, `#` and `*` have the Unicode Emoji property, so a line such as `24/7: reception` gets the icon `2`. `ParseUnbrokenLine` covers this through `isEmoji`.

## Model

| member | source | states |
|---|---|---|
| Strings.TrimStart | supabase/functions/notify_speaker/index.ts:47 | the result is a suffix of the input, everything cut off is white space or a line terminator, and the result does not start with one |
| Strings.TrimEnd | supabase/functions/notify_speaker/index.ts:47 | the result is a prefix of the input, everything cut off is space, and the result does not end with a space |
| Strings.TrimOfTrimmed | src/pages/HotelServicesPage.tsx:53-55 | a string that neither starts nor ends with a space is its own trim |
| Strings.TrimAllSpace | src/pages/HotelServicesPage.tsx:53-55 | a string made only of spaces trims to the empty string |
| Strings.TrimSkipsLeadingSpace | src/pages/HotelServicesPage.tsx:53-55 | leading spaces do not change the trim |
| Strings.TrimEndSkipsTrailingSpace | src/pages/HotelServicesPage.tsx:53-55 | trailing spaces do not change `trimEnd` |
| Strings.NoBreakAppend | src/pages/HotelServicesPage.tsx:50 | two strings without line terminators concatenate to one without line terminators |
| Strings.ReplaceAllAppend | supabase/functions/register_user/index.ts:235-241 | a global one-character replacement distributes over concatenation |
| Strings.ReplaceAllOne | supabase/functions/register_user/index.ts:235-241 | on one character, the replacement gives the new text for that character and keeps any other character |
| Strings.ReplaceAllAbsent | supabase/functions/register_user/index.ts:235-241 | replacing a character that does not occur changes nothing |
| Strings.Split | src/pages/HotelServicesPage.tsx:49 | `split` always yields at least one piece, and the first piece is a prefix of the input |
| Strings.JoinSplit | src/pages/HotelServicesPage.tsx:49 | joining the pieces of a split with the separator gives back the original text |
| Strings.JoinCons | src/pages/HotelServicesPage.tsx:49 | a character put in front of the first piece comes out in front of the joined text |
| Strings.JoinFour | supabase/functions/notify_speaker/index.ts:64 | four lines joined with a separator are the lines with the separator between each pair |
| Strings.SplitAbsent | supabase/functions/register_user/index.ts:35 | a text without the separator character splits into itself alone |
| Strings.SplitAtFirst | supabase/functions/register_user/index.ts:35 | splitting at a one-character separator puts the text before its first occurrence in the first piece, and splits the rest the same way |
| Strings.Decimal | supabase/functions/register_user/index.ts:42 | the decimal form of a Telegram user id is non-empty, made of digits, spells the id (`DigitsValue`) and has no leading zero |
| Strings.Digit | supabase/functions/register_user/index.ts:42 | each digit value has the character that many places after `0` |
| Strings.DecimalInjective | supabase/functions/register_user/index.ts:42 | two different ids never have the same decimal form |
| Strings.Trim | supabase/functions/notify_speaker/index.ts:47 | `trim` is `trimEnd` after `trimStart`; what it removes and keeps follows from the contracts of `TrimStart` and `TrimEnd` and from `TrimOfTrimmed`, `TrimAllSpace` and `TrimSkipsLeadingSpace` |
| Strings.ReplaceAll | supabase/functions/notify_speaker/index.ts:111-115 | `replace(/c/g, rep)` with a one-character pattern; characterised by `ReplaceAllAppend`, `ReplaceAllOne` and `ReplaceAllAbsent` |
| Strings.Join | supabase/functions/notify_speaker/index.ts:64 | `Array.prototype.join`; characterised by `JoinSplit`, `JoinCons` and `JoinFour` |
| Html.EscapeHtml | supabase/functions/notify_speaker/index.ts:110-116 | `escapeHtml` (the same body as supabase/functions/register_user/index.ts:235-241): four global replacements, `&` first; `EscapeHtmlIsEscapeEach`, `EscapedHasNoMarkup`, `AmpersandsStartEntities`, `EscapeHtmlIdentity`, `EscapeHtmlKeeps` and `UnescapeEscapeHtml` state what it guarantees |
| Html.EscapeHtmlAppend | supabase/functions/register_user/index.ts:235-241 | escaping distributes over concatenation |
| Html.EscapeHtmlChar | supabase/functions/register_user/index.ts:235-241 | on one character, the four passes, with `&` replaced first, give the one-character reference escape, so no entity is escaped twice |
| Html.EscapeHtmlIsEscapeEach | supabase/functions/notify_speaker/index.ts:110-116 | the four global passes equal the one-pass reference definition that escapes each character on its own |
| Html.EscapedHasNoMarkup | supabase/functions/notify_speaker/index.ts:110-116 | escaped text contains no `<`, `>` or `"` |
| Html.EscapeEachHasNoMarkup | supabase/functions/notify_speaker/index.ts:110-116 | the reference escape contains no `<`, `>` or `"` |
| Html.AmpersandsStartEntities | supabase/functions/notify_speaker/index.ts:110-116 | every `&` of escaped text begins one of the four entities |
| Html.EscapeEachAmpersands | supabase/functions/notify_speaker/index.ts:110-116 | every `&` of the reference escape begins one of the four entities |
| Html.EscapeHtmlIdentity | supabase/functions/notify_speaker/index.ts:110-116 | text without the four special characters passes through unchanged |
| Html.EscapeHtmlKeeps | supabase/functions/notify_speaker/index.ts:110-116 | every other character, the apostrophe included, is kept as it is |
| Html.UnescapeEscapeHtml | supabase/functions/notify_speaker/index.ts:110-116 | decoding the four entities gives back the original text: escaping loses nothing |
| Html.UnescapeEscapeEach | supabase/functions/notify_speaker/index.ts:110-116 | decoding the reference escape gives back the original text |
| Html.UnescapeEscapedChar | supabase/functions/notify_speaker/index.ts:110-116 | decoding consumes the escape of one character, whatever follows it |
| Html.EscapeHtmlInjective | supabase/functions/notify_speaker/index.ts:110-116 | different texts escape to different texts |
| Html.MarkupAppend | supabase/functions/notify_speaker/index.ts:64 | the tag delimiters of a concatenation are those of its parts, in order |
| Html.MarkupAbsent | supabase/functions/notify_speaker/index.ts:64 | text without `<` and `>` has no tag delimiters |
| Html.MarkupOfEscaped | supabase/functions/notify_speaker/index.ts:110-116 | escaped text adds no tag delimiter to a message |
| Html.MarkupCongruent | supabase/functions/notify_speaker/index.ts:51 | swapping one tag-free text for another between the same neighbours keeps the tags |
| Html.MarkupAroundIff | supabase/functions/register_user/index.ts:201-208 | between fixed neighbours, two texts give the same tags exactly when they carry the same tags themselves |
| Html.MarkupJoinSame | supabase/functions/notify_speaker/index.ts:64 | joining pieces that carry the same tags, one for one, gives texts with the same tags |
| Payload.Encode | supabase/functions/notify_speaker/index.ts:72 | the callback data starts with `answer:` and the rest is the question id |
| Payload.Decode | supabase/functions/register_user/index.ts:34-35 | a question id is produced exactly when the data is truthy and starts with `answer:`; the id holds no colon, is a prefix of the text after the prefix, and is followed by a colon when it is shorter than that text |
| Payload.FirstPiece | supabase/functions/register_user/index.ts:35 | the first piece of a one-character split is the colon-free prefix that ends at the first occurrence |
| Payload.RoundTrip | supabase/functions/notify_speaker/index.ts:72 | the button gives back the question id exactly when the id holds no colon (both directions) |
| Payload.RoundTripTruncates | supabase/functions/register_user/index.ts:34-35 | an id with a colon comes back cut at its first colon |
| Notifier.ErrorMessage | supabase/functions/notify_speaker/index.ts:100-106 | the error body of a failed lookup is the handler's own "speaker not found" message, that of a gateway failure the gateway's message; only a TypeError's message is not modelled |
| Notifier.NotifySpeaker | supabase/functions/notify_speaker/index.ts:36-99 | a failed lookup or an absent speaker fails with "speaker not found" and sends nothing; a null `telegram_id`, a missing text or a missing name on a non-anonymous question fails with a TypeError and sends nothing; otherwise exactly one message goes to the normalised chat id, with the composed text and the answer keyboard, and the response is success, or the gateway's description (with a default when it is empty) when the reply is not ok |
| Notifier.NormalizeChatId | supabase/functions/notify_speaker/index.ts:47-48 | the trimmed `telegram_id` with one leading `@` dropped; characterised by `ChatIdStripsOneAt` and `ChatIdOfTrimmed` |
| Notifier.LineTo | supabase/functions/notify_speaker/index.ts:51 | the recipient line around the escaped speaker name; its tags are fixed by `LineToMarkup` |
| Notifier.LineFrom | supabase/functions/notify_speaker/index.ts:52-54 | the anonymous line, or the escaped asker name with the username part; `AnonymousHidesAsker`, `SenderLine` and `ComposeFails` state it |
| Notifier.UserPart | supabase/functions/notify_speaker/index.ts:54 | ` (<code>@username</code>)` with the username escaped, present exactly when the username is truthy (`SenderLine`) |
| Notifier.LineWhen | supabase/functions/notify_speaker/index.ts:57-60 | the date line around the opaque Moscow date and time; `MessageLayout` places it third |
| Notifier.LineText | supabase/functions/notify_speaker/index.ts:62 | the question line around the escaped text; its tags are fixed by `LineTextMarkup` |
| Notifier.Compose | supabase/functions/notify_speaker/index.ts:51-64 | the four lines joined by blank lines, or nothing where escaping `undefined` throws; characterised by `ComposeFails`, `MessageLayout`, `AnonymousHidesAsker` and `MarkupIndependentOfContent` |
| Notifier.Keyboard | supabase/functions/notify_speaker/index.ts:67-76 | one row with one "answer" button carrying `answer:<question_id>`; characterised by `KeyboardRoundTrip` |
| Notifier.ChatIdStripsOneAt | supabase/functions/notify_speaker/index.ts:47-48 | the chat id is the trimmed id with exactly one leading `@` removed when present, and otherwise unchanged |
| Notifier.ChatIdOfTrimmed | supabase/functions/notify_speaker/index.ts:47-48 | a chat id without surrounding spaces only loses a leading `@` |
| Notifier.ComposeFails | supabase/functions/notify_speaker/index.ts:51-64 | composing throws exactly when the text is missing, or the asker's name is missing on a non-anonymous question |
| Notifier.MessageLayout | supabase/functions/notify_speaker/index.ts:51-64 | the message is the recipient, sender, date and question lines in that order, separated by blank lines |
| Notifier.AnonymousHidesAsker | supabase/functions/notify_speaker/index.ts:52-54 | an anonymous question's sender line is fixed, and its message does not depend on the asker's name or username |
| Notifier.SenderLine | supabase/functions/notify_speaker/index.ts:54 | the sender line starts with the escaped name, and is followed exactly when the username is truthy by ` (<code>@`, the escaped username and `</code>)` |
| Notifier.MarkupIndependentOfContent | supabase/functions/notify_speaker/index.ts:51-64 | the HTML tags of the message come from the template alone: names, usernames and texts never add or remove a `<` or `>` |
| Notifier.LineToMarkup | supabase/functions/notify_speaker/index.ts:51 | two recipient lines carry the same tags whatever the speakers' names |
| Notifier.LineTextMarkup | supabase/functions/notify_speaker/index.ts:62 | two question lines carry the same tags whatever the questions |
| Notifier.LineFromMarkup | supabase/functions/notify_speaker/index.ts:52-54 | two sender lines with the same anonymity and the same presence of a username carry the same tags, whatever the names and usernames |
| Notifier.KeyboardShape | supabase/functions/notify_speaker/index.ts:67-76 | for every id, the keyboard is one row with one "answer" button whose data is `answer:` followed by the id |
| Notifier.KeyboardRoundTrip | supabase/functions/notify_speaker/index.ts:72 | when the id holds no colon, the dispatcher decodes the button's data back to that id |
| Dispatcher.RelayBot.constructor | supabase/functions/register_user/index.ts:22-25 | the bot starts on the given tables, having made no gateway call and issued no write |
| Dispatcher.RelayBot.Send | supabase/functions/register_user/index.ts:53-71 | one gateway call is appended to the outbox, and nothing else changes |
| Dispatcher.RelayBot.Issue | supabase/functions/register_user/index.ts:38-46 | one store write is appended to the log, and nothing else changes |
| Dispatcher.RelayBot.HandleUpdate | supabase/functions/register_user/index.ts:28-231 | serving one update leaves exactly the tables, outbox, write log and status that `Step` gives for the old state |
| Dispatcher.RelayBot.HandlePress | supabase/functions/register_user/index.ts:34-77 | a button press issues the pointer upsert, applies it unless it fails, then sends the instruction and the callback acknowledgement, and reports `callback_processed` |
| Dispatcher.RelayBot.HandleAnswer | supabase/functions/register_user/index.ts:81-172 | the answer branch either handles the message as `AnswerStep` says, or, when there is no resolvable pending question, changes nothing and lets `/start` handling follow |
| Dispatcher.RelayBot.HandleStart | supabase/functions/register_user/index.ts:174-224 | `/start` upserts the profile and greets the user, a failed upsert answers 500, and anything else is ignored, as `StartStep` gives |
| Dispatcher.Key | supabase/functions/register_user/index.ts:42 | the `participants` key of a user is the decimal form of their id and spells that id, so two users never share a row |
| Dispatcher.Username | supabase/functions/register_user/index.ts:186 | `from.username \|\| null`: present exactly when the username is truthy, and then the username itself |
| Dispatcher.FullName | supabase/functions/register_user/index.ts:187-189 | the truthy names joined by a space, or null; its four cases are stated by `FullNameCases` |
| Dispatcher.WelcomeText | supabase/functions/register_user/index.ts:201-208 | the greeting with `full_name`, or "друг" when it is null, inserted unescaped; `WelcomeNameUnescaped` states the consequence |
| Dispatcher.AnswerNotice | supabase/functions/register_user/index.ts:136-142 | the notice to the asker with the escaped question, speaker name and answer; its tags are fixed by `NoticeMarkupFixed` |
| Dispatcher.UpsertPending | supabase/functions/register_user/index.ts:38-46 | the upsert on `telegram_id` sets the pointer of that row, creating it with null username and full name when missing, keeps its other columns and leaves every other row as it was |
| Dispatcher.UpsertProfile | supabase/functions/register_user/index.ts:192-197 | the upsert on `telegram_id` sets username and full name of that row, keeps its pointer (null for a new row) and leaves every other row as it was |
| Dispatcher.Resolves | supabase/functions/register_user/index.ts:98-109 | the question query with `speakers!inner` yields a row exactly when it succeeds, the question exists and its speaker row exists; `AnswerRecorded` and `UnresolvablePending` state both outcomes |
| Dispatcher.PressStep | supabase/functions/register_user/index.ts:34-77 | the effect of an `answer:` press; stated by `PressSetsPointer`, `LastWriteWins` and `PressFrame` |
| Dispatcher.AnswerStep | supabase/functions/register_user/index.ts:81-172 | the effect of a message taken as an answer; stated by `AnswerRecorded`, `WhoGetsNotified`, `UnresolvablePending` and `AnswerFrame` |
| Dispatcher.StartStep | supabase/functions/register_user/index.ts:174-224 | the effect of `/start`, and the `ignored` answer to everything else; stated by `StartRefreshesProfile`, `OtherCallbacksIgnored` and `StartFrame` |
| Dispatcher.Step | supabase/functions/register_user/index.ts:28-231 | the handler's whole effect, branch by branch; `HandleUpdate` is proved equal to it, and the `Dispatcher` lemmas below state its properties |
| Dispatcher.OtherUsersUntouched | supabase/functions/register_user/index.ts:28-231 | an update leaves the participant row of every Telegram user other than its sender as it was |
| Dispatcher.PressSetsPointer | supabase/functions/register_user/index.ts:34-77 | a press sets the presser's pointer to the decoded id; it creates the row when missing, keeps the row's other columns and touches no other row and no question; it sends the instruction and the acknowledgement, and reports `callback_processed` even when the upsert fails |
| Dispatcher.LastWriteWins | supabase/functions/register_user/index.ts:38-50 | of two presses by the same user, the second sets the pointer |
| Dispatcher.OtherCallbacksIgnored | supabase/functions/register_user/index.ts:28-35 | a callback that is not an `answer:` press, with no message, changes nothing, sends nothing and is ignored |
| Dispatcher.NoPendingNoAnswer | supabase/functions/register_user/index.ts:88-95 | a message from a sender without a row, or with an empty pointer, records no answer; it sends at most the greeting, and anything but `/start` is ignored with no effect |
| Dispatcher.AnswerRecorded | supabase/functions/register_user/index.ts:94-124 | a message from a sender whose pointer resolves records the text and time of the answer, then clears the pointer; each write applies unless it fails, and the status is `answer_processed` either way |
| Dispatcher.WhoGetsNotified | supabase/functions/register_user/index.ts:126-164 | the asker is messaged exactly when the question has a truthy author id, and then with the notice at that id; the presser's confirmation always follows |
| Dispatcher.SecondMessageNotAnswer | supabase/functions/register_user/index.ts:120-124 | once the pointer is cleared, a further message from the same sender changes no question: one press, at most one answer |
| Dispatcher.OverwriteThenAnswer | supabase/functions/register_user/index.ts:34-124 | after presses for `q1` then `q2`, a message answers `q2` and leaves `q1` as it was |
| Dispatcher.UnresolvablePending | supabase/functions/register_user/index.ts:98-109 | a pointer that does not resolve is not cleared; the message is handled as by the `/start` branch alone and no question changes |
| Dispatcher.StartRefreshesProfile | supabase/functions/register_user/index.ts:183-224 | `/start` without a usable pointer upserts only username and full name, keeps the pointer, greets the user and answers `ok` with their id; a failed upsert answers 500 with no greeting and no change |
| Dispatcher.StartTakenAsAnswer | supabase/functions/register_user/index.ts:81-118 | `/start` from a sender whose pointer resolves is recorded as the answer text |
| Dispatcher.AnswerCanBeReplaced | supabase/functions/register_user/index.ts:111-118 | an already answered question gets the new answer text: nothing guards against re-answering |
| Dispatcher.FullNameCases | supabase/functions/register_user/index.ts:187-189 | the full name is both truthy names joined by a space, or the single truthy name, or null when neither is truthy |
| Dispatcher.StepKeepsAnswersComplete | supabase/functions/register_user/index.ts:111-118 | no update leaves a question marked answered without an answer text and time |
| Dispatcher.StepFrame | supabase/functions/register_user/index.ts:28-231 | an update never changes speakers, never deletes a row or creates a question, never changes a question's text, author or speaker, and changes only the sender's participant row |
| Dispatcher.EndToEnd | supabase/functions/register_user/index.ts:34-164 | when the speaker presses an `answer:` button for the question (data `answer:q1`) and then writes "3pm", the question is answered with "3pm", the pointer is cleared, and the asker gets the notice |
| Dispatcher.NoticeMarkupFixed | supabase/functions/register_user/index.ts:136-142 | the notice's HTML tags do not depend on the question, the speaker's name or the answer |
| Dispatcher.WelcomeNameUnescaped | supabase/functions/register_user/index.ts:201-208 | two greetings carry the same tags exactly when the two full names do: the name's tag delimiters reach the message unescaped |
| HotelServices.Fits | src/pages/HotelServicesPage.tsx:50 | the cuts of a line the pattern accepts: group 1 absent or one emoji and spaces, a non-empty title on one line, and either the end or `:`, spaces and a description on one line; `MatchLine` is proved against it |
| HotelServices.Precedes | src/pages/HotelServicesPage.tsx:50 | the backtracking order of the pattern: longer group 1 first, then a shorter title, then group 3 with the longest `\s*`; `PrecedesTotal` and `PrecedesIrreflexive` make it a strict total order |
| HotelServices.Render | src/pages/HotelServicesPage.tsx:50 | an entry written back as icon, space, title, `: ` and description; `ParseRender` proves the line parser inverts it on well-formed entries |
| HotelServices.RunEnd | src/pages/HotelServicesPage.tsx:50 | the run of spaces starting at a position ends at the first non-space or at the end of the line |
| HotelServices.RunEndBounds | src/pages/HotelServicesPage.tsx:50 | no run of spaces from that position reaches past `RunEnd` |
| HotelServices.BestTail | src/pages/HotelServicesPage.tsx:50 | for a title ending at a given point, the greedy `(:\s*(.*))?$` choice is accepted and no accepted choice is preferred to it, and the result is None exactly when nothing is accepted |
| HotelServices.FindEnd | src/pages/HotelServicesPage.tsx:50 | the lazy `.+?` stops at the first title end from which the rest fits, and the result is None exactly when no title end works |
| HotelServices.TryAt | src/pages/HotelServicesPage.tsx:50 | for a fixed group 1, the result is the first accepted cut, or None when none is accepted |
| HotelServices.TryDown | src/pages/HotelServicesPage.tsx:50 | trying group 1 from longest to absent gives the first accepted cut, or None when none is accepted |
| HotelServices.MatchLine | src/pages/HotelServicesPage.tsx:50 | the match is an accepted cut that no accepted cut precedes in backtracking order, and there is no match exactly when no cut is accepted |
| HotelServices.NonEmpty | src/pages/HotelServicesPage.tsx:53-55 | `x \|\| null` is null exactly for the empty string, and is `x` otherwise |
| HotelServices.ParseLine | src/pages/HotelServicesPage.tsx:50-58 | an entry never has an empty icon or an empty description: those become null |
| HotelServices.PrecedesTotal | src/pages/HotelServicesPage.tsx:50 | any two different cuts are ordered one way or the other |
| HotelServices.PrecedesIrreflexive | src/pages/HotelServicesPage.tsx:50 | no cut precedes itself |
| HotelServices.MatchIsFirst | src/pages/HotelServicesPage.tsx:50 | an accepted cut that no accepted cut precedes is the match: the match is unique |
| HotelServices.TitleStart | src/pages/HotelServicesPage.tsx:50 | the title of a non-empty line starts at a position inside it, so `.+?` has a character to take |
| HotelServices.ParseUnbrokenLine | src/pages/HotelServicesPage.tsx:49-58 | a line without line terminators always matches: the icon is its first code point when that is an emoji and something follows; the title runs from after the icon and its spaces to the first `:` after the title's first character, or to the end; the description is what follows that `:`; each part is trimmed and an empty icon or description is null |
| HotelServices.EmptyPiece | src/pages/HotelServicesPage.tsx:58 | an empty piece is not matched and becomes an entry with an empty title |
| HotelServices.BrokenLineFallsBack | src/pages/HotelServicesPage.tsx:50-58 | a line without `:` with a line terminator outside the emoji's spaces is not matched, and its entry is the whole line as title |
| HotelServices.EmojiBreakTitle | src/pages/HotelServicesPage.tsx:50-55 | a line break among the spaces after a leading emoji still matches: the icon is the emoji and the title the trimmed rest of a colon-free line |
| HotelServices.BlankDescription | src/pages/HotelServicesPage.tsx:50-55 | a title followed by `:` and only spaces or line terminators still matches, with a null description |
| HotelServices.ParseRender | src/pages/HotelServicesPage.tsx:49-58 | reading back a well-formed entry written as icon, space, title, `: ` and description gives the same entry |
| HotelServices.RenderSlices | src/pages/HotelServicesPage.tsx:50 | the icon, title and description of a rendered line are slices of it at the expected places |
| HotelServices.RenderNoBreak | src/pages/HotelServicesPage.tsx:50 | a rendered well-formed entry has no line terminator |
| HotelServices.RenderStart | src/pages/HotelServicesPage.tsx:50 | a rendered line starts with an emoji followed by more text exactly when the entry has an icon; the icon is that first character, and the title starts after the icon and its space |
| HotelServices.RenderColon | src/pages/HotelServicesPage.tsx:50 | the first `:` after the start of a rendered title is the separator before the description |
| HotelServices.PieceCount | src/pages/HotelServicesPage.tsx:49 | the number of pieces is the number of backslash-`n` pairs plus one |
| HotelServices.PiecesHaveNoSeparator | src/pages/HotelServicesPage.tsx:49 | no piece contains a backslash-`n` pair, and joining the pieces with it gives back the text |
| HotelServices.Services | src/pages/HotelServicesPage.tsx:49-59 | there is one entry per piece, in order, each parsed from its piece |
| HotelServices.SingleEntry | src/pages/HotelServicesPage.tsx:49-59 | a text without a backslash gives a single entry |
| HotelServices.SplitOneChar | src/pages/HotelServicesPage.tsx:49 | a text without a backslash is a single piece |
| HotelServices.Page | src/pages/HotelServicesPage.tsx:26-59 | the page shows the loading view exactly while loading; it shows the error view exactly when, after loading, the query failed or has no theme or no truthy `hotel_info`; otherwise it shows the list of at least one entry parsed from `hotel_info` |

## Left out

- HTTP handling is not modelled: CORS headers, the `OPTIONS` preflight, the JSON shape and status codes of the response bodies, and reading environment variables. The models return a status value instead.
- Network failures of `fetch` and of `response.json()` are not modelled: their exceptions would lead to the 500 answer. The relay ignores the gateway's answers to its own sends; the model does so too.
- The clock and the Moscow-time date formatting are opaque strings: `Env.now`, `Env.localTime` and `Request.when`. An invalid `timestamp` is not modelled.
- The text of a JavaScript TypeError's message is engine-specific. `Notifier.ErrorMessage` leaves it unmodelled.
- Concurrent webhook calls and the interleaving of store writes are not modelled. Each update is served atomically.
- The `question_id` of the notifier request is a string. A missing id, which the template would render as `answer:undefined`, is not modelled.
- Null `text` columns of questions and null speaker names are not modelled. Both are non-null strings in the model.
- `console.error` logging is left out.
- Strings.Decimal: models `toString()` only as plain decimal digits. The exponent form JavaScript uses from 10^21 on, and the rounding of integers above 2^53, are not modelled; Telegram user ids have at most 52 significant bits, so the relay never meets either.
- Three failure paths of `register_user` are not modelled: a request body that is not JSON or is `null`, and a `callback_query` without `from`, both of which the outer `try`/`catch` answers with 500; and the foreign key on `participants.pending_question_id`, which makes the pointer upsert fail for a question id that does not exist. The model lets the pointer upsert fail only through `PointerUpsert` in `Env.failing`, without tying that failure to the question being absent.
- Notifier.ErrorMessage: `NotifySpeaker` returns the `Failure`; the text of the `{error}` body is given by `ErrorMessage` of that failure, a function that stands apart from the handler.
- The Unicode Emoji property is the parameter `isEmoji`, because the model holds no Unicode property tables. Each lemma says when it needs `isEmoji(L[0]) ==> !IsSpace(L[0])`.
- The line parser is characterised by the universal lemmas `ParseUnbrokenLine`, `BrokenLineFallsBack`, `EmojiBreakTitle`, `BlankDescription` and `ParseRender`, not by literal examples.
- The JSX rendering, animation and styling of the hotel page are left out. So are the loading and error texts and the event query itself; that query becomes the `Query` value.
- HotelServices.ParseLine: its own contract states only that icon and description are never empty. How it reads a line is stated by `ParseUnbrokenLine`, `BrokenLineFallsBack`, `EmojiBreakTitle`, `BlankDescription` and `ParseRender`. Lines with a line terminator are characterised only by the preconditions of three lemmas. `BrokenLineFallsBack` covers a colon-free line with a line terminator at or after the end of the spaces that follow a leading emoji, or anywhere when the line does not start with an emoji. `EmojiBreakTitle` covers an emoji, then a non-empty run of spaces, then a non-empty colon-free title on one line that starts with a non-space. `BlankDescription` covers a non-empty title on one line, without `:` and without a leading emoji, followed by a `:` and only spaces. Every other line with a line terminator is not characterised. Examples are an emoji followed only by spaces that include a line break (`"🏊\n"`), a title, `:` and a line break followed by text (`"Pool:\nopen"`), and a line break inside the description (`"Pool: x\ny"`).
- The other pages and components of the site are not part of this model. The same goes for the question form that calls the notifier.
