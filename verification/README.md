# Report wizard of the Telegram abuse-report bot

The bot walks a user through a form: sender address, SMTP password,
subject, body, one of two recipient addresses, up to ten attachments. It
then shows a summary and, on confirmation, mails the report through
`smtp.gmail.com:587` using the user's own login. This project models that
wizard as a pure transition function and proves properties of it.

- `wrappers.dfy` (`Wrappers`): `Option`.
- `text.dfy` (`Text`): Python's `str.strip()` with its exact whitespace set, `s[:n]`, one-character `split`/`join`, and the 300-character body preview of the summary.
- `attachments.dfy` (`Attachments`): the stored attachment entries, the two caps (10 files, 25 * 1024 * 1024 bytes), and the admission decision of the upload step.
- `mail.dfy` (`Mail`): the composition half of `send_email`. Headers and body are copied from the record. Every attachment becomes a part whose major and minor types are pieces 0 and 1 of its MIME type split at '/'.
- `wizard.dfy` (`Wizard`): the states, the per-user record, the events the chat delivers, the reply kinds and the effects. It defines one function per handler and the dispatch `Step`, which follows the conversation-handler table:
  - with no conversation running, only `/report` starts one;
  - inside a conversation, the current state's handlers are tried first, then `/cancel`; anything else is ignored;
  - `/start` is registered ahead of the conversation and always answers with the welcome text.
- `conversation.dfy` (`Conversation`): the invariant of every reachable session, runs of many events, the delivery properties, and single-step scenarios.

A handler that raises is an effect `Raise`. Raising covers a missing record key, and any failure to build the message. The message cannot be built when a header value runs over more than one line, when a MIME type cannot be split, or when an ASCII file name contains a line break. In that case the session stays as it was, which is what the conversation framework does with a failing callback. The mail server's answer is a parameter of `Step`. The delivery itself is the effect `Send(host, port, user, password, message)`.

Behaviour of `bot.py` a reader might not expect:
- The MIME allow-list (`bot.py:29`) is declared but never consulted. Uploads of any type are admitted; see `Attachments.DisallowedTypeAdmitted`.
- `/report` sent inside a running conversation does not restart it. The conversation handler is built without re-entry, so the command is ignored; see `Conversation.ReportStartsOnlyWhenIdle`.
- The recipient is whatever data the pressed button carries. Only the two-button menu restricts it, and the handler does not check it.
- Confirming does not always clear the record. In some cases composing raises before the `try` of `send_email`, and the session stays in the confirmation step with its data, password included; see `Conversation.ConfirmationEndsConversation`. This happens when:
  - an attachment's MIME type is missing or contains no '/';
  - a From, To or Subject value has more than one line as `str.splitlines()` counts them; the email library's default policy refuses such header values;
  - an ASCII file name contains a line break.
- A missing password is reported as a failed delivery. The login that reads it sits inside the `try` (`bot.py:150-153`), and the resulting `KeyError` is caught by the generic handler.
- The size cap is binary: 25 * 1024 * 1024 bytes. A total exactly at the cap is admitted.

## Model

| member | source | states |
|---|---|---|
| Text.Strip | bot.py:46 | the result is a slice of the input with only whitespace before and after it, and it neither starts nor ends with whitespace |
| Text.StripKeepsNonSpace | bot.py:46-47 | a non-space character such as '@' is in the stripped text exactly when it is in the original |
| Text.StripTrimmed | bot.py:46 | text with no whitespace at either end is stored unchanged |
| Text.StripIdempotent | bot.py:46 | stripping the stored address again changes nothing |
| Text.Take | bot.py:118 | `s[:n]` is a prefix of `s` of length min(\|s\|, n) |
| Text.Preview | bot.py:118 | the preview is the body itself when it has at most 300 characters, otherwise its first 300 characters followed by "..." |
| Text.PreviewFaithful | bot.py:118 | the preview is at most 303 characters and agrees with the body on its first characters; it is exactly 303 characters long, ending in "...", exactly when the body is longer than 300; a preview shorter than 303 is the whole body |
| Text.Split | bot.py:148-149 | a split yields at least one piece and no piece contains the separator |
| Text.JoinSplit | bot.py:148-149 | joining the pieces of a split restores the text |
| Text.SplitJoin | bot.py:148-149 | splitting a join of separator-free pieces gives back the pieces |
| Text.SplitHasSecondPiece | bot.py:148-149 | index 1 of the split exists exactly when the separator occurs |
| Text.SingleLineIffOneLine | bot.py:143-145 | a header value passes the single-line test exactly when Python's `splitlines()` gives at most one line for it |
| Attachments.TotalSizeAppend | bot.py:97 | appending an entry adds its byte length to the running total |
| Attachments.Admit | bot.py:88-108 | the upload is refused for the count exactly when 10 are stored, and for the size exactly when the total would exceed 25 * 1024 * 1024; otherwise it is appended after the unchanged earlier entries |
| Attachments.AdmitPreservesLimits | bot.py:90-99 | an admitted upload keeps a list within both caps |
| Attachments.AdmitIgnoresMimeType | bot.py:88-108 | the declared MIME type never changes the decision |
| Attachments.DisallowedTypeAdmitted | bot.py:29 | a type outside the declared allow-list is admitted |
| Attachments.AdmitAllWithinLimits | bot.py:88-108 | across any sequence of uploads the list stays within both caps, keeps its earlier entries as a prefix, and grows by at most one per upload |
| Mail.ToPart | bot.py:148-149 | an attachment yields a part exactly when its MIME type exists, contains '/', and gives a single-line Content-Type value, and its file name fits the Content-Disposition header; the part has that Content-Type and the content and file name copied |
| Mail.ToPartSplitsMimeType | bot.py:148-149 | major and minor type are the text before the first '/' and the text after it up to the next '/' or the end |
| Mail.ComposeParts | bot.py:147-149 | the parts succeed exactly when every attachment's part does, and come in the attachments' order |
| Mail.Compose | bot.py:142-149 | the message is built exactly when From, To and Subject are single lines and every attachment yields its part; it carries those fields and the body, with one part per attachment, in order, holding its content and file name |
| Mail.ComposePartsSize | bot.py:147-149 | the parts carry exactly the attachments' bytes |
| Mail.ContentTypeOfPair | bot.py:148-149 | a MIME type of two '/'-free pieces is its own Content-Type value |
| Mail.TwoLineSubjectRejected | bot.py:145 | a subject typed over two lines counts as two lines, and no message is built from it |
| Mail.FileNameLineBreak | bot.py:148-149 | an ASCII file name with a line break yields no part, whatever the content; the same break in a non-ASCII name does yield one |
| Wizard.OnReport | bot.py:40-43 | `/report` moves to the sender step with a cleared record, asks for the sender and sends nothing |
| Wizard.OnEmail | bot.py:45-52 | the step advances exactly when the text contains '@'; the stripped text is then stored; otherwise the session is unchanged and the user is asked again |
| Wizard.OnPassword | bot.py:54-61 | the password is stored as typed, the subject is asked for, and the step moves to the subject |
| Wizard.OnSubject | bot.py:63-66 | the subject is stored as typed and the body is asked for |
| Wizard.OnBody | bot.py:68-78 | the body is stored as typed and the two-recipient menu is shown |
| Wizard.OnRecipient | bot.py:80-86 | the button data becomes the recipient, the attachment list is emptied, and the user is invited to upload |
| Wizard.OnAttachment | bot.py:88-108 | every upload stays in the attachment step; a refusal leaves the record unchanged with the matching reason; an admission appends the file and reports the count out of 10 |
| Wizard.OnDone | bot.py:110-127 | with all four fields stored the summary shows them, the preview and the attachment count; otherwise the handler raises and the session stays put |
| Wizard.MessageOf | bot.py:142-149 | the message exists exactly when the four fields are stored, sender, recipient and subject are single lines, and every attachment yields its part; it carries those fields and the parts in order |
| Wizard.DeliveryReport | bot.py:155-159 | an accepted delivery is reported as sent to the recipient with the server's response; a refused login, and only that, gets the authentication message; any other failure, and only that, gets the failure message with the error text |
| Wizard.OnConfirmation | bot.py:129-139 | "yes" hands exactly one message to smtp.gmail.com:587 with the stored login when the message can be built and the password is stored; any other data sends nothing; both branches end with the record cleared, unless composing raises, which keeps the session as it was |
| Wizard.OnCancel | bot.py:161-164 | `/cancel` ends the conversation with the record cleared, acknowledges the cancellation and sends nothing |
| Wizard.StateHandler | bot.py:193-204 | a handler applies exactly when the state accepts the event: non-command text in the four text steps, a button in the recipient and confirmation steps, a document or `/done` in the attachment step, nothing outside a conversation; only the confirmation handler can deliver |
| Wizard.Step | bot.py:191-209 | a step stays, ends the conversation or moves one state forward; ending clears the record; a delivery happens only on "yes" in the confirmation step and carries the record's message and login |
| Conversation.IdleRecordIsEmpty | bot.py:41 | outside a conversation and in the sender step the record is the cleared one |
| Conversation.StepPreservesInv | bot.py:191-206 | every step keeps the invariant: exactly the fields of the steps passed are stored, a stored sender contains '@', and the list respects both caps |
| Conversation.RunPreservesInv | bot.py:191-206 | the invariant holds after any sequence of events |
| Conversation.ReachableSessionsRespectLimits | bot.py:88-108 | after any sequence of events from the start, the list has at most 10 entries and 25 * 1024 * 1024 bytes, and an ended conversation holds no data |
| Conversation.StepFollowsFormOrder | bot.py:191-206 | the form is walked strictly in order, and each move forward takes the input its state asks for |
| Conversation.TextStepsWriteOwnField | bot.py:45-69 | each text step writes only its own field, storing the password, subject and body as typed and the address stripped; an address without '@' changes nothing |
| Conversation.RecipientStepResetsAttachments | bot.py:80-86 | choosing a recipient stores the data verbatim, starts an empty list and moves to the attachment step |
| Conversation.UploadStaysInAttachmentStep | bot.py:88-108 | an upload keeps the attachment step; a refused one changes nothing and an admitted one goes last |
| Conversation.DoneShowsSummary | bot.py:110-127 | in a reachable session `/done` always reaches confirmation and shows the stored fields, the preview and the count |
| Conversation.CancelEndsConversation | bot.py:161-164 | `/cancel` ends any running conversation with the record cleared and is ignored when none runs |
| Conversation.UnacceptedInputIgnored | bot.py:191-206 | inside a conversation, an input the state has no handler for, other than `/cancel` and `/start`, leaves the session unchanged and gets no answer |
| Conversation.AcceptedInputHandled | bot.py:193-204 | an input the state has a handler for goes to that handler |
| Conversation.StartAlwaysWelcomes | bot.py:208 | `/start` answers with the welcome text in every session and changes nothing |
| Conversation.ReportStartsOnlyWhenIdle | bot.py:191-192 | `/report` starts from a cleared record only when no conversation runs, and is ignored inside one |
| Conversation.DeliveryOnlyOnYes | bot.py:129-139 | at most one delivery per event; in a reachable session there is one exactly on "yes" in the confirmation step when sender, recipient and subject are single lines and every attachment yields its part |
| Conversation.ConfirmationEndsConversation | bot.py:129-139 | in the confirmation step, the conversation ends with the record cleared exactly when the data is not "yes" or the message can be built; otherwise the session is unchanged and the step raises |
| Conversation.DeliveryCarriesRecord | bot.py:141-155 | a delivered message carries the stored sender, recipient, subject, body and login, and the attachments' parts in admission order, then the record is cleared whatever the server answered |
| Conversation.ServerAnswerReported | bot.py:134-159 | confirming a buildable report ends with one reply for the server's answer: success with recipient and response, the login message for a refused login, the error text for any other failure |
| Conversation.StepSendsWithinLimits | bot.py:97-99 | no single step from a reachable session delivers more than 10 parts or more than 25 * 1024 * 1024 bytes |
| Conversation.RunSendsWithinLimits | bot.py:88-108 | no conversation of any length delivers an oversized message |
| Conversation.ScenarioAddressAccepted | bot.py:45-52 | the address "a@b.com" is stored as typed and the password is asked for |
| Conversation.ConfirmedScenarioSendsOnce | bot.py:129-155 | confirming the reference report sends exactly one message, from "a@b.com" to "abuse@telegram.org" with subject "S" and body "B", and reports success naming the recipient |
| Conversation.DeclinedScenarioSendsNothing | bot.py:136-139 | declining the reference report sends nothing and acknowledges the cancellation |
| Conversation.EleventhUploadRejected | bot.py:90-92 | an eleventh upload is refused for the count and the ten stored entries stay |
| Conversation.SizeCapBoundary | bot.py:97-99 | a total exactly at 25 * 1024 * 1024 is admitted and one byte more is refused |
| Conversation.ScenarioStarts | bot.py:40-43 | `/report` opens the reference conversation on a cleared record and asks for the sender |
| Conversation.ScenarioPasswordStored | bot.py:54-61 | the password "p" is stored and the subject is asked for |
| Conversation.ScenarioSubjectStored | bot.py:63-66 | the subject "S" is stored and the body is asked for |
| Conversation.ScenarioBodyStored | bot.py:68-78 | the body "B" is stored and the two recipients are offered |
| Conversation.ScenarioRecipientChosen | bot.py:80-86 | the first recipient button is stored and the attachment step opens with an empty list |
| Conversation.ScenarioDoneShowsSummary | bot.py:110-127 | `/done` shows the reference summary with no attachments and waits for confirmation |
| Conversation.ScenarioMessage | bot.py:142-149 | the reference record composes into the message from "a@b.com" to "abuse@telegram.org" with subject "S", body "B" and no parts |

## Left out

- Telegram transport: reply texts, Markdown rendering, button layouts, `query.answer`, and the download of a document's bytes. The bytes are part of the document event. Replies are reply kinds carrying their data.
- Failing Telegram calls and edited messages: every reply, message edit, download and `query.answer` is taken to succeed, and every event is a newly sent message. In `bot.py` a failing call raises out of the handler. The framework then keeps the conversation state, while the record writes made before the call stay. An edited message also reaches the command and text handlers, but `update.message` is then empty, so the handler raises where it first reads or answers it. The lines below list every place where this leaves a session the model does not reach.
- Conversation.StepPreservesInv: every text and button step stores before it replies. The pairs are: the address at `bot.py:50` before `bot.py:51`, the password at `bot.py:55` before `bot.py:60`, the subject at `bot.py:64` before `bot.py:65`, the body at `bot.py:69` before `bot.py:74`, and the recipient with the emptied list at `bot.py:83-84` before `bot.py:85`. If that reply fails, the state stays while the field is already stored, so the record holds one field more than the steps passed.
- Conversation.StepPreservesInv: `/cancel` clears the record (`bot.py:162`) before it replies (`bot.py:163`). An edited "/cancel", or a failed reply, therefore keeps the state with a cleared record. The later steps then store their fields without the earlier ones, and `/done` raises on the missing key at `bot.py:115`.
- Conversation.CancelEndsConversation: for the same reason, an edited "/cancel" or a failed cancel reply clears the record but does not end the conversation.
- Conversation.ConfirmationEndsConversation: the discard branch edits the message (`bot.py:137`) before it clears the record (`bot.py:138`). If that edit fails, the session stays in the confirmation step with its record, password included. The same holds for the "yes" branch when the edit at `bot.py:133` fails, before anything is sent.
- Conversation.StartAlwaysWelcomes: an edited "/start", or a failed welcome reply (`bot.py:35`), gets no welcome; the session is unchanged either way.
- Wizard.OnReport: `/report` clears the record (`bot.py:41`) before it replies (`bot.py:42`). If the reply fails, the user stays outside a conversation with an empty record, which the model also reaches.
- Attachments.Admit: the download at `bot.py:94` raises for a document above Telegram's 20 MB download limit, so such a file is never admitted in `bot.py`. The model admits any document that fits the 25 * 1024 * 1024-byte cap, a single one of more than 20 MB included.
- Conversation.DeliveryCarriesRecord: if the reply at `bot.py:135` fails after the mail has gone out, the clear at `bot.py:138` is skipped, and the record, password included, stays in the confirmation step. The lemma's "the record is cleared after every delivery" assumes that reply succeeds.
- Deleting the password message (`bot.py:57-59`): a chat side effect whose failure is swallowed. It changes no state.
- SMTP I/O (`bot.py:150-154`): connecting, STARTTLS, login and sending are one `Send` effect. The server's answer is a parameter.
- The Flask keep-alive server, its thread, logging, the token lookup and polling (`bot.py:166-189`, `bot.py:211`): process scaffolding with no bearing on the wizard.
- Many users at once: the framework keys conversations by chat and user. The model covers one such conversation.
- Conversation.StepPreservesInv: holds for a user who runs the wizard in one chat only. The record is the framework's per-user data, while the conversation state is kept per chat and user. A user with the wizard open in two chats therefore has two states sharing one record. `/report` or `/cancel` in one chat clears the record under the other, and a later `/done` there raises on the missing key. The model gives each conversation its own record.
- Wizard.OnConfirmation: with no password stored, the reply is always the missing-key failure. The model does not represent the connection and STARTTLS (`bot.py:151-152`), which run before the login; if they failed, their error would be reported instead. With the invariant, the password is always stored in the confirmation step.
- Wizard.DeliveryReport: the exception text of a failed delivery is an opaque detail string, and the SMTP response is an opaque string.
- Wizard.OnDone: a Markdown parse failure of the summary is not modelled; the summary is a reply kind, not rendered text.
- Conversation.DoneShowsSummary: the summary is sent with legacy Markdown parsing (`bot.py:126`). If Telegram cannot parse it, for example because a sender such as "mario_rossi@x.com" has a single '_', the reply raises and the session stays in the attachment step. The lemma's "always reaches confirmation" does not cover that.
- Mail.Compose: does not model how `set_content` encodes the body (charset, line endings), or the text of the MIME headers `add_attachment` writes beyond their single-line check. It states which fields and bytes go where. Header values are checked only for line breaks, the one check of the email library's default policy that raises. The library records address-parsing problems as defects rather than raising, and they are not modelled.
- Wizard.OnRecipient: the recipient is the raw button data, not a two-value choice, because the handler stores whatever the button carries.
