/** The `/report` wizard of bot.py as a pure transition function: a session
    (conversation state and collected record) and one incoming event give
    the next session and the effects the handler produces (replies, one
    hand-over to the mail server, or an exception the framework swallows).

    Dispatch follows the conversation handler's table: with no conversation
    running only the `/report` entry point is considered; inside a
    conversation the current state's handlers are tried first, then the
    `/cancel` fallback, and anything else is ignored. The `/start` command
    is answered by a handler registered ahead of the conversation and never
    reaches it. */
module Wizard {
  import opened Wrappers
  import opened Text
  import opened Attachments
  import opened Mail

  /** The form positions, in the order the wizard visits them. `Idle` is
      "no conversation": before the first `/report` and after the end. */
  datatype State =
    | Idle
    | AskEmail | AskPassword | AskSubject | AskBody
    | AskRecipient | AskAttachments | ConfirmSend

  /** The number the program gives each state: the seven form states are
      0 to 6 in order, and the end of a conversation is -1. */
  function Code(st: State): int
  {
    match st
    case Idle => -1
    case AskEmail => 0
    case AskPassword => 1
    case AskSubject => 2
    case AskBody => 3
    case AskRecipient => 4
    case AskAttachments => 5
    case ConfirmSend => 6
  }

  /** The per-user record the wizard fills in. Each field is absent until its
      step stores it; an absent attachment list reads as the empty one. */
  datatype Record = Record(
    senderEmail: Option<string>,
    smtpPassword: Option<string>,
    subject: Option<string>,
    bodyText: Option<string>,
    recipientChoice: Option<string>,
    attachments: seq<Attachment>)

  /** The cleared record. */
  const Empty: Record := Record(None, None, None, None, None, [])

  datatype Session = Session(state: State, record: Record)

  /** A user who has not started a report. */
  const Init: Session := Session(Idle, Empty)

  /** The commands the bot registers; `OtherCommand` is any other name. */
  datatype Cmd = Start | Report | Done | Cancel | OtherCommand(name: string)

  /** What the chat delivers: a command, a plain text message, a document
      with its downloaded bytes, or the data of a pressed inline button. */
  datatype Event =
    | Command(cmd: Cmd)
    | TextMessage(text: string)
    | DocumentMessage(document: Attachment)
    | Callback(data: string)

  /** How the mail server answers the delivery attempt: accepted (with the
      server's response), refused the login, or failed otherwise. */
  datatype SmtpOutcome = Delivered(response: string) | AuthRejected | Failed(detail: string)

  /** The two recipients offered after the body is entered. */
  const Recipients: seq<string> := ["abuse@telegram.org", "stopCA@telegram.org"]

  /** The button data of the confirmation menu; only the first one sends. */
  const ConfirmChoices: seq<string> := ["yes", "no"]

  /** The kinds of message the wizard sends back to the user. */
  datatype Reply =
    | Welcome
    | PromptEmail
    | InvalidEmail
    | PromptPassword
    | PromptSubject
    | PromptBody
    | RecipientMenu(choices: seq<string>)
    | PromptAttachments
    | TooManyAttachments
    | TotalSizeExceeded
    | AttachmentAdded(count: nat, limit: nat)
    | Summary(sender: string, recipient: string, subject: string, preview: string,
              attachmentCount: nat, choices: seq<string>)
    | Sending
    | SentTo(recipient: string, response: string)
    | AuthenticationFailed
    | SendFailed(detail: string)
    | SendCancelled
    | ProcedureCancelled

  /** What a handler does besides updating the session: reply, hand a
      message to the mail server for delivery (with the login it uses), or
      raise, in which case the framework keeps the session as it was. */
  datatype Effect =
    | Say(reply: Reply)
    | Send(host: string, port: nat, user: string, password: string, message: Message)
    | Raise

  datatype Transition = Transition(next: Session, effects: seq<Effect>)

  /** The hand-overs to the mail server among the effects, in order. */
  function Deliveries(effects: seq<Effect>): (d: seq<Effect>)
    ensures |d| <= |effects|
    ensures forall i :: 0 <= i < |d| ==> d[i].Send?
  {
    if |effects| == 0 then []
    else (if effects[0].Send? then [effects[0]] else []) + Deliveries(effects[1..])
  }

  /** An event nothing handles: the session and the chat are left alone. */
  function Ignore(s: Session): (t: Transition)
    ensures t.next == s && t.effects == []
  {
    Transition(s, [])
  }

  /** `/report`: forget whatever was collected and ask for the sender. */
  function OnReport(): (t: Transition)
    ensures t.next.state == AskEmail && t.next.record == Empty
    ensures t.effects == [Say(PromptEmail)]
    ensures Deliveries(t.effects) == []
  {
    Transition(Session(AskEmail, Empty), [Say(PromptEmail)])
  }

  /** The sender step: the stripped text is stored only if it contains '@';
      otherwise the user is asked again and nothing is stored. */
  function OnEmail(rec: Record, text: string): (t: Transition)
    ensures t.next.state == AskPassword <==> '@' in text
    ensures t.next.state != AskPassword ==>
              t.next == Session(AskEmail, rec) && t.effects == [Say(InvalidEmail)]
    ensures t.next.state == AskPassword ==>
              && t.next.record == rec.(senderEmail := Some(Strip(text)))
              && '@' in t.next.record.senderEmail.value
              && t.effects == [Say(PromptPassword)]
  {
    var email := Strip(text);
    StripKeepsNonSpace(text, '@');
    if '@' !in email then Transition(Session(AskEmail, rec), [Say(InvalidEmail)])
    else Transition(Session(AskPassword, rec.(senderEmail := Some(email))), [Say(PromptPassword)])
  }

  /** The password step: the text is stored exactly as typed. */
  function OnPassword(rec: Record, text: string): (t: Transition)
    ensures t.next.state == AskSubject
    ensures t.next.record == rec.(smtpPassword := Some(text))
    ensures t.effects == [Say(PromptSubject)]
    ensures Deliveries(t.effects) == []
  {
    Transition(Session(AskSubject, rec.(smtpPassword := Some(text))), [Say(PromptSubject)])
  }

  /** The subject step: the text is stored exactly as typed. */
  function OnSubject(rec: Record, text: string): (t: Transition)
    ensures t.next.state == AskBody
    ensures t.next.record == rec.(subject := Some(text))
    ensures t.effects == [Say(PromptBody)]
    ensures Deliveries(t.effects) == []
  {
    Transition(Session(AskBody, rec.(subject := Some(text))), [Say(PromptBody)])
  }

  /** The body step: the text is stored exactly as typed, and the recipient
      menu is offered. */
  function OnBody(rec: Record, text: string): (t: Transition)
    ensures t.next.state == AskRecipient
    ensures t.next.record == rec.(bodyText := Some(text))
    ensures t.effects == [Say(RecipientMenu(Recipients))]
  {
    Transition(Session(AskRecipient, rec.(bodyText := Some(text))), [Say(RecipientMenu(Recipients))])
  }

  /** The recipient step: the pressed button's data becomes the recipient
      (it is not checked against the menu) and the attachment list starts
      empty. */
  function OnRecipient(rec: Record, data: string): (t: Transition)
    ensures t.next.state == AskAttachments
    ensures t.next.record == rec.(recipientChoice := Some(data), attachments := [])
    ensures t.effects == [Say(PromptAttachments)]
    ensures Deliveries(t.effects) == []
  {
    Transition(Session(AskAttachments, rec.(recipientChoice := Some(data), attachments := [])),
               [Say(PromptAttachments)])
  }

  /** One uploaded document. Every outcome stays in the attachment step; a
      refused document leaves the record untouched, an admitted one is
      appended after the earlier ones and the running count is reported. */
  function OnAttachment(rec: Record, doc: Attachment): (t: Transition)
    ensures t.next.state == AskAttachments
    ensures |rec.attachments| >= MaxAttachments ==>
              t.next.record == rec && t.effects == [Say(TooManyAttachments)]
    ensures |rec.attachments| < MaxAttachments
            && TotalSize(rec.attachments) + |doc.content| > MaxTotalBytes ==>
              t.next.record == rec && t.effects == [Say(TotalSizeExceeded)]
    ensures |rec.attachments| < MaxAttachments
            && TotalSize(rec.attachments) + |doc.content| <= MaxTotalBytes ==>
              && t.next.record == rec.(attachments := rec.attachments + [doc])
              && t.effects == [Say(AttachmentAdded(|rec.attachments| + 1, MaxAttachments))]
  {
    match Admit(rec.attachments, doc)
    case Rejected(TooMany) =>
      Transition(Session(AskAttachments, rec), [Say(TooManyAttachments)])
    case Rejected(TooLarge) =>
      Transition(Session(AskAttachments, rec), [Say(TotalSizeExceeded)])
    case Accepted(entries) =>
      Transition(Session(AskAttachments, rec.(attachments := entries)),
                 [Say(AttachmentAdded(|entries|, MaxAttachments))])
  }

  /** `/done`: show the summary and ask for confirmation. Reading a field
      that was never stored raises, and the session stays put. */
  function OnDone(rec: Record): (t: Transition)
    ensures t.next.record == rec
    ensures t.next.state == ConfirmSend <==>
              rec.senderEmail.Some? && rec.recipientChoice.Some?
              && rec.subject.Some? && rec.bodyText.Some?
    ensures t.next.state != ConfirmSend ==> t.next.state == AskAttachments && t.effects == [Raise]
    ensures t.next.state == ConfirmSend ==>
              t.effects == [Say(Summary(rec.senderEmail.value, rec.recipientChoice.value,
                                        rec.subject.value, Preview(rec.bodyText.value),
                                        |rec.attachments|, ConfirmChoices))]
  {
    if rec.senderEmail.None? || rec.recipientChoice.None? || rec.subject.None? || rec.bodyText.None? then
      Transition(Session(AskAttachments, rec), [Raise])
    else
      Transition(Session(ConfirmSend, rec),
                 [Say(Summary(rec.senderEmail.value, rec.recipientChoice.value, rec.subject.value,
                              Preview(rec.bodyText.value), |rec.attachments|, ConfirmChoices))])
  }

  /** The message composed from a record; `None` when building it raises:
      a header or body field was never stored, a sender, recipient or
      subject runs over more than one line, or an attachment yields no part. */
  function MessageOf(rec: Record): (r: Option<Message>)
    ensures r.Some? <==>
              && rec.senderEmail.Some? && rec.recipientChoice.Some?
              && rec.subject.Some? && rec.bodyText.Some?
              && Encodable(rec.senderEmail.value, rec.recipientChoice.value, rec.subject.value,
                           rec.attachments)
    ensures r.Some? ==>
              && r.value.from == rec.senderEmail.value
              && r.value.to == rec.recipientChoice.value
              && r.value.subject == rec.subject.value
              && r.value.body == rec.bodyText.value
              && |r.value.parts| == |rec.attachments|
              && forall i :: 0 <= i < |rec.attachments| ==> r.value.parts[i] == ToPart(rec.attachments[i]).value
  {
    if rec.senderEmail.None? || rec.recipientChoice.None? || rec.subject.None? || rec.bodyText.None? then
      None
    else
      Compose(rec.senderEmail.value, rec.recipientChoice.value, rec.subject.value,
              rec.bodyText.value, rec.attachments)
  }

  /** The reply that reports the mail server's answer: success names the
      recipient and the server's response, a refused login has its own
      message, and any other failure carries the exception's text. */
  function DeliveryReport(outcome: SmtpOutcome, recipient: string): (r: Reply)
    ensures outcome.Delivered? <==> r.SentTo?
    ensures r.SentTo? ==> r.recipient == recipient
    ensures outcome.Delivered? ==> r == SentTo(recipient, outcome.response)
    ensures outcome.AuthRejected? <==> r == AuthenticationFailed
    ensures outcome.Failed? <==> r.SendFailed?
    ensures outcome.Failed? ==> r == SendFailed(outcome.detail)
  {
    match outcome
    case Delivered(response) => SentTo(recipient, response)
    case AuthRejected => AuthenticationFailed
    case Failed(detail) => SendFailed(detail)
  }

  /** The confirmation step. Button data "yes" composes the message and hands
      it to the mail server once, then reports the answer; any other data
      discards the report. Both end the conversation with the record cleared,
      except when composing raises, which leaves the session as it was. */
  function OnConfirmation(rec: Record, data: string, outcome: SmtpOutcome): (t: Transition)
    ensures data != "yes" ==> t.next == Init && t.effects == [Say(SendCancelled)]
    ensures data == "yes" && MessageOf(rec).None? ==>
              t.next == Session(ConfirmSend, rec) && t.effects == [Say(Sending), Raise]
    ensures data == "yes" && MessageOf(rec).Some? ==> t.next == Init
    ensures t.next == Init || t.next == Session(ConfirmSend, rec)
    ensures Deliveries(t.effects) ==
              if data == "yes" && MessageOf(rec).Some? && rec.smtpPassword.Some?
              then [Send(SmtpHost, SmtpPort, rec.senderEmail.value, rec.smtpPassword.value,
                         MessageOf(rec).value)]
              else []
  {
    if data != "yes" then
      Transition(Init, [Say(SendCancelled)])
    else
      match MessageOf(rec)
      case None => Transition(Session(ConfirmSend, rec), [Say(Sending), Raise])
      case Some(msg) =>
        match rec.smtpPassword
        // the missing key is raised by the login, inside the `try`, and
        // reported as a failed delivery
        case None => Transition(Init, [Say(Sending), Say(SendFailed("'smtp_password'"))])
        case Some(password) =>
          var effects := [Say(Sending), Send(SmtpHost, SmtpPort, msg.from, password, msg),
                          Say(DeliveryReport(outcome, msg.to))];
          assert effects[1..][1..][1..] == [];
          Transition(Init, effects)
  }

  /** `/cancel`: clear the record and end the conversation. */
  function OnCancel(): (t: Transition)
    ensures t.next == Init
    ensures t.effects == [Say(ProcedureCancelled)]
    ensures Deliveries(t.effects) == []
  {
    Transition(Init, [Say(ProcedureCancelled)])
  }

  /** The inputs the handlers registered for a form state accept: text that
      is not a command in the four text steps, a pressed button in the
      recipient and confirmation steps, and a document or `/done` in the
      attachment step. No state handler exists outside a conversation. */
  predicate Accepts(st: State, e: Event)
  {
    match st
    case Idle => false
    case AskEmail | AskPassword | AskSubject | AskBody => e.TextMessage?
    case AskRecipient | ConfirmSend => e.Callback?
    case AskAttachments => e.DocumentMessage? || e == Command(Done)
  }

  /** The handlers registered for each form state, applied to `e`; `None`
      when none of them accepts the event. */
  function StateHandler(st: State, rec: Record, e: Event, outcome: SmtpOutcome): (r: Option<Transition>)
    ensures r.Some? <==> Accepts(st, e)
    ensures st == Idle ==> r.None?
    ensures e.Command? && e.cmd != Done ==> r.None?
    ensures r.Some? && Deliveries(r.value.effects) != [] ==>
              st == ConfirmSend && e.Callback? && r.value == OnConfirmation(rec, e.data, outcome)
  {
    match (st, e)
    case (AskEmail, TextMessage(text)) => Some(OnEmail(rec, text))
    case (AskPassword, TextMessage(text)) => Some(OnPassword(rec, text))
    case (AskSubject, TextMessage(text)) => Some(OnSubject(rec, text))
    case (AskBody, TextMessage(text)) => Some(OnBody(rec, text))
    case (AskRecipient, Callback(data)) => Some(OnRecipient(rec, data))
    case (AskAttachments, DocumentMessage(doc)) => Some(OnAttachment(rec, doc))
    case (AskAttachments, Command(Done)) => Some(OnDone(rec))
    case (ConfirmSend, Callback(data)) => Some(OnConfirmation(rec, data, outcome))
    case _ => None
  }

  /** One event delivered to one user's conversation. `outcome` is the mail
      server's answer, consulted only when the event triggers a delivery. */
  function Step(s: Session, e: Event, outcome: SmtpOutcome): (t: Transition)
    ensures t.next.state == s.state || t.next.state == Idle
            || Code(t.next.state) == Code(s.state) + 1
    ensures s.state != Idle && t.next.state == Idle ==> t.next.record == Empty
    ensures Deliveries(t.effects) != [] ==>
              && s.state == ConfirmSend && e == Callback("yes")
              && MessageOf(s.record).Some? && s.record.smtpPassword.Some?
              && Deliveries(t.effects) ==
                   [Send(SmtpHost, SmtpPort, s.record.senderEmail.value,
                         s.record.smtpPassword.value, MessageOf(s.record).value)]
  {
    if e == Command(Start) then
      Transition(s, [Say(Welcome)])
    else if s.state == Idle then
      if e == Command(Report) then OnReport() else Ignore(s)
    else
      match StateHandler(s.state, s.record, e, outcome)
      case Some(t) => t
      case None => if e == Command(Cancel) then OnCancel() else Ignore(s)
  }
}
