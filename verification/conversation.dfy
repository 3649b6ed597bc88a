/** Properties of whole conversations: the invariant every reachable session
    keeps, what can and cannot trigger a delivery, and the scenarios the
    wizard is meant to support. */
module Conversation {
  import opened Wrappers
  import opened Attachments
  import opened Mail
  import opened Wizard

  /** How many of the form fields (sender, password, subject, body,
      recipient) a session in state `st` has collected. */
  function Collected(st: State): nat
  {
    match st
    case Idle => 0
    case AskEmail => 0
    case AskPassword => 1
    case AskSubject => 2
    case AskBody => 3
    case AskRecipient => 4
    case AskAttachments => 5
    case ConfirmSend => 5
  }

  /** Exactly the first `n` form fields are stored, a stored sender contains
      '@', attachments exist only once a recipient is chosen, and the list
      respects both caps. */
  predicate HasFields(r: Record, n: nat)
  {
    && (r.senderEmail.Some? <==> n >= 1)
    && (r.smtpPassword.Some? <==> n >= 2)
    && (r.subject.Some? <==> n >= 3)
    && (r.bodyText.Some? <==> n >= 4)
    && (r.recipientChoice.Some? <==> n >= 5)
    && (n < 5 ==> r.attachments == [])
    && (r.senderEmail.Some? ==> '@' in r.senderEmail.value)
    && WithinLimits(r.attachments)
  }

  /** The invariant of every session the wizard can reach. */
  predicate Inv(s: Session)
  {
    HasFields(s.record, Collected(s.state))
  }

  /** Outside a conversation, and while waiting for the sender, the record
      is the cleared one. */
  lemma IdleRecordIsEmpty(s: Session)
    requires Inv(s) && (s.state == Idle || s.state == AskEmail)
    ensures s.record == Empty
  {
  }

  /** Every step keeps the invariant. */
  lemma StepPreservesInv(s: Session, e: Event, outcome: SmtpOutcome)
    requires Inv(s)
    ensures Inv(Step(s, e, outcome).next)
  {
    if e != Command(Start) && s.state != Idle {
      var h := StateHandler(s.state, s.record, e, outcome);
      if h.Some? {
        HandlerPreservesInv(s, e, outcome);
      }
    }
  }

  /** The form-state handlers keep the invariant. */
  lemma HandlerPreservesInv(s: Session, e: Event, outcome: SmtpOutcome)
    requires Inv(s) && StateHandler(s.state, s.record, e, outcome).Some?
    ensures Inv(StateHandler(s.state, s.record, e, outcome).value.next)
  {
    match s.state
    case AskEmail => EmailKeepsInv(s.record, e.text);
    case AskPassword => TextFieldsKeepInv(s.record, e.text);
    case AskSubject => TextFieldsKeepInv(s.record, e.text);
    case AskBody => TextFieldsKeepInv(s.record, e.text);
    case AskRecipient => RecipientKeepsInv(s.record, e.data);
    case AskAttachments =>
      if e.DocumentMessage? {
        AttachmentKeepsInv(s.record, e.document);
      } else {
        DoneKeepsInv(s.record);
      }
    case ConfirmSend => ConfirmationKeepsInv(s.record, e.data, outcome);
  }

  lemma EmailKeepsInv(rec: Record, text: string)
    requires HasFields(rec, 0)
    ensures Inv(OnEmail(rec, text).next)
  {
  }

  lemma TextFieldsKeepInv(rec: Record, text: string)
    ensures HasFields(rec, 1) ==> Inv(OnPassword(rec, text).next)
    ensures HasFields(rec, 2) ==> Inv(OnSubject(rec, text).next)
    ensures HasFields(rec, 3) ==> Inv(OnBody(rec, text).next)
  {
  }

  lemma RecipientKeepsInv(rec: Record, data: string)
    requires HasFields(rec, 4)
    ensures Inv(OnRecipient(rec, data).next)
  {
  }

  lemma AttachmentKeepsInv(rec: Record, doc: Attachment)
    requires HasFields(rec, 5)
    ensures Inv(OnAttachment(rec, doc).next)
  {
    AdmitPreservesLimits(rec.attachments, doc);
  }

  lemma DoneKeepsInv(rec: Record)
    requires HasFields(rec, 5)
    ensures Inv(OnDone(rec).next)
  {
  }

  lemma ConfirmationKeepsInv(rec: Record, data: string, outcome: SmtpOutcome)
    requires HasFields(rec, 5)
    ensures Inv(OnConfirmation(rec, data, outcome).next)
  {
    assert Inv(Init) && Inv(Session(ConfirmSend, rec));
  }

  /** One event paired with the answer the mail server would give if the
      event triggered a delivery. */
  datatype Input = Input(event: Event, outcome: SmtpOutcome)

  /** The session after a sequence of inputs, with all effects in order. */
  function Run(s: Session, inputs: seq<Input>): Transition
    decreases |inputs|
  {
    if |inputs| == 0 then Transition(s, [])
    else
      var t := Step(s, inputs[0].event, inputs[0].outcome);
      var rest := Run(t.next, inputs[1..]);
      Transition(rest.next, t.effects + rest.effects)
  }

  /** The invariant holds after any sequence of inputs. */
  lemma {:induction false} RunPreservesInv(s: Session, inputs: seq<Input>)
    requires Inv(s)
    ensures Inv(Run(s, inputs).next)
    decreases |inputs|
  {
    if |inputs| > 0 {
      StepPreservesInv(s, inputs[0].event, inputs[0].outcome);
      RunPreservesInv(Step(s, inputs[0].event, inputs[0].outcome).next, inputs[1..]);
    }
  }

  /** Whatever a user sends, the stored attachments never number more than
      ten nor total more than 25 MiB, and a conversation that has ended
      holds no data. */
  lemma ReachableSessionsRespectLimits(inputs: seq<Input>)
    ensures var s := Run(Init, inputs).next;
            && |s.record.attachments| <= MaxAttachments
            && TotalSize(s.record.attachments) <= MaxTotalBytes
            && (s.state == Idle ==> s.record == Empty)
  {
    RunPreservesInv(Init, inputs);
  }

  /** The kind of event that moves each state forward. */
  predicate Advances(st: State, e: Event)
  {
    match st
    case Idle => e == Command(Report)
    case AskEmail => e.TextMessage?
    case AskPassword => e.TextMessage?
    case AskSubject => e.TextMessage?
    case AskBody => e.TextMessage?
    case AskRecipient => e.Callback?
    case AskAttachments => e == Command(Done)
    case ConfirmSend => false
  }

  /** The form is walked strictly in order: a step stays, ends the
      conversation, or moves to the next state, and moving on takes the input
      that state asks for. */
  lemma StepFollowsFormOrder(s: Session, e: Event, outcome: SmtpOutcome)
    ensures var t := Step(s, e, outcome);
            && (t.next.state == s.state || t.next.state == Idle
                || Code(t.next.state) == Code(s.state) + 1)
            && (Code(t.next.state) == Code(s.state) + 1 ==> Advances(s.state, e))
  {
  }

  /** The text steps store the message as typed and touch no other field;
      an address without '@' leaves the session unchanged. */
  lemma TextStepsWriteOwnField(s: Session, text: string, outcome: SmtpOutcome)
    ensures var t := Step(s, TextMessage(text), outcome);
            && (s.state == AskEmail && '@' !in text ==> t.next == s)
            && (s.state == AskEmail && '@' in text ==>
                  t.next == Session(AskPassword, s.record.(senderEmail := Some(Text.Strip(text)))))
            && (s.state == AskPassword ==>
                  t.next == Session(AskSubject, s.record.(smtpPassword := Some(text))))
            && (s.state == AskSubject ==>
                  t.next == Session(AskBody, s.record.(subject := Some(text))))
            && (s.state == AskBody ==>
                  t.next == Session(AskRecipient, s.record.(bodyText := Some(text))))
  {
  }

  /** In the attachment step every document keeps the step where it is, a
      refused one changes nothing, and an admitted one goes to the end. */
  lemma UploadStaysInAttachmentStep(s: Session, doc: Attachment, outcome: SmtpOutcome)
    requires s.state == AskAttachments
    ensures var t := Step(s, DocumentMessage(doc), outcome);
            && t.next.state == AskAttachments
            && (Admit(s.record.attachments, doc).Rejected? ==> t.next == s)
            && (Admit(s.record.attachments, doc).Accepted? ==>
                  t.next.record.attachments == s.record.attachments + [doc])
  {
  }

  /** Choosing a recipient stores the button data as it came, starts an
      empty attachment list, and moves to the attachment step. */
  lemma RecipientStepResetsAttachments(s: Session, data: string, outcome: SmtpOutcome)
    requires s.state == AskRecipient
    ensures Step(s, Callback(data), outcome).next
            == Session(AskAttachments, s.record.(recipientChoice := Some(data), attachments := []))
  {
  }

  /** In a reachable session `/done` always reaches the confirmation step,
      keeping the record, and the summary shows the stored fields, the body
      preview and the attachment count. */
  lemma DoneShowsSummary(s: Session, outcome: SmtpOutcome)
    requires Inv(s) && s.state == AskAttachments
    ensures var t := Step(s, Command(Done), outcome);
            var r := s.record;
            && t.next == Session(ConfirmSend, r)
            && t.effects == [Say(Summary(r.senderEmail.value, r.recipientChoice.value, r.subject.value,
                                         Text.Preview(r.bodyText.value), |r.attachments|,
                                         ConfirmChoices))]
  {
  }

  /** In a reachable session the confirmation step ends the conversation
      with the record cleared, whichever button was pressed, unless "yes"
      meets a record the message cannot be built from (a header of more than
      one line, an attachment without a part): then composing raises before
      any delivery and the session stays as it was. */
  lemma ConfirmationEndsConversation(s: Session, data: string, outcome: SmtpOutcome)
    requires Inv(s) && s.state == ConfirmSend
    ensures var t := Step(s, Callback(data), outcome);
            var r := s.record;
            var composable := Encodable(r.senderEmail.value, r.recipientChoice.value, r.subject.value,
                                        r.attachments);
            && (t.next == Init <==> data != "yes" || composable)
            && (t.next != Init ==> t.next == s && Raise in t.effects)
  {
    assert Step(s, Callback(data), outcome) == OnConfirmation(s.record, data, outcome);
  }

  /** `/cancel` ends any running conversation with the record cleared and no
      delivery; with no conversation running it is ignored. */
  lemma CancelEndsConversation(s: Session, outcome: SmtpOutcome)
    ensures var t := Step(s, Command(Cancel), outcome);
            && (s.state != Idle ==> t.next == Init && t.effects == [Say(ProcedureCancelled)])
            && (s.state == Idle ==> t.next == s && t.effects == [])
  {
  }

  /** `/report` starts over from a cleared record only when no conversation
      is running; inside one it is not an accepted input and is ignored. */
  lemma ReportStartsOnlyWhenIdle(s: Session, outcome: SmtpOutcome)
    ensures var t := Step(s, Command(Report), outcome);
            && (s.state == Idle ==> t.next == Session(AskEmail, Empty))
            && (s.state != Idle ==> t.next == s && t.effects == [])
  {
  }

  /** Inside a conversation, an input the current state has no handler for
      is ignored unless it is `/cancel` or `/start`: a text in the
      confirmation step, a button in the sender step, `/done` outside the
      attachment step or a document in a text step changes nothing and gets
      no answer. */
  lemma UnacceptedInputIgnored(s: Session, e: Event, outcome: SmtpOutcome)
    requires s.state != Idle && !Accepts(s.state, e)
    requires e != Command(Cancel) && e != Command(Start)
    ensures Step(s, e, outcome) == Transition(s, [])
  {
  }

  /** An input the current state has a handler for goes to that handler;
      such an input is never one of the commands handled elsewhere. */
  lemma AcceptedInputHandled(s: Session, e: Event, outcome: SmtpOutcome)
    requires Accepts(s.state, e)
    ensures s.state != Idle && e != Command(Start) && e != Command(Cancel) && e != Command(Report)
    ensures Step(s, e, outcome) == StateHandler(s.state, s.record, e, outcome).value
  {
  }

  /** `/start` is answered with the welcome text in every session, and
      neither the state nor the record changes. */
  lemma StartAlwaysWelcomes(s: Session, outcome: SmtpOutcome)
    ensures Step(s, Command(Start), outcome) == Transition(s, [Say(Welcome)])
  {
  }

  /** Only the button data "yes" in the confirmation step can hand a message
      to the mail server, at most once per event; in a reachable session it
      does so exactly when the message can be built: single-line sender,
      recipient and subject, and a part for every attachment. */
  lemma DeliveryOnlyOnYes(s: Session, e: Event, outcome: SmtpOutcome)
    requires Inv(s)
    ensures var d := Deliveries(Step(s, e, outcome).effects);
            && |d| <= 1
            && (d != [] <==>
                  && s.state == ConfirmSend && e == Callback("yes")
                  && Encodable(s.record.senderEmail.value, s.record.recipientChoice.value,
                               s.record.subject.value, s.record.attachments))
  {
    if s.state == ConfirmSend && e == Callback("yes") {
      assert Step(s, e, outcome) == OnConfirmation(s.record, "yes", outcome);
    }
  }

  /** A delivered message carries the record's sender, recipient, subject and
      body, the attachments' parts in the order they were admitted, and the
      stored login; afterwards the record is cleared whatever the server
      answered. */
  lemma DeliveryCarriesRecord(s: Session, outcome: SmtpOutcome)
    requires Inv(s) && s.state == ConfirmSend
    requires MessageOf(s.record).Some?
    ensures var t := Step(s, Callback("yes"), outcome);
            var m := MessageOf(s.record).value;
            && t.next == Init
            && t.effects == [Say(Sending),
                             Send(SmtpHost, SmtpPort, s.record.senderEmail.value,
                                  s.record.smtpPassword.value, m),
                             Say(DeliveryReport(outcome, s.record.recipientChoice.value))]
            && m.from == s.record.senderEmail.value && m.to == s.record.recipientChoice.value
            && m.subject == s.record.subject.value && m.body == s.record.bodyText.value
            && |m.parts| == |s.record.attachments|
            && forall i :: 0 <= i < |m.parts| ==>
                 m.parts[i].content == s.record.attachments[i].content
                 && m.parts[i].fileName == s.record.attachments[i].fileName
  {
  }

  /** Confirming a buildable report with a stored password ends with one
      reply matching the server's answer: success naming the recipient and
      the response, the login message for a refused login, and the error
      text for any other failure. */
  lemma ServerAnswerReported(s: Session, outcome: SmtpOutcome)
    requires Inv(s) && s.state == ConfirmSend
    requires MessageOf(s.record).Some?
    ensures var t := Step(s, Callback("yes"), outcome);
            var recipient := s.record.recipientChoice.value;
            && |t.effects| == 3
            && (outcome.Delivered? ==> t.effects[2] == Say(SentTo(recipient, outcome.response)))
            && (outcome.AuthRejected? ==> t.effects[2] == Say(AuthenticationFailed))
            && (outcome.Failed? ==> t.effects[2] == Say(SendFailed(outcome.detail)))
  {
    DeliveryCarriesRecord(s, outcome);
  }

  /** Every delivered message respects the caps on its parts. */
  predicate SendsWithinLimits(effects: seq<Effect>)
  {
    var d := Deliveries(effects);
    forall i :: 0 <= i < |d| ==>
      |d[i].message.parts| <= MaxAttachments && PartsSize(d[i].message.parts) <= MaxTotalBytes
  }

  /** Deliveries of concatenated effect lists are concatenated in order. */
  lemma {:induction false} DeliveriesAppend(a: seq<Effect>, b: seq<Effect>)
    ensures Deliveries(a + b) == Deliveries(a) + Deliveries(b)
  {
    if |a| > 0 {
      assert (a + b)[0] == a[0];
      assert (a + b)[1..] == a[1..] + b;
      DeliveriesAppend(a[1..], b);
    } else {
      assert a + b == b;
    }
  }

  /** A single step from a reachable session never sends an oversized message. */
  lemma StepSendsWithinLimits(s: Session, e: Event, outcome: SmtpOutcome)
    requires Inv(s)
    ensures SendsWithinLimits(Step(s, e, outcome).effects)
  {
    var d := Deliveries(Step(s, e, outcome).effects);
    if d != [] {
      var m := MessageOf(s.record).value;
      assert m.parts == ComposeParts(s.record.attachments).value;
      ComposePartsSize(s.record.attachments);
    }
  }

  /** No conversation, however long, ever hands the mail server more than ten
      attachments or more than 25 MiB of attachment bytes. */
  lemma {:induction false} RunSendsWithinLimits(s: Session, inputs: seq<Input>)
    requires Inv(s)
    ensures SendsWithinLimits(Run(s, inputs).effects)
    decreases |inputs|
  {
    if |inputs| > 0 {
      var t := Step(s, inputs[0].event, inputs[0].outcome);
      StepSendsWithinLimits(s, inputs[0].event, inputs[0].outcome);
      StepPreservesInv(s, inputs[0].event, inputs[0].outcome);
      RunSendsWithinLimits(t.next, inputs[1..]);
      var rest := Run(t.next, inputs[1..]);
      assert Run(s, inputs).effects == t.effects + rest.effects;
      SendsWithinLimitsAppend(t.effects, rest.effects);
    }
  }

  /** Two effect lists within the caps concatenate to one within them. */
  lemma SendsWithinLimitsAppend(a: seq<Effect>, b: seq<Effect>)
    requires SendsWithinLimits(a) && SendsWithinLimits(b)
    ensures SendsWithinLimits(a + b)
  {
    DeliveriesAppend(a, b);
    var d1, d2 := Deliveries(a), Deliveries(b);
    assert forall i :: |d1| <= i < |d1 + d2| ==> (d1 + d2)[i] == d2[i - |d1|];
  }

  /** The mail server's answer used in the scenarios. */
  const Accepted250: SmtpOutcome := Delivered("250 OK")

  /** The records of the reference conversation as it goes: sender
      "a@b.com", password "p", subject "S", body "B". */
  const AfterSender: Record := Empty.(senderEmail := Some("a@b.com"))
  const AfterPassword: Record := AfterSender.(smtpPassword := Some("p"))
  const AfterSubject: Record := AfterPassword.(subject := Some("S"))
  const AfterBody: Record := AfterSubject.(bodyText := Some("B"))

  /** The record of the reference conversation when the confirmation
      buttons are shown: the first recipient button is chosen and there are
      no attachments. */
  const ScenarioRecord: Record :=
    Record(Some("a@b.com"), Some("p"), Some("S"), Some("B"), Some("abuse@telegram.org"), [])

  /** `/report` opens the reference conversation on a cleared record. */
  lemma ScenarioStarts()
    ensures Step(Init, Command(Report), Accepted250) == Transition(Session(AskEmail, Empty), [Say(PromptEmail)])
  {
  }

  /** The address typed in the reference conversation is accepted as is. */
  lemma ScenarioAddressAccepted()
    ensures Step(Session(AskEmail, Empty), TextMessage("a@b.com"), Accepted250).next
            == Session(AskPassword, AfterSender)
  {
    Text.StripTrimmed("a@b.com");
    assert "a@b.com"[1] == '@';
  }

  /** The password "p" is stored and the subject is asked for. */
  lemma ScenarioPasswordStored()
    ensures Step(Session(AskPassword, AfterSender), TextMessage("p"), Accepted250)
            == Transition(Session(AskSubject, AfterPassword), [Say(PromptSubject)])
  {
  }

  /** The subject "S" is stored and the body is asked for. */
  lemma ScenarioSubjectStored()
    ensures Step(Session(AskSubject, AfterPassword), TextMessage("S"), Accepted250)
            == Transition(Session(AskBody, AfterSubject), [Say(PromptBody)])
  {
  }

  /** The body "B" is stored and the two recipients are offered. */
  lemma ScenarioBodyStored()
    ensures Step(Session(AskBody, AfterSubject), TextMessage("B"), Accepted250)
            == Transition(Session(AskRecipient, AfterBody), [Say(RecipientMenu(Recipients))])
  {
  }

  /** Pressing the first recipient button chooses it and opens the
      attachment step with an empty list. */
  lemma ScenarioRecipientChosen()
    ensures Step(Session(AskRecipient, AfterBody), Callback(Recipients[0]), Accepted250)
            == Transition(Session(AskAttachments, ScenarioRecord), [Say(PromptAttachments)])
  {
  }

  /** `/done` with no attachments shows the summary of the reference report
      and waits for confirmation. */
  lemma ScenarioDoneShowsSummary()
    ensures Step(Session(AskAttachments, ScenarioRecord), Command(Done), Accepted250)
            == Transition(Session(ConfirmSend, ScenarioRecord),
                          [Say(Summary("a@b.com", "abuse@telegram.org", "S", "B", 0, ConfirmChoices))])
  {
  }

  /** Confirming the reference conversation hands exactly one message to the
      mail server: from "a@b.com" to "abuse@telegram.org", subject "S", body
      "B", no attachments, logged in with "p"; the user is told it went to
      that recipient, and the conversation ends with the record cleared. */
  lemma ConfirmedScenarioSendsOnce()
    ensures var t := Step(Session(ConfirmSend, ScenarioRecord), Callback("yes"), Accepted250);
            && t.next == Init
            && |Deliveries(t.effects)| == 1
            && t.effects[1] == Send(SmtpHost, SmtpPort, "a@b.com", "p",
                                    Message("a@b.com", "abuse@telegram.org", "S", "B", []))
            && t.effects[2] == Say(SentTo("abuse@telegram.org", "250 OK"))
  {
    ScenarioMessage();
  }

  /** The reference record composes into the expected message. */
  lemma ScenarioMessage()
    ensures MessageOf(ScenarioRecord) == Some(Message("a@b.com", "abuse@telegram.org", "S", "B", []))
  {
    Text.PrintableSingleLine("a@b.com");
    Text.PrintableSingleLine("abuse@telegram.org");
    Text.PrintableSingleLine("S");
  }

  /** Declining the reference conversation sends nothing, acknowledges the
      cancellation, and ends with the record cleared. */
  lemma DeclinedScenarioSendsNothing()
    ensures var t := Step(Session(ConfirmSend, ScenarioRecord), Callback("no"), Accepted250);
            && t.next == Init
            && t.effects == [Say(SendCancelled)]
  {
  }

  /** An eleventh document, with ten already stored, is refused for the count
      whatever its size, and the ten stay as they were. */
  lemma EleventhUploadRejected(rec: Record, doc: Attachment)
    requires |rec.attachments| == MaxAttachments
    ensures var t := Step(Session(AskAttachments, rec), DocumentMessage(doc), Accepted250);
            && t.next == Session(AskAttachments, rec)
            && t.effects == [Say(TooManyAttachments)]
  {
  }

  /** A document that brings the total to exactly 25 MiB is still admitted;
      one byte more is refused for the size. */
  lemma SizeCapBoundary(rec: Record, doc: Attachment)
    requires |rec.attachments| < MaxAttachments
    ensures TotalSize(rec.attachments) + |doc.content| == MaxTotalBytes ==>
              Step(Session(AskAttachments, rec), DocumentMessage(doc), Accepted250).next.record.attachments
              == rec.attachments + [doc]
    ensures TotalSize(rec.attachments) + |doc.content| == MaxTotalBytes + 1 ==>
              Step(Session(AskAttachments, rec), DocumentMessage(doc), Accepted250)
              == Transition(Session(AskAttachments, rec), [Say(TotalSizeExceeded)])
  {
  }
}
