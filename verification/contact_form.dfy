/** The contact form's submit handler (script.js:78-161) as a state machine over the submit
    button: idle, sending, then showing success or failure until the 4000 ms timer restores the
    button. */
module ContactForm {
  import opened Wrappers
  import opened Text
  import opened ClientValidation
  import opened Notifications

  datatype Phase =
    | Idle
    | Sending(original: string)                   // the button label saved before sending
    | Showing(original: string, succeeded: bool)  // the outcome shown until the timer fires

  /** The trimmed fields handed to `sendToTelegram`. */
  datatype Submission = Submission(name: string, contact: string, message: string)

  const SendingLabel := "Отправляется..."
  const SentLabel := "✅ Заявка отправлена!"
  const FailedLabel := "❌ Ошибка отправки"
  const RestoredColor := "#FFD700"

  /** The label the button wears in a busy phase. */
  function Label(phase: Phase): string
    requires !phase.Idle?
  {
    match phase
    case Sending(_) => SendingLabel
    case Showing(_, succeeded) => if succeeded then SentLabel else FailedLabel
  }

  /** The background the button takes when the outcome is shown. */
  function OutcomeColor(succeeded: bool): string {
    if succeeded then SuccessColor else ErrorColor
  }

  class Form {
    // The values of the three inputs.
    var name: string
    var contact: string
    var message: string
    // The submit button.
    var buttonText: string
    var buttonDisabled: bool
    var buttonColor: string
    var phase: Phase
    var notifier: Notifier

    /** The button is disabled exactly while a submission is in flight or its outcome is shown,
        and its label and colour tell which. */
    ghost predicate Valid()
      reads this, notifier
    {
      && notifier.Valid()
      && (buttonDisabled <==> !phase.Idle?)
      && (!phase.Idle? ==> buttonText == Label(phase))
      && (phase.Showing? ==> buttonColor == OutcomeColor(phase.succeeded))
    }

    constructor (buttonText: string, buttonColor: string)
      ensures Valid() && fresh(notifier)
      ensures phase == Idle && notifier.toasts == []
      ensures name == "" && contact == "" && message == ""
      ensures this.buttonText == buttonText && this.buttonColor == buttonColor
    {
      name, contact, message := "", "", "";
      this.buttonText := buttonText;
      this.buttonColor := buttonColor;
      buttonDisabled := false;
      phase := Idle;
      notifier := new Notifier();
    }

    /** The `submit` listener up to the `await`: trim the fields, run the checks, and either
        show the first failing check's notification or put the button in its sending state and
        hand over the submission. A disabled submit button cannot submit, so this runs only
        from the idle phase. */
    method Submit() returns (sent: Option<Submission>)
      requires Valid() && phase.Idle?
      modifies this, notifier
      ensures Valid() && notifier == old(notifier)
      ensures name == old(name) && contact == old(contact) && message == old(message)
      ensures sent.Some? <==> CheckSubmission(JsTrim(old(name)), JsTrim(old(contact))).Proceed?
      ensures sent.Some? ==>
        && sent.value == Submission(JsTrim(old(name)), JsTrim(old(contact)), JsTrim(old(message)))
        && phase == Sending(old(buttonText)) && buttonText == SendingLabel
        && buttonColor == old(buttonColor) && notifier.toasts == old(notifier.toasts)
      ensures sent.None? ==>
        && phase == Idle && buttonText == old(buttonText) && buttonColor == old(buttonColor)
        && notifier.toasts ==
             [ToastOf(old(notifier.nextId), Notice(CheckSubmission(JsTrim(old(name)), JsTrim(old(contact)))), "error")]
    {
      var fields := Submission(JsTrim(name), JsTrim(contact), JsTrim(message));
      sent := Check(fields);
    }

    /** The checks on the trimmed fields: a refusal shows the first failing check's
        notification, an accepted form puts the button in its sending state and hands over
        the fields. */
    method Check(fields: Submission) returns (sent: Option<Submission>)
      requires Valid() && phase.Idle?
      modifies this, notifier
      ensures Valid() && notifier == old(notifier)
      ensures name == old(name) && contact == old(contact) && message == old(message)
      ensures sent.Some? <==> CheckSubmission(fields.name, fields.contact).Proceed?
      ensures sent.Some? ==>
        && sent.value == fields
        && phase == Sending(old(buttonText)) && buttonText == SendingLabel
        && buttonColor == old(buttonColor) && notifier.toasts == old(notifier.toasts)
      ensures sent.None? ==>
        && phase == Idle && buttonText == old(buttonText) && buttonColor == old(buttonColor)
        && notifier.toasts == [ToastOf(old(notifier.nextId), Notice(CheckSubmission(fields.name, fields.contact)), "error")]
    {
      var v := CheckSubmission(fields.name, fields.contact);
      if !v.Proceed? {
        Refuse(v);
        sent := None;
      } else {
        StartSending();
        sent := Some(fields);
      }
    }

    /** A refused form: the button stays as it is and the first failing check is reported. */
    method Refuse(v: ClientVerdict)
      requires Valid() && phase.Idle? && !v.Proceed?
      modifies notifier
      ensures Valid()
      ensures notifier.toasts == [ToastOf(old(notifier.nextId), Notice(v), "error")]
      ensures name == old(name) && contact == old(contact) && message == old(message)
      ensures phase == old(phase) && buttonText == old(buttonText) && buttonColor == old(buttonColor)
    {
      var _ := notifier.Show(Notice(v), "error");
    }

    /** An accepted form: the button saves its label, then shows that the form is being sent
        and stops taking clicks. */
    method StartSending()
      requires Valid() && phase.Idle?
      modifies this
      ensures Valid()
      ensures phase == Sending(old(buttonText)) && buttonText == SendingLabel && buttonColor == old(buttonColor)
      ensures name == old(name) && contact == old(contact) && message == old(message)
      ensures notifier == old(notifier)
    {
      phase := Sending(buttonText);
      buttonText := SendingLabel;
      buttonDisabled := true;
    }

    /** The rest of the listener once `sendToTelegram` resolved with `answer`: show the outcome
        on the button and in a notification; a success also resets the form. */
    method Settle(answer: BackendAnswer)
      requires Valid() && phase.Sending?
      modifies this, notifier
      ensures Valid() && notifier == old(notifier)
      ensures var ok := SendToTelegram(answer).success;
        && phase == Showing(old(phase.original), ok)
        && (ok ==>
              && name == "" && contact == "" && message == ""
              && notifier.toasts == [ToastOf(old(notifier.nextId), ThanksNotice, "success")])
        && (!ok ==>
              && name == old(name) && contact == old(contact) && message == old(message)
              && notifier.toasts == [ToastOf(old(notifier.nextId), FailureNotice, "error")])
    {
      var result := SendToTelegram(answer);
      if result.success {
        buttonText := SentLabel;
        buttonColor := SuccessColor;
        name, contact, message := "", "", "";
        var _ := notifier.Show(ThanksNotice, "success");
      } else {
        buttonText := FailedLabel;
        buttonColor := ErrorColor;
        var _ := notifier.Show(FailureNotice, "error");
      }
      phase := Showing(phase.original, result.success);
    }

    /** The 4000 ms timer: the button gets back its saved label, is enabled and turns gold. */
    method TimerFires()
      requires Valid() && phase.Showing?
      modifies this
      ensures Valid()
      ensures phase == Idle && buttonText == old(phase.original) && !buttonDisabled && buttonColor == RestoredColor
      ensures notifier == old(notifier)
      ensures name == old(name) && contact == old(contact) && message == old(message)
    {
      buttonText := phase.original;
      buttonDisabled := false;
      buttonColor := RestoredColor;
      phase := Idle;
    }
  }
}
