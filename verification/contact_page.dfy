/** The contact form (bookit-frontend/src/pages/ContactPage.tsx). */
module ContactPage {
  import opened Wrappers
  import opened Text
  import opened Forms

  datatype ContactField = NameField | EmailField | PhoneField | SubjectField | MessageField

  datatype ContactForm = ContactForm(name: string, email: string, phone: string, subject: string, message: string)
  {
    /** `{ ...prev, [name]: value }`: one field replaced, the others kept. */
    function With(field: ContactField, value: string): (r: ContactForm)
      ensures field == NameField ==> r == this.(name := value)
      ensures field == EmailField ==> r == this.(email := value)
      ensures field == PhoneField ==> r == this.(phone := value)
      ensures field == SubjectField ==> r == this.(subject := value)
      ensures field == MessageField ==> r == this.(message := value)
    {
      match field
      case NameField => this.(name := value)
      case EmailField => this.(email := value)
      case PhoneField => this.(phone := value)
      case SubjectField => this.(subject := value)
      case MessageField => this.(message := value)
    }
  }

  /** The form as first shown and as reset after sending. */
  const Empty := ContactForm("", "", "", "", "")

  /**
   * `validateForm`: an error for a name shorter than two characters, an address
   * the e-mail pattern rejects, a subject shorter than five and a message shorter
   * than ten (each also when blank); the phone number is never checked.
   */
  function ContactErrors(form: ContactForm): (errors: map<ContactField, string>)
    ensures NameField in errors <==> !FilledAtLeast(form.name, 2)
    ensures EmailField in errors <==> !ValidEmail(form.email)
    ensures SubjectField in errors <==> !FilledAtLeast(form.subject, 5)
    ensures MessageField in errors <==> !FilledAtLeast(form.message, 10)
    ensures PhoneField !in errors
    ensures NameField in errors ==> errors[NameField] == "Please enter a valid name"
    ensures EmailField in errors ==> errors[EmailField] == "Please enter a valid email address"
    ensures SubjectField in errors ==> errors[SubjectField] == "Subject must be at least 5 characters"
    ensures MessageField in errors ==> errors[MessageField] == "Message must be at least 10 characters"
  {
    var e0: map<ContactField, string> := map[];
    var e1 := if FilledAtLeast(form.name, 2) then e0 else e0[NameField := "Please enter a valid name"];
    var e2 := if ValidEmail(form.email) then e1 else e1[EmailField := "Please enter a valid email address"];
    var e3 := if FilledAtLeast(form.subject, 5) then e2 else e2[SubjectField := "Subject must be at least 5 characters"];
    if FilledAtLeast(form.message, 10) then e3 else e3[MessageField := "Message must be at least 10 characters"]
  }

  /** The form passes exactly when name, subject and message are long enough and the address has the e-mail shape. */
  lemma ContactAccepts(form: ContactForm)
    ensures |ContactErrors(form)| == 0 <==>
      FilledAtLeast(form.name, 2) && EmailShape(form.email)
      && FilledAtLeast(form.subject, 5) && FilledAtLeast(form.message, 10)
  {
    ValidEmailShape(form.email);
    var errors := ContactErrors(form);
    if |errors| != 0 {
      var f :| f in errors;
    }
  }

  /** The empty form, as first shown, is rejected on every checked field. */
  lemma EmptyFormRejected()
    ensures ContactErrors(Empty).Keys == {NameField, EmailField, SubjectField, MessageField}
  {
    assert !MatchesEmailPattern("");
  }

  /** The page's state. */
  class ContactView {
    var form: ContactForm
    var errors: map<ContactField, string>
    var submitted: bool

    constructor ()
      ensures form == Empty && errors == map[] && !submitted
    {
      form := Empty;
      errors := map[];
      submitted := false;
    }

    /** Typing in a field: the value is stored and that field's error message emptied. */
    method Change(field: ContactField, value: string)
      modifies this
      ensures form == old(form).With(field, value)
      ensures errors == ClearError(old(errors), field)
      ensures submitted == old(submitted)
    {
      form := form.With(field, value);
      if field in errors && errors[field] != "" {
        errors := errors[field := ""];
      }
    }

    /**
     * Send: the form is validated; a valid form is what gets sent, after which the
     * success notice shows and the form is emptied. An invalid form stays as typed.
     */
    method Submit() returns (sent: Option<ContactForm>)
      modifies this
      ensures errors == ContactErrors(old(form))
      ensures sent.Some? <==> |errors| == 0
      ensures sent.Some? ==> sent.value == old(form) && submitted && form == Empty
      ensures sent.None? ==> form == old(form) && submitted == old(submitted)
    {
      ShowErrors();
      if |errors| != 0 {
        return None;
      }
      sent := Some(form);
      ShowSent();
    }

    /** After a send: the success notice shows and the form is emptied for the next message. */
    method ShowSent()
      modifies this`form, this`submitted
      ensures form == Empty && submitted
    {
      submitted := true;
      form := Empty;
    }

    /** `validateForm`'s `setErrors`: the page shows the errors of the form as typed. */
    method ShowErrors()
      modifies this`errors
      ensures errors == ContactErrors(form)
    {
      errors := ContactErrors(form);
    }

    /** Five seconds after a send the success notice is hidden again. */
    method HideNotice()
      modifies this
      ensures !submitted && form == old(form) && errors == old(errors)
    {
      submitted := false;
    }
  }
}
