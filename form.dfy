/**
 * The form collector of `components/ApplicationForm.tsx`: six text fields
 * and one optional résumé file held as component state, updated by the
 * input handlers, packed into a multipart payload on submit and cleared
 * once the caller's submission handler succeeds.
 *
 * Each `useState` pair becomes a field of `ApplicationForm` and each setter
 * a method; a submit is one atomic step whose submission handler is a
 * parameter.
 */
module Form {
  import opened Wrappers

  /** A file chosen in the browser's file input. */
  datatype ResumeFile = ResumeFile(name: string, mediaType: string, content: seq<bv8>)

  /** One value appended to the multipart payload. */
  datatype Value = Text(text: string) | Attachment(file: ResumeFile)

  /** The entries of a `FormData`, in the order they were appended. */
  type Payload = seq<(string, Value)>

  /** How the caller's submission handler settles: resolved or rejected. */
  datatype HandlerOutcome = Succeeded | Failed

  /** A snapshot of all seven state values. */
  datatype FormState = FormState(
    firstName: string, lastName: string, email: string,
    phone: string, linkedin: string, coverLetter: string,
    resume: Option<ResumeFile>)

  /** The state a fresh form starts in, and the one `clearForm` restores. */
  const Initial := FormState("", "", "", "", "", "", None)

  /** The field names of the payload, in the order submit appends them. */
  const PayloadNames := ["firstName", "lastName", "email", "phone", "linkedin", "coverLetter", "resume"]

  function Names(p: Payload): (names: seq<string>)
    ensures |names| == |p|
    ensures forall i :: 0 <= i < |p| ==> names[i] == p[i].0
  {
    if p == [] then [] else [p[0].0] + Names(p[1..])
  }

  /** The payload a submit sends for state `s`: one entry per state value. */
  function PayloadOf(s: FormState): Payload
    requires s.resume.Some?
  {
    [("firstName", Text(s.firstName)), ("lastName", Text(s.lastName)), ("email", Text(s.email)),
     ("phone", Text(s.phone)), ("linkedin", Text(s.linkedin)), ("coverLetter", Text(s.coverLetter)),
     ("resume", Attachment(s.resume.value))]
  }

  /**
   * The payload has exactly seven entries under the fixed names, in order,
   * each holding the current value of its state; there is no check of the
   * names or the email.
   */
  lemma PayloadCarriesAllSevenValues(s: FormState)
    requires s.resume.Some?
    ensures var p := PayloadOf(s);
      && Names(p) == PayloadNames
      && p[0].1 == Text(s.firstName) && p[1].1 == Text(s.lastName) && p[2].1 == Text(s.email)
      && p[3].1 == Text(s.phone) && p[4].1 == Text(s.linkedin) && p[5].1 == Text(s.coverLetter)
      && p[6].1 == Attachment(s.resume.value)
  {
  }

  class ApplicationForm {
    var firstName: string
    var lastName: string
    var email: string
    var phone: string
    var linkedin: string
    var coverLetter: string
    var resume: Option<ResumeFile>

    function State(): FormState
      reads this
    {
      FormState(firstName, lastName, email, phone, linkedin, coverLetter, resume)
    }

    /** Every text field starts as "" and there is no résumé. */
    constructor ()
      ensures State() == Initial
    {
      firstName, lastName, email := "", "", "";
      phone, linkedin, coverLetter := "", "", "";
      resume := None;
    }

    // Each setter stores any string, unchecked, and touches only its own field.

    method SetFirstName(value: string)
      modifies this
      ensures State() == old(State()).(firstName := value)
    {
      firstName := value;
    }

    method SetLastName(value: string)
      modifies this
      ensures State() == old(State()).(lastName := value)
    {
      lastName := value;
    }

    method SetEmail(value: string)
      modifies this
      ensures State() == old(State()).(email := value)
    {
      email := value;
    }

    method SetPhone(value: string)
      modifies this
      ensures State() == old(State()).(phone := value)
    {
      phone := value;
    }

    method SetLinkedin(value: string)
      modifies this
      ensures State() == old(State()).(linkedin := value)
    {
      linkedin := value;
    }

    method SetCoverLetter(value: string)
      modifies this
      ensures State() == old(State()).(coverLetter := value)
    {
      coverLetter := value;
    }

    /** Every value back to its initial one, whatever the state was, so a second call changes nothing. */
    method ClearForm()
      modifies this
      ensures State() == Initial
    {
      firstName := "";
      lastName := "";
      email := "";
      phone := "";
      linkedin := "";
      coverLetter := "";
      resume := None;
    }

    /** A selection keeps its first file; an empty selection changes nothing. */
    method HandleFileChange(selected: seq<ResumeFile>)
      modifies this
      ensures |selected| > 0 ==> State() == old(State()).(resume := Some(selected[0]))
      ensures |selected| == 0 ==> State() == old(State())
    {
      if |selected| > 0 {
        resume := Some(selected[0]);
      }
    }

    /**
     * Without a résumé nothing is sent and nothing changes. Otherwise the
     * seven entries are handed to `onSubmit`; the form is cleared when it
     * succeeds and left exactly as it was when it fails. `sent` is the
     * payload the handler received, if it was called.
     */
    method HandleSubmit(onSubmit: Payload -> HandlerOutcome) returns (sent: Option<Payload>)
      modifies this
      ensures old(resume).None? ==> sent == None && State() == old(State())
      ensures old(resume).Some? ==> sent == Some(PayloadOf(old(State())))
      ensures old(resume).Some? && onSubmit(PayloadOf(old(State()))) == Succeeded ==> State() == Initial
      ensures old(resume).Some? && onSubmit(PayloadOf(old(State()))) == Failed ==> State() == old(State())
    {
      if resume.None? {
        sent := None;
        return;
      }

      var formData: Payload := [];
      formData := formData + [("firstName", Text(firstName))];
      formData := formData + [("lastName", Text(lastName))];
      formData := formData + [("email", Text(email))];
      formData := formData + [("phone", Text(phone))];
      formData := formData + [("linkedin", Text(linkedin))];
      formData := formData + [("coverLetter", Text(coverLetter))];
      formData := formData + [("resume", Attachment(resume.value))];
      assert formData == PayloadOf(State());
      sent := Some(formData);

      if onSubmit(formData) == Succeeded {
        ClearForm();
      }
    }
  }
}
