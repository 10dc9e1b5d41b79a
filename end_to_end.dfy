/**
 * The page of `pages/apply.tsx` wires the form to the relay: its submission
 * handler POSTs the form's payload to `/api/apply` and resolves exactly when
 * the response is `ok` (a 2xx status), rejecting otherwise.
 *
 * The multipart transfer (the browser encoding the `FormData`, the parser
 * decoding it) is idealised: text entries arrive as field values, and the
 * file entry arrives as an uploaded file whose bytes the parser keeps in
 * temporary storage at `tmpPath`.
 */
module EndToEnd {
  import opened Wrappers
  import Form
  import Relay

  // ---------------------------------------------------------------------
  // The multipart transfer
  // ---------------------------------------------------------------------

  /** Prepend `v` to the values of `key`. */
  function Prepend<T>(m: map<string, seq<T>>, key: string, v: T): map<string, seq<T>>
  {
    m[key := [v] + (if key in m then m[key] else [])]
  }

  /** The text entries of a payload, grouped by name, each group in payload order. */
  function TextFields(p: Form.Payload): Relay.Fields
  {
    if p == [] then map[]
    else match p[0].1
      case Text(t) => Prepend(TextFields(p[1..]), p[0].0, t)
      case Attachment(_) => TextFields(p[1..])
  }

  /** The uploaded form of a browser file stored at `tmpPath`. */
  function Uploaded(f: Form.ResumeFile, tmpPath: string): Relay.UploadedFile
  {
    Relay.UploadedFile(tmpPath, Some(f.name), Some(f.mediaType))
  }

  /** The file entries of a payload, grouped by name, each group in payload order. */
  function FileFields(p: Form.Payload, tmpPath: string): Relay.Files
  {
    if p == [] then map[]
    else match p[0].1
      case Text(_) => FileFields(p[1..], tmpPath)
      case Attachment(f) => Prepend(FileFields(p[1..], tmpPath), p[0].0, Uploaded(f, tmpPath))
  }

  function Transmit(p: Form.Payload, tmpPath: string): Relay.ParseResult
  {
    Relay.ParseOk(TextFields(p), FileFields(p, tmpPath))
  }

  /** The temporary storage after the transfer: the bytes of the payload's first file at `tmpPath`. */
  function Stored(p: Form.Payload, tmpPath: string): Relay.Storage
  {
    if p == [] then map[]
    else match p[0].1
      case Text(_) => Stored(p[1..], tmpPath)
      case Attachment(f) => Stored(p[1..], tmpPath)[tmpPath := f.content]
  }

  predicate TextOnly(q: Form.Payload)
  {
    forall i :: 0 <= i < |q| ==> q[i].1.Text?
  }

  /** The first text entry named `key`. */
  function FirstText(p: Form.Payload, key: string): Option<string>
  {
    if p == [] then None
    else if p[0].0 == key && p[0].1.Text? then Some(p[0].1.text)
    else FirstText(p[1..], key)
  }

  /** The first file entry named `key`. */
  function FirstFile(p: Form.Payload, key: string): Option<Form.ResumeFile>
  {
    if p == [] then None
    else if p[0].0 == key && p[0].1.Attachment? then Some(p[0].1.file)
    else FirstFile(p[1..], key)
  }

  /** After the transfer, the first value of a field is the first text entry of that name. */
  lemma {:induction false} FirstOfTextFields(p: Form.Payload, key: string)
    ensures Relay.FirstOf(TextFields(p), key) == FirstText(p, key)
  {
    if p != [] {
      FirstOfTextFields(p[1..], key);
    }
  }

  /** After the transfer, the first file of a field is the first file entry of that name. */
  lemma {:induction false} FirstOfFileFields(p: Form.Payload, tmpPath: string, key: string)
    ensures Relay.FirstOf(FileFields(p, tmpPath), key)
         == (match FirstFile(p, key) case None => None case Some(f) => Some(Uploaded(f, tmpPath)))
  {
    if p != [] {
      FirstOfFileFields(p[1..], tmpPath, key);
    }
  }

  /** Leading text entries change neither which file is found first nor what is stored. */
  lemma {:induction false} SkipTextEntries(p: Form.Payload, n: nat, key: string, tmpPath: string)
    requires n <= |p| && TextOnly(p[..n])
    ensures FirstFile(p, key) == FirstFile(p[n..], key)
    ensures Stored(p, tmpPath) == Stored(p[n..], tmpPath)
  {
    if n > 0 {
      assert p[..n][0] == p[0];
      assert p[1..][..n - 1] == p[..n][1..];
      SkipTextEntries(p[1..], n - 1, key, tmpPath);
      assert p[1..][n - 1..] == p[n..];
    }
  }

  /** The relay reads back exactly the form's names, email and résumé, and the résumé's bytes are stored. */
  lemma FormSubmissionArrivesIntact(s: Form.FormState, tmpPath: string)
    requires s.resume.Some?
    ensures Relay.Extract(TextFields(Form.PayloadOf(s)), FileFields(Form.PayloadOf(s), tmpPath))
         == Relay.Submission(Some(s.firstName), Some(s.lastName), Some(s.email), Some(Uploaded(s.resume.value, tmpPath)))
    ensures Stored(Form.PayloadOf(s), tmpPath) == map[tmpPath := s.resume.value.content]
  {
    var p := Form.PayloadOf(s);
    FirstOfTextFields(p, "firstName");
    FirstOfTextFields(p, "lastName");
    FirstOfTextFields(p, "email");
    FirstOfFileFields(p, tmpPath, "resume");
    SkipTextEntries(p, 6, "resume", tmpPath);
    assert p[6..] == [("resume", Form.Attachment(s.resume.value))];
    assert FirstFile(p, "resume") == Some(s.resume.value);
    assert Stored(p[6..], tmpPath) == map[tmpPath := s.resume.value.content] by {
      assert p[6..][1..] == [];
    }
    assert FirstText(p, "firstName") == Some(s.firstName);
    assert FirstText(p, "lastName") == Some(s.lastName);
    assert FirstText(p, "email") == FirstText(p[1..][1..], "email") == Some(s.email);
  }

  // ---------------------------------------------------------------------
  // The page's submission handler
  // ---------------------------------------------------------------------

  /** `response.ok`: resolve on a 2xx status, reject on any other. */
  function FetchOutcome(r: Relay.Response): Form.HandlerOutcome
  {
    if 200 <= r.status < 300 then Form.Succeeded else Form.Failed
  }

  /**
   * The relay's collaborators beyond the transfer: the create call, the
   * base64 encoding and the attach call.
   */
  datatype Downstream = Downstream(create: Relay.CreateResult, base64: seq<bv8> -> string, attach: Relay.AttachResult)

  /** What the relay sees when the page POSTs payload `p`. */
  function RelayOutcomes(tmpPath: string, d: Downstream, p: Form.Payload): Relay.Outcomes
  {
    Relay.Outcomes(Transmit(p, tmpPath), d.create, Stored(p, tmpPath), d.base64, d.attach)
  }

  function RelayRun(cfg: Relay.Config, tmpPath: string, d: Downstream, p: Form.Payload): Relay.Exchange
  {
    Relay.Expected(cfg, "POST", RelayOutcomes(tmpPath, d, p))
  }

  /** The handler the page passes to the form. */
  function PageHandler(cfg: Relay.Config, tmpPath: string, d: Downstream): Form.Payload -> Form.HandlerOutcome
  {
    p => FetchOutcome(RelayRun(cfg, tmpPath, d, p).response)
  }

  /**
   * The form checks only the résumé, so a payload whose name or email is ""
   * reaches the relay and is turned away there with 400 and no outbound
   * call; any other payload passes validation.
   */
  lemma RelayRejectsExactlyBlankNames(cfg: Relay.Config, tmpPath: string, d: Downstream, s: Form.FormState)
    requires s.resume.Some?
    ensures var x := RelayRun(cfg, tmpPath, d, Form.PayloadOf(s));
      && (x.response.status == 400 <==> s.firstName == "" || s.lastName == "" || s.email == "")
      && (x.response.status == 400 ==>
            && x.response.body.details == map["firstName" := Relay.Mark(s.firstName != ""),
                                              "lastName" := Relay.Mark(s.lastName != ""),
                                              "email" := Relay.Mark(s.email != ""),
                                              "resume" := "present"]
            && Relay.Outbound(x.trace) == [])
  {
    FormSubmissionArrivesIntact(s, tmpPath);
  }

  /**
   * Happy path: both calls are issued, the attachment to the created id with
   * the base64 of the résumé's own bytes, and the form is told success.
   */
  lemma HappyPathScenario(cfg: Relay.Config, tmpPath: string, resume: Form.ResumeFile, id: Relay.CandidateId, base64: seq<bv8> -> string)
    ensures var s := Form.FormState("Ana", "Ruiz", "ana@example.com", "", "", "", Some(resume));
      var x := RelayRun(cfg, tmpPath, Downstream(Relay.CandidateCreated(id), base64, Relay.AttachmentUploaded), Form.PayloadOf(s));
      && x.response == Relay.Response(200, Relay.SuccessBody(true))
      && Relay.Outbound(x.trace)
         == [Relay.PostCandidate(Relay.CandidatesUrl,
                                 Relay.CandidateBody("Ana", "Ruiz", "ana@example.com", [Relay.JobApplication(cfg.jobId)]),
                                 Relay.HeadersOf(cfg)),
             Relay.PostAttachment(Relay.AttachmentUrl(id),
                                  Relay.AttachmentBody(Some(resume.name), "resume", base64(resume.content), Some(resume.mediaType)),
                                  Relay.HeadersOf(cfg))]
      && FetchOutcome(x.response) == Form.Succeeded
  {
    var s := Form.FormState("Ana", "Ruiz", "ana@example.com", "", "", "", Some(resume));
    var d := Downstream(Relay.CandidateCreated(id), base64, Relay.AttachmentUploaded);
    var file := Uploaded(resume, tmpPath);
    var p := Form.PayloadOf(s);
    FormSubmissionArrivesIntact(s, tmpPath);
    var submission := Relay.Submission(Some("Ana"), Some("Ruiz"), Some("ana@example.com"), Some(file));
    assert Relay.Extract(TextFields(p), FileFields(p, tmpPath)) == submission;
    assert Stored(p, tmpPath)[file.filepath] == resume.content;
    var create := Relay.PostCandidate(Relay.CandidatesUrl, Relay.CandidateBodyOf(cfg, submission), Relay.HeadersOf(cfg));
    var read := Relay.ReadResume(file.filepath);
    var attach := Relay.PostAttachment(Relay.AttachmentUrl(id), Relay.AttachmentBodyOf(file, base64(resume.content)), Relay.HeadersOf(cfg));
    assert RelayRun(cfg, tmpPath, d, p)
        == Relay.Exchange(Relay.Response(200, Relay.SuccessBody(true)), [Relay.ParseMultipart, create, read, attach]);
    Relay.OutboundOfHandlerTraces(create, read, attach);
  }

  /** A blank email: 400 with only email marked missing, no outbound call, and the form is told failure. */
  lemma MissingEmailScenario(cfg: Relay.Config, tmpPath: string, d: Downstream, resume: Form.ResumeFile)
    ensures var s := Form.FormState("Ana", "Ruiz", "", "", "", "", Some(resume));
      var x := RelayRun(cfg, tmpPath, d, Form.PayloadOf(s));
      && x.response == Relay.Response(400, Relay.MissingFieldsBody(Relay.MissingRequiredFields,
           map["firstName" := "present", "lastName" := "present", "email" := "missing", "resume" := "present"]))
      && Relay.Outbound(x.trace) == []
      && FetchOutcome(x.response) == Form.Failed
  {
    FormSubmissionArrivesIntact(Form.FormState("Ana", "Ruiz", "", "", "", "", Some(resume)), tmpPath);
  }

  /** A rejected creation: the generic 500, one outbound call and no attachment, and the form is told failure. */
  lemma CreateRejectedScenario(cfg: Relay.Config, tmpPath: string, base64: seq<bv8> -> string, attach: Relay.AttachResult, resume: Form.ResumeFile)
    ensures var s := Form.FormState("Ana", "Ruiz", "ana@example.com", "", "", "", Some(resume));
      var x := RelayRun(cfg, tmpPath, Downstream(Relay.CreateError, base64, attach), Form.PayloadOf(s));
      && x.response == Relay.ServerError
      && |Relay.Outbound(x.trace)| == 1 && Relay.Outbound(x.trace)[0].PostCandidate?
      && FetchOutcome(x.response) == Form.Failed
  {
    var s := Form.FormState("Ana", "Ruiz", "ana@example.com", "", "", "", Some(resume));
    FormSubmissionArrivesIntact(s, tmpPath);
    Relay.OutboundCallsAreCreateThenAttach(cfg, "POST", RelayOutcomes(tmpPath, Downstream(Relay.CreateError, base64, attach), Form.PayloadOf(s)));
  }

  /**
   * One submit through the page: the form is cleared exactly when it held a
   * résumé and the relay answered 200; otherwise it keeps every value.
   */
  method SubmitApplication(form: Form.ApplicationForm, cfg: Relay.Config, tmpPath: string, d: Downstream)
      returns (sent: Option<Form.Payload>)
    modifies form
    ensures old(form.resume).None? ==> sent == None
    ensures old(form.resume).Some? ==> sent == Some(Form.PayloadOf(old(form.State())))
    ensures var ok := old(form.resume).Some? && RelayRun(cfg, tmpPath, d, Form.PayloadOf(old(form.State()))).response.status == 200;
      form.State() == if ok then Form.Initial else old(form.State())
  {
    sent := form.HandleSubmit(PageHandler(cfg, tmpPath, d));
    if old(form.resume).Some? {
      Relay.StatusesAndGenericErrors(cfg, "POST", RelayOutcomes(tmpPath, d, Form.PayloadOf(old(form.State()))));
    }
  }
}
