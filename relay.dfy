/**
 * The submission relay of `pages/api/apply.ts`: one HTTP request is checked
 * for its method, its multipart body is parsed, the required fields are
 * validated, a candidate is created in Greenhouse and the résumé is
 * attached to it, and one JSON response is sent back.
 *
 * Everything the handler hands to code it cannot see is an input here: the
 * outcome of the multipart parse (formidable), of the candidate creation and
 * of the attachment upload (axios), and of reading the uploaded temporary
 * file and base64-encoding it (fs, Buffer). The handler's result is the
 * response together with the trace of the effects it issued, in order.
 */
module Relay {
  import opened Wrappers

  // ---------------------------------------------------------------------
  // What the multipart parser delivers
  // ---------------------------------------------------------------------

  /** An uploaded file as the parser stores it in temporary storage. */
  datatype UploadedFile = UploadedFile(filepath: string, originalFilename: Option<string>, mimetype: Option<string>)

  /** Every text field name with all the values sent under it, in order. */
  type Fields = map<string, seq<string>>
  /** Every file field name with all the files sent under it, in order. */
  type Files = map<string, seq<UploadedFile>>

  // ---------------------------------------------------------------------
  // Outcomes of the external collaborators (inputs of the model)
  // ---------------------------------------------------------------------

  datatype ParseResult = ParseOk(fields: Fields, files: Files) | ParseError

  /**
   * A candidate id as `JSON.parse` delivers it: a JavaScript number, which
   * holds every integer exactly only below 2^53.
   */
  type CandidateId = n: nat | n < 0x20_0000_0000_0000

  /** The candidate-creation call: either the id in the response body, or any failure. */
  datatype CreateResult = CandidateCreated(id: CandidateId) | CreateError
  datatype AttachResult = AttachmentUploaded | AttachError

  /** The parser's temporary storage: the bytes stored at each file path. */
  type Storage = map<string, seq<bv8>>

  /**
   * Everything the handler depends on besides the configuration and the
   * request method: the parse, the create call, the temporary storage the
   * résumé is read from (a read of a path that is not there throws), the
   * library's base64 encoding (left uninterpreted) and the attach call.
   */
  datatype Outcomes = Outcomes(
    parse: ParseResult,
    create: CreateResult,
    storage: Storage,
    base64: seq<bv8> -> string,
    attach: AttachResult)

  /**
   * Process-wide configuration: the target job id and the acting user id may
   * be unset; `encodedApiKey` is the base64 text of "<api key>:" used in the
   * Basic authorization header.
   */
  datatype Config = Config(jobId: Option<string>, encodedApiKey: string, userId: Option<string>)

  // ---------------------------------------------------------------------
  // Outbound calls and the response
  // ---------------------------------------------------------------------

  datatype Headers = Headers(authorization: string, contentType: string, onBehalfOf: Option<string>)
  datatype JobApplication = JobApplication(jobId: Option<string>)
  datatype CandidateBody = CandidateBody(firstName: string, lastName: string, email: string, applications: seq<JobApplication>)
  datatype AttachmentBody = AttachmentBody(filename: Option<string>, kind: string, content: string, contentType: Option<string>)

  /** One effect of the handler, in the order it happens. */
  datatype Step =
    | ParseMultipart
    | PostCandidate(url: string, candidate: CandidateBody, headers: Headers)
    | ReadResume(path: string)
    | PostAttachment(url: string, attachment: AttachmentBody, headers: Headers)

  datatype Body =
    | ErrorBody(error: string)
    | MissingFieldsBody(error: string, details: map<string, string>)
    | SuccessBody(success: bool)

  datatype Response = Response(status: int, body: Body)

  /** What one request produces: the response and the effects issued. */
  datatype Exchange = Exchange(response: Response, trace: seq<Step>)

  const CandidatesUrl := "https://harvest.greenhouse.io/v1/candidates"
  const AttachmentsSuffix := "/attachments"
  const MethodNotAllowed := "Method not allowed"
  const MissingRequiredFields := "Missing required fields"
  const SubmissionFailed := "Error submitting application"

  /** The response every failure caught by the handler's `catch` gets. */
  const ServerError := Response(500, ErrorBody(SubmissionFailed))

  // ---------------------------------------------------------------------
  // Field extraction and validation (pure)
  // ---------------------------------------------------------------------

  /** `m[key]?.[0]`: the first value sent under `key`, if any. */
  function FirstOf<T>(m: map<string, seq<T>>, key: string): Option<T>
  {
    if key in m && |m[key]| > 0 then Some(m[key][0]) else None
  }

  /** The four values the handler reads from the parsed body. */
  datatype Submission = Submission(firstName: Option<string>, lastName: Option<string>, email: Option<string>, resume: Option<UploadedFile>)

  function Extract(fields: Fields, files: Files): Submission
  {
    Submission(FirstOf(fields, "firstName"), FirstOf(fields, "lastName"), FirstOf(fields, "email"), FirstOf(files, "resume"))
  }

  /** JavaScript truthiness of a `string | undefined`: present and not "". */
  predicate Truthy(v: Option<string>)
  {
    v.Some? && v.value != ""
  }

  /** The validation gate: all three names are truthy and a résumé file exists. */
  predicate IsComplete(s: Submission)
  {
    Truthy(s.firstName) && Truthy(s.lastName) && Truthy(s.email) && s.resume.Some?
  }

  function Mark(present: bool): string
  {
    if present then "present" else "missing"
  }

  /** The per-field presence map of a 400 response. */
  function Details(s: Submission): (d: map<string, string>)
    ensures d.Keys == {"firstName", "lastName", "email", "resume"}
    ensures d["firstName"] == "present" <==> Truthy(s.firstName)
    ensures d["lastName"] == "present" <==> Truthy(s.lastName)
    ensures d["email"] == "present" <==> Truthy(s.email)
    ensures d["resume"] == "present" <==> s.resume.Some?
    ensures forall k :: k in d ==> d[k] == "present" || d[k] == "missing"
    ensures "missing" in d.Values <==> !IsComplete(s)
  {
    var d := map["firstName" := Mark(Truthy(s.firstName)),
                 "lastName" := Mark(Truthy(s.lastName)),
                 "email" := Mark(Truthy(s.email)),
                 "resume" := Mark(s.resume.Some?)];
    assert !Truthy(s.firstName) ==> d["firstName"] in d.Values;
    assert !Truthy(s.lastName) ==> d["lastName"] in d.Values;
    assert !Truthy(s.email) ==> d["email"] in d.Values;
    assert s.resume.None? ==> d["resume"] in d.Values;
    d
  }

  // ---------------------------------------------------------------------
  // The two outbound calls
  // ---------------------------------------------------------------------

  /** The headers both calls carry; they depend on the configuration only. */
  function HeadersOf(cfg: Config): Headers
  {
    Headers("Basic " + cfg.encodedApiKey, "application/json", cfg.userId)
  }

  function CandidateBodyOf(cfg: Config, s: Submission): CandidateBody
    requires IsComplete(s)
  {
    CandidateBody(s.firstName.value, s.lastName.value, s.email.value, [JobApplication(cfg.jobId)])
  }

  function AttachmentBodyOf(file: UploadedFile, base64Content: string): AttachmentBody
  {
    AttachmentBody(file.originalFilename, "resume", base64Content, file.mimetype)
  }

  function DigitChar(d: nat): char
    requires d < 10
  {
    ('0' as int + d) as char
  }

  predicate IsDigits(r: string)
  {
    forall i :: 0 <= i < |r| ==> '0' <= r[i] <= '9'
  }

  /** The number a string of decimal digits denotes, most significant digit first. */
  function DecimalValue(r: string): nat
    requires IsDigits(r)
  {
    if r == [] then 0 else DecimalValue(r[..|r| - 1]) * 10 + (r[|r| - 1] as int - '0' as int)
  }

  /**
   * `${id}` for a candidate id: the decimal numeral of `n`, with no leading
   * zero, which reads back as `n`.
   */
  function Decimal(n: nat): (r: string)
    ensures |r| >= 1
    ensures |r| == 1 <==> n < 10
    ensures IsDigits(r)
    ensures r[0] == '0' ==> n == 0
    ensures DecimalValue(r) == n
    decreases n
  {
    if n < 10 then [DigitChar(n)]
    else
      var r := Decimal(n / 10) + [DigitChar(n % 10)];
      assert r[..|r| - 1] == Decimal(n / 10);
      r
  }

  /** Different ids have different decimal texts. */
  lemma DecimalInjective(a: nat, b: nat)
    requires Decimal(a) == Decimal(b)
    ensures a == b
  {
  }

  /** The attachment endpoint of one candidate. */
  function AttachmentUrl(id: CandidateId): string
  {
    CandidatesUrl + "/" + Decimal(id) + AttachmentsSuffix
  }

  /** An attachment URL names exactly one candidate id. */
  lemma AttachmentUrlIdentifiesCandidate(a: CandidateId, b: CandidateId)
    requires AttachmentUrl(a) == AttachmentUrl(b)
    ensures a == b
  {
    var prefix := CandidatesUrl + "/";
    var ua, ub := AttachmentUrl(a), AttachmentUrl(b);
    assert ua == prefix + Decimal(a) + AttachmentsSuffix;
    assert ub == prefix + Decimal(b) + AttachmentsSuffix;
    assert |Decimal(a)| == |Decimal(b)|;
    assert Decimal(a) == ua[|prefix|..|prefix| + |Decimal(a)|];
    assert Decimal(b) == ub[|prefix|..|prefix| + |Decimal(b)|];
    DecimalInjective(a, b);
  }

  // ---------------------------------------------------------------------
  // The handler
  // ---------------------------------------------------------------------

  /**
   * Reference definition of one request: the early exits in order (method,
   * parse, validation), then create, read and attach, each of which ends the
   * request with the generic 500 when it fails.
   */
  function Expected(cfg: Config, httpMethod: string, ext: Outcomes): Exchange
  {
    if httpMethod != "POST" then
      Exchange(Response(405, ErrorBody(MethodNotAllowed)), [])
    else match ext.parse
      case ParseError => Exchange(ServerError, [ParseMultipart])
      case ParseOk(fields, files) =>
        var s := Extract(fields, files);
        if !IsComplete(s) then
          Exchange(Response(400, MissingFieldsBody(MissingRequiredFields, Details(s))), [ParseMultipart])
        else
          var create := PostCandidate(CandidatesUrl, CandidateBodyOf(cfg, s), HeadersOf(cfg));
          match ext.create
          case CreateError => Exchange(ServerError, [ParseMultipart, create])
          case CandidateCreated(id) =>
            var path := s.resume.value.filepath;
            var read := ReadResume(path);
            if path !in ext.storage then Exchange(ServerError, [ParseMultipart, create, read])
            else
              var content := ext.base64(ext.storage[path]);
              var attach := PostAttachment(AttachmentUrl(id), AttachmentBodyOf(s.resume.value, content), HeadersOf(cfg));
              match ext.attach
              case AttachError => Exchange(ServerError, [ParseMultipart, create, read, attach])
              case AttachmentUploaded => Exchange(Response(200, SuccessBody(true)), [ParseMultipart, create, read, attach])
  }

  /** The request handler, step by step with early returns. */
  method Handler(cfg: Config, httpMethod: string, ext: Outcomes) returns (res: Response, trace: seq<Step>)
    ensures Exchange(res, trace) == Expected(cfg, httpMethod, ext)
  {
    trace := [];
    if httpMethod != "POST" {
      res := Response(405, ErrorBody(MethodNotAllowed));
      return;
    }

    trace := trace + [ParseMultipart];
    if ext.parse.ParseError? {
      res := ServerError;
      return;
    }

    var firstName := FirstOf(ext.parse.fields, "firstName");
    var lastName := FirstOf(ext.parse.fields, "lastName");
    var email := FirstOf(ext.parse.fields, "email");
    var resumeFile := FirstOf(ext.parse.files, "resume");

    if !Truthy(firstName) || !Truthy(lastName) || !Truthy(email) || resumeFile.None? {
      var details := map["firstName" := Mark(Truthy(firstName)),
                         "lastName" := Mark(Truthy(lastName)),
                         "email" := Mark(Truthy(email)),
                         "resume" := Mark(resumeFile.Some?)];
      res := Response(400, MissingFieldsBody(MissingRequiredFields, details));
      return;
    }

    var headers := HeadersOf(cfg);
    var candidate := CandidateBody(firstName.value, lastName.value, email.value, [JobApplication(cfg.jobId)]);
    trace := trace + [PostCandidate(CandidatesUrl, candidate, headers)];
    if ext.create.CreateError? {
      res := ServerError;
      return;
    }
    var candidateId := ext.create.id;

    var path := resumeFile.value.filepath;
    trace := trace + [ReadResume(path)];
    if path !in ext.storage {
      res := ServerError;
      return;
    }
    var resumeContent := ext.storage[path];
    var base64Resume := ext.base64(resumeContent);

    var attachment := AttachmentBody(resumeFile.value.originalFilename, "resume", base64Resume, resumeFile.value.mimetype);
    trace := trace + [PostAttachment(CandidatesUrl + "/" + Decimal(candidateId) + AttachmentsSuffix, attachment, headers)];
    if ext.attach.AttachError? {
      res := ServerError;
      return;
    }

    res := Response(200, SuccessBody(true));
  }

  // ---------------------------------------------------------------------
  // Properties of a request
  // ---------------------------------------------------------------------

  predicate IsOutbound(step: Step)
  {
    step.PostCandidate? || step.PostAttachment?
  }

  /** The HTTP calls to Greenhouse in a trace, in order. */
  function Outbound(trace: seq<Step>): (calls: seq<Step>)
    ensures |calls| <= |trace|
    ensures forall c :: c in calls <==> c in trace && IsOutbound(c)
  {
    if trace == [] then []
    else (if IsOutbound(trace[0]) then [trace[0]] else []) + Outbound(trace[1..])
  }

  /** Filtering keeps the order: the calls of a joined trace are the calls of each part, in turn. */
  lemma {:induction false} OutboundOfConcat(a: seq<Step>, b: seq<Step>)
    ensures Outbound(a + b) == Outbound(a) + Outbound(b)
  {
    if a == [] {
      assert a + b == b;
    } else {
      assert (a + b)[0] == a[0] && (a + b)[1..] == a[1..] + b;
      OutboundOfConcat(a[1..], b);
    }
  }

  /** A request that does not use POST gets 405, and nothing is parsed or called. */
  lemma NonPostIsRejected(cfg: Config, httpMethod: string, ext: Outcomes)
    requires httpMethod != "POST"
    ensures Expected(cfg, httpMethod, ext) == Exchange(Response(405, ErrorBody(MethodNotAllowed)), [])
  {
  }

  /** A body that cannot be parsed gets the generic 500 and no outbound call. */
  lemma ParseFailureIsGeneric(cfg: Config, ext: Outcomes)
    requires ext.parse.ParseError?
    ensures Expected(cfg, "POST", ext) == Exchange(ServerError, [ParseMultipart])
  {
  }

  /**
   * Validation fails exactly when a name or the email is absent or empty or
   * the résumé file is absent; then the response is 400 with the presence
   * map, at least one entry is "missing", and no outbound call was issued.
   */
  lemma ValidationFailsExactlyWhenIncomplete(cfg: Config, fields: Fields, files: Files, ext: Outcomes)
    requires ext.parse == ParseOk(fields, files)
    ensures var x := Expected(cfg, "POST", ext);
      && (x.response.status == 400 <==> !IsComplete(Extract(fields, files)))
      && (x.response.status == 400 ==>
            && x.response.body == MissingFieldsBody(MissingRequiredFields, Details(Extract(fields, files)))
            && "missing" in x.response.body.details.Values
            && x.trace == [ParseMultipart]
            && Outbound(x.trace) == [])
  {
  }

  /** Every 400 response names at least one missing field. */
  lemma MissingFieldsResponseNamesAField(cfg: Config, httpMethod: string, ext: Outcomes)
    requires Expected(cfg, httpMethod, ext).response.status == 400
    ensures Expected(cfg, httpMethod, ext).response.body.MissingFieldsBody?
    ensures "missing" in Expected(cfg, httpMethod, ext).response.body.details.Values
  {
  }

  /** The only statuses are 200, 400, 405 and 500; every 500 carries the same generic message. */
  lemma StatusesAndGenericErrors(cfg: Config, httpMethod: string, ext: Outcomes)
    ensures var r := Expected(cfg, httpMethod, ext).response;
      && r.status in {200, 400, 405, 500}
      && (r.status == 500 ==> r.body == ErrorBody(SubmissionFailed))
  {
  }

  /** A request that ends before validation succeeds issues no outbound call. */
  lemma NoOutboundCallOnEarlyExit(cfg: Config, httpMethod: string, ext: Outcomes)
    requires Expected(cfg, httpMethod, ext).response.status in {400, 405} || ext.parse.ParseError?
    ensures Outbound(Expected(cfg, httpMethod, ext).trace) == []
  {
  }

  /** The outbound calls of the handler's four possible trace shapes. */
  lemma OutboundOfHandlerTraces(create: Step, read: Step, attach: Step)
    requires create.PostCandidate? && read.ReadResume? && attach.PostAttachment?
    ensures Outbound([ParseMultipart]) == []
    ensures Outbound([ParseMultipart, create]) == [create]
    ensures Outbound([ParseMultipart, create, read]) == [create]
    ensures Outbound([ParseMultipart, create, read, attach]) == [create, attach]
  {
    assert [ParseMultipart, create][1..] == [create];
    assert [ParseMultipart, create, read][1..] == [create, read];
    assert [create, read][1..] == [read];
    assert [ParseMultipart, create, read, attach][1..] == [create, read, attach];
    assert [create, read, attach][1..] == [read, attach];
    assert [read, attach][1..] == [attach];
    assert Outbound([read]) == [] by { assert [read][1..] == []; }
    assert Outbound([attach]) == [attach] by { assert [attach][1..] == []; }
    assert Outbound([read, attach]) == [attach];
    assert Outbound([create, read, attach]) == [create, attach];
  }

  /**
   * The outbound calls are a prefix of "create, then attach": create comes
   * first, with the first name, last name, email and the configured job id
   * only; attach comes only after a successful create, at that candidate's
   * URL, with the file's original name, the type "resume", the base64
   * content and the file's mimetype; both carry the same headers.
   */
  lemma OutboundCallsAreCreateThenAttach(cfg: Config, httpMethod: string, ext: Outcomes)
    ensures var calls := Outbound(Expected(cfg, httpMethod, ext).trace);
      && |calls| <= 2
      && (|calls| >= 1 ==>
            && httpMethod == "POST" && ext.parse.ParseOk?
            && var s := Extract(ext.parse.fields, ext.parse.files);
            && IsComplete(s)
            && calls[0] == PostCandidate(CandidatesUrl, CandidateBodyOf(cfg, s), HeadersOf(cfg)))
      && (|calls| == 2 ==>
            && ext.create.CandidateCreated?
            && var file := Extract(ext.parse.fields, ext.parse.files).resume.value;
            && file.filepath in ext.storage
            && calls[1] == PostAttachment(AttachmentUrl(ext.create.id),
                                          AttachmentBody(file.originalFilename, "resume",
                                                         ext.base64(ext.storage[file.filepath]), file.mimetype),
                                          HeadersOf(cfg)))
  {
    var x := Expected(cfg, httpMethod, ext);
    if httpMethod == "POST" && ext.parse.ParseOk? {
      var s := Extract(ext.parse.fields, ext.parse.files);
      if IsComplete(s) {
        var create := PostCandidate(CandidatesUrl, CandidateBodyOf(cfg, s), HeadersOf(cfg));
        var path := s.resume.value.filepath;
        var read := ReadResume(path);
        var content := if path in ext.storage then ext.base64(ext.storage[path]) else "";
        var id := if ext.create.CandidateCreated? then ext.create.id else 0;
        var attach := PostAttachment(AttachmentUrl(id), AttachmentBodyOf(s.resume.value, content), HeadersOf(cfg));
        OutboundOfHandlerTraces(create, read, attach);
      }
    }
  }

  /**
   * After validation, a failed create, a failed read of the temporary file
   * or a failed attach each end in the generic 500. A failed create leaves
   * only the create call; a failed read comes after the create call, so the
   * candidate stays created; a failed attach comes after both calls.
   */
  lemma DownstreamFailureIsGeneric(cfg: Config, ext: Outcomes)
    requires ext.parse.ParseOk? && IsComplete(Extract(ext.parse.fields, ext.parse.files))
    requires var path := Extract(ext.parse.fields, ext.parse.files).resume.value.filepath;
      ext.create.CreateError? || path !in ext.storage || ext.attach.AttachError?
    ensures var x := Expected(cfg, "POST", ext);
      var s := Extract(ext.parse.fields, ext.parse.files);
      var path := s.resume.value.filepath;
      var create := PostCandidate(CandidatesUrl, CandidateBodyOf(cfg, s), HeadersOf(cfg));
      && x.response == ServerError
      && (ext.create.CreateError? ==> x.trace == [ParseMultipart, create] && Outbound(x.trace) == [create])
      && (ext.create.CandidateCreated? && path !in ext.storage ==>
            x.trace == [ParseMultipart, create, ReadResume(path)] && Outbound(x.trace) == [create])
      && (ext.create.CandidateCreated? && path in ext.storage ==>
            && |x.trace| == 4 && x.trace[3].PostAttachment?
            && Outbound(x.trace) == [create, x.trace[3]])
  {
    var s := Extract(ext.parse.fields, ext.parse.files);
    var path := s.resume.value.filepath;
    var create := PostCandidate(CandidatesUrl, CandidateBodyOf(cfg, s), HeadersOf(cfg));
    var content := if path in ext.storage then ext.base64(ext.storage[path]) else "";
    var id := if ext.create.CandidateCreated? then ext.create.id else 0;
    var attach := PostAttachment(AttachmentUrl(id), AttachmentBodyOf(s.resume.value, content), HeadersOf(cfg));
    OutboundOfHandlerTraces(create, ReadResume(path), attach);
  }

  /** A failed candidate creation is never followed by an attachment upload. */
  lemma NoAttachWithoutCandidate(cfg: Config, httpMethod: string, ext: Outcomes)
    requires ext.create.CreateError?
    ensures forall step :: step in Expected(cfg, httpMethod, ext).trace ==> !step.PostAttachment?
  {
  }

  /** The attachment call is addressed to the id the creation call returned, and to no other. */
  lemma AttachTargetsCreatedCandidate(cfg: Config, httpMethod: string, ext: Outcomes, other: CandidateId)
    requires exists step :: step in Expected(cfg, httpMethod, ext).trace && step.PostAttachment? && step.url == AttachmentUrl(other)
    ensures ext.create == CandidateCreated(other)
  {
    var step :| step in Expected(cfg, httpMethod, ext).trace && step.PostAttachment? && step.url == AttachmentUrl(other);
    AttachmentUrlIdentifiesCandidate(ext.create.id, other);
  }

  /**
   * Status 200 `{success: true}` happens exactly on the full path: POST,
   * parsed, complete, created, read and attached, with all four effects in
   * order and the base64 of the stored résumé bytes as the attachment.
   */
  lemma SuccessOnlyOnFullPath(cfg: Config, httpMethod: string, ext: Outcomes)
    ensures var x := Expected(cfg, httpMethod, ext);
      && (x.response.status == 200 <==>
            && httpMethod == "POST" && ext.parse.ParseOk? && IsComplete(Extract(ext.parse.fields, ext.parse.files))
            && ext.create.CandidateCreated?
            && Extract(ext.parse.fields, ext.parse.files).resume.value.filepath in ext.storage
            && ext.attach.AttachmentUploaded?)
      && (x.response.status == 200 ==>
            && x.response.body == SuccessBody(true)
            && |x.trace| == 4
            && x.trace[0] == ParseMultipart && x.trace[1].PostCandidate?
            && x.trace[2] == ReadResume(Extract(ext.parse.fields, ext.parse.files).resume.value.filepath)
            && x.trace[3].PostAttachment? && x.trace[3].url == AttachmentUrl(ext.create.id)
            && x.trace[3].attachment.content == ext.base64(ext.storage[x.trace[2].path]))
  {
  }

  /**
   * Only the first value of firstName, lastName, email and the first resume
   * file matter: two bodies that agree on those give the same response and
   * the same calls, whatever else (phone, linkedin, coverLetter, further
   * values) they carry.
   */
  lemma OnlyFirstRequiredValuesMatter(cfg: Config, httpMethod: string, ext: Outcomes, fields': Fields, files': Files)
    requires ext.parse.ParseOk?
    requires forall k :: k in {"firstName", "lastName", "email"} ==> FirstOf(fields', k) == FirstOf(ext.parse.fields, k)
    requires FirstOf(files', "resume") == FirstOf(ext.parse.files, "resume")
    ensures Expected(cfg, httpMethod, ext.(parse := ParseOk(fields', files'))) == Expected(cfg, httpMethod, ext)
  {
    assert Extract(fields', files') == Extract(ext.parse.fields, ext.parse.files) by {
      assert FirstOf(fields', "firstName") == FirstOf(ext.parse.fields, "firstName");
      assert FirstOf(fields', "lastName") == FirstOf(ext.parse.fields, "lastName");
      assert FirstOf(fields', "email") == FirstOf(ext.parse.fields, "email");
    }
  }

  /** Setting an optional field (or any field other than the three names) changes nothing. */
  lemma OptionalFieldIsIgnored(cfg: Config, httpMethod: string, ext: Outcomes, key: string, values: seq<string>)
    requires ext.parse.ParseOk?
    requires key !in {"firstName", "lastName", "email"}
    ensures Expected(cfg, httpMethod, ext.(parse := ParseOk(ext.parse.fields[key := values], ext.parse.files)))
         == Expected(cfg, httpMethod, ext)
  {
    OnlyFirstRequiredValuesMatter(cfg, httpMethod, ext, ext.parse.fields[key := values], ext.parse.files);
  }
}
