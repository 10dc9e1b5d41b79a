# Greenhouse job-application submission, modelled in Dafny

The repository is a one-page job application. A React form collects six text
fields and a résumé file. A Next.js API route relays the submission to the
Greenhouse Harvest API in two calls: it creates a candidate, then attaches the
résumé to that candidate. This project models the two pieces of decision logic
and proves what they promise:

- `relay.dfy`, module `Relay`, covers `pages/api/apply.ts`. It has the method
  gate, the extraction of the first values `firstName`, `lastName`, `email` and
  `resume`, and the validation with its presence map. It also has the create
  call, then the attach call, and the 200/400/405/500 responses. `Expected`
  (pages/api/apply.ts:18-106) is a reference definition of one request: the response plus the trace of the
  effects issued, in order (parse, create call, temporary-file read, attach
  call). `Handler` is the handler written step by step with early returns, and
  it is proved equal to `Expected`. The properties are lemmas about `Expected`.
- `form.dfy`, module `Form`, covers `components/ApplicationForm.tsx`. The class
  `ApplicationForm` holds the seven `useState` values as fields. Its methods are
  the six setters, `ClearForm`, `HandleFileChange` and `HandleSubmit`. Each
  method's postcondition gives the whole new state through `State()`.
  `PayloadOf` (components/ApplicationForm.tsx:35-42) is the seven-entry
  payload a submit sends.
- `end_to_end.dfy`, module `EndToEnd`, joins the two. It models the page's
  submission handler from `pages/apply.tsx`, which resolves exactly when the
  response is `ok`: `FetchOutcome` (pages/apply.tsx:19-29) maps a status to
  that outcome, and `PageHandler` (pages/apply.tsx:12-31) is the handler the
  page passes to the form. It models the multipart transfer as idealised: text
  entries arrive as field values, and the résumé arrives as an upload whose
  bytes sit in temporary storage, where the relay reads them. On top of
  that it proves the end-to-end scenarios: happy path, blank email, rejected
  creation.
- `wrappers.dfy` holds `Option`, which stands for JavaScript's
  `undefined`/`null`.

Everything external is an input of the model:

| External thing | How it enters the model |
|---|---|
| Outcome of the formidable parse | `Relay.ParseResult` |
| Candidate-creation call | `Relay.CreateResult`: the returned id, or any failure, including a non-2xx status that axios throws on |
| Temporary storage the résumé is read from | `Relay.Storage`, a map from file path to bytes; reading a path that is not there throws |
| The library's base64 encoding | A function parameter `seq<bv8> -> string`, left uninterpreted |
| Attachment upload | `Relay.AttachResult` |
| Process configuration | `Relay.Config`: job id, base64 credential, acting user id |
| The form's submission handler | A function parameter `Payload -> HandlerOutcome` |

Two behaviours of the code are worth stating on their own:

- The form checks only that a résumé is attached. It does not check the names
  or the email at submit time. `EndToEnd.RelayRejectsExactlyBlankNames` shows
  the consequence: a payload with a blank name or email reaches the relay and
  is refused there with 400.
- Reading the uploaded temporary file (`fs.readFileSync`,
  pages/api/apply.ts:80) can throw after the candidate was created. That also
  gives the generic 500, and the candidate stays created
  (`Relay.DownstreamFailureIsGeneric`).

## Model

| member | source | states |
|---|---|---|
| `Relay.Details` | pages/api/apply.ts:44-49 | The presence map has exactly the keys firstName, lastName, email and resume. Each key is "present" exactly when its value is present and non-empty (for the résumé: present), and "missing" otherwise. Some entry is "missing" exactly when the submission fails validation. |
| `Relay.Handler` | pages/api/apply.ts:13-107 | The step-by-step handler gives exactly the response and effect trace of `Expected`, on every input. |
| `Relay.NonPostIsRejected` | pages/api/apply.ts:18-20 | A method other than POST gets 405 `{error: "Method not allowed"}`. The trace is empty: nothing is parsed and nothing is called. |
| `Relay.ParseFailureIsGeneric` | pages/api/apply.ts:25-32 | A parse error gives the generic 500, and the only effect is the parse attempt. |
| `Relay.ValidationFailsExactlyWhenIncomplete` | pages/api/apply.ts:41-51 | After a good parse, the status is 400 exactly when a name or the email is absent or empty, or no résumé file came. The 400 body is "Missing required fields" with the presence map. At least one entry is "missing". No outbound call is made. |
| `Relay.MissingFieldsResponseNamesAField` | pages/api/apply.ts:42-50 | Every 400 response has a presence map that marks at least one field "missing". |
| `Relay.StatusesAndGenericErrors` | pages/api/apply.ts:103-106 | The only statuses are 200, 400, 405 and 500. Every 500 carries the same message, "Error submitting application", whatever failed, so no error detail is echoed. |
| `Relay.NoOutboundCallOnEarlyExit` | pages/api/apply.ts:18-51 | A request that gets 405 or 400, or whose parse failed, issues no call to Greenhouse. |
| `Relay.Outbound` | pages/api/apply.ts:54-100 | A step is among the filtered calls exactly when it is a Greenhouse call of the trace. |
| `Relay.OutboundOfConcat` | pages/api/apply.ts:54-100 | Filtering keeps the order: the calls of a joined trace are the calls of the first part followed by those of the second. |
| `Relay.OutboundCallsAreCreateThenAttach` | pages/api/apply.ts:54-100 | There are at most two calls, and the create call is first. Its body holds only the first and last name, the email and the configured job id. A second call exists only after a successful create and only when the file's path is in temporary storage. That second call goes to the created id's attachment URL and carries the original filename, type "resume", the base64 of the bytes stored at that path, and the mimetype. Both calls carry the same configuration-derived headers. |
| `Relay.DownstreamFailureIsGeneric` | pages/api/apply.ts:54-106 | After validation passes, a failed create, a failed read of the temporary file or a failed attach each give the generic 500, never 400 or 405. A failed create leaves only the create call. A failed read comes after the create call, so the candidate stays created. A failed attach comes after both calls. |
| `Relay.NoAttachWithoutCandidate` | pages/api/apply.ts:54-83 | When candidate creation fails, no attachment call appears in the trace. |
| `Relay.AttachTargetsCreatedCandidate` | pages/api/apply.ts:77-84 | An attachment call addressed to candidate `other` implies that creation returned exactly `other`. |
| `Relay.SuccessOnlyOnFullPath` | pages/api/apply.ts:102 | Status 200 `{success: true}` happens exactly when the method is POST and the parse, validation, create, read and attach steps all succeed. The trace is then parse, create, read of the résumé's temp path, and attach to the created id with the base64 of the stored bytes. |
| `Relay.OnlyFirstRequiredValuesMatter` | pages/api/apply.ts:35-38 | Two bodies that agree on the first firstName, lastName and email values and the first resume file give the same response and the same calls, whatever else they carry. |
| `Relay.OptionalFieldIsIgnored` | pages/api/apply.ts:56-65 | Changing any field other than the three names, such as phone, linkedin or coverLetter, changes neither the response nor any call. |
| `Relay.Decimal` | pages/api/apply.ts:84 | The textual id in the attachment URL is the decimal numeral of the id: non-empty digits that read back as the id, with no leading zero except for 0 itself. It is one digit long exactly for ids below 10. |
| `Relay.DecimalInjective` | pages/api/apply.ts:84 | Two ids with the same decimal text are equal. |
| `Relay.AttachmentUrlIdentifiesCandidate` | pages/api/apply.ts:84 | Two candidate ids with the same attachment URL are equal, so the URL names one candidate. |
| `Form.ApplicationForm.constructor` | components/ApplicationForm.tsx:5-11 | All six text fields start as "" and the résumé starts as null. |
| `Form.ApplicationForm.SetFirstName` | components/ApplicationForm.tsx:69 | Stores any string as the first name, without checking it. Every other value stays the same. |
| `Form.ApplicationForm.SetLastName` | components/ApplicationForm.tsx:80 | Stores any string as the last name. Every other value stays the same. |
| `Form.ApplicationForm.SetEmail` | components/ApplicationForm.tsx:91 | Stores any string as the email, without checking its format. Every other value stays the same. |
| `Form.ApplicationForm.SetPhone` | components/ApplicationForm.tsx:113 | Stores any string as the phone. Every other value stays the same. |
| `Form.ApplicationForm.SetLinkedin` | components/ApplicationForm.tsx:124 | Stores any string as the profile URL. Every other value stays the same. |
| `Form.ApplicationForm.SetCoverLetter` | components/ApplicationForm.tsx:132 | Stores any string as the cover letter. Every other value stays the same. |
| `Form.ApplicationForm.ClearForm` | components/ApplicationForm.tsx:14-22 | Afterwards the state is the initial one, whatever it was before. A second call therefore changes nothing (idempotent). |
| `Form.ApplicationForm.HandleFileChange` | components/ApplicationForm.tsx:54-58 | A non-empty selection stores only its first file. An empty selection leaves the whole state unchanged. |
| `Form.ApplicationForm.HandleSubmit` | components/ApplicationForm.tsx:25-51 | Without a résumé, the handler is not called and nothing changes. Otherwise the handler gets the seven-entry payload of the pre-submit values. Success resets every field to "" and the résumé to null. Failure leaves every value as it was. |
| `Form.PayloadCarriesAllSevenValues` | components/ApplicationForm.tsx:35-42 | The payload has exactly seven entries named firstName, lastName, email, phone, linkedin, coverLetter and resume, in that order, each holding the current value. |
| `EndToEnd.FirstOfTextFields` | pages/api/apply.ts:35-37 | After the transfer, the relay's first value of a field is the form's first text entry with that name. |
| `EndToEnd.FirstOfFileFields` | pages/api/apply.ts:38 | After the transfer, the relay's first file of a field is the stored upload of the form's first file entry with that name. |
| `EndToEnd.SkipTextEntries` | pages/api/apply.ts:38 | Text entries at the front of a payload change neither the first file found under a name nor what the transfer stores. |
| `EndToEnd.FormSubmissionArrivesIntact` | components/ApplicationForm.tsx:35-42 | The relay reads back the form's first name, last name, email and résumé, with the file's original name and media type. The temporary storage holds exactly the résumé's bytes at the upload's path. |
| `EndToEnd.RelayRejectsExactlyBlankNames` | components/ApplicationForm.tsx:29-42 | Of the payloads the form can send, the relay refuses with 400 exactly those with a blank first name, last name or email. The 400 presence map reflects which were blank, and no outbound call is made. |
| `EndToEnd.HappyPathScenario` | pages/apply.tsx:12-25 | Ana Ruiz with a résumé: the create call carries her names and email. The attach call goes to the returned id and carries her file's name and media type and the base64 of its bytes. The response is 200 and the page tells the form success. |
| `EndToEnd.MissingEmailScenario` | pages/apply.tsx:19-29 | A blank email gives 400 with only email marked "missing", no outbound call, and failure for the form. |
| `EndToEnd.CreateRejectedScenario` | pages/apply.tsx:19-29 | A rejected creation gives the generic 500, one create call and no attachment call, and failure for the form. |
| `EndToEnd.SubmitApplication` | pages/apply.tsx:12-31 | A submit through the page clears the form exactly when the form held a résumé and the relay answered 200. Otherwise the form keeps every value. |

## Left out

- Page markup, styles, the success/failure message state of `pages/apply.tsx` and the job description: presentation only.
- Multipart parsing internals, HTTP calls, temporary-file reads and base64 encoding: library calls and I/O. Their outcomes are inputs of the model.
- `EndToEnd.Transmit` and `EndToEnd.Stored` are an idealised transfer. They do not model the browser's multipart encoding, a failed upload, random temporary file names, or how the parser treats edge cases such as an empty file type or an empty (0-byte) file. With the parser's defaults for the array-valued fields the handler reads, a 0-byte résumé would be refused at parse time and get 500. `EndToEnd.HappyPathScenario` gives 200 for any résumé content, the empty one included.
- Base64 encoding (`Buffer`) is a library call. It is a function parameter that the model does not define.
- Read failures of `fs.readFileSync` are modelled only as a path missing from temporary storage. Other I/O errors are not modelled.
- The Basic-auth header: the model takes the base64 text of "<api key>:" from the configuration. It does not compute it.
- Unset configuration values: the job id and acting user id are optional values passed through unchanged. The model does not capture how JSON serialisation drops an undefined `job_id`, or what Greenhouse then answers.
- `Relay.CreateResult`: candidate ids are bounded below 2^53 (`Relay.CandidateId`). Only there does `JSON.parse` keep every integer exactly and `String()` give its plain decimal. Larger ids would be rounded, and two of them could share one URL. A non-integer id is not modelled. A 2xx response without `data.id`, which would address `/candidates/undefined/attachments`, is not modelled either.
- `req.method`: modelled as a string. An absent method behaves like any string other than "POST".
- The `resolve` that follows `reject` in the parse callback: promise mechanics. The first settlement wins, so a parse error is a failure.
- React re-rendering, asynchronous interleaving (edits made while the handler is pending), `e.preventDefault()` on the submit event (components/ApplicationForm.tsx:26) and the DOM file input that is not visually cleared: these are DOM and rendering mechanics, and each submit and each request is one atomic step.
- The browser's native `required` and `accept=".pdf,.doc,.docx"` checks: they belong to the browser, so the form model accepts any values.
- `console.error` logging: it has no effect on state or responses.
- JSON key order of the presence map: the map is modelled as a Dafny `map`.
