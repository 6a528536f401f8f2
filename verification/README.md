# Failed-billing email endpoint: a Dafny model

This project models the decision logic of the `POST /api/send-failed-billing`
route of the failed-billing-email example. The route takes billing-failure
details, optionally finds a PDF invoice on disk, renders an email and hands it
to the Resend delivery API. The model covers three parts of that route:

- **the attachment resolver** (`resolveAttachmentPath`). An explicit
  `attachPath` wins outright. Otherwise the resolver returns the first of four
  fixed fallback paths that exists, or null;
- **content-type inference** from the lower-cased file extension;
- **the request pipeline**. It runs the API-key check, a permissive body parse,
  the validation of `to`, `customerName` and `amount`, resolution, a second
  existence check, the read, rendering and delivery. Each failure maps to its
  HTTP outcome.

Every external effect is a parameter. The `World` datatype holds:

- two existence oracles, one for the resolver's check and one for the
  handler's later check (they are separate reads of a disk that can change in
  between);
- the file read;
- the template renderer;
- the provider;
- the JavaScript engine's number-to-string conversion.

The environment (`RESEND_API_KEY`, `FROM_EMAIL`, `process.cwd()`) is a
`Config` value. A run records the outcome, how far into the step sequence
`Pipeline` it got, and the exact email handed to the provider, if any.
Properties such as "delivery is not reached" are therefore statements about
the model.

Modules: `Wrappers` (Option/Result), `Search` (ordered first-match search),
`Paths` (the used slice of Node's `path`), `Text` (`toLowerCase`), `JsValue`
(JSON values, truthiness, `String()`), `Resolver`, `Mime` and `Handler`.

Error precedence has a second, independent statement: `Handler.Guards` lists
the failure conditions in source order, each with the outcome it produces.
`Handler.HandleFollowsGuards` proves that the handler ends with the first
failing guard's outcome, and reaches delivery exactly when no guard fails.
The same `Search.FirstIndex` underlies the fallback path search, the MIME
table and the guard list.

Route behaviour that is easy to miss:

- A provider rejection yields a 500 only if `resend.emails.send` throws. The
  route never inspects the reply it gets back: any reply is embedded in a 200
  with `success: true` (route.ts:92-103). `Handler.Handle` models exactly that.
- An empty-string `attachPath` is falsy, so it triggers the fallback search
  rather than being an explicit path.
- A truthy `attachPath` that is not a string makes `path.isAbsolute` throw a
  TypeError. The catch-all turns that into a 500.
- An `amount` that is a JSON object with its own `toString` key is truthy and
  passes validation. With a renderer that accepts the object amount, the
  subject's template literal then throws a TypeError, after rendering and
  before the provider is called, which is again a 500. The shipped template
  rejects any object `amount` while rendering (it renders the amount as a
  React child), so with it the request fails earlier, at rendering, with
  React's message: in the model that is the `render` parameter failing.
- Any body that is not a JSON object reads as `{}`. This covers `null`,
  numbers, strings, booleans and arrays, just like a body that fails to parse.

## Model

| member | source | states |
|---|---|---|
| Search.FirstIndex | app/api/send-failed-billing/route.ts:30-33 | the reported index is the first element satisfying the predicate; none is reported exactly when no element satisfies it |
| Search.FirstIndexUnique | app/api/send-failed-billing/route.ts:30-32 | any position that is a first match is the one the search reports |
| Search.FirstIndexNoLater | app/api/send-failed-billing/route.ts:30-32 | if some element satisfies the predicate, the reported position is at or before it |
| Paths.IsAbsolute | app/api/send-failed-billing/route.ts:19 | a path is absolute exactly when it starts with `/` |
| JsValue.Truthy | app/api/send-failed-billing/route.ts:52-57 | a value is falsy exactly when it is missing, `null`, `false`, `0` or the empty string |
| JsValue.Property | app/api/send-failed-billing/route.ts:50 | destructuring yields a value exactly when the body is an object with that key, and then that key's value |
| JsValue.ToJsString | app/api/send-failed-billing/route.ts:95 | conversion succeeds exactly when no object reached has its own `toString` key, and otherwise throws the TypeError; `null` converts to `null`, a boolean to `true` or `false`, a string to itself, a number to the engine's text for it, and an object without `toString` to `[object Object]` |
| JsValue.SingletonArrayText | app/api/send-failed-billing/route.ts:95 | an array holding one non-null value, or an array holding such an array, converts to the same text as the value itself |
| JsValue.SplitJoin | app/api/send-failed-billing/route.ts:95 | joining comma-free element texts with `,` loses nothing: splitting the result on commas gives the parts back |
| JsValue.ArrayTextSplits | app/api/send-failed-billing/route.ts:95 | an array of convertible values whose texts contain no comma converts to text that splits on commas into exactly the elements' texts, in order, `null` as empty |
| JsValue.TwoElementArrayText | app/api/send-failed-billing/route.ts:95 | `${[1, "USD"]}` is the engine's text for 1 followed by `,USD` |
| Paths.ResolveAgainst | app/api/send-failed-billing/route.ts:20 | an absolute path is kept; a relative one ends with the given path after a separator, starts with the working directory, and is absolute when the working directory is |
| Paths.Basename | app/api/send-failed-billing/route.ts:72 | the file name contains no separator and is the whole final segment of the path once trailing slashes are dropped: a suffix of it that is either all of it or preceded by a separator |
| Paths.BasenameOfJoin | app/api/send-failed-billing/route.ts:72 | a directory joined with a non-empty, separator-free name has exactly that name as its base name |
| Paths.Extname | app/api/send-failed-billing/route.ts:73 | the extension is empty or a dot followed by dot-free text ending the name; it is non-empty exactly when the name has a dot after its first character and is not `..` |
| Paths.ExtnameOfSuffix | app/api/send-failed-billing/route.ts:73 | a non-empty stem followed by a dotted, dot-free suffix has that suffix as its extension |
| Text.Lower | app/api/send-failed-billing/route.ts:73 | lower-casing keeps the length and maps each ASCII capital to its small letter |
| Text.LowerEqualIff | app/api/send-failed-billing/route.ts:73 | two strings lower-case to the same text exactly when they are equal up to ASCII case |
| Resolver.Candidates | app/api/send-failed-billing/route.ts:23-28 | four candidates in fixed order: the first two are the project attachment and the styled invoice resolved against the working directory, the last two the sandbox paths; all absolute when the working directory is |
| Resolver.SearchCandidates | app/api/send-failed-billing/route.ts:30-33 | the result is the first existing candidate, probing exactly the candidates up to it; null exactly when none exists, after probing all |
| Resolver.ResolveAttachmentPath | app/api/send-failed-billing/route.ts:18-34 | a truthy absolute path is returned verbatim and a truthy relative one resolved against the working directory, both with no existence probe; otherwise the fallback search decides |
| Resolver.ExplicitPathIgnoresDisk | app/api/send-failed-billing/route.ts:19-20 | with a truthy explicit path the result is the same whatever the disk holds |
| Resolver.EmptyPathIsAbsent | app/api/send-failed-billing/route.ts:19-20 | an empty `attachPath` resolves exactly as an absent one |
| Resolver.NoLaterCandidate | app/api/send-failed-billing/route.ts:30-32 | if candidate i exists, the result is candidate i or an earlier one |
| Resolver.NothingFound | app/api/send-failed-billing/route.ts:30-33 | when no candidate exists the result is null after probing all four |
| Resolver.ResolvedIsAbsolute | app/api/send-failed-billing/route.ts:18-34 | with an absolute working directory every non-null result is absolute |
| Resolver.FirstExistingLoop | app/api/send-failed-billing/route.ts:30-33 | the loop with early return yields the first existing entry of any candidate list, or null when none exists, and agrees with the functional search |
| Resolver.ResolveAttachmentPathLoop | app/api/send-failed-billing/route.ts:18-34 | the statement-by-statement resolver yields a path for any truthy `attachPath`, otherwise the first existing candidate or null, and agrees with the functional resolver |
| Mime.InferMime | app/api/send-failed-billing/route.ts:74-77 | a type is inferred exactly for `.pdf`, `.png`, `.jpg` and `.jpeg` |
| Mime.InferMimeIsTableLookup | app/api/send-failed-billing/route.ts:74-77 | the three sequential `if`s equal a first-match table lookup for every extension, so no branch overrides another |
| Mime.TableKey | app/api/send-failed-billing/route.ts:75-77 | each table extension is a lower-case dotted suffix and maps to its table type |
| Mime.FileType | app/api/send-failed-billing/route.ts:72-77 | the type of a file name is the table lookup of its lower-cased extension |
| Mime.AttachmentFor | app/api/send-failed-billing/route.ts:72-79 | the attachment keeps the file content, is named by the base name of the path, and has the type the table gives for the lower-cased extension of that name, if any |
| Mime.FileTypeIgnoresCase | app/api/send-failed-billing/route.ts:73-77 | names whose extensions differ only in ASCII case get the same type |
| Mime.FileTypeOfTableExtension | app/api/send-failed-billing/route.ts:72-77 | a name ending in any case variant of a table extension (`invoice.PDF`) gets that entry's type |
| Mime.LeadingDotHasNoType | app/api/send-failed-billing/route.ts:73-77 | a name whose only dot is its first character (such as `.pdf`) gets no type |
| Handler.BodyField | app/api/send-failed-billing/route.ts:49-50 | an unparsable body has no fields; a parsed body's field is the property of that value, present only when the body is an object with that key |
| Handler.Validate | app/api/send-failed-billing/route.ts:52-57 | `InvalidTo` exactly when `to` is not a non-empty string; otherwise `MissingFields` exactly when `customerName` or `amount` is falsy; on success the recipient and amount are the body's |
| Handler.ExplicitPath | app/api/send-failed-billing/route.ts:19-20 | a falsy `attachPath` means no path; a truthy string is the path; any other truthy value throws |
| Handler.PropsOf | app/api/send-failed-billing/route.ts:83-88 | the template receives exactly the body's `customerName`, `amount`, `retryUrl` and `invoiceNumber` |
| Handler.PropsIgnoreOtherFields | app/api/send-failed-billing/route.ts:83-88 | changing any other field of the body, such as `to` or `attachPath`, leaves the template props unchanged |
| Handler.SenderOf | app/api/send-failed-billing/route.ts:93 | the sender is `FROM_EMAIL` when it is set and non-empty, otherwise the fixed default |
| Handler.EnvReadsFollowTruthiness | app/api/send-failed-billing/route.ts:39-40 | `!RESEND_API_KEY` rejects exactly the falsy keys, and `FROM_EMAIL ||` keeps exactly a truthy sender and otherwise gives the default |
| Handler.SubjectDeterminesAmountText | app/api/send-failed-billing/route.ts:95 | two amounts give the same subject line, or the same TypeError, exactly when their conversions to text agree |
| Handler.RenderAndSend | app/api/send-failed-billing/route.ts:83-103 | rendering comes first and a render failure is a 500 carrying its message; an amount that cannot be converted then throws before the provider is called; otherwise the provider receives the sender, the recipient, the subject, the rendered HTML and the attachments, and its reply gives `Sent` with that reply while its throw gives an internal error with the thrown message |
| Handler.AfterResolution | app/api/send-failed-billing/route.ts:64-103 | `AttachmentNotFound` exactly when a path was resolved but fails the second check, naming it and stopping before the read; the email carries an attachment exactly when a path was resolved; once the provider is called, its reply or throw decides the outcome |
| Handler.Handle | app/api/send-failed-billing/route.ts:36-111 | a config error exactly when the key is missing or empty, and then nothing else happens; validation errors stop after the parse; a missing attachment names the resolved path; the provider is called exactly when the whole pipeline ran, and its reply is then a `Sent` with that reply and its throw an internal error with the thrown message |
| Handler.Respond | app/api/send-failed-billing/route.ts:40-110 | 200 exactly for `Sent`, with body `{success: true, data: reply}`; 400 with the exact `error` text for an invalid `to`, missing fields and a missing attachment (`Attachment not found: ` and the path); 500 with the exact key error, or with `Internal error sending email` and the thrown message as `details` |
| Handler.RespondRoundTrip | app/api/send-failed-billing/route.ts:40-110 | the outcome can be read back from the response: status and body determine it, including the path, the provider's reply and the thrown message |
| Handler.RespondInjective | app/api/send-failed-billing/route.ts:40-110 | no two outcomes share a response |
| Handler.TraceOrdered | app/api/send-failed-billing/route.ts:36-111 | the pipeline's steps, and so the steps a run reaches, are in source order; delivery is reached exactly when the whole pipeline ran, and is then last |
| Handler.MissingKeyDoesNothing | app/api/send-failed-billing/route.ts:39-45 | without a key: a 500 with no step reached, so no parse, no resolution and no delivery |
| Handler.ValidationStopsEarly | app/api/send-failed-billing/route.ts:52-57 | a validation failure is a 400 after the parse alone, and `InvalidTo` takes precedence over missing fields |
| Handler.MissingAttachmentStopsDelivery | app/api/send-failed-billing/route.ts:64-68 | when the resolved path fails the second existence check, the outcome is a 400 naming that path, reached after resolution and the check, with no read and no delivery |
| Handler.FirstFailureAt | app/api/send-failed-billing/route.ts:36-111 | the first failing guard decides the reference outcome |
| Handler.HandleAfterValidation | app/api/send-failed-billing/route.ts:59-64 | once key, fields and path type pass, the rest depends only on the props, recipient, amount and resolved path |
| Handler.EarlyGuardDecides | app/api/send-failed-billing/route.ts:39-64 | a rejection by the key, recipient, field or path-type guard yields that guard's outcome without delivery |
| Handler.LateGuardDecides | app/api/send-failed-billing/route.ts:64-98 | after those guards, the missing-file, read, render and amount-conversion guards decide in order; otherwise delivery happens and the provider's reply or throw decides the outcome |
| Handler.HandleFollowsGuards | app/api/send-failed-billing/route.ts:36-111 | the handler's outcome is the first failing guard's outcome with no delivery; if none fails, delivery is reached and the provider's reply is `Sent`, its throw an internal error with its message |
| Handler.DeliveredEmailContents | app/api/send-failed-billing/route.ts:79-98 | the delivered email has the body's recipient, the configured or default sender, the amount in the subject and the renderer's output for the body's props as HTML; it has an attachment exactly when a path was resolved, built from that file even without a type |
| Handler.MalformedBodyIsEmptyObject | app/api/send-failed-billing/route.ts:49-50 | an unparsable body is handled exactly like `{}`, which with a key is an invalid-`to` 400 |
| Handler.NonObjectBodyIsEmptyObject | app/api/send-failed-billing/route.ts:49-50 | any non-object JSON body is handled like an unparsable one |
| Handler.FalsyAttachPathIsAbsent | app/api/send-failed-billing/route.ts:19-20 | a falsy `attachPath` (`""`, `0`, `false`, `null`) is handled exactly like an absent one |
| Handler.NonStringAttachPathIsInternalError | app/api/send-failed-billing/route.ts:19 | a truthy non-string `attachPath` is a 500 before any file check, without delivery |
| Handler.CheckThenUseGap | app/api/send-failed-billing/route.ts:30-68 | whichever fallback candidate the resolver finds first, if it is gone at the second check the request is a 400 naming that file, with no retry of later candidates and no delivery |
| Handler.NoAttachmentScenario | app/api/send-failed-billing/route.ts:36-103 | `{to: "a@b.com", customerName: "Jonni", amount: 29}` with no candidate file and a working renderer and provider: 200, no attachments, the amount in the subject |
| Handler.ObjectAmountScenario | app/api/send-failed-billing/route.ts:83-108 | with a renderer that accepts the object amount, the same request with `amount: {"toString": 1}` passes validation and rendering, then throws in the subject: a 500 with the TypeError's message and no call to the provider (the shipped template already rejects any object `amount` while rendering, so the request fails there with React's message) |

## Left out

- `emails/FailedBillingEmail.tsx` is not part of this model. It is a presentational template. Rendering is the `render` parameter, so the HTML is opaque, and so is the claim that it contains the customer name.
- Filesystem access (`fs.existsSync`, `fs.readFileSync`) is modelled by oracles. The read returns raw bytes or a thrown message.
- The base64 encoding of the buffer (route.ts:71) is not modelled. `Mime.Attachment.content` holds the raw bytes.
- The Resend client (`new Resend`, route.ts:47) and the network call are left out. The call is the `send` parameter, and its reply is opaque JSON.
- HTTP headers, `JSON.stringify` and `console.error` logging are not modelled.
- Paths.ResolveAgainst: models `path.resolve(cwd, p)` as plain concatenation with one separator. It does not normalise `.`/`..` segments, repeated slashes or trailing slashes, as Node does.
- Paths.Basename: POSIX separators only; Windows paths are not modelled.
- Paths.Extname: is defined on slash-free file names only, which is how the route calls `extname`. It follows Node's rule that a leading dot and the name `..` give no extension. Fidelity to Node's algorithm on other inputs is not claimed.
- Text.Lower: lower-cases ASCII capitals only. Other characters are kept. This does not affect which of the four table extensions match, since no non-ASCII capital lower-cases to one of their letters.
- Handler.ExplicitPath: the TypeError detail is a fixed text. Node's message also names the received type and value.
- Number formatting (`String(29)`) belongs to the JavaScript engine. It is the `numberText` parameter. JSON numbers are reals, and `NaN` cannot arise from JSON.
- `process.cwd()` failing is not modelled: the working directory is the `cwd` field of `Config`. Every failure of `request.json()` is caught by its `.catch(() => ({}))` (route.ts:49) and is modelled as `Body.Malformed`.
