/** The decision logic of `POST` (app/api/send-failed-billing/route.ts):
    configuration check, permissive body parse, validation, attachment
    resolution and read, rendering and delivery, each failure mapped to an
    outcome. Environment, filesystem, template renderer and delivery
    provider are parameters; the run records which steps were reached and
    the email, if any, handed to the provider. */
module Handler {
  import opened Wrappers
  import opened JsValue
  import Resolver
  import Mime
  import Search

  /** Process environment: `RESEND_API_KEY`, `FROM_EMAIL`, `process.cwd()`. */
  datatype Config = Config(apiKey: Option<string>, fromEmail: Option<string>, cwd: string)

  /** `request.json()`: either a parsed JSON value or a parse failure. */
  datatype Body = Malformed | Parsed(value: Json)

  /** Props handed to the email template; each may be `undefined`. */
  datatype Props = Props(customerName: Option<Json>, amount: Option<Json>, retryUrl: Option<Json>, invoiceNumber: Option<Json>)

  /** The send request handed to the delivery provider. */
  datatype Email = Email(from: string, to: string, subject: string, html: string, attachments: Option<seq<Mime.Attachment>>)

  /** Everything outside the route: the filesystem as seen by the resolver
      and, separately, by the later check (two oracles, since they are two
      distinct reads of a changing disk), the file read, the template
      renderer, the provider, and the engine's number formatting. A
      `Failure` stands for a thrown exception and carries its message. */
  datatype World = World(
    existsAtResolve: string -> bool,
    existsAtRead: string -> bool,
    readFile: string -> Result<seq<bv8>, string>,
    render: Props -> Result<string, string>,
    send: Email -> Result<Json, string>,
    numberText: real -> string)

  datatype Outcome =
    | ConfigError
    | InvalidTo
    | MissingFields
    | AttachmentNotFound(path: string)
    | Sent(reply: Json)
    | InternalError(details: string)

  /** The externally visible steps of the pipeline. */
  datatype Step = ParseBody | ResolveAttachment | CheckAttachment | ReadAttachment | RenderHtml | Deliver

  /** The steps in the order the source performs them; the check and the
      read of the attachment happen only when a path was resolved. */
  function Pipeline(attached: bool): (ps: seq<Step>)
    ensures |ps| == if attached then 6 else 4
    ensures ps[0] == ParseBody && ps[1] == ResolveAttachment && ps[|ps| - 1] == Deliver
  {
    [ParseBody, ResolveAttachment]
    + (if attached then [CheckAttachment, ReadAttachment] else [])
    + [RenderHtml, Deliver]
  }

  function Rank(s: Step): nat {
    match s
    case ParseBody => 0
    case ResolveAttachment => 1
    case CheckAttachment => 2
    case ReadAttachment => 3
    case RenderHtml => 4
    case Deliver => 5
  }

  ghost predicate StepsOrdered(trace: seq<Step>) {
    forall i, j :: 0 <= i < j < |trace| ==> Rank(trace[i]) < Rank(trace[j])
  }

  /** What one request did: its outcome, whether an attachment path was
      resolved, how many steps of the pipeline were reached, and the email
      passed to the provider if delivery was reached. */
  datatype Run = Run(outcome: Outcome, attached: bool, reached: nat, delivered: Option<Email>)

  ghost predicate WellFormed(run: Run) {
    run.reached <= |Pipeline(run.attached)|
  }

  /** The steps a run reached, in order. */
  function Trace(run: Run): seq<Step>
    requires WellFormed(run)
  {
    Pipeline(run.attached)[..run.reached]
  }

  /** The validated fields of a request. */
  datatype Request = Request(to: string, amount: Json)

  const DefaultSender := "Billing <billing@example.com>"
  const SubjectPrefix := "Payment failed \U{2014} $"
  const ConfigErrorText := "Missing RESEND_API_KEY on server"
  const InvalidToText := "Missing or invalid 'to' address"
  const MissingFieldsText := "Missing customerName or amount"
  const NotFoundPrefix := "Attachment not found: "
  const InternalErrorText := "Internal error sending email"
  /** The message of the TypeError Node raises when a path is not a string. */
  const PathTypeErrorText := "The \"path\" argument must be of type string"

  /** `!RESEND_API_KEY` is false: the key is set and non-empty. */
  predicate HasApiKey(cfg: Config) {
    cfg.apiKey.Some? && cfg.apiKey.value != ""
  }

  /** `body.key` after `request.json().catch(() => ({}))` and `body ?? {}`:
      a parse failure, `null` and every non-object value read as `{}`. */
  function BodyField(body: Body, key: string): (r: Option<Json>)
    ensures body.Malformed? ==> r.None?
    ensures body.Parsed? ==> r == Property(body.value, key)
    ensures r.Some? ==> body.Parsed? && body.value.JObj? && key in body.value.fields
  {
    match body
    case Malformed => None
    case Parsed(v) => Property(v, key)
  }

  /** `to` is a non-empty string. */
  predicate ValidRecipient(to: Option<Json>) {
    to.Some? && to.value.JStr? && to.value.s != ""
  }

  /** The two validation checks, in source order. */
  function Validate(body: Body): (r: Result<Request, Outcome>)
    ensures r.Failure? ==> r.error == InvalidTo || r.error == MissingFields
    ensures r.Failure? && r.error == InvalidTo <==> !ValidRecipient(BodyField(body, "to"))
    ensures r.Failure? && r.error == MissingFields <==>
      ValidRecipient(BodyField(body, "to"))
      && (!Truthy(BodyField(body, "customerName")) || !Truthy(BodyField(body, "amount")))
    ensures r.Success? ==>
      && r.value.to != ""
      && BodyField(body, "to") == Some(JStr(r.value.to))
      && BodyField(body, "amount") == Some(r.value.amount)
      && Truthy(Some(r.value.amount))
  {
    var to := BodyField(body, "to");
    if !ValidRecipient(to) then Failure(InvalidTo)
    else if !Truthy(BodyField(body, "customerName")) || !Truthy(BodyField(body, "amount")) then Failure(MissingFields)
    else Success(Request(to.value.s, BodyField(body, "amount").value))
  }

  /** What `resolveAttachmentPath` receives: a falsy value means "no path";
      a truthy string is the path; any other truthy value makes
      `path.isAbsolute` throw a TypeError. */
  function ExplicitPath(v: Option<Json>): (r: Result<Option<string>, string>)
    ensures r.Failure? <==> Truthy(v) && !v.value.JStr?
    ensures r.Success? ==> (r.value.Some? <==> Truthy(v))
    ensures r.Success? && r.value.Some? ==> r.value.value != "" && v == Some(JStr(r.value.value))
  {
    if !Truthy(v) then Success(None)
    else if v.value.JStr? then Success(Some(v.value.s))
    else Failure(PathTypeErrorText)
  }

  /** The path the resolver returns for this request's `attachPath`, or
      None when there is none or `attachPath` makes it throw. */
  function ResolvedPath(cfg: Config, body: Body, w: World): Option<string> {
    match ExplicitPath(BodyField(body, "attachPath"))
    case Failure(_) => None
    case Success(explicit) => Resolver.ResolveAttachmentPath(explicit, cfg.cwd, w.existsAtResolve).path
  }

  /** The props passed to the template: four fields read from the body. */
  function PropsOf(body: Body): (props: Props)
    ensures props.customerName == BodyField(body, "customerName")
    ensures props.amount == BodyField(body, "amount")
    ensures props.retryUrl == BodyField(body, "retryUrl")
    ensures props.invoiceNumber == BodyField(body, "invoiceNumber")
  {
    Props(BodyField(body, "customerName"), BodyField(body, "amount"),
          BodyField(body, "retryUrl"), BodyField(body, "invoiceNumber"))
  }

  /** `process.env.FROM_EMAIL || "Billing <billing@example.com>"`. */
  function SenderOf(cfg: Config): (r: string)
    ensures r != ""
    ensures cfg.fromEmail.Some? && cfg.fromEmail.value != "" ==> r == cfg.fromEmail.value
    ensures cfg.fromEmail.None? || cfg.fromEmail.value == "" ==> r == DefaultSender
  {
    if cfg.fromEmail.Some? && cfg.fromEmail.value != "" then cfg.fromEmail.value else DefaultSender
  }

  /** The subject line: a fixed prefix followed by the amount as text, or
      the TypeError the template literal throws for an amount it cannot
      convert. */
  function Subject(amount: Json, numberText: real -> string): (r: Result<string, string>)
    ensures r.Success? <==> ConvertsToString(amount)
    ensures r.Success? ==>
      && |r.value| >= |SubjectPrefix| && r.value[..|SubjectPrefix|] == SubjectPrefix
      && r.value[|SubjectPrefix|..] == ToJsString(amount, numberText).value
    ensures r.Failure? ==> r.error == ToPrimitiveErrorText
  {
    match ToJsString(amount, numberText)
    case Success(text) => Success(SubjectPrefix + text)
    case Failure(e) => Failure(e)
  }

  /** The subject tells amounts apart exactly as their text does: two
      requests get the same subject line if and only if their amounts
      convert to the same string. */
  lemma SubjectDeterminesAmountText(a: Json, b: Json, numberText: real -> string)
    ensures Subject(a, numberText) == Subject(b, numberText)
        <==> ToJsString(a, numberText) == ToJsString(b, numberText)
  {
    var sa, sb := Subject(a, numberText), Subject(b, numberText);
    if sa == sb && sa.Success? {
      assert sa.value[|SubjectPrefix|..] == sb.value[|SubjectPrefix|..];
    }
  }

  /** An environment variable as JavaScript sees it: `undefined` when
      unset, a string otherwise. */
  function EnvValue(v: Option<string>): Option<Json> {
    match v
    case None => None
    case Some(s) => Some(JStr(s))
  }

  /** The two reads of the environment are JavaScript truthiness tests:
      `!RESEND_API_KEY` rejects exactly the falsy keys, and
      `FROM_EMAIL || default` keeps exactly the truthy sender. */
  lemma EnvReadsFollowTruthiness(cfg: Config)
    ensures HasApiKey(cfg) <==> Truthy(EnvValue(cfg.apiKey))
    ensures Truthy(EnvValue(cfg.fromEmail)) ==> SenderOf(cfg) == cfg.fromEmail.value
    ensures !Truthy(EnvValue(cfg.fromEmail)) ==> SenderOf(cfg) == DefaultSender
  {
  }

  /** The template sees only the four fields it is given: changing any
      other field of the body, such as `to` or `attachPath`, leaves the
      props unchanged. */
  lemma PropsIgnoreOtherFields(fields: map<string, Json>, key: string, v: Json)
    requires key !in {"customerName", "amount", "retryUrl", "invoiceNumber"}
    ensures PropsOf(Parsed(JObj(fields[key := v]))) == PropsOf(Parsed(JObj(fields)))
  {
  }

  /** Once the provider has been called, its answer decides the outcome: a
      reply is `Sent` with that reply, a throw is an internal error with
      the thrown message. */
  predicate ProviderDecides(run: Run, send: Email -> Result<Json, string>) {
    run.delivered.Some? ==>
      match send(run.delivered.value)
      case Success(reply) => run.outcome == Sent(reply)
      case Failure(e) => run.outcome == InternalError(e)
  }

  /** Rendering and delivery, reached once every earlier step succeeded;
      `reached` counts the steps before rendering. */
  function RenderAndSend(cfg: Config, props: Props, req: Request, w: World,
                         attached: bool, reached: nat, attachments: Option<seq<Mime.Attachment>>): (run: Run)
    ensures run.attached == attached
    ensures run.reached == reached + 1 || run.reached == reached + 2
    ensures run.delivered.Some? <==> run.reached == reached + 2
    ensures run.delivered.Some? ==> run.delivered.value.attachments == attachments
    ensures run.delivered.Some? ==> run.delivered.value.to == req.to
    ensures run.delivered.Some? <==> w.render(props).Success? && ConvertsToString(req.amount)
    ensures run.delivered.Some? ==> w.render(props) == Success(run.delivered.value.html)
    ensures run.delivered.Some? ==> Subject(req.amount, w.numberText) == Success(run.delivered.value.subject)
    ensures run.delivered.Some? ==> run.delivered.value.from == SenderOf(cfg)
    ensures w.render(props).Failure? ==> run.outcome == InternalError(w.render(props).error)
    ensures w.render(props).Success? && !ConvertsToString(req.amount) ==> run.outcome == InternalError(ToPrimitiveErrorText)
    ensures ProviderDecides(run, w.send)
    ensures run.outcome.Sent? || run.outcome.InternalError?
    ensures run.outcome.Sent? ==> run.delivered.Some? && w.send(run.delivered.value) == Success(run.outcome.reply)
  {
    match w.render(props)
    case Failure(e) => Run(InternalError(e), attached, reached + 1, None)
    case Success(html) =>
      match Subject(req.amount, w.numberText)
      case Failure(e) => Run(InternalError(e), attached, reached + 1, None)
      case Success(subject) =>
      var email := Email(SenderOf(cfg), req.to, subject, html, attachments);
      match w.send(email)
      case Failure(e) => Run(InternalError(e), attached, reached + 2, Some(email))
      case Success(reply) => Run(Sent(reply), attached, reached + 2, Some(email))
  }

  /** Everything after `resolveAttachmentPath` returned `resolved`: the
      second existence check and the read when a path was found, then
      rendering and delivery. */
  function AfterResolution(cfg: Config, props: Props, req: Request, w: World, resolved: Option<string>): (run: Run)
    ensures run.attached <==> resolved.Some?
    ensures 2 < run.reached <= |Pipeline(run.attached)|
    ensures run.outcome.Sent? || run.outcome.InternalError? || run.outcome.AttachmentNotFound?
    ensures run.outcome.AttachmentNotFound? <==> resolved.Some? && !w.existsAtRead(resolved.value)
    ensures run.outcome.AttachmentNotFound? ==> run.outcome.path == resolved.value && run.reached == 3
    ensures run.delivered.Some? <==> run.reached == |Pipeline(run.attached)|
    ensures run.delivered.Some? ==> run.delivered.value.to == req.to
    ensures run.delivered.Some? ==> (run.delivered.value.attachments.None? <==> resolved.None?)
    ensures run.delivered.Some? ==> w.render(props) == Success(run.delivered.value.html)
    ensures run.delivered.Some? ==> Subject(req.amount, w.numberText) == Success(run.delivered.value.subject)
    ensures run.delivered.Some? ==> run.delivered.value.from == SenderOf(cfg)
    ensures ProviderDecides(run, w.send)
    ensures run.outcome.Sent? ==> run.delivered.Some? && w.send(run.delivered.value) == Success(run.outcome.reply)
  {
    match resolved
    case None => RenderAndSend(cfg, props, req, w, false, 2, None)
    case Some(p) =>
      if !w.existsAtRead(p) then Run(AttachmentNotFound(p), true, 3, None)
      else
        match w.readFile(p)
        case Failure(e) => Run(InternalError(e), true, 4, None)
        case Success(bytes) => RenderAndSend(cfg, props, req, w, true, 4, Some([Mime.AttachmentFor(p, bytes)]))
  }

  /** `POST`: one request, start to finish. */
  function Handle(cfg: Config, body: Body, w: World): (run: Run)
    ensures WellFormed(run)
    ensures !HasApiKey(cfg) <==> run.outcome.ConfigError?
    ensures !HasApiKey(cfg) ==> run.reached == 0 && run.delivered.None?
    ensures HasApiKey(cfg) ==> run.reached > 0
    ensures run.outcome.InvalidTo? || run.outcome.MissingFields? ==> run.reached == 1 && run.delivered.None?
    ensures run.delivered.Some? <==> run.reached == |Pipeline(run.attached)|
    ensures run.attached ==> ResolvedPath(cfg, body, w).Some?
    ensures run.outcome.AttachmentNotFound? ==>
      && run.reached == 3
      && run.delivered.None?
      && ResolvedPath(cfg, body, w) == Some(run.outcome.path)
      && !w.existsAtRead(run.outcome.path)
    ensures ProviderDecides(run, w.send)
    ensures run.outcome.Sent? ==> run.delivered.Some? && w.send(run.delivered.value) == Success(run.outcome.reply)
  {
    if !HasApiKey(cfg) then Run(ConfigError, false, 0, None)
    else
      match Validate(body)
      case Failure(o) => Run(o, false, 1, None)
      case Success(req) =>
        match ExplicitPath(BodyField(body, "attachPath"))
        case Failure(e) => Run(InternalError(e), false, 2, None)
        case Success(explicit) =>
          AfterResolution(cfg, PropsOf(body), req, w, Resolver.ResolveAttachmentPath(explicit, cfg.cwd, w.existsAtResolve).path)
  }

  /** The HTTP response written for an outcome. */
  datatype Response = Response(status: int, body: Json)

  function Respond(o: Outcome): (r: Response)
    ensures r.status == 200 <==> o.Sent?
    ensures r.status == 400 <==> o.InvalidTo? || o.MissingFields? || o.AttachmentNotFound?
    ensures r.status == 500 <==> o.ConfigError? || o.InternalError?
    ensures r.body.JObj? && ("error" in r.body.fields <==> r.status != 200)
    ensures o.AttachmentNotFound? ==>
      var m := r.body.fields["error"];
      m.JStr? && |m.s| > |o.path| && m.s[|m.s| - |o.path|..] == o.path
    ensures o.Sent? ==> r.body == JObj(map["success" := JBool(true), "data" := o.reply])
    ensures o.ConfigError? ==> r.body == JObj(map["error" := JStr(ConfigErrorText)])
    ensures o.InvalidTo? ==> r.body == JObj(map["error" := JStr(InvalidToText)])
    ensures o.MissingFields? ==> r.body == JObj(map["error" := JStr(MissingFieldsText)])
    ensures o.AttachmentNotFound? ==> r.body == JObj(map["error" := JStr(NotFoundPrefix + o.path)])
    ensures o.InternalError? ==>
      r.body == JObj(map["error" := JStr(InternalErrorText), "details" := JStr(o.details)])
  {
    match o
    case ConfigError => Response(500, JObj(map["error" := JStr(ConfigErrorText)]))
    case InvalidTo => Response(400, JObj(map["error" := JStr(InvalidToText)]))
    case MissingFields => Response(400, JObj(map["error" := JStr(MissingFieldsText)]))
    case AttachmentNotFound(p) => Response(400, JObj(map["error" := JStr(NotFoundPrefix + p)]))
    case Sent(reply) => Response(200, JObj(map["success" := JBool(true), "data" := reply]))
    case InternalError(d) => Response(500, JObj(map["error" := JStr(InternalErrorText), "details" := JStr(d)]))
  }

  /** Reads the outcome back from a response, as a client of the route
      would: the status class, then the `data`, `details` or `error` field. */
  function ResponseOutcome(r: Response): Option<Outcome> {
    if !r.body.JObj? then None
    else
      var f := r.body.fields;
      if r.status == 200 && "data" in f then Some(Sent(f["data"]))
      else if r.status == 500 && "details" in f && f["details"].JStr? then Some(InternalError(f["details"].s))
      else if !("error" in f && f["error"].JStr?) then None
      else
        var m := f["error"].s;
        if r.status == 500 && m == ConfigErrorText then Some(ConfigError)
        else if r.status == 400 && m == InvalidToText then Some(InvalidTo)
        else if r.status == 400 && m == MissingFieldsText then Some(MissingFields)
        else if r.status == 400 && NotFoundPrefix <= m then Some(AttachmentNotFound(m[|NotFoundPrefix|..]))
        else None
  }

  /** Every response can be read back: the response determines the
      outcome, including the missing path, the provider's reply and the
      thrown message. */
  lemma RespondRoundTrip(o: Outcome)
    ensures ResponseOutcome(Respond(o)) == Some(o)
  {
    if o.AttachmentNotFound? {
      var m := NotFoundPrefix + o.path;
      assert m[0] == 'A' && m != InvalidToText && m != MissingFieldsText;
      assert m[|NotFoundPrefix|..] == o.path;
    }
  }

  /** Hence no two outcomes share a response. */
  lemma RespondInjective(o1: Outcome, o2: Outcome)
    requires Respond(o1) == Respond(o2)
    ensures o1 == o2
  {
    RespondRoundTrip(o1);
    RespondRoundTrip(o2);
  }

  /** The steps a run reaches are an initial segment of the pipeline,
      hence in order; delivery is among them exactly when the whole
      pipeline ran, and it is then the last step. With `Handle`'s contract
      (`delivered.Some?` exactly when the whole pipeline ran) this says that
      the provider is called exactly when `Deliver` is reached. */
  lemma TraceOrdered(run: Run)
    requires WellFormed(run)
    ensures StepsOrdered(Trace(run))
    ensures Deliver in Trace(run) <==> run.reached == |Pipeline(run.attached)|
    ensures Deliver in Trace(run) ==> Trace(run) == Pipeline(run.attached)
  {
    var ps := Pipeline(run.attached);
    if Deliver in Trace(run) {
      var i :| 0 <= i < run.reached && ps[i] == Deliver;
      assert i == |ps| - 1;
    }
  }

  /** A missing or empty key stops the request before anything else: no
      parse, no resolution, no delivery, a 500 response. */
  lemma MissingKeyDoesNothing(cfg: Config, body: Body, w: World)
    requires !HasApiKey(cfg)
    ensures Handle(cfg, body, w) == Run(ConfigError, false, 0, None)
    ensures Trace(Handle(cfg, body, w)) == []
    ensures Respond(Handle(cfg, body, w).outcome).status == 500
  {
  }

  /** A rejected recipient or missing field is reported after the parse
      and before anything else happens. */
  lemma ValidationStopsEarly(cfg: Config, body: Body, w: World)
    requires HasApiKey(cfg)
    requires !ValidRecipient(BodyField(body, "to"))
      || !Truthy(BodyField(body, "customerName")) || !Truthy(BodyField(body, "amount"))
    ensures var run := Handle(cfg, body, w);
      && Trace(run) == [ParseBody]
      && run.delivered.None?
      && Respond(run.outcome).status == 400
      && (run.outcome == InvalidTo <==> !ValidRecipient(BodyField(body, "to")))
  {
  }

  /** An attachment that vanished before the second check is a 400 naming
      the resolved path; nothing is read and nothing is delivered. */
  lemma MissingAttachmentStopsDelivery(cfg: Config, body: Body, w: World, p: string)
    requires HasApiKey(cfg) && Validate(body).Success?
    requires ResolvedPath(cfg, body, w) == Some(p) && !w.existsAtRead(p)
    ensures var run := Handle(cfg, body, w);
      && run.outcome == AttachmentNotFound(p)
      && Trace(run) == [ParseBody, ResolveAttachment, CheckAttachment]
      && run.delivered.None?
      && Respond(run.outcome).status == 400
  {
    HandleAfterValidation(cfg, body, w);
  }

  /** Error precedence stated independently of `Handle`: an ordered list
      of guards, each a failure condition and the outcome it produces; the
      request fails with the first guard that fails. */
  datatype Guard = Guard(fails: bool, outcome: Outcome)

  function Guards(cfg: Config, body: Body, w: World): seq<Guard> {
    var explicit := ExplicitPath(BodyField(body, "attachPath"));
    var resolved := ResolvedPath(cfg, body, w);
    var read := if resolved.Some? then w.readFile(resolved.value) else Success([]);
    var rendered := w.render(PropsOf(body));
    var amount := BodyField(body, "amount");
    [ Guard(!HasApiKey(cfg), ConfigError),
      Guard(!ValidRecipient(BodyField(body, "to")), InvalidTo),
      Guard(!Truthy(BodyField(body, "customerName")) || !Truthy(BodyField(body, "amount")), MissingFields),
      Guard(explicit.Failure?, InternalError(PathTypeErrorText)),
      Guard(resolved.Some? && !w.existsAtRead(resolved.value),
            AttachmentNotFound(if resolved.Some? then resolved.value else "")),
      Guard(read.Failure?, InternalError(if read.Failure? then read.error else "")),
      Guard(rendered.Failure?, InternalError(if rendered.Failure? then rendered.error else "")),
      Guard(amount.Some? && !ConvertsToString(amount.value), InternalError(ToPrimitiveErrorText)) ]
  }

  function FirstFailure(gs: seq<Guard>): Option<Outcome> {
    match Search.FirstIndex(gs, (g: Guard) => g.fails)
    case Some(k) => Some(gs[k].outcome)
    case None => None
  }

  /** The first failing guard decides `FirstFailure`. */
  lemma FirstFailureAt(gs: seq<Guard>, k: int)
    requires 0 <= k < |gs| && gs[k].fails
    requires forall j :: 0 <= j < k ==> !gs[j].fails
    ensures FirstFailure(gs) == Some(gs[k].outcome)
  {
    Search.FirstIndexUnique(gs, (g: Guard) => g.fails, k);
  }

  /** Once the key, the fields and the type of `attachPath` are accepted,
      the rest of the request is decided by the resolved path alone. */
  lemma HandleAfterValidation(cfg: Config, body: Body, w: World)
    requires HasApiKey(cfg) && Validate(body).Success?
    requires ExplicitPath(BodyField(body, "attachPath")).Success?
    ensures Handle(cfg, body, w) == AfterResolution(cfg, PropsOf(body), Validate(body).value, w, ResolvedPath(cfg, body, w))
  {
  }

  /** A request rejected by one of the first four guards (key, recipient,
      fields, type of `attachPath`) ends with that guard's outcome. */
  lemma EarlyGuardDecides(cfg: Config, body: Body, w: World, k: int)
    requires 0 <= k < 4
    requires var gs := Guards(cfg, body, w); gs[k].fails && forall j :: 0 <= j < k ==> !gs[j].fails
    ensures Handle(cfg, body, w).outcome == Guards(cfg, body, w)[k].outcome
    ensures Handle(cfg, body, w).delivered.None?
  {
    var gs := Guards(cfg, body, w);
    if k == 0 {
    } else if k == 1 {
      assert !gs[0].fails;
    } else if k == 2 {
      assert !gs[0].fails && !gs[1].fails;
    } else {
      assert !gs[0].fails && !gs[1].fails && !gs[2].fails;
    }
  }

  /** A request that passes the first four guards ends with the outcome of
      the first later guard that fails, or is delivered. */
  lemma LateGuardDecides(cfg: Config, body: Body, w: World)
    requires var gs := Guards(cfg, body, w); forall j :: 0 <= j < 4 ==> !gs[j].fails
    ensures var run := Handle(cfg, body, w);
      var gs := Guards(cfg, body, w);
      && (gs[4].fails ==> run.outcome == gs[4].outcome && run.delivered.None?)
      && (!gs[4].fails && gs[5].fails ==> run.outcome == gs[5].outcome && run.delivered.None?)
      && (!gs[4].fails && !gs[5].fails && gs[6].fails ==> run.outcome == gs[6].outcome && run.delivered.None?)
      && (!gs[4].fails && !gs[5].fails && !gs[6].fails && gs[7].fails ==> run.outcome == gs[7].outcome && run.delivered.None?)
      && (!gs[4].fails && !gs[5].fails && !gs[6].fails && !gs[7].fails ==> run.delivered.Some? && ProviderDecides(run, w.send))
  {
    var gs := Guards(cfg, body, w);
    assert !gs[0].fails && !gs[1].fails && !gs[2].fails && !gs[3].fails;
    HandleAfterValidation(cfg, body, w);
  }

  /** `Handle` fails exactly as the first failing guard says and then never
      delivers; when no guard fails, delivery is reached. */
  lemma HandleFollowsGuards(cfg: Config, body: Body, w: World)
    ensures var run := Handle(cfg, body, w);
      var first := FirstFailure(Guards(cfg, body, w));
      && (first.Some? ==> run.outcome == first.value && run.delivered.None?)
      && (first.None? ==> run.delivered.Some? && run.reached == |Pipeline(run.attached)| && ProviderDecides(run, w.send))
  {
    var gs := Guards(cfg, body, w);
    var k := 0;
    while k < |gs| && !gs[k].fails
      invariant 0 <= k <= |gs|
      invariant forall j :: 0 <= j < k ==> !gs[j].fails
    {
      k := k + 1;
    }
    if k < 4 {
      FirstFailureAt(gs, k);
      EarlyGuardDecides(cfg, body, w, k);
    } else {
      LateGuardDecides(cfg, body, w);
      if k < |gs| {
        FirstFailureAt(gs, k);
      } else {
        assert Search.NoneMatch(gs, (g: Guard) => g.fails);
      }
    }
  }

  /** What reaches the provider: the validated recipient, the configured or
      default sender, the amount in the subject, and an attachment exactly
      when a path was resolved, read from that path, with its file name and
      content whether or not a content type was inferred. */
  lemma DeliveredEmailContents(cfg: Config, body: Body, w: World)
    requires Handle(cfg, body, w).delivered.Some?
    ensures var e := Handle(cfg, body, w).delivered.value;
      && BodyField(body, "to") == Some(JStr(e.to))
      && e.from == SenderOf(cfg)
      && e.subject == SubjectPrefix + ToJsString(BodyField(body, "amount").value, w.numberText).value
      && w.render(PropsOf(body)) == Success(e.html)
      && (e.attachments.None? <==> ResolvedPath(cfg, body, w).None?)
      && (e.attachments.Some? ==>
            var p := ResolvedPath(cfg, body, w).value;
            && w.existsAtRead(p)
            && w.readFile(p).Success?
            && e.attachments.value == [Mime.AttachmentFor(p, w.readFile(p).value)])
  {
  }

  /** A body that does not parse is handled exactly like `{}`. */
  lemma MalformedBodyIsEmptyObject(cfg: Config, w: World)
    ensures Handle(cfg, Malformed, w) == Handle(cfg, Parsed(JObj(map[])), w)
    ensures HasApiKey(cfg) ==> Handle(cfg, Malformed, w).outcome == InvalidTo
  {
  }

  /** `null`, a number, a string, a boolean or an array as the whole body
      reads as `{}` too. */
  lemma NonObjectBodyIsEmptyObject(cfg: Config, v: Json, w: World)
    requires !v.JObj?
    ensures Handle(cfg, Parsed(v), w) == Handle(cfg, Malformed, w)
  {
  }

  /** A falsy `attachPath` (`""`, `0`, `false`, `null`) behaves exactly like
      an absent one. */
  lemma FalsyAttachPathIsAbsent(cfg: Config, fields: map<string, Json>, v: Json, w: World)
    requires !Truthy(Some(v))
    ensures Handle(cfg, Parsed(JObj(fields["attachPath" := v])), w)
         == Handle(cfg, Parsed(JObj(fields - {"attachPath"})), w)
  {
    var b1 := Parsed(JObj(fields["attachPath" := v]));
    var b2 := Parsed(JObj(fields - {"attachPath"}));
    assert forall k :: k != "attachPath" ==> BodyField(b1, k) == BodyField(b2, k);
    assert PropsOf(b1) == PropsOf(b2);
    assert Validate(b1) == Validate(b2);
    assert ExplicitPath(BodyField(b1, "attachPath")) == ExplicitPath(BodyField(b2, "attachPath")) == Success(None);
    assert ResolvedPath(cfg, b1, w) == ResolvedPath(cfg, b2, w);
    if HasApiKey(cfg) && Validate(b1).Success? {
      HandleAfterValidation(cfg, b1, w);
      HandleAfterValidation(cfg, b2, w);
    }
  }

  /** A truthy `attachPath` that is not a string makes the resolver throw:
      a 500, before any file is checked and without delivery. */
  lemma NonStringAttachPathIsInternalError(cfg: Config, body: Body, w: World)
    requires HasApiKey(cfg) && Validate(body).Success?
    requires Truthy(BodyField(body, "attachPath")) && !BodyField(body, "attachPath").value.JStr?
    ensures var run := Handle(cfg, body, w);
      && run.outcome == InternalError(PathTypeErrorText)
      && Trace(run) == [ParseBody, ResolveAttachment]
      && run.delivered.None?
  {
  }

  /** The two existence checks read the disk separately: a fallback file
      seen by the resolver but gone at the second check gives a 400 naming
      that file, not a search for the next candidate. */
  lemma CheckThenUseGap(cfg: Config, body: Body, w: World, k: int)
    requires HasApiKey(cfg) && Validate(body).Success?
    requires !Truthy(BodyField(body, "attachPath"))
    requires Search.IsFirst(Resolver.Candidates(cfg.cwd), w.existsAtResolve, k)
    requires !w.existsAtRead(Resolver.Candidates(cfg.cwd)[k])
    ensures Handle(cfg, body, w).outcome == AttachmentNotFound(Resolver.Candidates(cfg.cwd)[k])
    ensures Handle(cfg, body, w).delivered.None?
  {
    Search.FirstIndexUnique(Resolver.Candidates(cfg.cwd), w.existsAtResolve, k);
  }

  /** A request for 29 to "a@b.com" with no candidate file on disk, with a
      renderer and provider that succeed: a 200, and an email without
      attachments whose subject carries the amount. */
  lemma NoAttachmentScenario(cfg: Config, w: World)
    requires HasApiKey(cfg)
    requires forall p :: !w.existsAtResolve(p)
    requires forall props :: w.render(props).Success?
    requires forall e :: w.send(e).Success?
    ensures var body := Parsed(JObj(map["to" := JStr("a@b.com"), "customerName" := JStr("Jonni"), "amount" := JNum(29.0)]));
      var run := Handle(cfg, body, w);
      && run.outcome.Sent?
      && Respond(run.outcome).status == 200
      && run.delivered.Some?
      && run.delivered.value.to == "a@b.com"
      && run.delivered.value.attachments.None?
      && run.delivered.value.subject == SubjectPrefix + w.numberText(29.0)
  {
    var body := Parsed(JObj(map["to" := JStr("a@b.com"), "customerName" := JStr("Jonni"), "amount" := JNum(29.0)]));
    assert BodyField(body, "attachPath") == None;
    assert BodyField(body, "to") == Some(JStr("a@b.com"));
    assert Validate(body) == Success(Request("a@b.com", JNum(29.0)));
    Resolver.NothingFound(cfg.cwd, w.existsAtResolve);
    assert ResolvedPath(cfg, body, w) == None;
    HandleAfterValidation(cfg, body, w);
  }

  /** The same request with `amount: {"toString": 1}` and a renderer that
      accepts it: the amount is truthy and passes validation, but the
      subject's template literal throws, so the request is a 500 carrying
      the TypeError's message after rendering, and the provider is never
      called. (A renderer that rejects object amounts fails first, with its
      own message.) */
  lemma ObjectAmountScenario(cfg: Config, w: World)
    requires HasApiKey(cfg)
    requires forall p :: !w.existsAtResolve(p)
    requires forall props :: w.render(props).Success?
    ensures var amount := JObj(map["toString" := JNum(1.0)]);
      var body := Parsed(JObj(map["to" := JStr("a@b.com"), "customerName" := JStr("Jonni"), "amount" := amount]));
      var run := Handle(cfg, body, w);
      && run.outcome == InternalError(ToPrimitiveErrorText)
      && Respond(run.outcome).status == 500
      && run.delivered.None?
      && Trace(run) == [ParseBody, ResolveAttachment, RenderHtml]
  {
    var amount := JObj(map["toString" := JNum(1.0)]);
    var body := Parsed(JObj(map["to" := JStr("a@b.com"), "customerName" := JStr("Jonni"), "amount" := amount]));
    assert BodyField(body, "attachPath") == None;
    assert BodyField(body, "to") == Some(JStr("a@b.com"));
    assert Validate(body) == Success(Request("a@b.com", amount));
    Resolver.NothingFound(cfg.cwd, w.existsAtResolve);
    assert ResolvedPath(cfg, body, w) == None;
    HandleAfterValidation(cfg, body, w);
  }
}
