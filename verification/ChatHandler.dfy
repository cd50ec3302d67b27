/**
 The chat completion endpoint (internal/httpapi/chat_completions_handler.go): preflight, route, prepare, egress,
 dispatch, audit.  The request body, the classifier, the searches, the JSON codec, the provider and the recorder are
 arbitrary; the scanner, the evaluator, the router and the retrieval pipeline are the modelled ones.
 */
module ChatHandler {
  import opened Wrappers
  import opened Chat
  import Ordering
  import Policy
  import Scanner
  import Routing
  import Retrieval
  import ContextCompiler
  import Text

  datatype RouteStatus = RouteStatus(candidate: Routing.Candidate, available: bool)

  /** One snapshot of the runtime.  `hostHas` is asked while listing candidates, `hostGives` once one is chosen. */
  datatype Runtime = Runtime(
    providerName: string,
    hasHost: bool,
    hostHas: string -> bool,
    hostGives: string -> bool,
    project: Policy.ProjectConfig,
    system: Option<bool>,
    pipeline: Option<Retrieval.Settings>,
    routeStatus: seq<RouteStatus>,
    routeCatalog: seq<Routing.Candidate>)

  datatype Response = UpstreamFailed | CopyFailed(code: nat) | Completed(code: nat)

  /** What the world does during one request. */
  datatype Environment = Environment(
    isPost: bool,
    decoded: Option<Request>,
    valid: bool,
    prompt: Option<seq<Message>>,
    encode: Request -> Option<string>,
    decode: Policy.Decoder,
    required: seq<string>,
    classification: Option<Policy.Classification>,
    searches: Retrieval.Searches,
    response: Response,
    recorderWorks: bool)

  const DEFAULT_PLAN := Policy.RetrievalPlan(true, Policy.REMOTE_TOP_K, Policy.REMOTE_MAX_CHARS)

  datatype EventType = RemoteEgress | RemoteDeny

  datatype Event = Event(eventType: EventType, provider: string, model: string, verdict: Policy.Verdict,
                         reason: Policy.Reason, routeSource: Policy.Source, outboundHash: string, responseStatus: nat,
                         failed: bool)

  datatype ProviderCall = ProviderCall(provider: string, location: Option<Routing.Location>, request: Request,
                                       body: string)

  datatype Selection = Selection(providerId: string, candidate: Option<Routing.Candidate>)

  /** A request made ready for egress, with the settings asked for and the context, if there are any. */
  datatype Outbound = Outbound(request: Request, body: string, requested: Option<Retrieval.Settings>,
                               context: Option<ContextCompiler.CompiledContext>)

  /** What leads to the second evaluation: the first, its verdict, the route, and what became of the request. */
  datatype Egress = Egress(first: Policy.EvaluationInput, preflight: Policy.Verdict, route: Selection,
                           requested: Option<Retrieval.Settings>, context: Option<ContextCompiler.CompiledContext>,
                           input: Policy.EvaluationInput)

  /** How far a request came that was not sent. */
  datatype Progress =
    | NotReceived
    | AtPreflight(first: Policy.EvaluationInput)
    | AtRoute(first: Policy.EvaluationInput, preflight: Policy.Verdict)
    | AtPreparation(first: Policy.EvaluationInput, preflight: Policy.Verdict, route: Selection)
    | AtEgress(egress: Egress)

  datatype Run =
    | Rejected(status: nat, progress: Progress)
    | Denied(event: Event, progress: Progress)
    | Called(call: ProviderCall, event: Event, egress: Egress)

  function HashBytes(sha: string -> string, value: string): string {
    if value == "" then "" else sha(value)
  }

  // ----- routes

  function LocationOf(s: Selection): Option<Routing.Location> {
    if s.candidate.Some? then Some(s.candidate.value.location) else None
  }

  /** No candidate counts as remote. */
  predicate IsRemote(location: Option<Routing.Location>) {
    location.None? || location == Some(Routing.Remote)
  }

  predicate IsLocal(location: Option<Routing.Location>) {
    location == Some(Routing.Local)
  }

  predicate Usable(runtime: Runtime, s: RouteStatus) {
    s.available && (runtime.hasHost ==> runtime.hostHas(s.candidate.id))
  }

  function FromStatus(runtime: Runtime, status: seq<RouteStatus>): seq<Routing.Candidate> {
    if status == [] then []
    else
      var n := |status| - 1;
      FromStatus(runtime, status[..n]) + (if Usable(runtime, status[n]) then [status[n].candidate] else [])
  }

  function FromCatalog(runtime: Runtime, catalog: seq<Routing.Candidate>): seq<Routing.Candidate> {
    if catalog == [] then []
    else
      var n := |catalog| - 1;
      var usable := runtime.hasHost ==> runtime.hostHas(catalog[n].id);
      FromCatalog(runtime, catalog[..n]) + (if usable then [catalog[n]] else [])
  }

  /** The status table decides when there is one, the catalog otherwise. */
  function Candidates(runtime: Runtime): seq<Routing.Candidate> {
    if runtime.routeStatus != [] then FromStatus(runtime, runtime.routeStatus)
    else FromCatalog(runtime, runtime.routeCatalog)
  }

  lemma {:induction false} WithoutHostAll(runtime: Runtime, catalog: seq<Routing.Candidate>)
    requires !runtime.hasHost
    ensures FromCatalog(runtime, catalog) == catalog
  {
    if catalog != [] {
      var n := |catalog| - 1;
      WithoutHostAll(runtime, catalog[..n]);
      assert catalog == catalog[..n] + [catalog[n]];
    }
  }

  /** Whom the host has; without a host, everyone. */
  predicate Hosted(runtime: Runtime, c: Routing.Candidate) {
    !runtime.hasHost || runtime.hostHas(c.id)
  }

  lemma {:induction false} FromStatusInWords(runtime: Runtime, status: seq<RouteStatus>, c: Routing.Candidate)
    ensures c in FromStatus(runtime, status) <==>
              exists s :: s in status && s.candidate == c && s.available && Hosted(runtime, c)
  {
    if status != [] {
      var n := |status| - 1;
      FromStatusInWords(runtime, status[..n], c);
      assert status == status[..n] + [status[n]];
    }
  }

  lemma {:induction false} FromCatalogInWords(runtime: Runtime, catalog: seq<Routing.Candidate>, c: Routing.Candidate)
    ensures c in FromCatalog(runtime, catalog) <==> c in catalog && Hosted(runtime, c)
  {
    if catalog != [] {
      var n := |catalog| - 1;
      FromCatalogInWords(runtime, catalog[..n], c);
      assert catalog == catalog[..n] + [catalog[n]];
    }
  }

  /** Who may be routed to: the available hosted candidates of the status table, or the hosted ones of the catalog. */
  lemma CandidatesInWords(runtime: Runtime, c: Routing.Candidate)
    ensures c in Candidates(runtime) <==>
              && Hosted(runtime, c)
              && if runtime.routeStatus == [] then c in runtime.routeCatalog
                 else exists s :: s in runtime.routeStatus && s.candidate == c && s.available
  {
    FromStatusInWords(runtime, runtime.routeStatus, c);
    FromCatalogInWords(runtime, runtime.routeCatalog, c);
  }

  method AvailableRouteCandidates(runtime: Runtime) returns (candidates: seq<Routing.Candidate>)
    ensures candidates == Candidates(runtime)
  {
    candidates := [];
    if |runtime.routeStatus| > 0 {
      for i := 0 to |runtime.routeStatus|
        invariant candidates == FromStatus(runtime, runtime.routeStatus[..i])
      {
        var status := runtime.routeStatus[i];
        assert runtime.routeStatus[..i + 1][..i] == runtime.routeStatus[..i];
        if !status.available { continue; }
        if runtime.hasHost && !runtime.hostHas(status.candidate.id) { continue; }
        candidates := candidates + [status.candidate];
      }
      assert runtime.routeStatus[..|runtime.routeStatus|] == runtime.routeStatus;
      return;
    }
    if |runtime.routeCatalog| == 0 { return; }
    if !runtime.hasHost {
      WithoutHostAll(runtime, runtime.routeCatalog);
      return runtime.routeCatalog;
    }
    for i := 0 to |runtime.routeCatalog|
      invariant candidates == FromCatalog(runtime, runtime.routeCatalog[..i])
    {
      assert runtime.routeCatalog[..i + 1][..i] == runtime.routeCatalog[..i];
      if !runtime.hostHas(runtime.routeCatalog[i].id) { continue; }
      candidates := candidates + [runtime.routeCatalog[i]];
    }
    assert runtime.routeCatalog[..|runtime.routeCatalog|] == runtime.routeCatalog;
  }

  function RouteInput(runtime: Runtime, env: Environment, model: string, verdict: Policy.Verdict)
    : Routing.DecisionInput
  {
    var c := env.classification;
    var action := if c.Some? && c.value.action != Policy.OtherAction("") then c.value.action else Policy.GeneralQA;
    Routing.DecisionInput(model, env.required, action, runtime.project, verdict, Candidates(runtime))
  }

  /**
   What the router is asked: the request's model and capabilities, the verdict, who may be routed to, and the action the
   classifier named, or general questions where it named none.
   */
  lemma RouteInputInWords(runtime: Runtime, env: Environment, model: string, verdict: Policy.Verdict)
    ensures var input := RouteInput(runtime, env, model, verdict);
            && input.requestedModel == model && input.requiredCapabilities == env.required && input.verdict == verdict
            && input.project == runtime.project && input.candidates == Candidates(runtime)
            && (env.classification.None? ==> input.action == Policy.GeneralQA)
            && (env.classification.Some? ==>
                  if env.classification.value.action == Policy.OtherAction("") then input.action == Policy.GeneralQA
                  else input.action == env.classification.value.action)
  {
    hide Candidates;
  }

  /**
   The route is what the router selects, if the host gives that provider; without a host, the runtime's own provider.
   */
  ghost predicate RouteFound(runtime: Runtime, env: Environment, model: string, verdict: Policy.Verdict, s: Selection) {
    if runtime.hasHost then
      exists d :: Routing.IsDecision(RouteInput(runtime, env, model, verdict), d)
                  && d.selected.Some? && d.selected == s.candidate
                  && s.providerId == d.selected.value.id && runtime.hostGives(s.providerId)
    else
      s == Selection(runtime.providerName, None) && verdict != Policy.LocalOnly
  }

  ghost predicate RouteFails(runtime: Runtime, env: Environment, model: string, verdict: Policy.Verdict) {
    if runtime.hasHost then
      exists d :: Routing.IsDecision(RouteInput(runtime, env, model, verdict), d)
                  && (d.selected.None? || !runtime.hostGives(d.selected.value.id))
    else
      verdict == Policy.LocalOnly
  }

  /** A route found under a local-only verdict is local. */
  lemma RouteRespectsVerdict(runtime: Runtime, env: Environment, model: string, s: Selection)
    requires RouteFound(runtime, env, model, Policy.LocalOnly, s)
    ensures s.candidate.Some? && s.candidate.value.location == Routing.Local
  {
    hide Candidates, Routing.IsDecision;
    var input := RouteInput(runtime, env, model, Policy.LocalOnly);
    var d :| Routing.IsDecision(input, d) && d.selected.Some? && d.selected == s.candidate;
    Routing.SelectedPasses(input, d);
  }

  function NoRoute(runtime: Runtime): Selection {
    Selection(if runtime.hasHost then "" else runtime.providerName, None)
  }

  method ResolveRoute(runtime: Runtime, env: Environment, model: string, verdict: Policy.Verdict)
    returns (ok: bool, s: Selection)
    ensures ok ==> RouteFound(runtime, env, model, verdict, s)
    ensures !ok ==> RouteFails(runtime, env, model, verdict) && s == NoRoute(runtime)
  {
    hide Candidates, Routing.IsDecision;
    if !runtime.hasHost {
      return verdict != Policy.LocalOnly, Selection(runtime.providerName, None);
    }
    var action := Policy.GeneralQA;
    if env.classification.Some? && env.classification.value.action != Policy.OtherAction("") {
      action := env.classification.value.action;
    }
    var candidates := AvailableRouteCandidates(runtime);
    var input := Routing.DecisionInput(model, env.required, action, runtime.project, verdict, candidates);
    var decision := Routing.Decide(input);
    assert Routing.IsDecision(RouteInput(runtime, env, model, verdict), decision);
    if decision.selected.None? { return false, Selection("", None); }
    var chosen := decision.selected.value;
    if !runtime.hostGives(chosen.id) { return false, Selection("", None); }
    return true, Selection(chosen.id, Some(chosen));
  }

  // ----- what each outcome of a run says about the request

  /**
   One request in its situation: the rules and hash of the handler, the name of its own provider, the runtime, the
   world, and the retrieval settings the request asks for, resolved before anything is written to its options.
   */
  datatype Situation = Situation(rules: seq<Scanner.Rule>, sha: string -> string, ownProvider: string,
                                 runtime: Runtime, env: Environment, asked: Result<Retrieval.Settings>)

  /** The request as decoded, behind the project's prompt messages, and its encoding. */
  ghost predicate Received(env: Environment, request: Request, body: string) {
    && env.isPost && env.decoded.Some? && env.valid && env.prompt.Some?
    && request == env.decoded.value.(messages := env.prompt.value + env.decoded.value.messages)
    && env.encode(request) == Some(body)
  }

  ghost predicate ReceiveFails(env: Environment, status: nat) {
    if !env.isPost then status == 405
    else if env.decoded.None? || !env.valid then status == 400
    else
      && status == 500
      && (env.prompt.None?
          || env.encode(env.decoded.value.(messages := env.prompt.value + env.decoded.value.messages)).None?)
  }

  /** The input of an evaluation in this situation, with the scan of its body. */
  ghost predicate Evaluates(s: Situation, phase: Policy.Phase, input: Policy.EvaluationInput) {
    && input.phase == phase
    && input.project == s.runtime.project
    && input.runtime == Policy.MergeRuntimePolicy(s.runtime.system, s.runtime.project)
    && input.classification == s.env.classification
    && Scanner.IsScan(s.rules, input.body, input.scan)
  }

  ghost predicate PolicyFails(env: Environment, input: Policy.EvaluationInput) {
    Policy.Replaced(input) && env.decode(input.request, input.scan.redactedBody).None?
  }

  /** Preflight of the received request succeeded with this verdict. */
  ghost predicate Preflighted(s: Situation, input: Policy.EvaluationInput, verdict: Policy.Verdict) {
    && Received(s.env, input.request, input.body)
    && Evaluates(s, Policy.Preflight, input)
    && !PolicyFails(s.env, input)
    && Policy.VerdictFits(input, verdict)
  }

  /** Preflight did not block and a route was found under its verdict. */
  ghost predicate Routed(s: Situation, first: Policy.EvaluationInput, preflight: Policy.Verdict, route: Selection) {
    && Preflighted(s, first, preflight) && preflight != Policy.Block
    && RouteFound(s.runtime, s.env, first.request.model, preflight, route)
  }

  /** The settings in force: capped for a clean request to a remote provider. */
  function SettingsInForce(requested: Retrieval.Settings, preflight: Policy.Verdict,
                           location: Option<Routing.Location>): Retrieval.Settings
  {
    if IsRemote(location) && preflight == Policy.Allow then Retrieval.Capped(requested, DEFAULT_PLAN) else requested
  }

  /**
   Preparation puts the context in front of the messages and takes the options off; where it is not needed it does
   nothing.
   */
  ghost predicate PreparedFrom(runtime: Runtime, request: Request, outbound: Request,
                               context: Option<ContextCompiler.CompiledContext>)
  {
    match context
    case Some(c) => outbound == Retrieval.Sanitized(request, Retrieval.ContextText(c))
    case None =>
      if runtime.pipeline.None? || (!runtime.pipeline.value.enabled && request.retrieval == null)
      then outbound == request
      else outbound == Retrieval.Sanitized(request, "")
  }

  /**
   What the routed request became: there is a context exactly when retrieval is on, and it is compiled from the
   searches under the settings in force.
   */
  ghost predicate OutboundFits(s: Situation, first: Policy.EvaluationInput, preflight: Policy.Verdict, route: Selection,
                               o: Outbound)
  {
    && s.env.encode(o.request) == Some(o.body)
    && PreparedFrom(s.runtime, first.request, o.request, o.context)
    && (if s.runtime.pipeline.None? then o.requested.None?
        else s.asked.Success? && o.requested == Some(s.asked.value))
    && (o.context.Some? <==> o.requested.Some? && o.requested.value.enabled)
    && (o.context.Some? ==>
          Retrieval.CompiledFrom(SettingsInForce(o.requested.value, preflight, LocationOf(route)), s.env.searches,
                                 o.context.value))
  }

  ghost predicate PreparationFails(s: Situation, first: Policy.EvaluationInput, preflight: Policy.Verdict,
                                   route: Selection)
  {
    && s.runtime.pipeline.Some?
    && (|| s.asked.Failure?
        || Retrieval.PrepareFails(SettingsInForce(s.asked.value, preflight, LocationOf(route)), first.request,
                                  s.env.searches, s.env.encode))
  }

  function OutboundOf(e: Egress): Outbound {
    Outbound(e.input.request, e.input.body, e.requested, e.context)
  }

  /** Everything up to the second evaluation, whose input is what the routed request became. */
  ghost predicate Outgoing(s: Situation, e: Egress) {
    && Routed(s, e.first, e.preflight, e.route)
    && OutboundFits(s, e.first, e.preflight, e.route, OutboundOf(e))
    && Evaluates(s, Policy.Egress, e.input)
  }

  /** Why a request is answered with an error, by how far it came. */
  ghost predicate RejectionFits(s: Situation, status: nat, progress: Progress) {
    match progress
    case NotReceived => ReceiveFails(s.env, status)
    case AtPreflight(first) =>
      && status == 500 && Received(s.env, first.request, first.body)
      && Evaluates(s, Policy.Preflight, first) && PolicyFails(s.env, first)
    case AtRoute(first, preflight) =>
      && status == 503 && Preflighted(s, first, preflight) && (preflight == Policy.Allow || preflight == Policy.Redact)
      && RouteFails(s.runtime, s.env, first.request.model, preflight)
    case AtPreparation(first, preflight, route) =>
      status == 400 && Routed(s, first, preflight, route) && PreparationFails(s, first, preflight, route)
    case AtEgress(e) =>
      status == 500 && Outgoing(s, e) && PolicyFails(s.env, e.input)
  }

  /** The model and the hash of what an evaluated request would leave as. */
  ghost predicate LeavesAs(s: Situation, input: Policy.EvaluationInput, model: string, hash: string) {
    if Policy.Replaced(input) then
      var synced := s.env.decode(input.request, input.scan.redactedBody);
      synced.Some? && model == synced.value.model && hash == HashBytes(s.sha, input.scan.redactedBody)
    else
      model == input.request.model && hash == HashBytes(s.sha, input.body)
  }

  lemma BodyLeavesAs(s: Situation, input: Policy.EvaluationInput, request: Request, body: string)
    requires Policy.BodyFits(input, s.env.decode, request, body)
    ensures LeavesAs(s, input, request.model, HashBytes(s.sha, body))
    ensures !PolicyFails(s.env, input)
  {}

  /** A denial after preflight shows the request before redaction. */
  ghost predicate EarlyDenial(s: Situation, event: Event, provider: string, first: Policy.EvaluationInput) {
    && Preflighted(s, first, event.verdict)
    && Policy.ReasonFits(first, event.verdict, event.reason, event.routeSource)
    && event == Event(RemoteDeny, provider, first.request.model, event.verdict, event.reason, event.routeSource,
                      HashBytes(s.sha, first.body), 0, false)
  }

  /**
   A denial is for blocking content in preflight, in the name of the handler's own provider; for want of a local
   route; or for blocking content in what goes out, in the name of the route that was found.
   */
  ghost predicate DenialFits(s: Situation, event: Event, progress: Progress) {
    match progress
    case AtPreflight(first) => event.verdict == Policy.Block && EarlyDenial(s, event, s.ownProvider, first)
    case AtRoute(first, preflight) =>
      && preflight == event.verdict == Policy.LocalOnly
      && RouteFails(s.runtime, s.env, first.request.model, Policy.LocalOnly)
      && EarlyDenial(s, event, NoRoute(s.runtime).providerId, first)
    case AtEgress(e) =>
      && Outgoing(s, e) && !PolicyFails(s.env, e.input)
      && event.verdict == Policy.Block && Policy.VerdictFits(e.input, Policy.Block)
      && Policy.ReasonFits(e.input, Policy.Block, event.reason, event.routeSource)
      && LeavesAs(s, e.input, event.model, event.outboundHash)
      && event == Event(RemoteDeny, e.route.providerId, event.model, Policy.Block, event.reason, event.routeSource,
                        event.outboundHash, 0, false)
    case _ => false
  }

  function ResponseStatus(r: Response): nat {
    match r
    case UpstreamFailed => 0
    case CopyFailed(code) => code
    case Completed(code) => code
  }

  /** Everything that holds when both evaluations have let a request go. */
  ghost predicate LetGo(s: Situation, e: Egress, verdict: Policy.Verdict, reason: Policy.Reason, source: Policy.Source)
  {
    && Outgoing(s, e) && !PolicyFails(s.env, e.input)
    && Policy.VerdictFits(e.input, verdict) && Policy.ReasonFits(e.input, verdict, reason, source)
    && verdict != Policy.Block && (verdict == Policy.LocalOnly ==> IsLocal(LocationOf(e.route)))
  }

  /** What is sent, and what is put on the ledger. */
  ghost predicate CallFits(s: Situation, call: ProviderCall, event: Event, e: Egress) {
    && LetGo(s, e, event.verdict, event.reason, event.routeSource)
    && call.provider == e.route.providerId && call.location == LocationOf(e.route)
    && Policy.BodyFits(e.input, s.env.decode, call.request, call.body)
    && event.eventType == RemoteEgress && event.provider == call.provider && event.model == call.request.model
    && event.outboundHash == HashBytes(s.sha, call.body)
    && event.responseStatus == ResponseStatus(s.env.response) && event.failed == !s.env.response.Completed?
  }

  ghost predicate RunFits(s: Situation, run: Run) {
    match run
    case Rejected(status, progress) => RejectionFits(s, status, progress)
    case Denied(event, progress) => DenialFits(s, event, progress)
    case Called(call, event, egress) => CallFits(s, call, event, egress)
  }

  function EventsOf(run: Run, recorderWorks: bool): seq<Event> {
    if !recorderWorks || run.Rejected? then [] else [run.event]
  }

  function CallsOf(run: Run): seq<ProviderCall> {
    if run.Called? then [run.call] else []
  }

  ghost predicate GoodRules(rules: seq<Scanner.Rule>) {
    forall text :: Scanner.PatternsFit(rules, text)
  }

  function RequestOptions(env: Environment): set<object> {
    if env.decoded.Some? then Retrieval.Options(env.decoded.value) else {}
  }

  /** The settings a request asks for. */
  function Resolved(runtime: Runtime, request: Request): Result<Retrieval.Settings>
    reads request.retrieval
  {
    if runtime.pipeline.None? then Failure("no pipeline")
    else Retrieval.ResolveSettings(runtime.pipeline.value, request.retrieval)
  }

  function Asked(runtime: Runtime, env: Environment): Result<Retrieval.Settings>
    reads RequestOptions(env)
  {
    if env.decoded.Some? then Resolved(runtime, env.decoded.value) else Failure("no request")
  }

  /** In preflight a clean request gets the default caps, any other no plan at all. */
  ghost predicate PlanIsDefault(verdict: Policy.Verdict, plan: Policy.RetrievalPlan) {
    if verdict == Policy.Allow then plan == DEFAULT_PLAN else !plan.apply
  }

  lemma PreflightPlan(input: Policy.EvaluationInput, r: Policy.EvaluationResult)
    requires input.phase == Policy.Preflight
    requires exists system :: input.runtime == Policy.MergeRuntimePolicy(system, input.project)
    requires Policy.PlanFits(input, r.verdict, r.retrieval)
    ensures PlanIsDefault(r.verdict, r.retrieval)
  {}

  /** The request must stay local, whichever of its two bodies is asked about. */
  predicate SecretRequest(s: Situation) {
    Policy.ClassifiedTradeSecret(s.env.classification) || Policy.ProjectTradeSecrets(s.runtime.project)
  }

  lemma SecretInWords(s: Situation)
    ensures SecretRequest(s)
       <==> || (s.env.classification.Some? && s.env.classification.value.sensitivity == Policy.TradeSecret)
            || Text.Normalize(s.runtime.project.classification) == "trade_secret"
  {
    hide Text.Normalize;
  }

  lemma SecrecyIsOfTheRequest(s: Situation, phase: Policy.Phase, input: Policy.EvaluationInput)
    requires Evaluates(s, phase, input)
    ensures Policy.MustStayLocal(input) <==> SecretRequest(s)
  {
    hide Scanner.IsScan, Policy.ClassifiedTradeSecret, Policy.ProjectTradeSecrets;
  }

  /** The settings a plan leaves: it is applied for remote routes only. */
  function EffectiveSettings(requested: Retrieval.Settings, plan: Policy.RetrievalPlan,
                             location: Option<Routing.Location>): Retrieval.Settings
  {
    if IsRemote(location) then Retrieval.Capped(requested, plan) else requested
  }

  lemma PlanIsInForce(requested: Retrieval.Settings, verdict: Policy.Verdict, plan: Policy.RetrievalPlan,
                      location: Option<Routing.Location>)
    requires PlanIsDefault(verdict, plan)
    ensures EffectiveSettings(requested, plan, location) == SettingsInForce(requested, verdict, location)
  {}

  /** Preparation never looks at the options once the settings are known. */
  lemma FailsWithAnyOptions(settings: Retrieval.Settings, toPrepare: Request, request: Request, env: Environment)
    requires toPrepare == request.(retrieval := toPrepare.retrieval)
    requires Retrieval.PrepareFails(settings, toPrepare, env.searches, env.encode)
    ensures Retrieval.PrepareFails(settings, request, env.searches, env.encode)
  {
    hide Retrieval.CompiledFrom, Retrieval.ContextText, Retrieval.SearchFails;
    forall text: string ensures Retrieval.Sanitized(toPrepare, text) == Retrieval.Sanitized(request, text) {}
  }

  lemma SanitizedForgetsOptions(request: Request, toPrepare: Request, text: string)
    requires toPrepare == request.(retrieval := toPrepare.retrieval)
    ensures Retrieval.Sanitized(toPrepare, text) == Retrieval.Sanitized(request, text)
  {}

  lemma NoOptionsMeansDefaults(defaults: Retrieval.Settings)
    ensures Retrieval.ResolveSettings(defaults, null) == Success(defaults)
  {}

  lemma CappedKeepsEnabled(settings: Retrieval.Settings, plan: Policy.RetrievalPlan)
    ensures Retrieval.Capped(settings, plan).enabled == settings.enabled
    ensures !settings.enabled ==> Retrieval.Capped(settings, plan) == settings
  {}

  class Handler {
    const scanner: Scanner.RedactionScanner
    const sha: string -> string
    const ownProvider: string
    var ledger: seq<Event>
    var calls: seq<ProviderCall>

    constructor (scanner: Scanner.RedactionScanner, sha: string -> string, ownProvider: string)
      ensures this.scanner == scanner && this.sha == sha && this.ownProvider == ownProvider
      ensures ledger == [] && calls == []
    {
      this.scanner, this.sha, this.ownProvider := scanner, sha, ownProvider;
      ledger, calls := [], [];
    }

    ghost function SituationOf(runtime: Runtime, env: Environment): Situation
      reads RequestOptions(env)
    {
      Situation(scanner.rules, sha, ownProvider, runtime, env, Asked(runtime, env))
    }

    /** s is a situation of this handler. */
    ghost predicate Faces(s: Situation) {
      && s.rules == scanner.rules && s.sha == sha && s.ownProvider == ownProvider
      && GoodRules(s.rules) && Retrieval.GoodSearches(s.env.searches)
    }

    method RecordAudit(e: Event, works: bool)
      modifies this`ledger
      ensures ledger == old(ledger) + (if works then [e] else [])
    {
      if works { ledger := ledger + [e]; }
    }

    /** Method, decoding, validation, project prompt and re-encoding. */
    method Receive(env: Environment) returns (status: nat, request: Option<Request>, body: string)
      ensures request.Some? ==> Received(env, request.value, body)
      ensures request.None? ==> ReceiveFails(env, status)
    {
      if !env.isPost { return 405, None, ""; }
      if env.decoded.None? || !env.valid { return 400, None, ""; }
      if env.prompt.None? { return 500, None, ""; }
      var r := env.decoded.value;
      r := r.(messages := env.prompt.value + r.messages);
      var encoded := env.encode(r);
      if encoded.None? { return 500, None, ""; }
      return 200, Some(r), encoded.value;
    }

    method EvaluatePhase(ghost s: Situation, runtime: Runtime, env: Environment, request: Request, body: string,
                         phase: Policy.Phase)
      returns (input: Policy.EvaluationInput, r: Result<Policy.EvaluationResult>)
      requires Faces(s) && s.runtime == runtime && s.env == env
      ensures Evaluates(s, phase, input) && input.body == body && input.request == request
      ensures r.Failure? <==> PolicyFails(env, input)
      ensures r.Success? ==>
                && Policy.VerdictFits(input, r.value.verdict)
                && Policy.ReasonFits(input, r.value.verdict, r.value.reason, r.value.routeSource)
                && Policy.BodyFits(input, env.decode, r.value.request, r.value.body)
      ensures r.Success? && phase == Policy.Preflight ==> PlanIsDefault(r.value.verdict, r.value.retrieval)
    {
      hide Scanner.IsScan, Policy.VerdictFits, Policy.ReasonFits, Policy.BodyFits, Policy.PlanFits, Policy.Replaced;
      assert Scanner.PatternsFit(scanner.rules, body);
      var scan := scanner.Scan(body);
      var policy := Policy.MergeRuntimePolicy(runtime.system, runtime.project);
      input := Policy.EvaluationInput(runtime.project, policy, request, body, scan, env.classification, phase);
      r := Policy.Evaluate(input, env.decode);
      if r.Success? && phase == Policy.Preflight { PreflightPlan(input, r.value); }
    }

    /** Settings, the retrieval plan for a remote route, and the pipeline where it is needed. */
    method PrepareOutbound(ghost s: Situation, ghost preflight: Policy.Verdict, runtime: Runtime, env: Environment,
                           first: Policy.EvaluationInput, plan: Policy.RetrievalPlan, route: Selection)
      returns (r: Result<Outbound>)
      requires Faces(s) && s.runtime == runtime && s.env == env && s.asked == Resolved(runtime, first.request)
      requires env.encode(first.request) == Some(first.body) && PlanIsDefault(preflight, plan)
      modifies Retrieval.Options(first.request)
      ensures r.Success? ==> OutboundFits(s, first, preflight, route, r.value)
      ensures r.Failure? ==> PreparationFails(s, first, preflight, route)
    {
      hide Retrieval.GoodSearches, Retrieval.Capped, Retrieval.CompiledFrom, Retrieval.PrepareFails, PlanIsDefault,
           Retrieval.ResolveSettings, Retrieval.ContextText, Retrieval.Sanitized, GoodRules, SettingsInForce;
      var request := first.request;
      if runtime.pipeline.None? { return Success(Outbound(request, first.body, None, None)); }
      var defaults := runtime.pipeline.value;
      var resolved := Retrieval.ResolveSettings(defaults, request.retrieval);
      if resolved.Failure? { return Failure(resolved.error); }
      var requested := resolved.value;
      var toPrepare := request;
      PlanIsInForce(requested, preflight, plan, LocationOf(route));
      CappedKeepsEnabled(requested, plan);
      NoOptionsMeansDefaults(defaults);
      if IsRemote(LocationOf(route)) {
        toPrepare := Retrieval.ApplyRetrievalPlan(request, plan, requested, defaults);
      }
      if !defaults.enabled && toPrepare.retrieval == null {
        return Success(Outbound(request, first.body, Some(requested), None));
      }
      var prepared := Retrieval.Prepare(defaults, toPrepare, env.searches, env.encode);
      if prepared.Failure? {
        FailsWithAnyOptions(SettingsInForce(requested, preflight, LocationOf(route)), toPrepare, request, env);
        return Failure(prepared.error);
      }
      var p := prepared.value;
      ghost var text := if p.context.Some? then Retrieval.ContextText(p.context.value) else "";
      SanitizedForgetsOptions(request, toPrepare, text);
      return Success(Outbound(p.request, p.body, Some(requested), p.context));
    }

    method ServeHTTP(runtime: Runtime, env: Environment) returns (run: Run)
      requires GoodRules(scanner.rules) && Retrieval.GoodSearches(env.searches)
      modifies this, RequestOptions(env)
      ensures RunFits(old(SituationOf(runtime, env)), run)
      ensures ledger == old(ledger) + EventsOf(run, env.recorderWorks)
      ensures calls == old(calls) + CallsOf(run)
    {
      ghost var s := SituationOf(runtime, env);
      hide GoodRules, Retrieval.GoodSearches, RouteFound, RouteFails, Evaluates, PolicyFails, CallFits, EarlyDenial,
           ReceiveFails, Received, Policy.VerdictFits, Policy.ReasonFits, Policy.BodyFits, Outgoing,
           Retrieval.ResolveSettings, PlanIsDefault;
      var status, received, body := Receive(env);
      if received.None? { return Rejected(status, NotReceived); }
      var request := received.value;
      OptionsAreTheClients(env, request, body);

      var first, preflight := EvaluatePhase(s, runtime, env, request, body, Policy.Preflight);
      if preflight.Failure? { return Rejected(500, AtPreflight(first)); }
      var early := preflight.value;
      assert Preflighted(s, first, early.verdict);
      hide Preflighted;
      if early.verdict == Policy.Block {
        var event := Deny(s, env, ownProvider, first, early);
        return Denied(event, AtPreflight(first));
      }

      var ok, route := ResolveRoute(runtime, env, request.model, early.verdict);
      if !ok {
        if early.verdict != Policy.LocalOnly {
          NotBlockedNorLocal(early.verdict);
          return Rejected(503, AtRoute(first, early.verdict));
        }
        var event := Deny(s, env, route.providerId, first, early);
        return Denied(event, AtRoute(first, early.verdict));
      }

      run := Forward(s, runtime, env, first, early, route);
    }

    /** A denial after preflight, of the body before redaction. */
    method Deny(ghost s: Situation, env: Environment, provider: string, first: Policy.EvaluationInput,
                early: Policy.EvaluationResult) returns (event: Event)
      requires Faces(s) && s.env == env && Preflighted(s, first, early.verdict)
      requires Policy.ReasonFits(first, early.verdict, early.reason, early.routeSource)
      modifies this`ledger
      ensures EarlyDenial(s, event, provider, first) && event.verdict == early.verdict
      ensures ledger == old(ledger) + (if env.recorderWorks then [event] else [])
    {
      hide Preflighted, Policy.ReasonFits, HashBytes;
      event := Event(RemoteDeny, provider, first.request.model, early.verdict, early.reason, early.routeSource,
                     HashBytes(sha, first.body), 0, false);
      RecordAudit(event, env.recorderWorks);
    }

    /** Preparation and egress, once a route is found. */
    method Forward(ghost s: Situation, runtime: Runtime, env: Environment, first: Policy.EvaluationInput,
                   early: Policy.EvaluationResult, route: Selection) returns (run: Run)
      requires Faces(s) && s.runtime == runtime && s.env == env && s.asked == Resolved(runtime, first.request)
      requires Routed(s, first, early.verdict, route) && PlanIsDefault(early.verdict, early.retrieval)
      modifies this, Retrieval.Options(first.request)
      ensures RunFits(s, run)
      ensures run.Called? ==>
                run.egress.first == first && run.egress.preflight == early.verdict && run.egress.route == route
      ensures !run.Called? ==> run.progress == AtPreparation(first, early.verdict, route) || run.progress.AtEgress?
      ensures ledger == old(ledger) + EventsOf(run, env.recorderWorks)
      ensures calls == old(calls) + CallsOf(run)
    {
      RoutedIsEncoded(s, first, early.verdict, route);
      hide Routed, Faces, Retrieval.ResolveSettings, PlanIsDefault, OutboundFits, PreparationFails, RunFits;
      var prepared := PrepareOutbound(s, early.verdict, runtime, env, first, early.retrieval, route);
      if prepared.Failure? {
        UnpreparedFits(s, first, early.verdict, route);
        return Rejected(400, AtPreparation(first, early.verdict, route));
      }
      run := Send(s, runtime, env, prepared.value, first, early.verdict, route);
    }

    /** Egress evaluation, its two gates, the call and its audit event. */
    method Send(ghost s: Situation, runtime: Runtime, env: Environment, outbound: Outbound,
                first: Policy.EvaluationInput, preflight: Policy.Verdict, route: Selection) returns (run: Run)
      requires Faces(s) && s.runtime == runtime && s.env == env
      requires Routed(s, first, preflight, route) && OutboundFits(s, first, preflight, route, outbound)
      modifies this
      ensures RunFits(s, run)
      ensures run.Rejected? || run.Denied? ==> run.progress.AtEgress?
      ensures var e := if run.Called? then run.egress else run.progress.egress;
              && e.first == first && e.preflight == preflight && e.route == route && OutboundOf(e) == outbound
      ensures ledger == old(ledger) + EventsOf(run, env.recorderWorks)
      ensures calls == old(calls) + CallsOf(run)
    {
      hide Faces, Routed, OutboundFits, Evaluates, PolicyFails, HashBytes, LeavesAs, CallFits,
           Policy.VerdictFits, Policy.ReasonFits, Policy.BodyFits;
      var input, evaluated := EvaluatePhase(s, runtime, env, outbound.request, outbound.body, Policy.Egress);
      var e := Egress(first, preflight, route, outbound.requested, outbound.context, input);
      if evaluated.Failure? { return Rejected(500, AtEgress(e)); }
      var evaluation := evaluated.value;
      if evaluation.verdict == Policy.LocalOnly {
        SecretVerdict(input);
        LocalRouteWasFound(s, first, preflight, route, input);
      }
      if evaluation.verdict == Policy.Block || (evaluation.verdict == Policy.LocalOnly && !IsLocal(LocationOf(route))) {
        var event := Event(RemoteDeny, route.providerId, evaluation.request.model, evaluation.verdict,
                           evaluation.reason, evaluation.routeSource, HashBytes(sha, evaluation.body), 0, false);
        RecordAudit(event, env.recorderWorks);
        assert s.sha == sha by { FacesOwnHash(s); }
        BodyLeavesAs(s, input, evaluation.request, evaluation.body);
        return Denied(event, AtEgress(e));
      }
      run := Dispatch(s, env, e, evaluation);
    }

    /** The call and its audit event. */
    method Dispatch(ghost s: Situation, env: Environment, e: Egress, evaluation: Policy.EvaluationResult)
      returns (run: Run)
      requires Faces(s) && s.env == env
      requires LetGo(s, e, evaluation.verdict, evaluation.reason, evaluation.routeSource)
      requires Policy.BodyFits(e.input, env.decode, evaluation.request, evaluation.body)
      modifies this
      ensures run.Called? && run.egress == e && RunFits(s, run)
      ensures ledger == old(ledger) + EventsOf(run, env.recorderWorks)
      ensures calls == old(calls) + CallsOf(run)
    {
      hide HashBytes, LetGo, Policy.BodyFits;
      var call := ProviderCall(e.route.providerId, LocationOf(e.route), evaluation.request, evaluation.body);
      calls := calls + [call];
      var event := Event(RemoteEgress, e.route.providerId, evaluation.request.model, evaluation.verdict,
                         evaluation.reason, evaluation.routeSource, HashBytes(sha, evaluation.body), 0, false);
      match env.response {
        case UpstreamFailed => event := event.(failed := true);
        case CopyFailed(code) => event := event.(responseStatus := code, failed := true);
        case Completed(code) => event := event.(responseStatus := code);
      }
      RecordAudit(event, env.recorderWorks);
      run := Called(call, event, e);
    }

    lemma FacesOwnHash(s: Situation)
      requires Faces(s)
      ensures s.sha == sha
    {}
  }

  lemma NotBlockedNorLocal(verdict: Policy.Verdict)
    requires verdict != Policy.Block && verdict != Policy.LocalOnly
    ensures verdict == Policy.Allow || verdict == Policy.Redact
  {}

  lemma UnpreparedFits(s: Situation, first: Policy.EvaluationInput, preflight: Policy.Verdict, route: Selection)
    requires Routed(s, first, preflight, route) && PreparationFails(s, first, preflight, route)
    ensures RunFits(s, Rejected(400, AtPreparation(first, preflight, route)))
  {
    hide Routed, PreparationFails;
  }

  lemma RoutedIsEncoded(s: Situation, first: Policy.EvaluationInput, preflight: Policy.Verdict, route: Selection)
    requires Routed(s, first, preflight, route)
    ensures s.env.encode(first.request) == Some(first.body)
  {}

  lemma SecretVerdict(input: Policy.EvaluationInput)
    requires Policy.VerdictFits(input, Policy.LocalOnly)
    ensures Policy.MustStayLocal(input)
  {}

  lemma OptionsAreTheClients(env: Environment, request: Request, body: string)
    requires Received(env, request, body)
    ensures env.decoded.Some? && env.encode(request) == Some(body)
    ensures request.retrieval == env.decoded.value.retrieval && request.model == env.decoded.value.model
  {}

  /** The local-only gate of egress never fires: preflight saw the same secrecy and so a local route was found. */
  lemma LocalRouteWasFound(s: Situation, first: Policy.EvaluationInput, preflight: Policy.Verdict, route: Selection,
                           input: Policy.EvaluationInput)
    requires Routed(s, first, preflight, route)
    requires Evaluates(s, Policy.Egress, input) && Policy.MustStayLocal(input)
    ensures preflight == Policy.LocalOnly && IsLocal(LocationOf(route))
  {
    hide RouteFound, Evaluates, Received, SecretRequest, PolicyFails;
    SecrecyIsOfTheRequest(s, Policy.Preflight, first);
    SecrecyIsOfTheRequest(s, Policy.Egress, input);
    assert preflight == Policy.LocalOnly;
    RouteRespectsVerdict(s.runtime, s.env, first.request.model, route);
  }

  // ----- what every run promises

  /** No finding that was kept in a body sent to a provider is a blocking one. */
  lemma NothingBlockingIsSent(s: Situation, run: Run)
    requires RunFits(s, run) && run.Called?
    ensures forall f :: f in run.egress.input.scan.findings ==> f.action != Scanner.ActionBlock
  {
    hide Scanner.IsScan, Policy.BodyFits, Policy.MustStayLocal, OutboundFits, Routed, Policy.ReasonFits, PolicyFails;
    Scanner.ScanShape(s.rules, run.egress.input.body, run.egress.input.scan);
  }

  /** The hash of a body is what the hash function gives, and nothing for an empty body. */
  ghost predicate IsHashOf(sha: string -> string, hash: string, body: string) {
    (body != "" ==> hash == sha(body)) && (body == "" ==> hash == "")
  }

  /** The body an event is about: what was sent, what would have been, or the request before any redaction. */
  ghost predicate IsAbout(run: Run, body: string)
    requires !run.Rejected?
  {
    match run
    case Called(call, _, _) => body == call.body
    case Denied(_, AtEgress(e)) =>
      body == if Policy.Replaced(e.input) then e.input.scan.redactedBody else e.input.body
    case Denied(_, AtPreflight(first)) => body == first.body
    case Denied(_, AtRoute(first, _)) => body == first.body
    case _ => false
  }

  /** Every event of a run carries the hash of the body it is about. */
  lemma EventsCarryTheirHash(s: Situation, run: Run, body: string)
    requires RunFits(s, run) && !run.Rejected? && IsAbout(run, body)
    ensures IsHashOf(s.sha, run.event.outboundHash, body)
  {
    hide LetGo, Outgoing, Preflighted, PolicyFails, Policy.BodyFits, Policy.Replaced, Policy.VerdictFits,
         Policy.ReasonFits;
  }

  /** Every call is followed by the event of its outcome. */
  lemma CallsTellTheirOutcome(s: Situation, run: Run)
    requires RunFits(s, run) && run.Called?
    ensures s.env.response.UpstreamFailed? ==> run.event.failed && run.event.responseStatus == 0
    ensures s.env.response.CopyFailed? ==> run.event.failed && run.event.responseStatus == s.env.response.code
    ensures s.env.response.Completed? ==> !run.event.failed && run.event.responseStatus == s.env.response.code
  {
    hide LetGo, Policy.BodyFits, HashBytes;
  }

  /**
   Whom a call goes to: without a host the runtime's own provider; with one, a provider it gives, of a candidate that
   may be routed to and passes the router's gates under the preflight verdict.
   */
  lemma CallsGoWhereTheRouteLeads(s: Situation, run: Run)
    requires RunFits(s, run) && run.Called?
    ensures !s.runtime.hasHost ==> run.call.provider == s.runtime.providerName && run.call.location == None
    ensures s.runtime.hasHost ==>
              && s.runtime.hostGives(run.call.provider)
              && exists c :: c in Candidates(s.runtime) && c.id == run.call.provider
                             && run.call.location == Some(c.location)
                             && Routing.Passes(RouteInput(s.runtime, s.env, run.egress.first.request.model,
                                                          run.egress.preflight), c)
  {
    RouteInWords(s.runtime, s.env, run.egress.first.request.model, run.egress.preflight, run.egress.route);
    hide Preflighted, OutboundFits, Evaluates, PolicyFails, Policy.BodyFits, Policy.VerdictFits, Policy.ReasonFits,
         RouteFound, Candidates, Routing.Passes, HashBytes, RouteInput;
    if s.runtime.hasHost {
      var c := run.egress.route.candidate.value;
      assert run.call.location == Some(c.location);
    }
  }

  lemma RouteInWords(runtime: Runtime, env: Environment, model: string, verdict: Policy.Verdict, route: Selection)
    ensures RouteFound(runtime, env, model, verdict, route) && runtime.hasHost ==>
              && route.candidate.Some? && route.candidate.value in Candidates(runtime)
              && route.providerId == route.candidate.value.id && runtime.hostGives(route.providerId)
              && Routing.Passes(RouteInput(runtime, env, model, verdict), route.candidate.value)
    ensures RouteFound(runtime, env, model, verdict, route) && !runtime.hasHost ==>
              route.candidate.None? && route.providerId == runtime.providerName
  {
    hide Candidates, Routing.IsDecision, Routing.Passes;
    if RouteFound(runtime, env, model, verdict, route) && runtime.hasHost {
      var input := RouteInput(runtime, env, model, verdict);
      var d :| && Routing.IsDecision(input, d) && d.selected.Some? && d.selected == route.candidate
               && route.providerId == d.selected.value.id && runtime.hostGives(route.providerId);
      Routing.SelectedPasses(input, d);
    }
  }

  /** A trade secret, by the classifier or by the project, only ever goes to a local candidate. */
  lemma SecretsStayLocal(s: Situation, run: Run)
    requires RunFits(s, run) && run.Called?
    requires (s.env.classification.Some? && s.env.classification.value.sensitivity == Policy.TradeSecret)
             || Text.Normalize(s.runtime.project.classification) == "trade_secret"
    ensures run.call.location == Some(Routing.Local)
  {
    SecretInWords(s);
    hide Evaluates, Policy.BodyFits, SecretRequest, OutboundFits, Routed, Policy.ReasonFits, PolicyFails;
    SecrecyIsOfTheRequest(s, Policy.Egress, run.egress.input);
  }

  /**
   The context in front of what is sent is within the settings asked for, and within the caps for a clean request to a
   remote provider.
   */
  lemma SentContextIsCapped(s: Situation, run: Run)
    requires RunFits(s, run) && run.Called? && run.egress.context.Some? && Retrieval.GoodSearches(s.env.searches)
    ensures s.asked.Success? && Retrieval.WithinSettings(run.egress.context.value, s.asked.value)
    ensures run.call.location in {None, Some(Routing.Remote)} && run.egress.preflight == Policy.Allow ==>
              |run.egress.context.value.text| <= 1200 && |run.egress.context.value.sources| <= 2
  {
    hide Evaluates, Policy.BodyFits, Policy.VerdictFits, Policy.ReasonFits, Routed, PreparedFrom, PolicyFails,
         Retrieval.CompiledFrom, Retrieval.GoodSearches;
    var e := run.egress;
    var settings := SettingsInForce(e.requested.value, e.preflight, LocationOf(e.route));
    Retrieval.PreparedIsBounded(settings, s.env.searches, e.context.value);
  }

  function Minimum(settings: Retrieval.Settings): Retrieval.Settings {
    Retrieval.Settings(settings.enabled, Ordering.Min(settings.topK, Policy.REMOTE_TOP_K),
                       Ordering.Min(settings.maxContextChars, Policy.REMOTE_MAX_CHARS))
  }

  predicate WithinCaps(settings: Retrieval.Settings) {
    settings.topK <= Policy.REMOTE_TOP_K && settings.maxContextChars <= Policy.REMOTE_MAX_CHARS
  }

  /**
   When the remote caps hold, for any request: the settings in force are the component-wise minimum with the caps if
   and only if a clean request goes to a remote provider with retrieval on, or the settings are within the caps anyway.
   */
  lemma InForceIsMinimum(requested: Retrieval.Settings, preflight: Policy.Verdict, location: Option<Routing.Location>)
    ensures SettingsInForce(requested, preflight, location) == Minimum(requested)
       <==> (IsRemote(location) && preflight == Policy.Allow && requested.enabled) || WithinCaps(requested)
  {
    if preflight == Policy.Allow && IsRemote(location) {
      Retrieval.CappedIsMinimum(requested, DEFAULT_PLAN, Policy.REMOTE_TOP_K, Policy.REMOTE_MAX_CHARS);
    }
  }

  /**
   The same of runs.  The context of a run is compiled under the settings in force.  In a run to a remote provider these
   are the minimum with the caps if and only if preflight allowed the request or the settings asked for are within the
   caps; otherwise they are the settings asked for.
   */
  lemma SentContextIsCappedIff(s: Situation, run: Run)
    requires RunFits(s, run) && run.Called? && run.egress.context.Some? && IsRemote(run.call.location)
    ensures s.asked.Success? && s.asked.value.enabled
    ensures Retrieval.CompiledFrom(SettingsInForce(s.asked.value, run.egress.preflight, run.call.location),
                                   s.env.searches, run.egress.context.value)
    ensures SettingsInForce(s.asked.value, run.egress.preflight, run.call.location) == Minimum(s.asked.value)
       <==> run.egress.preflight == Policy.Allow || WithinCaps(s.asked.value)
    ensures run.egress.preflight != Policy.Allow ==>
              Retrieval.CompiledFrom(s.asked.value, s.env.searches, run.egress.context.value)
  {
    hide Evaluates, Policy.BodyFits, Policy.VerdictFits, Policy.ReasonFits, Routed, PreparedFrom, PolicyFails,
         Retrieval.CompiledFrom;
    InForceIsMinimum(s.asked.value, run.egress.preflight, run.call.location);
  }

  /** The added message is a system message that contains the compiled text; without any text none is added. */
  ghost predicate Carries(added: seq<Message>, context: Option<ContextCompiler.CompiledContext>) {
    if context.None? || context.value.text == "" then added == []
    else
      |added| == 1 && added[0].role == "system" && Text.Contains(added[0].content, context.value.text)
  }

  lemma PreparationPrepends(runtime: Runtime, request: Request, outbound: Request,
                            context: Option<ContextCompiler.CompiledContext>) returns (added: seq<Message>)
    requires PreparedFrom(runtime, request, outbound, context)
    ensures |added| <= 1 && outbound.messages == added + request.messages && outbound.model == request.model
    ensures Carries(added, context)
  {
    if context.Some? && context.value.text != "" {
      var at := Retrieval.ContextTextHoldsTheContext(context.value);
      assert Text.Contains(Retrieval.ContextText(context.value), context.value.text);
      assert Retrieval.ContextText(context.value) != "" by { assert |context.value.text| > 0; }
    }
    hide Retrieval.ContextText;
    var text := match context case Some(c) => Retrieval.ContextText(c) case None => "";
    added := if text == "" then [] else [Message("system", text)];
    assert [] + request.messages == request.messages;
  }

  /** What the second scan sees is the received conversation, behind one more message at most. */
  lemma OnlyContextIsAdded(s: Situation, e: Egress)
    requires Outgoing(s, e)
    ensures s.env.prompt.Some? && s.env.decoded.Some?
    ensures exists added :: |added| <= 1
                            && e.input.request.messages == added + (s.env.prompt.value + s.env.decoded.value.messages)
                            && Carries(added, e.context)
  {
    hide Evaluates, Policy.VerdictFits, RouteFound, PreparedFrom, PolicyFails, Retrieval.CompiledFrom, Carries;
    var added := PreparationPrepends(s.runtime, e.first.request, e.input.request, e.context);
    assert e.first.request.messages == s.env.prompt.value + s.env.decoded.value.messages;
  }

  /** The one case in which a redaction is not applied: a local-only body that redaction would empty. */
  predicate RedactionSkipped(input: Policy.EvaluationInput) {
    Policy.MustStayLocal(input) && input.scan.redactedBody == "" && input.body != ""
  }

  /** The body sent is the redacted one exactly when redaction was not skipped. */
  lemma SentBodyIsRedacted(s: Situation, run: Run)
    requires RunFits(s, run) && run.Called?
    ensures run.call.body == run.egress.input.scan.redactedBody <==> !RedactionSkipped(run.egress.input)
  {
    hide Scanner.IsScan, Policy.MustStayLocal, OutboundFits, Routed, Policy.ReasonFits, PolicyFails;
    Scanner.ScanShape(s.rules, run.egress.input.body, run.egress.input.scan);
  }

  /** With non-empty replacements, as the default rules have, redaction is never skipped. */
  lemma NonEmptyReplacementsSuffice(s: Situation, run: Run)
    requires RunFits(s, run) && run.Called?
    requires forall i :: 0 <= i < |s.rules| ==> s.rules[i].replacement != ""
    ensures run.call.body == run.egress.input.scan.redactedBody
    ensures run.event.outboundHash == HashBytes(s.sha, run.egress.input.scan.redactedBody)
  {
    hide Scanner.IsScan, Policy.BodyFits, Policy.MustStayLocal, OutboundFits, Routed, Policy.ReasonFits, PolicyFails;
    var input := run.egress.input;
    SentBodyIsRedacted(s, run);
    Scanner.ScanShape(s.rules, input.body, input.scan);
    Scanner.RedactedBodyNonEmpty(s.rules, input.body, input.scan);
  }

  // ----- sequences of runs

  function LedgerAfter(runs: seq<Run>): seq<Event> {
    if runs == [] then [] else LedgerAfter(runs[..|runs| - 1]) + EventsOf(runs[|runs| - 1], true)
  }

  function CallsAfter(runs: seq<Run>): seq<ProviderCall> {
    if runs == [] then [] else CallsAfter(runs[..|runs| - 1]) + CallsOf(runs[|runs| - 1])
  }

  /** The hashes of the egress events, in order. */
  function EgressHashes(ledger: seq<Event>): seq<string> {
    if ledger == [] then []
    else
      var last := ledger[|ledger| - 1];
      EgressHashes(ledger[..|ledger| - 1]) + (if last.eventType == RemoteEgress then [last.outboundHash] else [])
  }

  function BodyHashes(sha: string -> string, calls: seq<ProviderCall>): seq<string> {
    if calls == [] then []
    else BodyHashes(sha, calls[..|calls| - 1]) + [HashBytes(sha, calls[|calls| - 1].body)]
  }

  /** Runs of one hash function, each as its situation allows. */
  ghost predicate Session(sha: string -> string, situations: seq<Situation>, runs: seq<Run>) {
    && |runs| == |situations|
    && forall k :: 0 <= k < |runs| ==> situations[k].sha == sha && RunFits(situations[k], runs[k])
  }

  /**
   With a working recorder the egress events of the ledger are the calls made, one for one, in order, with the hashes of
   the bodies sent.
   */
  lemma {:induction false} LedgerAccountsForCalls(sha: string -> string, situations: seq<Situation>, runs: seq<Run>)
    requires Session(sha, situations, runs)
    ensures EgressHashes(LedgerAfter(runs)) == BodyHashes(sha, CallsAfter(runs))
    decreases |runs|
  {
    hide HashBytes, RunFits;
    if runs != [] {
      var n := |runs| - 1;
      LedgerAccountsForCalls(sha, situations[..n], runs[..n]);
      RunAddsOne(situations[n], LedgerAfter(runs[..n]), CallsAfter(runs[..n]), runs[n]);
    }
  }

  lemma {:induction false} HashesOfBodies(sha: string -> string, calls: seq<ProviderCall>)
    ensures |BodyHashes(sha, calls)| == |calls|
    ensures forall k :: 0 <= k < |calls| ==> IsHashOf(sha, BodyHashes(sha, calls)[k], calls[k].body)
  {
    if calls != [] { HashesOfBodies(sha, calls[..|calls| - 1]); }
  }

  /** As of SHA-256: different texts have different hashes, and no hash is empty. */
  ghost predicate TellsApart(sha: string -> string) {
    && (forall a, b :: sha(a) == sha(b) ==> a == b)
    && (forall a :: sha(a) != "")
  }

  /**
   The ledger tells bodies apart: with a hash function that does, two egress events carry the same hash if and only if
   the two calls sent the same body.
   */
  lemma LedgerTellsBodies(sha: string -> string, situations: seq<Situation>, runs: seq<Run>, i: nat, j: nat)
    requires Session(sha, situations, runs) && TellsApart(sha)
    requires i < |CallsAfter(runs)| && j < |CallsAfter(runs)|
    ensures |EgressHashes(LedgerAfter(runs))| == |CallsAfter(runs)|
    ensures EgressHashes(LedgerAfter(runs))[i] == EgressHashes(LedgerAfter(runs))[j]
       <==> CallsAfter(runs)[i].body == CallsAfter(runs)[j].body
    ensures IsHashOf(sha, EgressHashes(LedgerAfter(runs))[i], CallsAfter(runs)[i].body)
  {
    hide RunFits, BodyHashes, EgressHashes, LedgerAfter, CallsAfter;
    LedgerAccountsForCalls(sha, situations, runs);
    HashesOfBodies(sha, CallsAfter(runs));
  }

  lemma RunAddsOne(s: Situation, ledger: seq<Event>, calls: seq<ProviderCall>, run: Run)
    requires RunFits(s, run)
    requires EgressHashes(ledger) == BodyHashes(s.sha, calls)
    ensures EgressHashes(ledger + EventsOf(run, true)) == BodyHashes(s.sha, calls + CallsOf(run))
  {
    hide HashBytes, LetGo, Outgoing, Preflighted, RejectionFits, Policy.BodyFits, Policy.VerdictFits, Policy.ReasonFits;
    match run {
      case Rejected(_, _) =>
        assert ledger + [] == ledger && calls + [] == calls;
      case Denied(event, _) =>
        assert calls + [] == calls && (ledger + [event])[..|ledger|] == ledger;
      case Called(call, event, _) =>
        assert (ledger + [event])[..|ledger|] == ledger && (calls + [call])[..|calls|] == calls;
    }
  }
}
