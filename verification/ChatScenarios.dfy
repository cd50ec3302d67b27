/**
 Two families of runs of the chat endpoint that one might not expect: a local-only request that is sent with its
 secrets in place, and a redacted request that takes as much context to a remote provider as it asked for.  In both
 the rules are one rule that matches the whole text; the JSON codec is arbitrary as far as it accepts the texts named.
 */
module ChatScenarios {
  import opened Wrappers
  import opened Chat
  import opened ChatHandler
  import Ordering
  import IndexTypes
  import Policy
  import Scanner
  import Routing
  import Retrieval
  import ContextCompiler
  import Text

  function WholeText(replacement: string): Scanner.Rule {
    Scanner.Rule("r", "c", Scanner.ActionRedact, text => [Scanner.Span(0, |text|)], replacement)
  }

  lemma WholeTextFits(replacement: string)
    ensures GoodRules([WholeText(replacement)])
  {}

  lemma WholeTextIsScanned(s: Situation, phase: Policy.Phase, input: Policy.EvaluationInput, replacement: string)
    requires s.rules == [WholeText(replacement)] && Evaluates(s, phase, input)
    ensures input.scan.redactedBody == replacement && input.scan.findings != [] && !input.scan.hasBlockingFindings
  {
    hide Scanner.IsScan;
    Scanner.WholeTextIsReplaced(s.rules, input.body, input.scan);
  }

  /** The client's request behind the project's prompt messages. */
  function Composed(env: Environment, client: Request): Request
    requires env.prompt.Some?
  {
    client.(messages := env.prompt.value + client.messages)
  }

  /** The client's request is received, with this encoding. */
  ghost predicate Arrives(env: Environment, client: Request, body: string) {
    && env.isPost && env.valid && env.decoded == Some(client) && env.prompt.Some?
    && env.encode(Composed(env, client)) == Some(body)
  }

  lemma ArrivesIsReceived(env: Environment, client: Request, body: string)
    requires Arrives(env, client, body)
    ensures forall status :: !ReceiveFails(env, status)
    ensures forall b, request: Request {:trigger Received(env, request, b)} ::
              Received(env, request, b) ==> request == Composed(env, client) && b == body
  {}

  // ----- redaction that is skipped

  /** In a world of trade secrets where the whole body is to go, every call sends every non-empty body as it is. */
  lemma ErasedSecretsAreSent(s: Situation, run: Run)
    requires s.rules == [WholeText("")] && SecretRequest(s)
    requires RunFits(s, run) && run.Called? && run.egress.input.body != ""
    ensures run.call.body == run.egress.input.body && run.call.body != run.egress.input.scan.redactedBody
    ensures IsLocal(run.call.location)
  {
    hide Scanner.IsScan, Policy.MustStayLocal, OutboundFits, Routed, Policy.ReasonFits, SecretRequest, PolicyFails;
    var input := run.egress.input;
    SecretInWords(s);
    SecretsStayLocal(s, run);
    WholeTextIsScanned(s, Policy.Egress, input, "");
    SecrecyIsOfTheRequest(s, Policy.Egress, input);
    SentBodyIsRedacted(s, run);
  }

  const HERE := Routing.Candidate("here", "", "m", [], [], Routing.Local)
  const SECRET_PROJECT := Policy.ProjectConfig("p", Policy.TRADE_SECRET, "", map[])
  const LOCAL_ONLY_RUNTIME := Runtime("p", true, _ => true, _ => true, SECRET_PROJECT, None, None, [], [HERE])

  lemma OneCandidate()
    ensures Candidates(LOCAL_ONLY_RUNTIME) == [HERE]
  {
    assert [HERE][..0] == [];
    assert FromCatalog(LOCAL_ONLY_RUNTIME, []) == [];
  }

  lemma LocalRouteNeverFails(env: Environment, model: string)
    requires env.required == []
    ensures !RouteFails(LOCAL_ONLY_RUNTIME, env, model, Policy.LocalOnly)
  {
    hide Routing.IsDecision, Candidates, Routing.Better, Routing.Chosen, Routing.ResolvePreference;
    OneCandidate();
    var input := RouteInput(LOCAL_ONLY_RUNTIME, env, model, Policy.LocalOnly);
    assert HERE in input.candidates && Routing.Passes(input, HERE);
    forall d | Routing.IsDecision(input, d)
      ensures d.selected.Some? && LOCAL_ONLY_RUNTIME.hostGives(d.selected.value.id)
    {
      Routing.DecisionIsBest(input, d);
    }
  }

  lemma SecretSituation(s: Situation)
    requires s.runtime == LOCAL_ONLY_RUNTIME
    ensures SecretRequest(s)
  {
    Policy.TradeSecretIsNormal();
  }

  /** A secret that is to be erased is neither blocked nor replaced. */
  lemma ErasedSecretPasses(s: Situation, phase: Policy.Phase, input: Policy.EvaluationInput)
    requires s.rules == [WholeText("")] && SecretRequest(s) && Evaluates(s, phase, input)
    ensures !PolicyFails(s.env, input)
    ensures forall verdict :: Policy.VerdictFits(input, verdict) ==> verdict == Policy.LocalOnly
  {
    hide SecretRequest, Policy.MustStayLocal;
    SecrecyIsOfTheRequest(s, phase, input);
    WholeTextIsScanned(s, phase, input, "");
    hide Evaluates;
  }

  /** Every run of a received request here is a call that sends the request as it was encoded. */
  lemma EveryRunSkipsRedaction(s: Situation, client: Request, body: string, run: Run)
    requires s.rules == [WholeText("")] && s.runtime == LOCAL_ONLY_RUNTIME && s.env.required == []
    requires Arrives(s.env, client, body) && body != ""
    requires RunFits(s, run)
    ensures run.Called? && run.call.body == body && IsLocal(run.call.location)
    ensures run.egress.input.scan.redactedBody == "" && run.egress.input.scan.findings != []
  {
    SecretSituation(s);
    ArrivesIsReceived(s.env, client, body);
    hide Evaluates, Policy.VerdictFits, Policy.ReasonFits, RouteFound, RouteFails, PolicyFails, Received, ReceiveFails,
         Arrives, SecretRequest, LeavesAs, Policy.BodyFits, HashBytes;
    forall phase, input: Policy.EvaluationInput {:trigger Evaluates(s, phase, input)} | Evaluates(s, phase, input)
      ensures !PolicyFails(s.env, input)
      ensures forall verdict :: Policy.VerdictFits(input, verdict) ==> verdict == Policy.LocalOnly
    {
      ErasedSecretPasses(s, phase, input);
    }
    forall model ensures !RouteFails(s.runtime, s.env, model, Policy.LocalOnly) { LocalRouteNeverFails(s.env, model); }
    assert run.Called?;
    ErasedSecretsAreSent(s, run);
    WholeTextIsScanned(s, Policy.Egress, run.egress.input, "");
  }

  /** The handler at work: whatever the client's request and its non-empty encoding, the redaction is skipped. */
  method RedactionCanBeSkipped(sha: string -> string, client: Request, encode: Request -> Option<string>,
                               decode: Policy.Decoder, response: Response) returns (handler: Handler, run: Run)
    requires encode(client.(messages := [] + client.messages)).Some?
    requires encode(client.(messages := [] + client.messages)).value != ""
    modifies Retrieval.Options(client)
    ensures run.Called? && handler.calls == [run.call] && handler.ledger == [run.event]
    ensures Some(run.call.body) == encode(client.(messages := [] + client.messages))
    ensures run.egress.input.scan.redactedBody == "" && run.egress.input.scan.findings != []
    ensures IsLocal(run.call.location)
  {
    hide RunFits, GoodRules, Arrives, Retrieval.GoodSearches;
    var scanner := new Scanner.RedactionScanner([WholeText("")]);
    handler := new Handler(scanner, sha, "own");
    var env := Environment(true, Some(client), true, Some([]), encode, decode, [], None, NO_SEARCHES, response, true);
    WholeTextFits("");
    NoSearchesAreGood();
    ghost var s := handler.SituationOf(LOCAL_ONLY_RUNTIME, env);
    ghost var body := encode(client.(messages := [] + client.messages)).value;
    PlainlyArrives(env, client, body);
    run := handler.ServeHTTP(LOCAL_ONLY_RUNTIME, env);
    EveryRunSkipsRedaction(s, client, body, run);
  }

  const NO_SEARCHES := Retrieval.Searches(false, false, _ => None, _ => None)

  lemma NoSearchesAreGood()
    ensures Retrieval.GoodSearches(NO_SEARCHES)
  {}

  lemma PlainlyArrives(env: Environment, client: Request, body: string)
    requires env.isPost && env.valid && env.decoded == Some(client) && env.prompt == Some([])
    requires env.encode(client.(messages := [] + client.messages)) == Some(body)
    ensures Arrives(env, client, body)
  {}

  lemma CalledIsEvaluated(s: Situation, run: Run)
    requires RunFits(s, run) && run.Called?
    ensures Evaluates(s, Policy.Egress, run.egress.input)
  {
    hide Evaluates, Routed, OutboundFits;
  }

  // ----- caps that a redacted request does not meet

  /** The vector search finds these results, the keyword search none. */
  ghost predicate FindsJust(searches: Retrieval.Searches, topK: int, results: seq<IndexTypes.SearchResult>) {
    && searches.opens && searches.embeds
    && searches.vector(topK) == Some(results) && searches.keyword(topK) == Some([])
  }

  /** Room for every section uncut. */
  function RoomFor(results: seq<IndexTypes.SearchResult>): int {
    |ContextCompiler.CompleteUpTo(results, |results|)|
  }

  function Everything(results: seq<IndexTypes.SearchResult>): ContextCompiler.CompiledContext {
    ContextCompiler.CompiledContext(ContextCompiler.CompleteUpTo(results, |results|),
                                    Ordering.MapSeq(ContextCompiler.ReferenceOf, results), false)
  }

  /** With room for all, what is found is what is compiled. */
  lemma JustEverythingIsCompiled(settings: Retrieval.Settings, searches: Retrieval.Searches,
                                 results: seq<IndexTypes.SearchResult>, c: ContextCompiler.CompiledContext)
    requires FindsJust(searches, settings.topK, results) && RoomFor(results) <= settings.maxContextChars
    requires Retrieval.CompiledFrom(settings, searches, c)
    ensures c == Everything(results)
  {
    hide ContextCompiler.Complete, ContextCompiler.CompleteUpTo, ContextCompiler.IsCompiled;
    var sections := seq(|results|, i requires 0 <= i < |results| => ContextCompiler.Complete(i, results[i]));
    ContextCompiler.CompletePrefix(results, sections);
    ContextCompiler.CompleteIsCompiled(results, sections, settings.maxContextChars, Everything(results));
    var found :| Retrieval.SearchFits(searches, settings.topK, found)
                 && ContextCompiler.IsCompiled(found, settings.maxContextChars, c);
    assert found == results;
    ContextCompiler.ContextIsDetermined(results, settings.maxContextChars, c, Everything(results));
  }

  function PreparedWith(env: Environment, client: Request, results: seq<IndexTypes.SearchResult>): Request
    requires env.prompt.Some?
  {
    Retrieval.Sanitized(Composed(env, client), Retrieval.ContextText(Everything(results)))
  }

  /**
   A request to a remote provider, of nothing that must stay local, that asks for all of the results; and a codec that
   accepts the request, the prepared request, and the replacement over either.
   */
  ghost predicate AsksForAll(s: Situation, client: Request, body: string, results: seq<IndexTypes.SearchResult>,
                             mask: string)
  {
    && s.rules == [WholeText(mask)] && !SecretRequest(s) && !s.runtime.hasHost && s.runtime.pipeline.Some?
    && s.asked.Success? && s.asked.value.enabled && RoomFor(results) <= s.asked.value.maxContextChars
    && FindsJust(s.env.searches, s.asked.value.topK, results)
    && Arrives(s.env, client, body) && s.env.encode(PreparedWith(s.env, client, results)).Some?
    && s.env.decode(Composed(s.env, client), mask).Some?
    && s.env.decode(PreparedWith(s.env, client, results), mask).Some?
  }

  /** Neither blocked nor local: both evaluations redact. */
  lemma MaskedIsRedacted(s: Situation, phase: Policy.Phase, input: Policy.EvaluationInput, mask: string)
    requires s.rules == [WholeText(mask)] && !SecretRequest(s) && Evaluates(s, phase, input)
    ensures PolicyFails(s.env, input) <==> s.env.decode(input.request, mask).None?
    ensures forall verdict :: Policy.VerdictFits(input, verdict) ==> verdict == Policy.Redact
  {
    hide SecretRequest, Policy.MustStayLocal;
    SecrecyIsOfTheRequest(s, phase, input);
    WholeTextIsScanned(s, phase, input, mask);
    hide Evaluates;
  }

  lemma AllIsPrepared(s: Situation, client: Request, body: string, results: seq<IndexTypes.SearchResult>, mask: string,
                      first: Policy.EvaluationInput, route: Selection)
    requires AsksForAll(s, client, body, results, mask) && first.request == Composed(s.env, client)
    ensures !PreparationFails(s, first, Policy.Redact, route)
  {
    hide Arrives, SecretRequest, Retrieval.CompiledFrom, RoomFor, Everything, Retrieval.ContextText,
         Retrieval.Sanitized;
    var settings := s.asked.value;
    forall c | Retrieval.CompiledFrom(settings, s.env.searches, c)
      ensures s.env.encode(Retrieval.Sanitized(first.request, Retrieval.ContextText(c))).Some?
    {
      JustEverythingIsCompiled(settings, s.env.searches, results, c);
    }
  }

  lemma AllIsOutbound(s: Situation, client: Request, body: string, results: seq<IndexTypes.SearchResult>, mask: string,
                      first: Policy.EvaluationInput, route: Selection, o: Outbound)
    requires AsksForAll(s, client, body, results, mask) && first.request == Composed(s.env, client)
    requires OutboundFits(s, first, Policy.Redact, route, o)
    ensures o.context == Some(Everything(results)) && o.request == PreparedWith(s.env, client, results)
  {
    hide Arrives, SecretRequest, Retrieval.CompiledFrom, RoomFor, Everything, Retrieval.ContextText,
         Retrieval.Sanitized;
    JustEverythingIsCompiled(s.asked.value, s.env.searches, results, o.context.value);
  }

  /** Where such a request stands once it is routed. */
  lemma RoutedIsRedacted(s: Situation, client: Request, body: string, results: seq<IndexTypes.SearchResult>,
                         mask: string, first: Policy.EvaluationInput, preflight: Policy.Verdict)
    requires AsksForAll(s, client, body, results, mask) && Preflighted(s, first, preflight)
    ensures preflight == Policy.Redact && first.request == Composed(s.env, client)
  {
    hide Evaluates, Policy.VerdictFits, PolicyFails, SecretRequest, RoomFor, FindsJust, PreparedWith;
    ArrivesIsReceived(s.env, client, body);
    MaskedIsRedacted(s, Policy.Preflight, first, mask);
  }

  lemma OutgoingIsRedacted(s: Situation, client: Request, body: string, results: seq<IndexTypes.SearchResult>,
                           mask: string, e: Egress)
    requires AsksForAll(s, client, body, results, mask) && Outgoing(s, e)
    ensures e.preflight == Policy.Redact && e.context == Some(Everything(results))
    ensures !PolicyFails(s.env, e.input) && !Policy.VerdictFits(e.input, Policy.Block)
  {
    hide Evaluates, Preflighted, Policy.VerdictFits, PolicyFails, SecretRequest, RoomFor, FindsJust, PreparedWith,
         Arrives, OutboundFits, RouteFound, Everything, Composed;
    RoutedIsRedacted(s, client, body, results, mask, e.first, e.preflight);
    AllIsOutbound(s, client, body, results, mask, e.first, e.route, OutboundOf(e));
    MaskedIsRedacted(s, Policy.Egress, e.input, mask);
  }

  lemma RedactedIsNotRejected(s: Situation, client: Request, body: string, results: seq<IndexTypes.SearchResult>,
                              mask: string, status: nat, progress: Progress)
    requires AsksForAll(s, client, body, results, mask)
    ensures !RejectionFits(s, status, progress)
  {
    hide AsksForAll, Evaluates, Preflighted, Outgoing, PreparationFails, RouteFound, RouteFails, PolicyFails,
         ReceiveFails, Received;
    NotFailing(s, client, body, results, mask);
    match progress {
      case NotReceived =>
      case AtPreflight(first) =>
        if Received(s.env, first.request, first.body) && Evaluates(s, Policy.Preflight, first) {
          FirstIsRedacted(s, client, body, results, mask, first);
        }
      case AtRoute(first, preflight) =>
        if Preflighted(s, first, preflight) { RoutedIsRedacted(s, client, body, results, mask, first, preflight); }
      case AtPreparation(first, preflight, route) =>
        if Preflighted(s, first, preflight) {
          RoutedIsRedacted(s, client, body, results, mask, first, preflight);
          AllIsPrepared(s, client, body, results, mask, first, route);
        }
      case AtEgress(e) =>
        if Outgoing(s, e) { OutgoingIsRedacted(s, client, body, results, mask, e); }
    }
  }

  lemma NotFailing(s: Situation, client: Request, body: string, results: seq<IndexTypes.SearchResult>, mask: string)
    requires AsksForAll(s, client, body, results, mask)
    ensures forall status :: !ReceiveFails(s.env, status)
    ensures forall model, verdict :: RouteFails(s.runtime, s.env, model, verdict) ==> verdict == Policy.LocalOnly
  {
    hide SecretRequest, RoomFor, FindsJust, PreparedWith;
  }

  lemma FirstIsRedacted(s: Situation, client: Request, body: string, results: seq<IndexTypes.SearchResult>,
                        mask: string, first: Policy.EvaluationInput)
    requires AsksForAll(s, client, body, results, mask)
    requires Received(s.env, first.request, first.body) && Evaluates(s, Policy.Preflight, first)
    ensures !PolicyFails(s.env, first)
  {
    hide Evaluates, PolicyFails, SecretRequest, RoomFor, FindsJust, PreparedWith;
    ArrivesIsReceived(s.env, client, body);
    MaskedIsRedacted(s, Policy.Preflight, first, mask);
  }

  lemma RedactedIsNotDenied(s: Situation, client: Request, body: string, results: seq<IndexTypes.SearchResult>,
                            mask: string, event: Event, progress: Progress)
    requires AsksForAll(s, client, body, results, mask)
    ensures !DenialFits(s, event, progress)
  {
    hide AsksForAll, Preflighted, Outgoing, RouteFails, PolicyFails, LeavesAs, Policy.VerdictFits, Policy.ReasonFits,
         HashBytes;
    match progress {
      case AtPreflight(first) =>
        if Preflighted(s, first, event.verdict) {
          RoutedIsRedacted(s, client, body, results, mask, first, event.verdict);
        }
      case AtRoute(first, _) =>
        if Preflighted(s, first, event.verdict) {
          RoutedIsRedacted(s, client, body, results, mask, first, event.verdict);
        }
      case AtEgress(e) =>
        if Outgoing(s, e) { OutgoingIsRedacted(s, client, body, results, mask, e); }
      case _ =>
    }
  }

  /** Every run of such a request is a call to the remote provider with all the results, uncut, whatever their size. */
  lemma RedactedRequestIsNotCapped(s: Situation, client: Request, body: string, results: seq<IndexTypes.SearchResult>,
                                   mask: string, run: Run)
    requires AsksForAll(s, client, body, results, mask) && RunFits(s, run)
    ensures run.Called? && IsRemote(run.call.location) && run.egress.preflight == Policy.Redact
    ensures run.egress.context == Some(Everything(results))
  {
    hide RejectionFits, DenialFits, Outgoing, PolicyFails, Policy.VerdictFits, Policy.ReasonFits, Policy.BodyFits,
         HashBytes, SecretRequest, Arrives, RoomFor, FindsJust, PreparedWith, Composed, Everything;
    match run {
      case Rejected(status, progress) => RedactedIsNotRejected(s, client, body, results, mask, status, progress);
      case Denied(event, progress) => RedactedIsNotDenied(s, client, body, results, mask, event, progress);
      case Called(_, _, e) =>
        OutgoingIsRedacted(s, client, body, results, mask, e);
        RouteWithoutHost(s, run);
    }
  }

  lemma RouteWithoutHost(s: Situation, run: Run)
    requires !s.runtime.hasHost && RunFits(s, run) && run.Called?
    ensures IsRemote(run.call.location)
  {
    hide OutboundFits, Evaluates, Preflighted, PolicyFails, Policy.BodyFits, Policy.VerdictFits, Policy.ReasonFits;
  }

  const REMOTE_PROJECT := Policy.ProjectConfig("p", "", "", map[])

  lemma BlankIsNoSecret(project: Policy.ProjectConfig)
    requires project.classification == ""
    ensures !Policy.ProjectTradeSecrets(project)
  {
    assert Text.Normalize("") == "";
    hide Text.Normalize;
  }

  function UpTo(results: seq<IndexTypes.SearchResult>, limit: int): Option<seq<IndexTypes.SearchResult>> {
    if limit < 1 then None else Some(results[..Ordering.Min(limit, |results|)])
  }

  function Finding(results: seq<IndexTypes.SearchResult>): Retrieval.Searches {
    Retrieval.Searches(true, true, limit => UpTo(results, limit), limit => UpTo([], limit))
  }

  lemma FindingIsGood(results: seq<IndexTypes.SearchResult>)
    requires results != []
    ensures Retrieval.GoodSearches(Finding(results)) && FindsJust(Finding(results), |results|, results)
  {
    assert results[..|results|] == results;
  }

  lemma ThreeAreLong(result: IndexTypes.SearchResult)
    requires |result.content| > Policy.REMOTE_MAX_CHARS
    ensures |Everything([result, result, result]).sources| > Policy.REMOTE_TOP_K
    ensures |Everything([result, result, result]).text| > Policy.REMOTE_MAX_CHARS
  {
    hide ContextCompiler.Reference, ContextCompiler.Lead;
    var results := [result, result, result];
    assert |ContextCompiler.Complete(2, result)| > Policy.REMOTE_MAX_CHARS;
    assert ContextCompiler.CompleteUpTo(results, 3)
        == ContextCompiler.CompleteUpTo(results, 2) + ContextCompiler.Complete(2, result);
  }

  /**
   The handler at work: three long results all go to the remote provider with a redacted request, beyond both caps.
   The codec need only accept the request, the prepared request, and the replacement over either.
   */
  method CapsCanBeExceeded(sha: string -> string, client: Request, encode: Request -> Option<string>,
                           decode: Policy.Decoder, mask: string, result: IndexTypes.SearchResult, response: Response)
    returns (handler: Handler, run: Run)
    requires client.retrieval == null && |result.content| > Policy.REMOTE_MAX_CHARS
    requires var request := client.(messages := [] + client.messages);
             var prepared := Retrieval.Sanitized(request, Retrieval.ContextText(Everything([result, result, result])));
             && encode(request).Some? && encode(prepared).Some?
             && decode(request, mask).Some? && decode(prepared, mask).Some?
    ensures run.Called? && handler.calls == [run.call] && IsRemote(run.call.location)
    ensures run.egress.preflight == Policy.Redact && run.call.body == mask && run.egress.context.Some?
    ensures |run.egress.context.value.sources| > Policy.REMOTE_TOP_K
    ensures |run.egress.context.value.text| > Policy.REMOTE_MAX_CHARS
  {
    hide RunFits, Scanner.IsScan, GoodRules, Arrives, Everything, RoomFor, FindsJust, Retrieval.GoodSearches,
         Retrieval.ContextText, Retrieval.Sanitized, SecretRequest;
    var results := [result, result, result];
    var scanner := new Scanner.RedactionScanner([WholeText(mask)]);
    handler := new Handler(scanner, sha, "own");
    var settings := Retrieval.Settings(true, |results|, RoomFor(results));
    var runtime := Runtime("p", false, _ => true, _ => true, REMOTE_PROJECT, None, Some(settings), [], []);
    var searches := Finding(results);
    var env := Environment(true, Some(client), true, Some([]), encode, decode, [], None, searches, response, true);
    WholeTextFits(mask);
    FindingIsGood(results);
    ghost var s := handler.SituationOf(runtime, env);
    ghost var body := encode(client.(messages := [] + client.messages)).value;
    PlainlyArrives(env, client, body);
    PlainIsNoSecret(s);
    run := handler.ServeHTTP(runtime, env);
    assert AsksForAll(s, client, body, results, mask);
    RedactedRequestIsNotCapped(s, client, body, results, mask, run);
    ThreeAreLong(result);
    RedactedBodyIsSent(s, run, mask);
  }

  lemma PlainIsNoSecret(s: Situation)
    requires s.runtime.project == REMOTE_PROJECT && s.env.classification.None?
    ensures !SecretRequest(s)
  {
    hide Policy.ProjectTradeSecrets;
    BlankIsNoSecret(REMOTE_PROJECT);
  }

  lemma RedactedBodyIsSent(s: Situation, run: Run, mask: string)
    requires s.rules == [WholeText(mask)] && !SecretRequest(s) && RunFits(s, run) && run.Called?
    ensures run.call.body == mask
  {
    CalledIsEvaluated(s, run);
    WholeTextIsScanned(s, Policy.Egress, run.egress.input, mask);
    SecrecyIsOfTheRequest(s, Policy.Egress, run.egress.input);
    SentBodyIsRedacted(s, run);
  }
}
