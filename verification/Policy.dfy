/**
 The policy evaluator (internal/policy/evaluator.go, types.go): a ladder of branches that turns a scan, a
 classification and the project into a verdict and the body that may leave.
 */
module Policy {
  import opened Wrappers
  import Text
  import opened Chat
  import opened Scanner

  datatype Verdict = Allow | Redact | Block | LocalOnly

  datatype Phase = PhaseUnset | Preflight | Egress

  datatype Source = DefaultSource | ProjectSource | SystemSource | ClassifierSource | ScanSource

  datatype Reason =
    | PolicyAllow
    | SecretScanBlock
    | SecretScanRedact
    | SystemTradeSecret
    | ClassifierTradeSecret
    | ProjectTradeSecret

  datatype ActionType =
    | CodeDiagnosis
    | CodeGeneration
    | Architecture
    | Explanation
    | Refactor
    | Review
    | GeneralQA
    | OtherAction(name: string)

  datatype Sensitivity = Public | Internal | Proprietary | TradeSecret | OtherSensitivity(name: string)

  datatype Classification = Classification(action: ActionType, sensitivity: Sensitivity)

  datatype ProjectConfig = ProjectConfig(name: string, classification: string,
                                         routingDefault: string, taskTypes: map<ActionType, string>)

  datatype RuntimePolicy = RuntimePolicy(project: ProjectConfig, forceLocalForTradeSecret: bool,
                                         minimizeRemoteContext: bool, remoteRetrievalTopK: int,
                                         remoteMaxContextChars: int, classificationSource: Source,
                                         forceLocalSource: Source)

  datatype RetrievalPlan = RetrievalPlan(apply: bool, topKCap: int, maxContextChars: int)

  datatype EvaluationInput = EvaluationInput(project: ProjectConfig, runtime: RuntimePolicy, request: Request,
                                             body: string, scan: ScanResult, classification: Option<Classification>,
                                             phase: Phase)

  datatype EvaluationResult = EvaluationResult(verdict: Verdict, reason: Reason, request: Request, body: string,
                                               findings: seq<Finding>, phase: Phase, routeSource: Source,
                                               retrieval: RetrievalPlan)

  const NO_PLAN := RetrievalPlan(false, 0, 0)

  const TRADE_SECRET := "trade_secret"
  const OPEN_SOURCE := "open_source"

  const REMOTE_TOP_K := 2
  const REMOTE_MAX_CHARS := 1200

  /** `system` is the system file's force-local rule, when there is a system file. */
  function MergeRuntimePolicy(system: Option<bool>, project: ProjectConfig): RuntimePolicy {
    var force := system == Some(true);
    RuntimePolicy(project, force, true, REMOTE_TOP_K, REMOTE_MAX_CHARS,
                  if project.classification != "" then ProjectSource else DefaultSource,
                  if force then SystemSource else DefaultSource)
  }

  function EffectiveRuntime(input: EvaluationInput): RuntimePolicy {
    if input.runtime.project.name == "" && input.runtime.project.classification == ""
    then MergeRuntimePolicy(None, input.project)
    else input.runtime
  }

  /** A merged policy: the system file's rule and who said so, and the remote caps. */
  lemma MergedInWords(system: Option<bool>, project: ProjectConfig)
    ensures var m := MergeRuntimePolicy(system, project);
            && m.project == project && (m.forceLocalForTradeSecret <==> system == Some(true))
            && m.minimizeRemoteContext && m.remoteRetrievalTopK == 2 && m.remoteMaxContextChars == 1200
            && (m.classificationSource == ProjectSource <==> project.classification != "")
            && (m.classificationSource == DefaultSource <==> project.classification == "")
            && (m.forceLocalSource == SystemSource <==> system == Some(true))
            && (m.forceLocalSource == DefaultSource <==> system != Some(true))
  {}

  /** An evaluation without a runtime policy falls back on its project, without any system rule. */
  lemma RuntimeInWords(input: EvaluationInput)
    ensures input.runtime.project.name + input.runtime.project.classification == "" ==>
              EffectiveRuntime(input).project == input.project && !EffectiveRuntime(input).forceLocalForTradeSecret
    ensures input.runtime.project.name + input.runtime.project.classification != "" ==>
              EffectiveRuntime(input) == input.runtime
  {
    if input.runtime.project.name != "" { assert |input.runtime.project.name| > 0; }
    if input.runtime.project.classification != "" { assert |input.runtime.project.classification| > 0; }
  }

  predicate ClassifiedTradeSecret(c: Option<Classification>) {
    c.Some? && c.value.sensitivity == TradeSecret
  }

  predicate ProjectTradeSecrets(project: ProjectConfig) {
    Text.Normalize(project.classification) == TRADE_SECRET
  }

  lemma TradeSecretIsNormal()
    ensures Text.Normalize(TRADE_SECRET) == TRADE_SECRET
  {
    hide Text.Normalize;
    Text.NormalizeKeeps(TRADE_SECRET);
  }

  /** The request must stay local, by the classifier or by the project; no system rule is asked. */
  predicate MustStayLocal(input: EvaluationInput) {
    ClassifiedTradeSecret(input.classification) || ProjectTradeSecrets(EffectiveRuntime(input).project)
  }

  /** The redacted body replaces the given one. */
  predicate Replaced(input: EvaluationInput) {
    if input.scan.hasBlockingFindings then input.scan.redactedBody != ""
    else if MustStayLocal(input) then input.scan.redactedBody != "" && input.scan.findings != []
    else input.scan.findings != []
  }

  /** Decodes a body over an existing request; None is a decoding error. */
  type Decoder = (Request, string) -> Option<Request>

  /** The body is the new one and the request the one it decodes to over the old; nothing else changes. */
  ghost predicate Synced(result: EvaluationResult, body: string, decode: Decoder, r: Result<EvaluationResult>) {
    && (r.Failure? <==> decode(result.request, body).None?)
    && (r.Success? ==>
          && r.value.body == body && decode(result.request, body) == Some(r.value.request)
          && SameButBody(result, r.value))
  }

  /** `syncRequestFromBody` */
  method SyncRequestFromBody(result: EvaluationResult, body: string, decode: Decoder)
    returns (synced: Result<EvaluationResult>)
    ensures Synced(result, body, decode, synced)
  {
    var r := result.(body := body);
    match decode(r.request, body) {
      case None => synced := Failure("decode");
      case Some(request) => synced := Success(r.(request := request));
    }
  }

  /** What the ladder decides, by what was found and who says the request is secret. */
  ghost predicate VerdictFits(input: EvaluationInput, verdict: Verdict) {
    match verdict
    case Block => input.scan.hasBlockingFindings
    case LocalOnly => !input.scan.hasBlockingFindings && MustStayLocal(input)
    case Redact => !input.scan.hasBlockingFindings && !MustStayLocal(input) && input.scan.findings != []
    case Allow => !input.scan.hasBlockingFindings && !MustStayLocal(input) && input.scan.findings == []
  }

  /** Every verdict names its cause; a local-only one the system rule, then the classifier, then the project. */
  ghost predicate ReasonFits(input: EvaluationInput, verdict: Verdict, reason: Reason, source: Source) {
    var runtime := EffectiveRuntime(input);
    match verdict
    case Block => reason == SecretScanBlock && source == ScanSource
    case Redact => reason == SecretScanRedact && source == ScanSource
    case Allow => reason == PolicyAllow && source == DefaultSource
    case LocalOnly =>
      if !ClassifiedTradeSecret(input.classification)
      then reason == ProjectTradeSecret && source == runtime.classificationSource
      else if runtime.forceLocalForTradeSecret then reason == SystemTradeSecret && source == runtime.forceLocalSource
      else reason == ClassifierTradeSecret && source == ClassifierSource
  }

  ghost predicate BodyFits(input: EvaluationInput, decode: Decoder, request: Request, body: string) {
    if Replaced(input)
    then body == input.scan.redactedBody && decode(input.request, body) == Some(request)
    else body == input.body && request == input.request
  }

  /** Retrieval is only ever limited for a clean request in preflight. */
  ghost predicate PlanFits(input: EvaluationInput, verdict: Verdict, plan: RetrievalPlan) {
    var runtime := EffectiveRuntime(input);
    if verdict == Allow && input.phase == Preflight && runtime.minimizeRemoteContext
    then plan == RetrievalPlan(true, runtime.remoteRetrievalTopK, runtime.remoteMaxContextChars)
    else !plan.apply
  }

  /** `Success(r)` when the body needs no replacement, and the synced result or a decoding error when it does. */
  ghost predicate SyncFits(input: EvaluationInput, decode: Decoder, r: Result<EvaluationResult>) {
    && (r.Failure? <==> Replaced(input) && decode(input.request, input.scan.redactedBody).None?)
    && (r.Success? ==> BodyFits(input, decode, r.value.request, r.value.body))
  }

  ghost predicate SameButBody(a: EvaluationResult, b: EvaluationResult) {
    b == a.(request := b.request, body := b.body)
  }

  lemma SyncedFits(input: EvaluationInput, decode: Decoder, result: EvaluationResult, r: Result<EvaluationResult>)
    requires Replaced(input) && result.request == input.request
    requires Synced(result, input.scan.redactedBody, decode, r)
    ensures SyncFits(input, decode, r) && (r.Success? ==> SameButBody(result, r.value))
  {}

  lemma KeptFits(input: EvaluationInput, decode: Decoder, result: EvaluationResult)
    requires !Replaced(input) && result.request == input.request && result.body == input.body
    ensures SyncFits(input, decode, Success(result))
  {}

  method LocalOnlyResult(input: EvaluationInput, result: EvaluationResult, decode: Decoder)
    returns (r: Result<EvaluationResult>)
    requires !input.scan.hasBlockingFindings && MustStayLocal(input)
    requires result.request == input.request && result.body == input.body
    ensures SyncFits(input, decode, r)
    ensures r.Success? ==> SameButBody(result, r.value)
  {
    if |input.scan.redactedBody| > 0 && |input.scan.findings| > 0 {
      r := SyncRequestFromBody(result, input.scan.redactedBody, decode);
    } else {
      r := Success(result);
    }
  }

  /** An unset classification is open source. */
  method ClassifiedAsTradeSecret(project: ProjectConfig) returns (secret: bool)
    ensures secret <==> ProjectTradeSecrets(project)
  {
    hide Text.Normalize;
    var classification := Text.Normalize(project.classification);
    if classification == "" {
      classification := OPEN_SOURCE;
    }
    secret := classification == TRADE_SECRET;
  }

  method Evaluate(input: EvaluationInput, decode: Decoder) returns (r: Result<EvaluationResult>)
    ensures SyncFits(input, decode, r)
    ensures r.Success? ==> VerdictFits(input, r.value.verdict)
    ensures r.Success? ==> ReasonFits(input, r.value.verdict, r.value.reason, r.value.routeSource)
    ensures r.Success? ==> PlanFits(input, r.value.verdict, r.value.retrieval)
    ensures r.Success? ==> r.value.findings == input.scan.findings
    ensures r.Success? ==> r.value.phase == if input.phase == PhaseUnset then Egress else input.phase
  {
    hide Text.Normalize, MergeRuntimePolicy, BodyFits, SyncFits;
    var runtime := input.runtime;
    if runtime.project.name == "" && runtime.project.classification == "" {
      runtime := MergeRuntimePolicy(None, input.project);
    }
    assert runtime == EffectiveRuntime(input);
    hide EffectiveRuntime, ClassifiedTradeSecret;
    var phase := if input.phase == PhaseUnset then Egress else input.phase;
    var result := EvaluationResult(Allow, PolicyAllow, input.request, input.body, input.scan.findings,
                                   phase, DefaultSource, NO_PLAN);
    var projectSecret := ClassifiedAsTradeSecret(runtime.project);
    hide ProjectTradeSecrets;

    if input.scan.hasBlockingFindings {
      result := result.(verdict := Block, reason := SecretScanBlock, routeSource := ScanSource);
      if |input.scan.redactedBody| > 0 {
        r := SyncRequestFromBody(result, input.scan.redactedBody, decode);
        SyncedFits(input, decode, result, r);
      } else {
        r := Success(result);
        KeptFits(input, decode, result);
      }
    } else if runtime.forceLocalForTradeSecret && ClassifiedTradeSecret(input.classification) {
      result := result.(verdict := LocalOnly, reason := SystemTradeSecret, routeSource := runtime.forceLocalSource);
      r := LocalOnlyResult(input, result, decode);
    } else if ClassifiedTradeSecret(input.classification) {
      result := result.(verdict := LocalOnly, reason := ClassifierTradeSecret, routeSource := ClassifierSource);
      r := LocalOnlyResult(input, result, decode);
    } else if projectSecret {
      result := result.(verdict := LocalOnly, reason := ProjectTradeSecret,
                        routeSource := runtime.classificationSource);
      r := LocalOnlyResult(input, result, decode);
    } else if |input.scan.findings| > 0 {
      result := result.(verdict := Redact, reason := SecretScanRedact, routeSource := ScanSource);
      r := SyncRequestFromBody(result, input.scan.redactedBody, decode);
      SyncedFits(input, decode, result, r);
    } else {
      if phase == Preflight && runtime.minimizeRemoteContext {
        result := result.(retrieval := RetrievalPlan(true, runtime.remoteRetrievalTopK, runtime.remoteMaxContextChars));
      }
      r := Success(result);
      KeptFits(input, decode, result);
    }
  }
}
