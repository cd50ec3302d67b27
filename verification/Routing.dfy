/**
 The deterministic router (internal/routing/decision.go): three gates, model affinity, then an unstable sort
 under a five-level order whose last level is the candidate's ID.
 */
module Routing {
  import opened Wrappers
  import opened Ordering
  import Text
  import Policy

  datatype Location = Local | Remote | OtherLocation(name: string)

  datatype Candidate = Candidate(id: string, endpoint: string, defaultModel: string,
                                 modelPins: seq<string>, capabilities: seq<string>, location: Location)

  datatype Preference = Auto | PreferLocal | PreferCloud | OnlyLocal

  datatype PreferenceSource = FromDefault | FromProjectDefault | FromTaskType

  datatype ResolvedPreference = ResolvedPreference(preference: Preference, source: PreferenceSource)

  datatype RejectReason =
    | NotRejected
    | PolicyBlocked
    | PolicyLocalOnly
    | MissingRequiredCapabilities
    | RoutePreferenceLocalOnly
    | RequestedModelMismatch

  datatype CandidateTrace = CandidateTrace(id: string, location: Location, eligible: bool, rejected: bool,
                                           selected: bool, reason: RejectReason, modelMatch: bool,
                                           missingCapabilities: seq<string>, preferenceScore: int, taskStrength: int)

  datatype State = State(candidate: Candidate, trace: CandidateTrace)

  datatype DecisionInput = DecisionInput(requestedModel: string, requiredCapabilities: seq<string>,
                                         action: Policy.ActionType, project: Policy.ProjectConfig,
                                         verdict: Policy.Verdict, candidates: seq<Candidate>)

  datatype Decision = Decision(preference: ResolvedPreference, selected: Option<Candidate>, ranked: seq<Candidate>,
                               modelMatch: bool, requiredCapabilities: seq<string>, trace: seq<CandidateTrace>)

  // ----- preference

  /** None stands for the empty string of the source. */
  function NormalizePreference(value: string): Option<Preference> {
    var v := Text.Normalize(value);
    if v == "auto" then Some(Auto)
    else if v == "prefer_local" then Some(PreferLocal)
    else if v == "prefer_cloud" then Some(PreferCloud)
    else if v == "local_only" then Some(OnlyLocal)
    else None
  }

  function ResolvePreference(project: Policy.ProjectConfig, action: Policy.ActionType): ResolvedPreference {
    var task := if action in project.taskTypes then NormalizePreference(project.taskTypes[action]) else None;
    if task.Some? then ResolvedPreference(task.value, FromTaskType)
    else
      var default := NormalizePreference(project.routingDefault);
      if default.Some? then ResolvedPreference(default.value, FromProjectDefault)
      else ResolvedPreference(Auto, FromDefault)
  }

  // ----- the gates

  function PolicyRejection(verdict: Policy.Verdict, candidate: Candidate): RejectReason {
    match verdict
    case Block => PolicyBlocked
    case LocalOnly => if candidate.location != Local then PolicyLocalOnly else NotRejected
    case Allow => NotRejected
    case Redact => NotRejected
  }

  function Available(capabilities: seq<string>): set<string> {
    set c | c in capabilities :: Text.Normalize(c)
  }

  function Missing(required: seq<string>, available: set<string>): (missing: seq<string>)
    ensures missing == [] <==> forall c :: c in required ==> c in available
  {
    if required == [] then []
    else
      var n := |required| - 1;
      assert required == required[..n] + [required[n]];
      Missing(required[..n], available) + (if required[n] in available then [] else [required[n]])
  }

  lemma AvailableOfNone()
    ensures Available([]) == {}
  {}

  lemma AvailableSnoc(capabilities: seq<string>, c: string)
    ensures Available(capabilities + [c]) == Available(capabilities) + {Text.Normalize(c)}
  {
    hide Text.Normalize;
  }

  method AvailableSet(available: seq<string>) returns (availableSet: set<string>)
    ensures availableSet == Available(available)
  {
    hide Text.Normalize, Available;
    availableSet := {};
    assert Available([]) == {} by { AvailableOfNone(); }
    for i := 0 to |available|
      invariant availableSet == Available(available[..i])
    {
      AvailableSnoc(available[..i], available[i]);
      assert available[..i + 1] == available[..i] + [available[i]];
      availableSet := availableSet + {Text.Normalize(available[i])};
    }
    assert available[..|available|] == available;
  }

  method MissingCapabilities(required: seq<string>, available: seq<string>) returns (missing: seq<string>)
    ensures missing == Missing(required, Available(available))
  {
    hide Available;
    if |required| == 0 { return []; }
    var availableSet := AvailableSet(available);
    missing := [];
    for i := 0 to |required|
      invariant missing == Missing(required[..i], availableSet)
    {
      assert required[..i + 1][..i] == required[..i];
      if required[i] !in availableSet {
        missing := missing + [required[i]];
      }
    }
    assert required[..|required|] == required;
  }

  function PreferenceScore(preference: Preference, candidate: Candidate): (int, RejectReason) {
    match preference
    case PreferLocal => (if candidate.location == Local then 1 else 0, NotRejected)
    case PreferCloud => (if candidate.location == Remote then 1 else 0, NotRejected)
    case OnlyLocal => if candidate.location != Local then (0, RoutePreferenceLocalOnly) else (1, NotRejected)
    case Auto => (0, NotRejected)
  }

  // ----- model affinity and task strength

  predicate ModelMatches(requestedModel: string, candidate: Candidate) {
    && requestedModel != ""
    && ((exists k :: 0 <= k < |candidate.modelPins| && Text.Normalize(candidate.modelPins[k]) == requestedModel)
        || Text.Normalize(candidate.defaultModel) == requestedModel)
  }

  function CapabilityWeights(action: Policy.ActionType): map<string, nat> {
    match action
    case CodeDiagnosis => map["tool_calling" := 3, "reasoning" := 2, "chat" := 1]
    case CodeGeneration => map["tool_calling" := 3, "reasoning" := 2, "chat" := 1]
    case Refactor => map["tool_calling" := 3, "reasoning" := 2, "chat" := 1]
    case Review => map["reasoning" := 2, "chat" := 1]
    case Architecture => map["reasoning" := 2, "chat" := 1]
    case Explanation => map["reasoning" := 2, "chat" := 1]
    case GeneralQA => map["chat" := 1]
    case OtherAction(_) => map["chat" := 1]
  }

  ghost function Sum(weights: map<string, nat>, keys: set<string>): nat
    requires keys <= weights.Keys
  {
    if keys == {} then 0 else var k :| k in keys; weights[k] + Sum(weights, keys - {k})
  }

  /** The sum does not depend on which key is taken first. */
  lemma {:induction false} SumTakes(weights: map<string, nat>, keys: set<string>, k: string)
    requires keys <= weights.Keys && k in keys
    ensures Sum(weights, keys) == weights[k] + Sum(weights, keys - {k})
    decreases |keys|
  {
    var first :| first in keys && Sum(weights, keys) == weights[first] + Sum(weights, keys - {first});
    if first != k {
      SumTakes(weights, keys - {first}, k);
      SumTakes(weights, keys - {k}, first);
      assert keys - {first} - {k} == keys - {k} - {first};
    }
  }

  ghost function Strength(action: Policy.ActionType, capabilities: seq<string>): nat {
    var weights := CapabilityWeights(action);
    Sum(weights, weights.Keys * Available(capabilities))
  }

  /** The source ranges over a map, so each round takes any key that is left. */
  method AddWeights(weights: map<string, nat>, available: set<string>) returns (strength: int)
    ensures strength == Sum(weights, weights.Keys * available)
  {
    strength := 0;
    var left := weights.Keys;
    while left != {}
      invariant left <= weights.Keys
      invariant strength + Sum(weights, left * available) == Sum(weights, weights.Keys * available)
      decreases |left|
    {
      var capability :| capability in left;
      var rest := left - {capability};
      if capability in available {
        SumTakes(weights, left * available, capability);
        strength := strength + weights[capability];
        assert left * available - {capability} == rest * available;
      } else {
        assert left * available == rest * available;
      }
      left := rest;
    }
    assert left * available == {};
  }

  method TaskStrength(action: Policy.ActionType, capabilities: seq<string>) returns (strength: int)
    ensures strength == Strength(action, capabilities)
  {
    var weights := CapabilityWeights(action);
    if |weights| == 0 { assert weights.Keys == {}; assert weights.Keys * Available(capabilities) == {}; return 0; }
    var available := AvailableSet(capabilities);
    strength := AddWeights(weights, available);
  }

  // ----- one candidate through the gates

  ghost function Gate(input: DecisionInput, required: seq<string>, candidate: Candidate): State {
    var model := Text.Normalize(input.requestedModel);
    var matches := ModelMatches(model, candidate);
    var entry := CandidateTrace(candidate.id, candidate.location, false, true, false, NotRejected, matches, [], 0, 0);
    var policy := PolicyRejection(input.verdict, candidate);
    var missing := Missing(required, Available(candidate.capabilities));
    var (score, preference) := PreferenceScore(ResolvePreference(input.project, input.action).preference, candidate);
    State(candidate,
          if policy != NotRejected then entry.(reason := policy)
          else if missing != [] then entry.(reason := MissingRequiredCapabilities, missingCapabilities := missing)
          else if preference != NotRejected then entry.(reason := preference, preferenceScore := score)
          else entry.(eligible := true, rejected := false, preferenceScore := score,
                      taskStrength := Strength(input.action, candidate.capabilities)))
  }

  ghost function Gated(input: DecisionInput, required: seq<string>): seq<State> {
    MapSeq((c: Candidate) => Gate(input, required, c), input.candidates)
  }

  ghost predicate HasMatch(states: seq<State>) {
    exists k :: 0 <= k < |states| && states[k].trace.eligible && states[k].trace.modelMatch
  }

  function Exclude(s: State): State {
    if s.trace.eligible && !s.trace.modelMatch
    then s.(trace := s.trace.(eligible := false, rejected := true, reason := RequestedModelMismatch))
    else s
  }

  /** Once one eligible candidate matches the model, the eligible ones that do not are rejected. */
  ghost function Affine(states: seq<State>): seq<State> {
    if HasMatch(states) then MapSeq(Exclude, states) else states
  }

  method ApplyModelAffinity(states: seq<State>, requestedModel: string) returns (result: seq<State>)
    requires forall k :: 0 <= k < |states| && states[k].trace.modelMatch ==> requestedModel != ""
    ensures result == Affine(states)
  {
    result := states;
    if requestedModel == "" { return; }
    var hasMatch := false;
    for i := 0 to |states|
      invariant !hasMatch
      invariant forall k :: 0 <= k < i ==> !(states[k].trace.eligible && states[k].trace.modelMatch)
    {
      if states[i].trace.eligible && states[i].trace.modelMatch {
        hasMatch := true;
        break;
      }
    }
    if !hasMatch { return; }
    for i := 0 to |states|
      invariant |result| == |states|
      invariant forall k :: 0 <= k < |states| ==> result[k] == if k < i then Exclude(states[k]) else states[k]
    {
      if !result[i].trace.eligible { continue; }
      if result[i].trace.modelMatch { continue; }
      result := result[i := result[i].(trace := result[i].trace.(eligible := false, rejected := true,
                                                                 reason := RequestedModelMismatch))];
    }
  }

  // ----- the order

  predicate Before(a: State, b: State) {
    if a.trace.eligible != b.trace.eligible then a.trace.eligible
    else if a.trace.preferenceScore != b.trace.preferenceScore then a.trace.preferenceScore > b.trace.preferenceScore
    else if a.trace.modelMatch != b.trace.modelMatch then a.trace.modelMatch
    else if a.trace.taskStrength != b.trace.taskStrength then a.trace.taskStrength > b.trace.taskStrength
    else Text.LexLess(a.candidate.id, b.candidate.id)
  }

  lemma BeforeIsWeakOrder()
    ensures WeakOrder(Before)
  {
    forall x: State, y: State | Before(x, y) ensures !Before(y, x) {
      if Text.LexLess(x.candidate.id, y.candidate.id) {
        Text.LexAsymmetric(x.candidate.id, y.candidate.id);
      }
    }
    forall x: State, y: State, z: State | Before(x, z) ensures Before(x, y) || Before(y, z) {
      if Text.LexLess(x.candidate.id, z.candidate.id) {
        Text.LexNegativelyTransitive(x.candidate.id, y.candidate.id, z.candidate.id);
      }
    }
  }

  ghost predicate DistinctIds(candidates: seq<Candidate>) {
    forall i, j :: 0 <= i < j < |candidates| ==> candidates[i].id != candidates[j].id
  }

  /** With distinct IDs the order leaves no two states unordered. */
  lemma BeforeSeparates(states: seq<State>)
    requires forall i, j :: 0 <= i < j < |states| ==> states[i].candidate.id != states[j].candidate.id
    ensures Separates(states, Before)
  {
    forall x, y | x in states && y in states && x != y ensures Before(x, y) || Before(y, x) {
      var i :| 0 <= i < |states| && states[i] == x;
      var j :| 0 <= j < |states| && states[j] == y;
      assert i != j;
      Text.LexConnected(x.candidate.id, y.candidate.id);
    }
  }

  // ----- a decision

  /** The normalized, non-empty capabilities in order of first appearance. */
  function Deduped(values: seq<string>): seq<string> {
    if values == [] then []
    else
      var n := |values| - 1;
      var r := Deduped(values[..n]);
      var v := Text.Normalize(values[n]);
      if v == "" || v in r then r else r + [v]
  }

  function EligibleCandidates(states: seq<State>): seq<Candidate> {
    if states == [] then []
    else
      var n := |states| - 1;
      EligibleCandidates(states[..n]) + (if states[n].trace.eligible then [states[n].candidate] else [])
  }

  /** The first eligible state is the one marked as selected. */
  function Traces(states: seq<State>): (r: seq<CandidateTrace>)
    ensures |r| == |states|
  {
    if states == [] then []
    else
      var n := |states| - 1;
      var first := states[n].trace.eligible && EligibleCandidates(states[..n]) == [];
      Traces(states[..n]) + [if first then states[n].trace.(selected := true) else states[n].trace]
  }

  ghost function Assemble(input: DecisionInput, required: seq<string>, ranking: seq<State>): Decision {
    var ranked := EligibleCandidates(ranking);
    Decision(ResolvePreference(input.project, input.action),
             if ranked == [] then None else Some(ranked[0]),
             ranked,
             exists s :: s in ranking && s.trace.modelMatch,
             required,
             Traces(ranking))
  }

  ghost predicate Ranks(input: DecisionInput, required: seq<string>, ranking: seq<State>) {
    && IsSort(Deduped(input.requiredCapabilities), required, Text.LexLess)
    && IsSort(Affine(Gated(input, required)), ranking, Before)
  }

  /** d is a decision the router may give: whatever the unstable sort does with ties. */
  ghost predicate IsDecision(input: DecisionInput, d: Decision) {
    exists required, ranking :: Ranks(input, required, ranking) && d == Assemble(input, required, ranking)
  }

  method NormalizeCapabilities(values: seq<string>) returns (result: seq<string>)
    ensures IsSort(Deduped(values), result, Text.LexLess)
  {
    if |values| == 0 { return []; }
    var seen: set<string> := {};
    var unsorted: seq<string> := [];
    for i := 0 to |values|
      invariant unsorted == Deduped(values[..i])
      invariant forall c :: c in seen <==> c in unsorted
    {
      assert values[..i + 1][..i] == values[..i];
      var normalized := Text.Normalize(values[i]);
      if normalized == "" || normalized in seen { continue; }
      seen := seen + {normalized};
      unsorted := unsorted + [normalized];
    }
    assert values[..|values|] == values;
    LexIsWeakOrder();
    result := SortSlice(unsorted, Text.LexLess);
  }

  lemma LexIsWeakOrder()
    ensures WeakOrder(Text.LexLess)
  {
    forall x, y | Text.LexLess(x, y) ensures !Text.LexLess(y, x) { Text.LexAsymmetric(x, y); }
    forall x, y, z | Text.LexLess(x, z) ensures Text.LexLess(x, y) || Text.LexLess(y, z) {
      Text.LexNegativelyTransitive(x, y, z);
    }
  }

  method MatchesModel(requestedModel: string, candidate: Candidate) returns (matches: bool)
    ensures matches == ModelMatches(requestedModel, candidate)
  {
    hide Text.Normalize;
    if requestedModel == "" { return false; }
    for i := 0 to |candidate.modelPins|
      invariant forall k :: 0 <= k < i ==> Text.Normalize(candidate.modelPins[k]) != requestedModel
    {
      if Text.Normalize(candidate.modelPins[i]) == requestedModel { return true; }
    }
    return Text.Normalize(candidate.defaultModel) == requestedModel;
  }

  /** The body of the gate loop of `Decide`. */
  method GateCandidate(input: DecisionInput, preference: Preference, requestedModel: string, required: seq<string>,
                       candidate: Candidate) returns (state: State)
    requires preference == ResolvePreference(input.project, input.action).preference
    requires requestedModel == Text.Normalize(input.requestedModel)
    ensures state == Gate(input, required, candidate)
  {
    var matches := MatchesModel(requestedModel, candidate);
    var entry := CandidateTrace(candidate.id, candidate.location, false, true, false, NotRejected, matches, [], 0, 0);
    var rejection := PolicyRejection(input.verdict, candidate);
    if rejection != NotRejected {
      return State(candidate, entry.(reason := rejection));
    }
    var missing := MissingCapabilities(required, candidate.capabilities);
    if |missing| > 0 {
      return State(candidate, entry.(reason := MissingRequiredCapabilities, missingCapabilities := missing));
    }
    var (score, reason) := PreferenceScore(preference, candidate);
    entry := entry.(preferenceScore := score);
    if reason != NotRejected {
      return State(candidate, entry.(reason := reason));
    }
    var strength := TaskStrength(input.action, candidate.capabilities);
    return State(candidate, entry.(eligible := true, rejected := false, taskStrength := strength));
  }

  method GateAll(input: DecisionInput, preference: Preference, requestedModel: string, required: seq<string>)
    returns (states: seq<State>)
    requires preference == ResolvePreference(input.project, input.action).preference
    requires requestedModel == Text.Normalize(input.requestedModel)
    ensures states == Gated(input, required)
  {
    hide *;
    states := [];
    ghost var gated := Gated(input, required);
    GatedAt(input, required);
    for i := 0 to |input.candidates|
      invariant states == gated[..i]
    {
      var state := GateCandidate(input, preference, requestedModel, required, input.candidates[i]);
      states := states + [state];
    }
    assert gated[..|gated|] == gated;
  }

  lemma GatedAt(input: DecisionInput, required: seq<string>)
    ensures var states := Gated(input, required);
            |states| == |input.candidates|
            && forall k :: 0 <= k < |states| ==> states[k] == Gate(input, required, input.candidates[k])
  {
    hide Gate;
  }

  lemma MatchNeedsModel(input: DecisionInput, required: seq<string>)
    ensures var states := Gated(input, required);
            forall k :: 0 <= k < |states| && states[k].trace.modelMatch ==> Text.Normalize(input.requestedModel) != ""
  {
    hide Text.Normalize, Strength, PreferenceScore;
    GatedAt(input, required);
  }

  method Decide(input: DecisionInput) returns (d: Decision)
    ensures IsDecision(input, d)
  {
    hide Gated, Affine, Before, Text.LexLess, Text.Normalize, ResolvePreference, Deduped;
    var preference := ResolvePreference(input.project, input.action);
    var requestedModel := Text.Normalize(input.requestedModel);
    var required := NormalizeCapabilities(input.requiredCapabilities);
    var states := GateAll(input, preference.preference, requestedModel, required);
    MatchNeedsModel(input, required);
    states := ApplyModelAffinity(states, requestedModel);
    BeforeIsWeakOrder();
    var ranking := SortSlice(states, Before);
    d := Compile(preference, required, ranking);
    assert Ranks(input, required, ranking);
  }

  /** The last loop of `Decide`, over the sorted states. */
  method Compile(preference: ResolvedPreference, required: seq<string>, states: seq<State>) returns (d: Decision)
    ensures var ranked := EligibleCandidates(states);
            d == Decision(preference, if ranked == [] then None else Some(ranked[0]), ranked,
                          exists s :: s in states && s.trace.modelMatch, required, Traces(states))
  {
    var ranked: seq<Candidate> := [];
    var trace: seq<CandidateTrace> := [];
    var selected: Option<Candidate> := None;
    var exact := false;
    for i := 0 to |states|
      invariant ranked == EligibleCandidates(states[..i]) && trace == Traces(states[..i])
      invariant selected == if ranked == [] then None else Some(ranked[0])
      invariant exact <==> exists s :: s in states[..i] && s.trace.modelMatch
    {
      assert states[..i + 1][..i] == states[..i];
      assert states[..i + 1] == states[..i] + [states[i]];
      var entry := states[i].trace;
      if selected.None? && entry.eligible {
        selected := Some(states[i].candidate);
        entry := entry.(selected := true);
      }
      if entry.eligible {
        ranked := ranked + [states[i].candidate];
      }
      trace := trace + [entry];
      exact := exact || entry.modelMatch;
    }
    assert states[..|states|] == states;
    d := Decision(preference, selected, ranked, exact, required, trace);
  }

  // ----- what a decision means

  /** The three gates, said of the request rather than of the trace. */
  ghost predicate Passes(input: DecisionInput, c: Candidate) {
    && input.verdict != Policy.Block
    && (input.verdict == Policy.LocalOnly ==> c.location == Local)
    && (forall need :: need in input.requiredCapabilities && Text.Normalize(need) != "" ==>
          exists have :: have in c.capabilities && Text.Normalize(have) == Text.Normalize(need))
    && (ResolvePreference(input.project, input.action).preference == OnlyLocal ==> c.location == Local)
  }

  ghost predicate Matches(input: DecisionInput, c: Candidate) {
    ModelMatches(Text.Normalize(input.requestedModel), c)
  }

  /** Passes the gates and is not passed over for its model. */
  ghost predicate Chosen(input: DecisionInput, c: Candidate) {
    Passes(input, c) && (Matches(input, c) || !SomeMatch(input))
  }

  ghost function Score(input: DecisionInput, c: Candidate): int {
    PreferenceScore(ResolvePreference(input.project, input.action).preference, c).0
  }

  /** The order among chosen candidates. */
  ghost predicate Better(input: DecisionInput, a: Candidate, b: Candidate) {
    var sa, sb := Strength(input.action, a.capabilities), Strength(input.action, b.capabilities);
    if Score(input, a) != Score(input, b) then Score(input, a) > Score(input, b)
    else if Matches(input, a) != Matches(input, b) then Matches(input, a)
    else if sa != sb then sa > sb
    else Text.LexLess(a.id, b.id)
  }

  lemma {:induction false} DedupedElements(values: seq<string>, c: string)
    ensures c in Deduped(values) <==> c != "" && c in Available(values)
  {
    hide Text.Normalize;
    if values != [] {
      var n := |values| - 1;
      DedupedElements(values[..n], c);
      DedupedElements(values[..n], Text.Normalize(values[n]));
      assert values == values[..n] + [values[n]];
      assert Available(values) == Available(values[..n]) + {Text.Normalize(values[n])};
    }
  }

  lemma GateDecides(input: DecisionInput, required: seq<string>, c: Candidate)
    requires IsSort(Deduped(input.requiredCapabilities), required, Text.LexLess)
    ensures Gate(input, required, c).trace.eligible <==> Passes(input, c)
  {
    hide Text.Normalize, CapabilityWeights, Strength, ModelMatches, Deduped;
    var available := Available(c.capabilities);
    SameElements(Deduped(input.requiredCapabilities), required);
    if forall r :: r in required ==> r in available {
      forall need | need in input.requiredCapabilities && Text.Normalize(need) != ""
        ensures exists have :: have in c.capabilities && Text.Normalize(have) == Text.Normalize(need)
      {
        DedupedElements(input.requiredCapabilities, Text.Normalize(need));
        assert Text.Normalize(need) in available;
      }
    } else {
      var r :| r in required && r !in available;
      DedupedElements(input.requiredCapabilities, r);
      var need :| need in input.requiredCapabilities && Text.Normalize(need) == r;
      assert forall have :: have in c.capabilities ==> Text.Normalize(have) in available;
    }
  }

  /** What is known of every state once affinity is applied. */
  ghost predicate StateFits(input: DecisionInput, s: State) {
    && s.trace.id == s.candidate.id && !s.trace.selected
    && s.trace.rejected == !s.trace.eligible
    && (s.trace.eligible <==> Chosen(input, s.candidate))
    && (s.trace.eligible ==>
          && s.trace.preferenceScore == Score(input, s.candidate)
          && s.trace.modelMatch == Matches(input, s.candidate)
          && s.trace.taskStrength == Strength(input.action, s.candidate.capabilities))
  }

  lemma GatesDecide(input: DecisionInput, required: seq<string>)
    requires IsSort(Deduped(input.requiredCapabilities), required, Text.LexLess)
    ensures var states := Gated(input, required);
            forall k :: 0 <= k < |states| ==>
              && states[k] == Gate(input, required, input.candidates[k])
              && (states[k].trace.eligible <==> Passes(input, input.candidates[k]))
              && (states[k].trace.modelMatch <==> Matches(input, input.candidates[k]))
  {
    hide Passes, Text.Normalize, Strength, PreferenceScore, ModelMatches, Deduped;
    forall k | 0 <= k < |input.candidates|
      ensures Gate(input, required, input.candidates[k]).trace.eligible <==> Passes(input, input.candidates[k])
    {
      GateDecides(input, required, input.candidates[k]);
    }
  }

  /** Some candidate passes the gates and matches the model. */
  ghost predicate SomeMatch(input: DecisionInput) {
    exists c :: c in input.candidates && Passes(input, c) && Matches(input, c)
  }

  lemma MatchIsKnown(input: DecisionInput, required: seq<string>)
    requires IsSort(Deduped(input.requiredCapabilities), required, Text.LexLess)
    ensures HasMatch(Gated(input, required)) <==> SomeMatch(input)
  {
    hide Passes, Matches, Gate, Gated, Deduped;
    var states := Gated(input, required);
    GatesDecide(input, required);
    GatedAt(input, required);
    if SomeMatch(input) {
      var c :| c in input.candidates && Passes(input, c) && Matches(input, c);
      var k :| 0 <= k < |input.candidates| && input.candidates[k] == c;
      assert states[k].trace.eligible && states[k].trace.modelMatch;
    }
    if HasMatch(states) {
      var k :| 0 <= k < |states| && states[k].trace.eligible && states[k].trace.modelMatch;
      assert input.candidates[k] in input.candidates;
    }
  }

  lemma AffineFits(input: DecisionInput, required: seq<string>)
    requires IsSort(Deduped(input.requiredCapabilities), required, Text.LexLess)
    ensures var a := Affine(Gated(input, required));
            |a| == |input.candidates|
            && forall k :: 0 <= k < |a| ==> a[k].candidate == input.candidates[k] && StateFits(input, a[k])
  {
    hide Passes, Matches, Strength, Text.Normalize, ModelMatches, Deduped, Gate;
    MatchIsKnown(input, required);
    GatesDecide(input, required);
    var a := Affine(Gated(input, required));
    forall k | 0 <= k < |a| ensures a[k].candidate == input.candidates[k] && StateFits(input, a[k]) {
      GateFields(input, required, input.candidates[k]);
    }
  }

  lemma GateFields(input: DecisionInput, required: seq<string>, c: Candidate)
    ensures var s := Gate(input, required, c);
            && s.candidate == c && s.trace.id == c.id && !s.trace.selected
            && s.trace.rejected == !s.trace.eligible
            && s.trace.modelMatch == Matches(input, c)
            && (s.trace.eligible ==> s.trace.preferenceScore == Score(input, c)
                                     && s.trace.taskStrength == Strength(input.action, c.capabilities))
  {
    hide Text.Normalize, Strength, ModelMatches;
  }

  lemma {:induction false} EligibleAre(states: seq<State>, c: Candidate)
    ensures c in EligibleCandidates(states) <==> exists s :: s in states && s.trace.eligible && s.candidate == c
  {
    if states != [] {
      var n := |states| - 1;
      EligibleAre(states[..n], c);
      assert states == states[..n] + [states[n]];
    }
  }

  ghost function Filter<T>(s: seq<T>, keep: T -> bool): seq<T> {
    if s == [] then []
    else
      var n := |s| - 1;
      Filter(s[..n], keep) + (if keep(s[n]) then [s[n]] else [])
  }

  function Eligible(s: State): bool {
    s.trace.eligible
  }

  function CandidateOf(s: State): Candidate {
    s.candidate
  }

  lemma {:induction false} EligibleIsFilter(states: seq<State>)
    ensures EligibleCandidates(states) == MapSeq(CandidateOf, Filter(states, Eligible))
  {
    if states != [] {
      EligibleIsFilter(states[..|states| - 1]);
    }
  }

  lemma {:induction false} FilterCounts<T>(s: seq<T>, keep: T -> bool, x: T)
    ensures multiset(Filter(s, keep))[x] == if keep(x) then multiset(s)[x] else 0
  {
    if s != [] {
      var n := |s| - 1;
      FilterCounts(s[..n], keep, x);
      assert s == s[..n] + [s[n]];
    }
  }

  lemma FilterPermutation<T(!new)>(s: seq<T>, t: seq<T>, keep: T -> bool)
    requires multiset(s) == multiset(t)
    ensures multiset(Filter(s, keep)) == multiset(Filter(t, keep))
  {
    forall x ensures multiset(Filter(s, keep))[x] == multiset(Filter(t, keep))[x] {
      FilterCounts(s, keep, x);
      FilterCounts(t, keep, x);
    }
  }

  lemma {:induction false} EligibleOfStates(input: DecisionInput, states: seq<State>, candidates: seq<Candidate>)
    requires |states| == |candidates|
    requires forall k :: 0 <= k < |states| ==> states[k].candidate == candidates[k] && StateFits(input, states[k])
    ensures EligibleCandidates(states) == Filter(candidates, (c: Candidate) => Chosen(input, c))
  {
    if states != [] {
      var n := |states| - 1;
      EligibleOfStates(input, states[..n], candidates[..n]);
      assert StateFits(input, states[n]);
    }
  }

  lemma EligibleOrder(input: DecisionInput, s: State, t: State)
    requires StateFits(input, s) && StateFits(input, t) && s.trace.eligible && t.trace.eligible
    ensures Before(s, t) <==> Better(input, s.candidate, t.candidate)
  {
    hide Chosen, Matches, Strength, Score, Text.LexLess;
  }

  lemma {:induction false} EligibleSorted(input: DecisionInput, states: seq<State>)
    requires SortedBy(states, Before)
    requires forall s :: s in states ==> StateFits(input, s)
    ensures forall i, j :: 0 <= i < j < |EligibleCandidates(states)| ==>
              !Better(input, EligibleCandidates(states)[j], EligibleCandidates(states)[i])
  {
    hide Chosen, Matches, Strength, Score, Before, Better;
    if states != [] {
      var n := |states| - 1;
      var last := states[n];
      assert states == states[..n] + [last];
      EligibleSorted(input, states[..n]);
      if last.trace.eligible {
        forall c | c in EligibleCandidates(states[..n]) ensures !Better(input, last.candidate, c) {
          EligibleAre(states[..n], c);
          var s :| s in states[..n] && s.trace.eligible && s.candidate == c;
          var i :| 0 <= i < n && states[i] == s;
          assert !Before(states[n], states[i]);
          EligibleOrder(input, last, s);
        }
      }
    }
  }

  lemma {:induction false} TracesKeep(states: seq<State>)
    ensures forall k :: 0 <= k < |states| ==>
              Traces(states)[k] == states[k].trace.(selected := Traces(states)[k].selected)
  {
    if states != [] { TracesKeep(states[..|states| - 1]); }
  }

  /** The states behind a decision. */
  lemma RankedStates(input: DecisionInput, d: Decision) returns (required: seq<string>, ranking: seq<State>)
    requires IsDecision(input, d)
    ensures Ranks(input, required, ranking) && d == Assemble(input, required, ranking)
    ensures forall s :: s in ranking ==> StateFits(input, s)
    ensures |ranking| == |input.candidates|
    ensures multiset(MapSeq(CandidateOf, ranking)) == multiset(input.candidates)
  {
    required, ranking :| Ranks(input, required, ranking) && d == Assemble(input, required, ranking);
    var a := Affine(Gated(input, required));
    AffineFits(input, required);
    SameElements(a, ranking);
    MapPermutation(CandidateOf, a, ranking);
    assert MapSeq(CandidateOf, a) == input.candidates;
  }

  /**
   The decision in terms of the request: the ranked candidates are exactly the chosen ones, best first, and the
   selected one is their head; none is selected exactly when no candidate passes the gates.
   */
  lemma DecisionIsBest(input: DecisionInput, d: Decision)
    requires IsDecision(input, d)
    ensures multiset(d.ranked) == multiset(Filter(input.candidates, (c: Candidate) => Chosen(input, c)))
    ensures forall i, j :: 0 <= i < j < |d.ranked| ==> !Better(input, d.ranked[j], d.ranked[i])
    ensures d.selected == if d.ranked == [] then None else Some(d.ranked[0])
    ensures d.selected.None? <==> forall c :: c in input.candidates ==> !Passes(input, c)
  {
    var required, ranking := RankedStates(input, d);
    var a := Affine(Gated(input, required));
    AffineFits(input, required);
    EligibleSorted(input, ranking);
    EligibleOfStates(input, a, input.candidates);
    EligibleIsFilter(a);
    EligibleIsFilter(ranking);
    FilterPermutation(a, ranking, Eligible);
    MapPermutation(CandidateOf, Filter(a, Eligible), Filter(ranking, Eligible));
    ChosenUnlessNonePass(input, d.ranked);
  }

  /** Affinity never empties the set: someone is chosen as soon as someone passes. */
  lemma ChosenUnlessNonePass(input: DecisionInput, ranked: seq<Candidate>)
    requires multiset(ranked) == multiset(Filter(input.candidates, (c: Candidate) => Chosen(input, c)))
    ensures ranked == [] <==> forall c :: c in input.candidates ==> !Passes(input, c)
  {
    var keep := (c: Candidate) => Chosen(input, c);
    if c :| c in input.candidates && Passes(input, c) {
      var best := c;
      if !Chosen(input, c) {
        best :| best in input.candidates && Passes(input, best) && Matches(input, best);
      }
      FilterCounts(input.candidates, keep, best);
      assert best in multiset(ranked);
    }
    if ranked != [] {
      FilterCounts(input.candidates, keep, ranked[0]);
      assert ranked[0] in multiset(ranked);
      assert ranked[0] in multiset(input.candidates);
    }
  }

  /** The ranked candidates all match the requested model when any candidate that passes the gates does. */
  lemma RankedMatchTheModel(input: DecisionInput, d: Decision, match': Candidate, c: Candidate)
    requires IsDecision(input, d)
    requires match' in input.candidates && Passes(input, match') && Matches(input, match')
    requires c in d.ranked
    ensures Matches(input, c)
  {
    DecisionIsBest(input, d);
    FilterCounts(input.candidates, (c: Candidate) => Chosen(input, c), c);
    assert c in multiset(d.ranked);
  }

  /** What is selected is one of the candidates and passed every gate. */
  lemma SelectedPasses(input: DecisionInput, d: Decision)
    requires IsDecision(input, d) && d.selected.Some?
    ensures d.selected.value in input.candidates && Passes(input, d.selected.value)
  {
    hide IsDecision, Passes, Matches, Better, SomeMatch;
    DecisionIsBest(input, d);
    var c := d.ranked[0];
    FilterCounts(input.candidates, (c: Candidate) => Chosen(input, c), c);
    assert c in multiset(d.ranked);
    assert c in multiset(input.candidates);
  }

  function TraceId(t: CandidateTrace): string {
    t.id
  }

  function CandidateId(c: Candidate): string {
    c.id
  }

  lemma {:induction false} OneSelected(states: seq<State>)
    requires forall s :: s in states ==> !s.trace.selected
    ensures forall k :: 0 <= k < |states| ==>
              (Traces(states)[k].selected <==>
                 states[k].trace.eligible && forall j :: 0 <= j < k ==> !states[j].trace.eligible)
    ensures EligibleCandidates(states) == [] <==> forall k :: 0 <= k < |states| ==> !states[k].trace.eligible
    ensures forall k :: 0 <= k < |states| && Traces(states)[k].selected ==>
              EligibleCandidates(states) != [] && states[k].candidate == EligibleCandidates(states)[0]
  {
    if states != [] {
      var n := |states| - 1;
      assert states == states[..n] + [states[n]];
      OneSelected(states[..n]);
    }
  }

  lemma EntryFits(input: DecisionInput, d: Decision, required: seq<string>, ranking: seq<State>, k: nat)
    requires d == Assemble(input, required, ranking) && k < |ranking|
    requires forall s :: s in ranking ==> StateFits(input, s)
    ensures var t, c := d.trace[k], ranking[k].candidate;
            && t.id == c.id && t.rejected == !t.eligible && (t.eligible <==> Chosen(input, c))
            && (t.selected ==> t.eligible && d.selected == Some(c))
  {
    hide Chosen, Matches, Strength, Score;
    TracesKeep(ranking);
    OneSelected(ranking);
    assert StateFits(input, ranking[k]);
  }

  // ----- the ranking in words of the request

  predicate IsPreference(text: string) {
    text in {"auto", "prefer_local", "prefer_cloud", "local_only"}
  }

  /**
   The preference in effect: the task type's text if it is one, else the project's default if it is one, else auto.
   */
  function PreferenceText(project: Policy.ProjectConfig, action: Policy.ActionType): string {
    if action in project.taskTypes && IsPreference(Text.Normalize(project.taskTypes[action]))
    then Text.Normalize(project.taskTypes[action])
    else if IsPreference(Text.Normalize(project.routingDefault)) then Text.Normalize(project.routingDefault)
    else "auto"
  }

  /** The preference favours the candidate for its location. */
  ghost predicate Favoured(input: DecisionInput, c: Candidate) {
    || (PreferenceText(input.project, input.action) == "prefer_local" && c.location == Local)
    || (PreferenceText(input.project, input.action) == "prefer_cloud" && c.location == Remote)
  }

  function Named(preference: Preference): string {
    match preference
    case Auto => "auto"
    case PreferLocal => "prefer_local"
    case PreferCloud => "prefer_cloud"
    case OnlyLocal => "local_only"
  }

  lemma NormalizePreferenceInWords(value: string)
    ensures NormalizePreference(value).Some? <==> IsPreference(Text.Normalize(value))
    ensures NormalizePreference(value).Some? ==> Named(NormalizePreference(value).value) == Text.Normalize(value)
  {
    hide Text.Normalize;
  }

  lemma PreferenceInWords(project: Policy.ProjectConfig, action: Policy.ActionType)
    ensures Named(ResolvePreference(project, action).preference) == PreferenceText(project, action)
  {
    hide NormalizePreference, Text.Normalize, IsPreference;
    if action in project.taskTypes { NormalizePreferenceInWords(project.taskTypes[action]); }
    NormalizePreferenceInWords(project.routingDefault);
  }

  lemma NamesDiffer(p: Preference)
    ensures Named(p) == "prefer_local" <==> p == PreferLocal
    ensures Named(p) == "prefer_cloud" <==> p == PreferCloud
    ensures Named(p) == "local_only" <==> p == OnlyLocal
    ensures Named(p) == "auto" <==> p == Auto
  {}

  /** Among candidates that pass the gates, the score says whether the location is favoured. */
  lemma ScoreInWords(input: DecisionInput, x: Candidate, y: Candidate)
    requires Passes(input, x) && Passes(input, y)
    ensures Score(input, x) > Score(input, y) <==> Favoured(input, x) && !Favoured(input, y)
  {
    hide ResolvePreference, Text.Normalize, PreferenceText, Named;
    PreferenceInWords(input.project, input.action);
    NamesDiffer(ResolvePreference(input.project, input.action).preference);
  }

  ghost predicate Has(c: Candidate, capability: string) {
    exists k :: 0 <= k < |c.capabilities| && Text.Normalize(c.capabilities[k]) == capability
  }

  /** What a candidate's capabilities are worth for a kind of action. */
  ghost function Worth(action: Policy.ActionType, c: Candidate): nat {
    var coding := action.CodeDiagnosis? || action.CodeGeneration? || action.Refactor?;
    var thinking := coding || action.Review? || action.Architecture? || action.Explanation?;
    (if coding && Has(c, "tool_calling") then 3 else 0)
    + (if thinking && Has(c, "reasoning") then 2 else 0)
    + (if Has(c, "chat") then 1 else 0)
  }

  lemma HasIsAvailable(c: Candidate, capability: string)
    ensures Has(c, capability) <==> capability in Available(c.capabilities)
  {
    hide Text.Normalize;
  }

  /** What one capability adds to a sum over the keys. */
  function Part(weights: map<string, nat>, keys: set<string>, available: set<string>, k: string): nat
    requires keys <= weights.Keys
  {
    if k in keys && k in available then weights[k] else 0
  }

  lemma SumOver(weights: map<string, nat>, keys: set<string>, available: set<string>, k: string)
    requires keys <= weights.Keys
    ensures Sum(weights, keys * available)
         == Part(weights, keys, available, k) + Sum(weights, (keys - {k}) * available)
  {
    if k in keys && k in available {
      SumTakes(weights, keys * available, k);
      assert keys * available - {k} == (keys - {k}) * available;
    } else {
      assert keys * available == (keys - {k}) * available;
    }
  }

  lemma SumOfThree(weights: map<string, nat>, available: set<string>, a: string, b: string, c: string)
    requires weights.Keys <= {a, b, c} && a != b && b != c && a != c
    ensures Sum(weights, weights.Keys * available)
         == Part(weights, weights.Keys, available, a) + Part(weights, weights.Keys, available, b)
          + Part(weights, weights.Keys, available, c)
  {
    hide Sum;
    var keys := weights.Keys;
    SumOver(weights, keys, available, a);
    SumOver(weights, keys - {a}, available, b);
    SumOver(weights, keys - {a} - {b}, available, c);
    assert keys - {a} - {b} - {c} == {};
    EmptySum(weights, (keys - {a} - {b} - {c}) * available);
  }

  lemma EmptySum(weights: map<string, nat>, keys: set<string>)
    requires keys == {}
    ensures Sum(weights, keys) == 0
  {}

  lemma StrengthInWords(action: Policy.ActionType, c: Candidate)
    ensures Strength(action, c.capabilities) == Worth(action, c)
  {
    hide Text.Normalize, Has, Sum, Available;
    HasIsAvailable(c, "tool_calling");
    HasIsAvailable(c, "reasoning");
    HasIsAvailable(c, "chat");
    var weights := CapabilityWeights(action);
    WeightsInWords(action);
    SumOfThree(weights, Available(c.capabilities), "tool_calling", "reasoning", "chat");
  }

  lemma WeightsInWords(action: Policy.ActionType)
    ensures var weights := CapabilityWeights(action);
            var coding := action.CodeDiagnosis? || action.CodeGeneration? || action.Refactor?;
            var thinking := coding || action.Review? || action.Architecture? || action.Explanation?;
            && weights.Keys <= {"tool_calling", "reasoning", "chat"}
            && ("tool_calling" in weights <==> coding) && (coding ==> weights["tool_calling"] == 3)
            && ("reasoning" in weights <==> thinking) && (thinking ==> weights["reasoning"] == 2)
            && "chat" in weights && weights["chat"] == 1
  {}

  /** The candidate's default model or one of its pins is the model. */
  ghost predicate Offers(c: Candidate, model: string) {
    Text.Normalize(c.defaultModel) == model || exists pin :: pin in c.modelPins && Text.Normalize(pin) == model
  }

  lemma MatchesInWords(input: DecisionInput, c: Candidate)
    ensures Matches(input, c)
       <==> Text.Normalize(input.requestedModel) != "" && Offers(c, Text.Normalize(input.requestedModel))
  {
    hide Text.Normalize;
    var model := Text.Normalize(input.requestedModel);
    if pin :| pin in c.modelPins && Text.Normalize(pin) == model {
      var k :| 0 <= k < |c.modelPins| && c.modelPins[k] == pin;
      assert Text.Normalize(c.modelPins[k]) == model;
    }
  }

  lemma RankedAreChosen(input: DecisionInput, d: Decision, k: nat)
    requires IsDecision(input, d) && k < |d.ranked|
    ensures d.ranked[k] in input.candidates && Chosen(input, d.ranked[k])
  {
    hide IsDecision, Chosen, Better;
    DecisionIsBest(input, d);
    FilterCounts(input.candidates, (c: Candidate) => Chosen(input, c), d.ranked[k]);
    assert d.ranked[k] in multiset(d.ranked) && d.ranked[k] in multiset(input.candidates);
  }

  lemma RankedModelsAgree(input: DecisionInput, x: Candidate, y: Candidate)
    requires x in input.candidates && y in input.candidates && Chosen(input, x) && Chosen(input, y)
    ensures Matches(input, x) == Matches(input, y)
  {
    hide Passes, Matches;
  }

  /**
   The order of the ranked candidates, from the configured text, the locations, the capabilities and the IDs: a favoured
   location first, then what the capabilities are worth for the action, then the ID.
   */
  lemma RankingInWords(input: DecisionInput, d: Decision, i: nat, j: nat)
    requires IsDecision(input, d) && i < j < |d.ranked|
    ensures Favoured(input, d.ranked[j]) ==> Favoured(input, d.ranked[i])
    ensures Favoured(input, d.ranked[i]) == Favoured(input, d.ranked[j]) ==>
              Worth(input.action, d.ranked[i]) >= Worth(input.action, d.ranked[j])
    ensures Favoured(input, d.ranked[i]) == Favoured(input, d.ranked[j])
            && Worth(input.action, d.ranked[i]) == Worth(input.action, d.ranked[j]) ==>
              !Text.LexLess(d.ranked[j].id, d.ranked[i].id)
  {
    hide IsDecision, Favoured, Worth, Strength, Score, Matches, Passes, Text.LexLess;
    var x, y := d.ranked[i], d.ranked[j];
    RankedAreChosen(input, d, i);
    RankedAreChosen(input, d, j);
    assert !Better(input, y, x) by {
      hide Better;
      DecisionIsBest(input, d);
    }
    ScoreInWords(input, x, y);
    ScoreInWords(input, y, x);
    StrengthInWords(input.action, x);
    StrengthInWords(input.action, y);
    RankedModelsAgree(input, x, y);
  }

  /** A candidate of a favoured location is selected whenever one is chosen. */
  lemma FavouredIsSelected(input: DecisionInput, d: Decision, c: Candidate)
    requires IsDecision(input, d) && c in input.candidates && Chosen(input, c) && Favoured(input, c)
    ensures d.selected.Some? && Favoured(input, d.selected.value)
    ensures PreferenceText(input.project, input.action) == "prefer_local" ==> d.selected.value.location == Local
    ensures PreferenceText(input.project, input.action) == "prefer_cloud" ==> d.selected.value.location == Remote
  {
    ChosenIsRanked(input, d, c);
    hide IsDecision, Chosen, PreferenceText;
    var k :| 0 <= k < |d.ranked| && d.ranked[k] == c;
    if k > 0 { RankingInWords(input, d, 0, k); }
    assert d.selected == Some(d.ranked[0]) by {
      hide Favoured;
      DecisionIsBest(input, d);
    }
    DifferentWords();
  }

  lemma DifferentWords()
    ensures "prefer_local" != "prefer_cloud"
  {
    assert "prefer_local"[7] != "prefer_cloud"[7];
  }

  lemma ChosenIsRanked(input: DecisionInput, d: Decision, c: Candidate)
    requires IsDecision(input, d) && c in input.candidates && Chosen(input, c)
    ensures c in d.ranked
  {
    hide IsDecision, Chosen, Better;
    DecisionIsBest(input, d);
    FilterCounts(input.candidates, (c: Candidate) => Chosen(input, c), c);
    assert c in multiset(input.candidates) && c in multiset(d.ranked);
  }

  /** Under local_only every ranked candidate is local; under any other preference location excludes nobody. */
  lemma OnlyLocalInWords(input: DecisionInput, c: Candidate)
    ensures Passes(input, c) ==> PreferenceText(input.project, input.action) == "local_only" ==> c.location == Local
    ensures PreferenceText(input.project, input.action) != "local_only" && input.verdict != Policy.LocalOnly ==>
              (Passes(input, c) <==> Passes(input, c.(location := Local)))
  {
    hide ResolvePreference, Text.Normalize, PreferenceText, Named;
    PreferenceInWords(input.project, input.action);
    NamesDiffer(ResolvePreference(input.project, input.action).preference);
  }

  /** When a candidate that passes the gates offers the requested model, every ranked candidate offers it. */
  lemma RankedOfferTheModel(input: DecisionInput, d: Decision, c: Candidate, k: nat)
    requires IsDecision(input, d) && k < |d.ranked|
    requires Text.Normalize(input.requestedModel) != ""
    requires c in input.candidates && Passes(input, c) && Offers(c, Text.Normalize(input.requestedModel))
    ensures Offers(d.ranked[k], Text.Normalize(input.requestedModel))
  {
    hide IsDecision, Passes, Matches, Offers, Text.Normalize;
    MatchesInWords(input, c);
    MatchesInWords(input, d.ranked[k]);
    RankedMatchTheModel(input, d, c, d.ranked[k]);
  }

  // ----- why a candidate is rejected

  /** A required capability, normalized, that the candidate does not have. */
  ghost predicate Lacks(input: DecisionInput, c: Candidate, need: string) {
    && need != ""
    && (exists n :: n in input.requiredCapabilities && Text.Normalize(n) == need)
    && (forall have :: have in c.capabilities ==> Text.Normalize(have) != need)
  }

  /** The first gate that stops the candidate, or its model; said of the request. */
  ghost function WhyRejected(input: DecisionInput, c: Candidate): RejectReason {
    if input.verdict == Policy.Block then PolicyBlocked
    else if input.verdict == Policy.LocalOnly && c.location != Local then PolicyLocalOnly
    else if exists need :: Lacks(input, c, need) then MissingRequiredCapabilities
    else if ResolvePreference(input.project, input.action).preference == OnlyLocal && c.location != Local
    then RoutePreferenceLocalOnly
    else if SomeMatch(input) && !Matches(input, c) then RequestedModelMismatch
    else NotRejected
  }

  /** The reason is the first that applies, and what is missing is named exactly when that is the reason. */
  ghost predicate Explained(input: DecisionInput, c: Candidate, t: CandidateTrace) {
    && t.reason == WhyRejected(input, c)
    && (forall need ::
          need in t.missingCapabilities <==> t.reason == MissingRequiredCapabilities && Lacks(input, c, need))
    && SortedBy(t.missingCapabilities, Text.LexLess)
  }

  lemma {:induction false} MissingElements(required: seq<string>, available: set<string>)
    ensures forall need :: need in Missing(required, available) <==> need in required && need !in available
  {
    if required != [] {
      var n := |required| - 1;
      MissingElements(required[..n], available);
      assert required == required[..n] + [required[n]];
    }
  }

  lemma {:induction false} MissingSorted(required: seq<string>, available: set<string>)
    requires SortedBy(required, Text.LexLess)
    ensures SortedBy(Missing(required, available), Text.LexLess)
  {
    hide Text.LexLess;
    if required != [] {
      var n := |required| - 1;
      MissingSorted(required[..n], available);
      MissingElements(required[..n], available);
      var m := Missing(required[..n], available);
      forall k | 0 <= k < |m| ensures !Text.LexLess(required[n], m[k]) {
        assert m[k] in required[..n];
      }
    }
  }

  lemma MissingAreLacked(input: DecisionInput, required: seq<string>, c: Candidate)
    requires IsSort(Deduped(input.requiredCapabilities), required, Text.LexLess)
    ensures forall need :: need in Missing(required, Available(c.capabilities)) <==> Lacks(input, c, need)
  {
    hide Text.Normalize, Deduped, Text.LexLess;
    SameElements(Deduped(input.requiredCapabilities), required);
    MissingElements(required, Available(c.capabilities));
    forall need ensures need in required <==> need != "" && need in Available(input.requiredCapabilities) {
      DedupedElements(input.requiredCapabilities, need);
    }
  }

  lemma GateExplains(input: DecisionInput, required: seq<string>, c: Candidate)
    requires IsSort(Deduped(input.requiredCapabilities), required, Text.LexLess)
    ensures var t := Gate(input, required, c).trace;
            && (if t.eligible then t.reason == NotRejected && t.missingCapabilities == []
                else t.reason != NotRejected && Explained(input, c, t))
            && (t.eligible ==>
                  WhyRejected(input, c)
                  == if SomeMatch(input) && !Matches(input, c) then RequestedModelMismatch else NotRejected)
  {
    hide Text.Normalize, Strength, ModelMatches, Deduped, Lacks, SomeMatch, Matches, ResolvePreference, Text.LexLess;
    var missing := Missing(required, Available(c.capabilities));
    MissingAreLacked(input, required, c);
    MissingSorted(required, Available(c.capabilities));
    if missing != [] { assert missing[0] in missing; }
  }

  lemma SeenIsExplained(input: DecisionInput, required: seq<string>, c: Candidate)
    requires IsSort(Deduped(input.requiredCapabilities), required, Text.LexLess)
    ensures Explained(input, c, Seen(input, required, c).trace)
  {
    hide Gate, Deduped, WhyRejected, SomeMatch, Matches, Lacks, Text.LexLess;
    GateExplains(input, required, c);
    GateFields(input, required, c);
  }

  lemma RankedAreSeen(input: DecisionInput, required: seq<string>, ranking: seq<State>, s: State)
    requires Ranks(input, required, ranking) && s in ranking
    ensures s == Seen(input, required, s.candidate)
  {
    hide Gated, Affine, Deduped, Seen, Before;
    SeenAt(input, required);
    var a := Affine(Gated(input, required));
    SameElements(a, ranking);
    var k :| 0 <= k < |a| && a[k] == s;
    assert a[k] == Seen(input, required, input.candidates[k]);
  }

  lemma EntryIsExplained(input: DecisionInput, d: Decision, required: seq<string>, ranking: seq<State>, k: nat)
    requires Ranks(input, required, ranking) && d == Assemble(input, required, ranking) && k < |ranking|
    ensures Explained(input, ranking[k].candidate, d.trace[k])
  {
    hide Ranks, Seen, WhyRejected, Lacks, Text.LexLess, Deduped, ResolvePreference, EligibleCandidates;
    RankedAreSeen(input, required, ranking, ranking[k]);
    SeenIsExplained(input, required, ranking[k].candidate) by { RanksAreRequired(input, required, ranking); }
    TracesKeep(ranking);
  }

  lemma RanksAreRequired(input: DecisionInput, required: seq<string>, ranking: seq<State>)
    requires Ranks(input, required, ranking)
    ensures IsSort(Deduped(input.requiredCapabilities), required, Text.LexLess)
  {}

  /**
   The trace has one entry per candidate, eligible exactly when the candidate is chosen and rejected otherwise, with the
   first reason that applies and just what is missing; its selected entry, if any, is the selected candidate's.
   */
  lemma TraceIsComplete(input: DecisionInput, d: Decision)
    requires IsDecision(input, d)
    ensures multiset(MapSeq(TraceId, d.trace)) == multiset(MapSeq(CandidateId, input.candidates))
    ensures forall t :: t in d.trace ==>
              && t.rejected == !t.eligible
              && exists c :: c in input.candidates && c.id == t.id && (t.eligible <==> Chosen(input, c))
                             && (t.selected ==> t.eligible && d.selected == Some(c)) && Explained(input, c, t)
  {
    hide Chosen, StateFits, Ranks, IsDecision, Explained;
    var required, ranking := RankedStates(input, d);
    forall k | 0 <= k < |ranking|
      ensures var t, c := d.trace[k], ranking[k].candidate;
              && t.id == c.id && t.rejected == !t.eligible && (t.eligible <==> Chosen(input, c))
              && (t.selected ==> t.eligible && d.selected == Some(c)) && Explained(input, c, t)
    {
      EntryFits(input, d, required, ranking, k);
      EntryIsExplained(input, d, required, ranking, k);
    }
    var order := MapSeq(CandidateOf, ranking);
    MapPermutation(CandidateId, order, input.candidates);
    assert MapSeq(CandidateId, order) == MapSeq(TraceId, d.trace);
    SameElements(order, input.candidates);
    forall k | 0 <= k < |ranking| ensures ranking[k].candidate in input.candidates {
      assert order[k] in order;
    }
  }

  // ----- order independence

  ghost predicate SameRequest(a: DecisionInput, b: DecisionInput) {
    a == b.(candidates := a.candidates)
  }

  lemma RequiredIsUnique(a: DecisionInput, b: DecisionInput, r: seq<string>, r': seq<string>)
    requires SameRequest(a, b)
    requires IsSort(Deduped(a.requiredCapabilities), r, Text.LexLess)
    requires IsSort(Deduped(b.requiredCapabilities), r', Text.LexLess)
    ensures r == r'
  {
    var values := Deduped(a.requiredCapabilities);
    forall x, y | x in values && y in values && x != y ensures Text.LexLess(x, y) || Text.LexLess(y, x) {
      Text.LexConnected(x, y);
    }
    SortsAgree(values, values, r, r', Text.LexLess);
  }

  lemma GatedPermutes(a: DecisionInput, b: DecisionInput, required: seq<string>)
    requires SameRequest(a, b) && multiset(a.candidates) == multiset(b.candidates)
    ensures multiset(Gated(a, required)) == multiset(Gated(b, required))
  {
    MapPermutation((c: Candidate) => Gate(a, required, c), a.candidates, b.candidates);
    assert Gated(b, required) == MapSeq((c: Candidate) => Gate(a, required, c), b.candidates);
  }

  lemma HasMatchPermutes(s: seq<State>, t: seq<State>)
    requires multiset(s) == multiset(t)
    ensures HasMatch(s) ==> HasMatch(t)
  {
    SameElements(s, t);
    if HasMatch(s) {
      var k :| 0 <= k < |s| && s[k].trace.eligible && s[k].trace.modelMatch;
      assert s[k] in t;
      var j :| 0 <= j < |t| && t[j] == s[k];
    }
  }

  lemma AffinePermutes(s: seq<State>, t: seq<State>)
    requires multiset(s) == multiset(t)
    ensures multiset(Affine(s)) == multiset(Affine(t))
  {
    HasMatchPermutes(s, t);
    HasMatchPermutes(t, s);
    if HasMatch(s) { MapPermutation(Exclude, s, t); }
  }

  /**
   The router is deterministic: with distinct IDs, two runs over permutations of one candidate list give the same
   decision, selected candidate, ranking and trace alike, although the sort is unstable and the weights come in
   any order.
   */
  lemma DecideIsOrderIndependent(a: DecisionInput, b: DecisionInput, d: Decision, d': Decision)
    requires SameRequest(a, b) && multiset(a.candidates) == multiset(b.candidates)
    requires DistinctIds(a.candidates)
    requires IsDecision(a, d) && IsDecision(b, d')
    ensures d == d'
  {
    var required, ranking := RankedStates(a, d);
    var required', ranking' := RankedStates(b, d');
    RequiredIsUnique(a, b, required, required');
    GatedPermutes(a, b, required);
    var s, t := Affine(Gated(a, required)), Affine(Gated(b, required));
    AffinePermutes(Gated(a, required), Gated(b, required));
    AffineFits(a, required);
    BeforeSeparates(s);
    SortsAgree(s, t, ranking, ranking', Before);
  }

  // ----- when ties are harmless

  /** A candidate after the gates and affinity. */
  ghost function Seen(input: DecisionInput, required: seq<string>, c: Candidate): State {
    var s := Gate(input, required, c);
    if SomeMatch(input) then Exclude(s) else s
  }

  /** What a decision shows of a state: an eligible candidate whole, of any other its trace entry. */
  function Shown(s: State): State {
    if s.trace.eligible then s else State(Candidate(s.candidate.id, "", "", [], [], Remote), s.trace)
  }

  predicate Tied(s: State, t: State) {
    !Before(s, t) && !Before(t, s)
  }

  /**
   Candidates that tie on every level, ID included, are shown alike: the same candidate if chosen, the same entry if
   not.
   */
  ghost predicate TiesLookAlike(input: DecisionInput, required: seq<string>) {
    forall x, y :: x in input.candidates && y in input.candidates ==>
      Tied(Seen(input, required, x), Seen(input, required, y)) ==>
        Shown(Seen(input, required, x)) == Shown(Seen(input, required, y))
  }

  /** All permutations of the candidates, and all ways to sort them, give one decision. */
  ghost predicate OneDecision(input: DecisionInput) {
    forall other, d, d' ::
      SameRequest(input, other) && multiset(input.candidates) == multiset(other.candidates) && IsDecision(input, d)
      && IsDecision(other, d')
      ==> d == d'
  }

  lemma SeenAt(input: DecisionInput, required: seq<string>)
    requires IsSort(Deduped(input.requiredCapabilities), required, Text.LexLess)
    ensures Affine(Gated(input, required)) == MapSeq((c: Candidate) => Seen(input, required, c), input.candidates)
    ensures forall c :: Seen(input, required, c).candidate == c && Seen(input, required, c).trace.id == c.id
                        && !Seen(input, required, c).trace.selected
  {
    hide Gate, Deduped, SomeMatch, HasMatch;
    MatchIsKnown(input, required);
    forall c ensures Gate(input, required, c).candidate == c && Gate(input, required, c).trace.id == c.id
                     && !Gate(input, required, c).trace.selected
    {
      GateFields(input, required, c);
    }
    var f := (c: Candidate) => Seen(input, required, c);
    assert forall c :: f(c) == Seen(input, required, c);
    GatedAt(input, required);
  }

  /**
   Among chosen candidates a tie is one of the order of the request, and being shown alike is being the same candidate.
   */
  lemma ChosenTies(input: DecisionInput, required: seq<string>, x: Candidate, y: Candidate)
    requires IsSort(Deduped(input.requiredCapabilities), required, Text.LexLess)
    requires x in input.candidates && y in input.candidates && Chosen(input, x) && Chosen(input, y)
    ensures Tied(Seen(input, required, x), Seen(input, required, y)) <==> !Better(input, x, y) && !Better(input, y, x)
    ensures Shown(Seen(input, required, x)) == Shown(Seen(input, required, y)) <==> x == y
  {
    hide Chosen, Seen, Before, Better, Deduped;
    SeenFits(input, required, x);
    SeenFits(input, required, y);
    EligibleOrder(input, Seen(input, required, x), Seen(input, required, y));
    EligibleOrder(input, Seen(input, required, y), Seen(input, required, x));
  }

  lemma SeenFits(input: DecisionInput, required: seq<string>, c: Candidate)
    requires IsSort(Deduped(input.requiredCapabilities), required, Text.LexLess) && c in input.candidates
    ensures StateFits(input, Seen(input, required, c)) && Seen(input, required, c).candidate == c
  {
    hide Gate, Passes, Matches, Strength, Text.Normalize, Deduped, SomeMatch;
    MatchIsKnown(input, required);
    GatesDecide(input, required);
    GateFields(input, required, c);
    var k :| 0 <= k < |input.candidates| && input.candidates[k] == c;
    assert Gated(input, required)[k] == Gate(input, required, c);
  }

  lemma ShownKeepsOrder(s: State, t: State)
    ensures Before(Shown(s), Shown(t)) <==> Before(s, t)
    ensures Shown(s).trace == s.trace
  {
    hide Text.LexLess;
  }

  lemma {:induction false} ShownTraces(states: seq<State>)
    ensures EligibleCandidates(MapSeq(Shown, states)) == EligibleCandidates(states)
    ensures Traces(MapSeq(Shown, states)) == Traces(states)
  {
    if states != [] {
      var n := |states| - 1;
      ShownTraces(states[..n]);
      assert MapSeq(Shown, states)[..n] == MapSeq(Shown, states[..n]);
    }
  }

  /** A decision depends on what its ranking shows only. */
  lemma AssembleShown(input: DecisionInput, required: seq<string>, r: seq<State>, r': seq<State>)
    requires MapSeq(Shown, r) == MapSeq(Shown, r')
    ensures Assemble(input, required, r) == Assemble(input, required, r')
  {
    hide ResolvePreference, EligibleCandidates, Traces;
    ShownTraces(r);
    ShownTraces(r');
    SomeMatchShown(r, r');
    SomeMatchShown(r', r);
  }

  lemma SomeMatchShown(r: seq<State>, r': seq<State>)
    requires MapSeq(Shown, r) == MapSeq(Shown, r')
    ensures (exists s :: s in r && s.trace.modelMatch) ==> exists s :: s in r' && s.trace.modelMatch
  {
    if s :| s in r && s.trace.modelMatch {
      var k :| 0 <= k < |r| && r[k] == s;
      assert MapSeq(Shown, r)[k] == Shown(r[k]) && MapSeq(Shown, r')[k] == Shown(r'[k]);
      assert r'[k].trace.modelMatch && r'[k] in r';
    }
  }

  lemma ShownIsSorted(states: seq<State>)
    requires SortedBy(states, Before)
    ensures SortedBy(MapSeq(Shown, states), Before)
  {
    hide Before, Shown;
    forall s, t ensures Before(Shown(s), Shown(t)) <==> Before(s, t) { ShownKeepsOrder(s, t); }
  }

  lemma AlikeMeansSeparated(input: DecisionInput, required: seq<string>)
    requires IsSort(Deduped(input.requiredCapabilities), required, Text.LexLess)
    requires TiesLookAlike(input, required)
    ensures Separates(MapSeq(Shown, Affine(Gated(input, required))), Before)
  {
    hide Gated, Affine, Deduped, Before, Shown, Seen;
    SeenAt(input, required);
    var a := Affine(Gated(input, required));
    var v := MapSeq(Shown, a);
    forall x, y | x in v && y in v && x != y ensures Before(x, y) || Before(y, x) {
      var i :| 0 <= i < |v| && v[i] == x;
      var j :| 0 <= j < |v| && v[j] == y;
      assert a[i] == Seen(input, required, input.candidates[i]) && a[j] == Seen(input, required, input.candidates[j]);
      ShownKeepsOrder(a[i], a[j]);
      ShownKeepsOrder(a[j], a[i]);
    }
  }

  lemma AlikeMeansOneDecision(input: DecisionInput, required: seq<string>, other: DecisionInput, d: Decision,
                              d': Decision)
    requires IsSort(Deduped(input.requiredCapabilities), required, Text.LexLess) && TiesLookAlike(input, required)
    requires SameRequest(input, other) && multiset(input.candidates) == multiset(other.candidates)
    requires IsDecision(input, d) && IsDecision(other, d')
    ensures d == d'
  {
    hide Gated, Affine, Deduped, TiesLookAlike, Before, Assemble, Shown;
    var r, ranking :| Ranks(input, r, ranking) && d == Assemble(input, r, ranking);
    var r', ranking' :| Ranks(other, r', ranking') && d' == Assemble(other, r', ranking');
    RequiredIsUnique(input, other, required, r');
    RequiredIsUnique(input, input, required, r);
    GatedPermutes(input, other, required);
    var a, b := Affine(Gated(input, required)), Affine(Gated(other, required));
    AffinePermutes(Gated(input, required), Gated(other, required));
    MapPermutation(Shown, a, b);
    MapPermutation(Shown, a, ranking);
    MapPermutation(Shown, b, ranking');
    ShownIsSorted(ranking);
    ShownIsSorted(ranking');
    AlikeMeansSeparated(input, required);
    SortsAgree(MapSeq(Shown, a), MapSeq(Shown, b), MapSeq(Shown, ranking), MapSeq(Shown, ranking'), Before);
    AssembleShown(input, required, ranking, ranking');
    AssembleIgnoresCandidates(input, other, required, ranking');
  }

  lemma AssembleIgnoresCandidates(a: DecisionInput, b: DecisionInput, required: seq<string>, ranking: seq<State>)
    requires SameRequest(a, b)
    ensures Assemble(a, required, ranking) == Assemble(b, required, ranking)
  {
    hide ResolvePreference, EligibleCandidates, Traces;
  }

  // ----- and when they are not

  lemma {:induction false} EligiblePrefix(r: seq<State>, n: nat)
    requires n <= |r| && forall k :: 0 <= k < n ==> r[k].trace.eligible
    ensures |EligibleCandidates(r)| >= n
    ensures forall k :: 0 <= k < n ==> EligibleCandidates(r)[k] == r[k].candidate
  {
    if n > 0 {
      var m := |r| - 1;
      EligiblePrefix(r[..m], if n == |r| then n - 1 else n);
      if n == |r| {
        EligibleOnly(r[..m]);
      }
    }
  }

  lemma {:induction false} EligibleOnly(r: seq<State>)
    ensures |EligibleCandidates(r)| <= |r|
  {
    if r != [] { EligibleOnly(r[..|r| - 1]); }
  }

  /** Rankings that show different states in one place make different decisions. */
  lemma DifferentAt(input: DecisionInput, required: seq<string>, r: seq<State>, q: seq<State>, i: nat)
    requires SortedBy(r, Before) && SortedBy(q, Before) && i < |r| && i < |q|
    requires forall s :: s in r || s in q ==> !s.trace.selected
    requires Tied(r[i], q[i]) && Shown(r[i]) != Shown(q[i])
    ensures Assemble(input, required, r) != Assemble(input, required, q)
  {
    hide ResolvePreference, Traces, EligibleCandidates, SortedBy;
    if r[i].trace.eligible {
      assert q[i].trace.eligible;
      EligibleComeFirst(r, i);
      EligibleComeFirst(q, i);
      EligiblePrefix(r, i + 1);
      EligiblePrefix(q, i + 1);
      if r[i].candidate == q[i].candidate {
        OneSelected(r);
        OneSelected(q);
        TracesKeep(r);
        TracesKeep(q);
        assert r[i] in r && q[i] in q;
        assert Traces(r)[i] != Traces(q)[i];
      }
    } else {
      Text.LexConnected(r[i].candidate.id, q[i].candidate.id);
      assert r[i].candidate.id == q[i].candidate.id;
      OneSelected(r);
      OneSelected(q);
      TracesKeep(r);
      TracesKeep(q);
      assert r[i] in r && q[i] in q;
      assert Traces(r)[i] != Traces(q)[i];
    }
  }

  lemma EligibleComeFirst(r: seq<State>, i: nat)
    requires SortedBy(r, Before) && i < |r| && r[i].trace.eligible
    ensures forall k :: 0 <= k <= i ==> r[k].trace.eligible
  {
    forall k | 0 <= k < i ensures r[k].trace.eligible { assert !Before(r[i], r[k]); }
  }

  lemma SeenIsRanked(input: DecisionInput, required: seq<string>, r: seq<State>, c: Candidate) returns (i: nat)
    requires IsSort(Deduped(input.requiredCapabilities), required, Text.LexLess)
    requires multiset(r) == multiset(Affine(Gated(input, required))) && c in input.candidates
    ensures i < |r| && r[i] == Seen(input, required, c)
  {
    hide Gated, Affine, Deduped, Seen;
    SeenAt(input, required);
    var a := Affine(Gated(input, required));
    SameElements(a, r);
    var k :| 0 <= k < |a| && input.candidates[k] == c;
    assert a[k] in r;
    i :| 0 <= i < |r| && r[i] == a[k];
  }

  lemma NoneSelectedYet(input: DecisionInput, required: seq<string>, r: seq<State>)
    requires IsSort(Deduped(input.requiredCapabilities), required, Text.LexLess)
    requires multiset(r) == multiset(Affine(Gated(input, required)))
    ensures forall s :: s in r ==> !s.trace.selected
  {
    hide Gated, Affine, Deduped, Seen;
    SeenAt(input, required);
    var a := Affine(Gated(input, required));
    SameElements(a, r);
    forall s | s in r ensures !s.trace.selected {
      var k :| 0 <= k < |a| && a[k] == s;
      assert a[k] == Seen(input, required, input.candidates[k]);
    }
  }

  /** Two candidates that tie but are not shown alike give two decisions of the very same input. */
  lemma TwoDecisions(input: DecisionInput, required: seq<string>, x: Candidate, y: Candidate)
    returns (d: Decision, d': Decision)
    requires IsSort(Deduped(input.requiredCapabilities), required, Text.LexLess)
    requires x in input.candidates && y in input.candidates
    requires Tied(Seen(input, required, x), Seen(input, required, y))
    requires Shown(Seen(input, required, x)) != Shown(Seen(input, required, y))
    ensures IsDecision(input, d) && IsDecision(input, d') && d != d'
  {
    hide Gated, Affine, Deduped, Before, Seen, Shown, Assemble, SortedBy;
    BeforeIsWeakOrder();
    var r := SortExists(Affine(Gated(input, required)), Before);
    var i := SeenIsRanked(input, required, r, x);
    var j := SeenIsRanked(input, required, r, y);
    var lo, hi := Min(i, j), if i < j then j else i;
    assert lo < hi;
    SwapKeepsSorted(r, lo, hi, Before);
    var q := Swap(r, lo, hi);
    NoneSelectedYet(input, required, r);
    NoneSelectedYet(input, required, q);
    DifferentAt(input, required, r, q, lo);
    d, d' := Assemble(input, required, r), Assemble(input, required, q);
    assert Ranks(input, required, r) && Ranks(input, required, q);
  }

  /**
   The exact condition for a deterministic router, on every input: all permutations of the candidates and all sorts of
   them give one decision if and only if candidates that tie down to the ID are shown alike.
   */
  lemma OneDecisionIffTiesLookAlike(input: DecisionInput, required: seq<string>)
    requires IsSort(Deduped(input.requiredCapabilities), required, Text.LexLess)
    ensures OneDecision(input) <==> TiesLookAlike(input, required)
  {
    hide Deduped, IsDecision, Seen, Shown, Tied;
    if TiesLookAlike(input, required) {
      forall other, d, d' |
        SameRequest(input, other) && multiset(input.candidates) == multiset(other.candidates)
        && IsDecision(input, d) && IsDecision(other, d')
        ensures d == d'
      {
        AlikeMeansOneDecision(input, required, other, d, d');
      }
    } else {
      var x, y :| && x in input.candidates && y in input.candidates
                  && Tied(Seen(input, required, x), Seen(input, required, y))
                  && Shown(Seen(input, required, x)) != Shown(Seen(input, required, y));
      var d, d' := TwoDecisions(input, required, x, y);
      assert SameRequest(input, input);
    }
  }

  // ----- what may be selected

  /** Chosen, and no chosen candidate is better. */
  ghost predicate Best(input: DecisionInput, x: Candidate) {
    && x in input.candidates && Chosen(input, x)
    && forall c :: c in input.candidates && Chosen(input, c) ==> !Better(input, c, x)
  }

  lemma HeadIsSelected(input: DecisionInput, required: seq<string>, r: seq<State>)
    requires Ranks(input, required, r) && r != [] && r[0].trace.eligible
    ensures IsDecision(input, Assemble(input, required, r))
    ensures Assemble(input, required, r).selected == Some(r[0].candidate)
  {
    hide Ranks, Traces, ResolvePreference, EligibleCandidates;
    EligiblePrefix(r, 1);
  }

  /** A ranking with the best candidate at its head: whatever is there ties with it. */
  lemma BestLeadsSomeRanking(input: DecisionInput, required: seq<string>, x: Candidate) returns (q: seq<State>)
    requires IsSort(Deduped(input.requiredCapabilities), required, Text.LexLess) && Best(input, x)
    ensures Ranks(input, required, q) && q != [] && q[0] == Seen(input, required, x)
    ensures q[0].trace.eligible && q[0].candidate == x
  {
    hide Gated, Affine, Deduped, Before, Better, Seen, Chosen;
    BeforeIsWeakOrder();
    q := SortExists(Affine(Gated(input, required)), Before);
    var i := SeenIsRanked(input, required, q, x);
    SeenFits(input, required, x);
    if i > 0 {
      EligibleComeFirst(q, i);
      HeadIsSeen(input, required, q);
      var head := q[0].candidate;
      SeenFits(input, required, head);
      EligibleOrder(input, q[0], q[i]);
      assert !Before(q[i], q[0]);
      SwapKeepsSorted(q, 0, i, Before);
      q := Swap(q, 0, i);
    }
  }

  lemma HeadIsSeen(input: DecisionInput, required: seq<string>, q: seq<State>)
    requires IsSort(Deduped(input.requiredCapabilities), required, Text.LexLess)
    requires multiset(q) == multiset(Affine(Gated(input, required))) && q != []
    ensures q[0].candidate in input.candidates && q[0] == Seen(input, required, q[0].candidate)
  {
    hide Gated, Affine, Deduped, Seen;
    SeenAt(input, required);
    var a := Affine(Gated(input, required));
    SameElements(a, q);
    assert q[0] in a;
    var k :| 0 <= k < |a| && a[k] == q[0];
    assert a[k] == Seen(input, required, input.candidates[k]);
  }

  /** A candidate is selected by some decision if and only if it is a best one. */
  lemma SelectedIffBest(input: DecisionInput, required: seq<string>, x: Candidate)
    requires IsSort(Deduped(input.requiredCapabilities), required, Text.LexLess)
    ensures (exists d :: IsDecision(input, d) && d.selected == Some(x)) <==> Best(input, x)
  {
    hide Deduped, IsDecision, Ranks, Seen, Assemble, Best;
    if Best(input, x) {
      var q := BestLeadsSomeRanking(input, required, x);
      HeadIsSelected(input, required, q);
    }
    if d :| IsDecision(input, d) && d.selected == Some(x) {
      SelectedIsBest(input, d);
    }
  }

  lemma SelectedIsBest(input: DecisionInput, d: Decision)
    requires IsDecision(input, d) && d.selected.Some?
    ensures Best(input, d.selected.value)
  {
    hide IsDecision, Chosen, Better;
    DecisionIsBest(input, d);
    var keep := (c: Candidate) => Chosen(input, c);
    var x := d.ranked[0];
    FilterCounts(input.candidates, keep, x);
    assert x in multiset(d.ranked) && x in multiset(input.candidates);
    forall c | c in input.candidates && Chosen(input, c) ensures !Better(input, c, x) {
      FilterCounts(input.candidates, keep, c);
      assert c in multiset(input.candidates) && c in multiset(d.ranked);
      var k :| 0 <= k < |d.ranked| && d.ranked[k] == c;
      if k == 0 { BetterIsIrreflexive(input, x); }
    }
  }

  lemma BetterIsIrreflexive(input: DecisionInput, x: Candidate)
    ensures !Better(input, x, x)
  {
    hide Score, Matches, Strength, Text.LexLess;
    Text.LexIrreflexive(x.id);
  }

  /** Without distinct IDs the router is ambiguous: of two best candidates that share an ID, either may be selected. */
  lemma SharedIdsAreAmbiguous(input: DecisionInput, required: seq<string>, x: Candidate, y: Candidate)
    returns (d: Decision, d': Decision)
    requires IsSort(Deduped(input.requiredCapabilities), required, Text.LexLess)
    requires x != y && Best(input, x) && Best(input, y)
    ensures IsDecision(input, d) && d.selected == Some(x)
    ensures IsDecision(input, d') && d'.selected == Some(y)
    ensures x.id == y.id
  {
    hide Deduped, IsDecision, Best;
    SelectedIffBest(input, required, x);
    SelectedIffBest(input, required, y);
    d :| IsDecision(input, d) && d.selected == Some(x);
    d' :| IsDecision(input, d') && d'.selected == Some(y);
    BestShareAnId(input, x, y);
  }

  lemma BestShareAnId(input: DecisionInput, x: Candidate, y: Candidate)
    requires Best(input, x) && Best(input, y)
    ensures x.id == y.id
  {
    hide Chosen, Score, Matches, Strength, Text.LexLess;
    Text.LexConnected(x.id, y.id);
  }

  const FIRST_TWIN := Candidate("twin", "http://one", "m", [], [], Local)
  const SECOND_TWIN := Candidate("twin", "http://two", "m", [], [], Local)
  const TWINS := DecisionInput("", [], Policy.GeneralQA, Policy.ProjectConfig("p", "", "", map[]), Policy.Allow,
                               [FIRST_TWIN, SECOND_TWIN])

  lemma BlankIsNoPreference()
    ensures NormalizePreference("") == None
  {
    assert Text.Normalize("") == "";
  }

  lemma NothingPreferred(project: Policy.ProjectConfig, action: Policy.ActionType)
    requires project.routingDefault == "" && action !in project.taskTypes
    ensures ResolvePreference(project, action) == ResolvedPreference(Auto, FromDefault)
  {
    hide NormalizePreference;
    BlankIsNoPreference();
  }

  lemma NoModelNoMatch(input: DecisionInput, c: Candidate)
    requires input.requestedModel == ""
    ensures !Matches(input, c)
  {
    assert Text.Normalize("") == "";
  }

  /** A request that asks for nothing in particular leaves every candidate in. */
  lemma PlainRequestTakesAll(input: DecisionInput, c: Candidate)
    requires input.requestedModel == "" && input.requiredCapabilities == [] && input.verdict == Policy.Allow
    requires input.project.routingDefault == "" && input.action !in input.project.taskTypes
    ensures Chosen(input, c)
  {
    hide ResolvePreference, Text.Normalize, Matches;
    NothingPreferred(input.project, input.action);
    assert Passes(input, c);
    hide Passes;
    forall other ensures !Matches(input, other) { NoModelNoMatch(input, other); }
  }

  lemma EndpointsAreNotCompared(input: DecisionInput, c: Candidate, endpoint: string)
    ensures !Better(input, c, c.(endpoint := endpoint)) && !Better(input, c.(endpoint := endpoint), c)
  {
    hide ResolvePreference, Strength, Text.Normalize, Text.LexLess;
    Text.LexIrreflexive(c.id);
  }

  lemma TwinsAreBest()
    ensures Best(TWINS, FIRST_TWIN) && Best(TWINS, SECOND_TWIN)
  {
    hide Chosen, Better;
    PlainRequestTakesAll(TWINS, FIRST_TWIN);
    PlainRequestTakesAll(TWINS, SECOND_TWIN);
    EndpointsAreNotCompared(TWINS, FIRST_TWIN, SECOND_TWIN.endpoint);
    BetterIsIrreflexive(TWINS, FIRST_TWIN);
    BetterIsIrreflexive(TWINS, SECOND_TWIN);
    assert TWINS.candidates == [FIRST_TWIN, SECOND_TWIN];
  }

  /** Two endpoints under one ID: either may be selected. */
  lemma TwinsAreAmbiguous() returns (d: Decision, d': Decision)
    ensures IsDecision(TWINS, d) && d.selected == Some(FIRST_TWIN)
    ensures IsDecision(TWINS, d') && d'.selected == Some(SECOND_TWIN)
    ensures !OneDecision(TWINS)
  {
    hide IsDecision, Best, Text.LexLess;
    TwinsAreBest();
    assert IsSort(Deduped([]), [], Text.LexLess);
    d, d' := SharedIdsAreAmbiguous(TWINS, [], FIRST_TWIN, SECOND_TWIN);
    assert SameRequest(TWINS, TWINS);
  }
}
