# A model of Rillan in Dafny

Rillan is a local proxy for chat completions. A request is scanned for secrets, evaluated against a policy, routed to
one of several providers, enriched from a local index, scanned and evaluated once more, sent, and put on an audit
ledger. This project models those parts and the small state machines around them, and proves what they promise.

`dafny verify dfyconfig.toml` checks everything.

## How the model is laid out

One module per source file or component; each says in its header what it stands for.

| module | stands for |
|---|---|
| `Wrappers`, `Text`, `Ordering` | options and results, ASCII text, and a sort that is any sorted permutation (Go's `sort.Slice` is unstable) |
| `Scanner`, `Policy` | `internal/policy`: the redaction scanner and the evaluator |
| `Routing` | `internal/routing/decision.go` |
| `Chat`, `ChatHandler`, `ChatScenarios` | the chat endpoint of `internal/httpapi` as one run from request to audit event, and two families of runs one might not expect |
| `Retrieval`, `ContextCompiler`, `Fusion`, `DebugSummary` | `internal/retrieval/pipeline.go` |
| `IndexTypes`, `Vectors`, `VectorSearch`, `Chunker`, `Discovery`, `IndexStore`, `Indexer` | `internal/index` |
| `RuntimeManager` | `internal/app/runtime_manager.go`, any interleaving of its lock and atomic steps |
| `SkillIds`, `SkillCatalog`, `SkillMetrics`, `ApprovalGate` | `internal/agent` |

Functions and state that the source updates in place are classes and methods here, each proved against a
specification function or predicate (`Select`, `Rewrite`, `IsScan`, `IsDecision`, `IsFusion`, `IsCompiled`, `RunFits`,
`Step`, `Next`, `Apply`, ...); the lemmas then say what that specification promises. The methods that return such a
result exist for every input, so the lemmas about `IsScan`, `IsDecision`, `IsFusion` or `RunFits` are never about nothing.

What the world decides is arbitrary: match spans (any that are in range), the classifier, search
results, the JSON codec, the provider's response, the order in which maps are ranged over, what an unstable sort does
with ties, faults at any database statement, and a stop before any file step. SHA-256 is any function; it is taken to be
collision-free only in `Indexer.ChunkIdsNeverCollide`.

## Where the code is not what one might expect

Each of these is a lemma, and the general statement is proved with its exact condition.

- A redaction is skipped when the verdict is local-only and redaction would empty the body
  (`internal/policy/evaluator.go:64`, `:76`, `:88` ask for a non-empty redacted body); the body sent is the redacted one
  if and only if that is not so (`ChatHandler.SentBodyIsRedacted`; in `ChatScenarios.EveryRunSkipsRedaction` it is
  skipped in every run, and `ChatScenarios.RedactionCanBeSkipped` runs the handler there). Rules with non-empty replacements, as the defaults are, never get
  there (`ChatHandler.NonEmptyReplacementsSuffice`).
- The retrieval caps apply to requests that preflight allows. A redacted request carries no plan, so a remote provider
  gets as much context as the settings ask for. `ChatHandler.InForceIsMinimum` says for every request when the caps
  hold, and `ChatHandler.SentContextIsCappedIff` says it of runs. In every run of `ChatScenarios.RedactedRequestIsNotCapped`
  any list of results goes whole, and `ChatScenarios.CapsCanBeExceeded` runs the handler past both caps.
- The caps are written through the request's options pointer, so they are seen by every holder of the request
  (`Retrieval.ApplyRetrievalPlan`).
- A trade secret stays local by the classifier or by the project, whether or not the system rule is set, although
  `docs/command-native-setup.md:248` leaves it to system policy. The rule only changes the reason that is recorded (`Policy.Evaluate`).
- The local-only gate after egress evaluation can never deny: a local route was found before
  (`ChatHandler.LocalRouteWasFound`).
- Two candidates with one ID can make the decision ambiguous (`Routing.TwinsAreAmbiguous` has two endpoints under one ID).
  The exact condition, for every input: all permutations and all sorts give one decision if and only if candidates that
  tie on every level, ID included, are shown alike (`Routing.OneDecisionIffTiesLookAlike`); and what may be selected is
  exactly what no chosen candidate is better than (`Routing.SelectedIffBest`).
- The status names another root than the data's when the success record of the last commit was lost
  (`Indexer.StatusNamesTheData`, an equivalence, with the history `Indexer.StatusCanNameAnotherRoot`).
- A stop between truncating and rewriting the skill catalog leaves it unreadable: every skill is still backed by its file, but
  every later install and removal fails and changes nothing (`SkillCatalog.InstallIsSafeAtEveryStep` says at which step).
- The stored average latency drifts down by up to (n - 1) / 2 from the true mean, and this bound is reached
  (`SkillMetrics.DriftIsAttained`).
- Cutting a source reference to a length from 10 up to its reserved size panics; the default of 80 is safe
  (`DebugSummary.ShortBoundsPanic`, `DebugSummary.DefaultNeverPanics`).

## Model

| member | source | states |
|---|---|---|
| Scanner.RedactionScanner.Scan | internal/policy/scanner.go:74-141 | the result is the one that any collection order and any sort of the matches would lead to |
| Scanner.RedactionScanner.Collect | internal/policy/scanner.go:78-99 | the matches of all rules, rule by rule, each with its rule's index |
| Scanner.RedactionScanner.SelectMatches | internal/policy/scanner.go:111-119 | the greedy loop computes `Select`, which the lemmas below characterise |
| Scanner.RedactionScanner.Splice | internal/policy/scanner.go:121-125 | splicing from right to left in place gives what one left-to-right pass writes |
| Scanner.RedactionScanner.Report | internal/policy/scanner.go:127-140 | the findings are those of the selected matches in order, and the flag is set exactly when one of them blocks |
| Scanner.KeptIffUncovered | internal/policy/scanner.go:111-119 | a match is kept if and only if its start lies in no kept match that precedes it |
| Scanner.KeptAreApart | internal/policy/scanner.go:111-119 | two kept matches never share a byte |
| Scanner.DroppedIsCovered | internal/policy/scanner.go:111-119 | every discarded match starts inside an earlier kept one |
| Scanner.SelectDisjoint | internal/policy/scanner.go:101-119 | kept spans are sorted and pairwise disjoint |
| Scanner.KeptIsLongest | internal/policy/scanner.go:101-109 | a kept non-empty match is the longest at its start, ties going to the lower rule |
| Scanner.SpliceStep | internal/policy/scanner.go:121-125 | one splice at the first span, after the later ones are done, finishes the rewrite of the text |
| Scanner.RewriteLength | internal/policy/scanner.go:121-125 | the redacted length is the original's plus, for each span, replacement minus span |
| Scanner.OutsideSurvives | internal/policy/scanner.go:121-125 | every byte outside the kept spans is in the redacted body, at a position fixed by the spans before it |
| Scanner.ReplacementsStand | internal/policy/scanner.go:121-125 | every kept span is replaced by its own replacement, at a position fixed by the spans before it |
| Scanner.ShiftGrows | internal/policy/scanner.go:121-125 | surviving bytes keep their order |
| Scanner.CollectionOrderIrrelevant | internal/policy/scanner.go:101-109 | any collection order and any sort of it leads to the same outcome |
| Scanner.ScanExists | internal/policy/scanner.go:74-141 | every body has a scan result |
| Scanner.ScanIsDetermined | internal/policy/scanner.go:74-141 | a body has one scan result |
| Scanner.ScanShape | internal/policy/scanner.go:111-140 | findings are disjoint and sorted, the body is their rewrite, the flag says whether one blocks |
| Scanner.EveryHitIsAnswered | internal/policy/scanner.go:78-119 | every match of every rule is reported or starts inside a reported span |
| Scanner.ReportedIsLongest | internal/policy/scanner.go:101-119 | no rule has a longer match at the start of a reported span |
| Scanner.FindingsInWords | internal/policy/scanner.go:78-95 | every finding is a span of some rule's pattern with that rule's ID, category, action and replacement |
| Scanner.RedactedBodyNonEmpty | internal/policy/scanner.go:121-125 | with non-empty replacements a body with findings is never redacted to nothing |
| Policy.Evaluate | internal/policy/evaluator.go:20-116 | verdict, reason, route source, plan, body and request by cause; fails exactly when a replaced body cannot be decoded |
| Policy.MergedInWords | internal/policy/types.go:144-165 | a merged policy has the system file's rule and who said so, and the remote caps 2 and 1200 |
| Policy.RuntimeInWords | internal/policy/evaluator.go:21-24 | without a runtime policy the project stands, without any system rule |
| Routing.Decide | internal/routing/decision.go:28-107 | gives a decision of the specification, whatever the unstable sort does with ties |
| Routing.ApplyModelAffinity | internal/routing/decision.go:142-167 | excludes the eligible candidates of other models exactly when an eligible one matches |
| Routing.TaskStrength | internal/routing/decision.go:230-248 | the sum of the weights of the capabilities the candidate has, whatever order the map is ranged over |
| Routing.SumTakes | internal/routing/decision.go:237-247 | a sum over a set of keys may be taken from any key |
| Routing.MissingCapabilities | internal/routing/decision.go:314-332 | the required capabilities that are not available, in order |
| Routing.NormalizeCapabilities | internal/routing/decision.go:293-312 | the sorted distinct normalized capabilities, blanks left out |
| Routing.GateDecides | internal/routing/decision.go:35-78 | a candidate is eligible if and only if it passes policy, capabilities and preference |
| Routing.DecisionIsBest | internal/routing/decision.go:28-107 | the ranked candidates are exactly the chosen ones, best first; the selected one is their head; none is selected if and only if none passes the gates |
| Routing.ChosenUnlessNonePass | internal/routing/decision.go:142-167 | affinity never empties the set of eligible candidates |
| Routing.RankedMatchTheModel | internal/routing/decision.go:142-182 | every ranked candidate matches the requested model as soon as one that passes the gates does |
| Routing.RankedOfferTheModel | internal/routing/decision.go:142-182 | when a candidate that passes the gates has the requested model as default or pin, every ranked one has |
| Routing.SelectedPasses | internal/routing/decision.go:196-206 | the selected candidate is one of the input, passed every gate, and is local under a local-only verdict |
| Routing.TraceIsComplete | internal/routing/decision.go:35-105 | one trace entry per candidate, eligible if and only if chosen, rejected otherwise with the first reason that applies and exactly what is missing, the selected entry being the selected candidate's |
| Routing.OneSelected | internal/routing/decision.go:84-105 | only the first eligible entry is marked as selected |
| Routing.EligibleSorted | internal/routing/decision.go:114-140 | eligible candidates come sorted by preference, model match, task strength and ID |
| Routing.RankingInWords | internal/routing/decision.go:28-140 | the ranked candidates from the configured text, the locations, the capabilities and the IDs: favoured location first, then what the capabilities are worth for the action, then the ID |
| Routing.FavouredIsSelected | internal/routing/decision.go:208-228 | under prefer_local a local candidate is selected whenever one is chosen, and under prefer_cloud a remote one |
| Routing.OnlyLocalInWords | internal/routing/decision.go:208-228 | under local_only only local candidates pass, and under any other preference location excludes nobody |
| Routing.PreferenceInWords | internal/routing/decision.go:14-26 | the task type's text decides if it is a preference, else the project's default, else auto |
| Routing.StrengthInWords | internal/routing/decision.go:230-261 | tool calling counts 3 for coding, reasoning 2 for coding and thinking, chat 1 for everything |
| Routing.BeforeSeparates | internal/routing/decision.go:114-140 | with distinct IDs the five-level comparison orders any two states |
| Routing.DecideIsOrderIndependent | internal/routing/decision.go:28-167 | with distinct IDs, permuting the candidates changes neither selection, ranking nor trace |
| Routing.OneDecisionIffTiesLookAlike | internal/routing/decision.go:28-140 | for every input, all permutations and sorts give one decision if and only if tied candidates are shown alike |
| Routing.ChosenTies | internal/routing/decision.go:114-140 | among chosen candidates, tied means neither is better, and shown alike means the same candidate |
| Routing.TwoDecisions | internal/routing/decision.go:82-106 | swapping two tied candidates that are not shown alike gives another decision of the same input |
| Routing.SelectedIffBest | internal/routing/decision.go:82-106 | a candidate may be selected if and only if it is chosen and no chosen one is better |
| Routing.SharedIdsAreAmbiguous | internal/routing/decision.go:114-140 | of two different best candidates, in a list of any length, either may be selected, and they share an ID |
| Routing.TwinsAreAmbiguous | internal/routing/decision.go:114-140 | two endpoints under one literal ID give two different selections |
| ChatHandler.Handler.ServeHTTP | internal/httpapi/chat_completions_handler.go:208-444 | every run is a rejection, a denial or a call with all that led to it: which stages the received request passed, with what verdict, route, settings and context; ledger and calls grow by just its event and call |
| ChatHandler.Handler.Receive | internal/httpapi/chat_completions_handler.go:209-242 | the request behind the project's prompt and its encoding, or the status of the first check that fails |
| ChatHandler.Handler.EvaluatePhase | internal/httpapi/chat_completions_handler.go:247-262 | an evaluation of the scan of the very body it is given; preflight gives the default caps to clean requests only |
| ChatHandler.Handler.PrepareOutbound | internal/httpapi/chat_completions_handler.go:304-323 | a context is compiled exactly when retrieval is on, under the settings in force, and only put in front; it fails only when the settings or the preparation under them do |
| ChatHandler.Handler.Forward | internal/httpapi/chat_completions_handler.go:304-444 | a routed request leads to a preparation error, an egress rejection or denial of what it became, or a call along its route |
| ChatHandler.Handler.Send | internal/httpapi/chat_completions_handler.go:342-444 | the second evaluation, of the outbound request it is given, rejects, denies or lets it go, and only then is a provider called |
| ChatHandler.Handler.Dispatch | internal/httpapi/chat_completions_handler.go:402-443 | one call and one egress event with the hash of what was sent and what became of it |
| ChatHandler.AvailableRouteCandidates | internal/httpapi/chat_completions_handler.go:507-539 | the available candidates the host has, from the status table or else the catalog, in order |
| ChatHandler.ResolveRoute | internal/httpapi/chat_completions_handler.go:471-505 | a found route is the router's selection and the host has it; a failure has its cause |
| ChatHandler.CandidatesInWords | internal/httpapi/chat_completions_handler.go:507-539 | who may be routed to: the available hosted candidates of the status table, or the hosted ones of the catalog |
| ChatHandler.RouteInputInWords | internal/httpapi/chat_completions_handler.go:479-490 | the router is asked with the classifier's action, or general questions where there is none |
| ChatHandler.CallsGoWhereTheRouteLeads | internal/httpapi/chat_completions_handler.go:471-505 | a call goes to a provider the host gives, of a candidate that may be routed to and passes the gates, or without a host to the runtime's own |
| ChatHandler.RouteRespectsVerdict | internal/httpapi/chat_completions_handler.go:471-505 | a route found under a local-only verdict is local |
| ChatHandler.LocalRouteWasFound | internal/httpapi/chat_completions_handler.go:386-400 | the second local-only gate cannot fire |
| ChatHandler.NothingBlockingIsSent | internal/httpapi/chat_completions_handler.go:342-443 | no finding in a body that is sent is a blocking one |
| ChatHandler.SecretsStayLocal | internal/httpapi/chat_completions_handler.go:244-443 | a trade secret of the classifier or the project only goes to a local candidate |
| ChatHandler.SentBodyIsRedacted | internal/policy/evaluator.go:50-100 | the body sent is the redacted one if and only if redaction was not skipped |
| ChatHandler.NonEmptyReplacementsSuffice | internal/httpapi/chat_completions_handler.go:342-413 | with non-empty replacements the redacted body is what is sent and what is hashed |
| ChatScenarios.ErasedSecretsAreSent | internal/policy/evaluator.go:60-95 | where a trade secret's whole body is to be erased, every call sends every non-empty body as it is, to a local candidate |
| ChatScenarios.EveryRunSkipsRedaction | internal/policy/evaluator.go:84-95 | with one local provider and a secret project, every run of every received request with a non-empty encoding sends that encoding unredacted |
| ChatScenarios.RedactionCanBeSkipped | internal/httpapi/chat_completions_handler.go:208-444 | the handler, run there, makes that call |
| ChatHandler.SentContextIsCapped | internal/httpapi/chat_completions_handler.go:304-323 | the context sent is within the requested settings, and within 2 sources and 1200 bytes for an allowed request that goes out remotely |
| ChatHandler.InForceIsMinimum | internal/httpapi/chat_completions_handler.go:304-317 | the settings in force are the minimum with the caps if and only if an allowed request goes out remotely with retrieval on, or they are within the caps anyway |
| ChatHandler.SentContextIsCappedIff | internal/httpapi/chat_completions_handler.go:304-323 | in every remote run with a context, it is compiled under the settings in force; these are the minimum with the caps if and only if preflight allowed the request or the settings are within the caps, and without that verdict they are the settings asked for |
| ChatScenarios.RedactedRequestIsNotCapped | internal/policy/evaluator.go:97-113 | every run of a redacted request that asks for all of any list of results, for any codec that accepts its texts, is a remote call with all of them, uncut |
| ChatScenarios.CapsCanBeExceeded | internal/httpapi/chat_completions_handler.go:208-444 | the handler, run on such a request with three long results, sends more than 2 sources and 1200 bytes |
| ChatHandler.OnlyContextIsAdded | internal/httpapi/chat_completions_handler.go:217-323 | what is evaluated for egress, whether sent, denied or rejected, is the received conversation behind at most one system message, which contains the compiled text |
| ChatHandler.LedgerAccountsForCalls | internal/httpapi/chat_completions_handler.go:402-443 | over any sequence of requests the egress events are the calls made, one for one, with the hashes of the bodies sent |
| ChatHandler.RunAddsOne | internal/httpapi/chat_completions_handler.go:402-443 | one run keeps the ledger and the calls in step |
| ChatHandler.EventsCarryTheirHash | internal/audit/types.go:41-47 | every egress and deny event carries the hash of the body it is about, and nothing for an empty one |
| ChatHandler.LedgerTellsBodies | internal/httpapi/chat_completions_handler.go:402-443 | over any sequence of requests, with a hash that tells texts apart, two egress events have one hash if and only if the two calls sent one body |
| ChatHandler.CallsTellTheirOutcome | internal/httpapi/chat_completions_handler.go:414-443 | the egress event has the response's status and says whether the call or the copy failed |
| Retrieval.ApplyRetrievalPlan | internal/httpapi/chat_completions_handler.go:654-681 | afterwards the settings resolve to the capped ones; shared options are written in place, new ones only where there were none |
| Retrieval.ResolvedInWords | internal/retrieval/pipeline.go:229-254 | an override wins where it is set, the default stands where it is not, and bounds below one are refused |
| Retrieval.CappedIsMinimum | internal/httpapi/chat_completions_handler.go:654-681 | under any plan or none, capped settings are the component-wise minimum if and only if the plan applies and retrieval is on, or nothing exceeds the caps |
| Retrieval.Search | internal/retrieval/pipeline.go:119-160 | which searches make the result, and exactly when a failed embedding is an error |
| Retrieval.SearchLosesNothing | internal/retrieval/pipeline.go:133-160 | where top-k leaves room, nothing either search found is lost |
| Retrieval.Prepare | internal/retrieval/pipeline.go:102-170 | the context is compiled from the search results under the resolved settings and becomes a first system message; the options go |
| Retrieval.ContextTextHoldsTheContext | internal/retrieval/pipeline.go:164-169 | the message put in front holds the compiled text between its instructions and its closing tag |
| Retrieval.PreparedIsBounded | internal/retrieval/pipeline.go:102-170 | a context has at most top-k sources and at most the set number of bytes |
| ContextCompiler.CompileContext | internal/retrieval/pipeline.go:280-333 | sources are a prefix of the results; a section is whole if it fits the remaining budget, else cut to exactly the room left; the flag says that something was cut or dropped |
| ContextCompiler.TrimCuts | internal/retrieval/pipeline.go:357-375 | called where the whole section does not fit, it never returns it uncut: it keeps the content that fits before the marker, or gives up when none does |
| ContextCompiler.CutKeepsTheText | internal/retrieval/pipeline.go:357-375 | a cut section is reference, what fits of the content without its outer space, and marker: every character of what fits that is not space is there, in order |
| ContextCompiler.ReferenceInWords | internal/retrieval/pipeline.go:291-296 | what a reference and the gap before a later section look like |
| Text.TrimSpaceIsTheMiddle | internal/retrieval/pipeline.go:372 | trimming takes the outer space off and nothing else |
| ContextCompiler.ContextIsDetermined | internal/retrieval/pipeline.go:280-333 | the specification leaves one context for given results and budget |
| ContextCompiler.ContextIsBounded | internal/retrieval/pipeline.go:280-333 | never more bytes than allowed |
| ContextCompiler.UnsetFlagMeansComplete | internal/retrieval/pipeline.go:280-333 | an unset flag means uncut sections, and a missing result only when the budget is spent to the byte |
| Fusion.FuseSearchResults | internal/retrieval/pipeline.go:172-227 | one list alone is cut to the limit; two are fused, in the order of the specification |
| Fusion.Combine | internal/retrieval/pipeline.go:183-205 | the map that the two loops build |
| Fusion.Listed | internal/retrieval/pipeline.go:207-212 | one result per key, in any order the map may give |
| Fusion.FusionIsDetermined | internal/retrieval/pipeline.go:172-227 | the result does not depend on the map's order or on the sort |
| Fusion.CombinedScore | internal/retrieval/pipeline.go:183-205 | a chunk's score is the sum of what its two ranks count, an absent rank counting nothing |
| Fusion.ReturnedScore | internal/retrieval/pipeline.go:183-205 | four tenths over the vector rank plus six tenths over the keyword rank, for every returned chunk, without fractions |
| Fusion.KeywordRankDecides | internal/retrieval/pipeline.go:183-226 | of two chunks with crossed ranks the one the keyword search ranks better comes first |
| Fusion.ReturnedContent | internal/retrieval/pipeline.go:183-212 | what is returned of a chunk is, but for the score, the vector search's result, or else the keyword search's |
| Fusion.NothingIsLost | internal/retrieval/pipeline.go:207-226 | where the limit leaves room, every chunk of either list is returned |
| Fusion.OrderInWords | internal/retrieval/pipeline.go:213-222 | by falling score, then path, ordinal and chunk ID |
| Text.LexLessInWords | internal/routing/decision.go:139 | a proper beginning comes first, and otherwise the lower character at the first difference |
| Text.LowerCase | internal/routing/decision.go:278-280 | capital letters become small ones, each its own, and everything else stays |
| Fusion.FusionRespectsDominance | internal/retrieval/pipeline.go:172-227 | a chunk ranked no worse in both lists and better in one comes before the other |
| Fusion.FirstInBothIsFirst | internal/retrieval/pipeline.go:172-227 | first in both lists is first in the result |
| Fusion.FusionSize | internal/retrieval/pipeline.go:172-227 | as many results as different chunks, up to the limit |
| DebugSummary.BoundSourceRef | internal/retrieval/pipeline.go:432-448 | the reference for every bound: whole, a prefix of the hash, or path prefix, hash and lines of exactly the bound's length; the slice panics exactly under a stated guard |
| DebugSummary.LineRangeInWords | internal/retrieval/pipeline.go:427-430 | what a line range looks like |
| Text.DecimalValue | internal/retrieval/pipeline.go:428 | decimals stand for their number, without leading zeros |
| DebugSummary.ShortenedRefsTellSources | internal/retrieval/pipeline.go:432-448 | two references shortened alike have the same lines, path prefix and hash |
| DebugSummary.SummarizeDebugBounded | internal/retrieval/pipeline.go:391-425 | the references of the longest prefix of the sources that fits both bounds; it panics if and only if a reference behind a fitting prefix does |
| DebugSummary.SummarizeDebug | internal/retrieval/pipeline.go:387-389 | with the default bounds it never panics, for 64-bit line numbers, and the header has at most 256 bytes |
| DebugSummary.DefaultNeverPanics | internal/retrieval/pipeline.go:79-80 | the default bound is beyond the reserved size for all 64-bit line numbers |
| DebugSummary.ShortBoundsPanic | internal/retrieval/pipeline.go:438-441 | for a long path a bound from 10 panics if and only if it is at most the reserved size |
| Vectors.EncodeEmbedding | internal/index/vectors.go:24-30 | four little-endian bytes per value |
| Vectors.DecodeEmbedding | internal/index/vectors.go:32-41 | the values of a blob of whole words, an error for any other |
| Vectors.DecodeEncoded | internal/index/vectors.go:24-41 | decoding gives back what was encoded, bit for bit |
| Vectors.EncodeDecoded | internal/index/vectors.go:24-41 | every blob of whole words is the encoding of what it decodes to |
| Vectors.LittleEndian | internal/index/vectors.go:24-30 | the first byte counts ones, the next 256s, and so on |
| VectorSearch.CosineSimilarity | internal/index/store.go:403-422 | zero where it is undefined; else between -1 and 1, with the sign of the dot product, and its square times both norms is the dot product's square |
| VectorSearch.ScoreIsOneIffSameDirection | internal/index/store.go:403-422 | the score is 1 if and only if one vector is a positive multiple of the other: the equality case of Cauchy-Schwarz |
| VectorSearch.CauchySchwarz | internal/index/store.go:407-417 | dot times dot is at most the product of the norms |
| VectorSearch.CosineInRange | internal/index/store.go:403-422 | scores lie between -1 and 1 |
| VectorSearch.SearchChunks | internal/index/store.go:253-314 | fails exactly for a limit below 1 or a row that cannot be read or compared, else the first `limit` of a sort of the scored rows |
| VectorSearch.StoredRowsKeepTheirVectors | internal/index/store.go:283-297 | rows written by the encoder are scored on the very vectors that were written |
| VectorSearch.SearchIsDetermined | internal/index/store.go:253-314 | the order of the rows does not matter |
| VectorSearch.NothingBetterIsLeftOut | internal/index/store.go:299-313 | nothing left out comes before anything returned |
| VectorSearch.SearchFindsTheNearest | internal/index/store.go:253-314 | for any order of the rows written by the encoder, the first `limit` of the one list of chunks sorted by the cosines of the original vectors |
| VectorSearch.SameDirectionIsFirst | internal/index/store.go:253-314 | a result of another direction than a non-zero query is returned only behind every stored row of the query's direction |
| VectorSearch.SignOfRow | internal/index/store.go:421 | a row scores above zero, at zero or below as its vector points with, across or against the query |
| Chunker.ChunkFile | internal/index/chunker.go:21-56 | labelled slices of the configured size from which the lines can be restored |
| Chunker.FileIsRebuilt | internal/index/chunker.go:21-56 | the content is rebuilt from the chunks and the number of lines |
| Chunker.RecordsInWords | internal/index/chunker.go:13-56 | documents carry path, size and content hash; chunks their path, ordinal, hash, and the hashed key as ID |
| Chunker.UncoveredLinesAreEmpty | internal/index/chunker.go:35-38 | a line that no chunk covers is empty |
| Chunker.ChunkKeysAreDistinct | internal/index/chunker.go:40-52 | the hashed keys tell path, ordinal and content hash apart, whatever colons the path has |
| Discovery.MatchIffSplit | internal/index/discovery.go:152-177 | a path matches if and only if it splits into runs, any for `**` and one matching segment for every other |
| Discovery.CollapseKeepsMatches | internal/index/discovery.go:152-177 | collapsing adjacent `**` never changes the answer |
| Discovery.MatchesPattern | internal/index/discovery.go:120-140 | true exactly when some non-blank pattern accepts the trimmed path |
| Discovery.AcceptsInWords | internal/index/discovery.go:120-150 | a pattern accepts its own path, all below it, and with one of three glob characters what matches by segments, by path or last element |
| Discovery.NormalizeIsOnePass | internal/index/discovery.go:189-193 | the two replacements amount to one pass over three line endings |
| Discovery.LineEndingsInWords | internal/index/discovery.go:189-193 | a line stays as it is and its ending, any of three, becomes a newline |
| Discovery.NormalizeIsIdempotent | internal/index/discovery.go:189-193 | normalizing again changes nothing |
| IndexStore.Store.ReplaceAll | internal/index/store.go:103-176 | all or nothing, for a fault at any statement; without faults it commits exactly when keys and references hold |
| IndexStore.Store.RecordRunStart | internal/index/store.go:83-89 | a new run, or nothing at all |
| IndexStore.Store.RecordRunCompletion | internal/index/store.go:91-101 | completes just that run, or changes nothing on a fault or for an unknown ID, which is no error |
| IndexStore.Store.ReadStatus | internal/index/store.go:178-251 | the last attempt with its error, the row counts, and the root of the last run that succeeded; fails exactly when a query that is reached does |
| IndexStore.LoadedIsWellFormed | internal/index/schema.go:8-61 | consistent rows give tables whose references resolve and one full-text row per chunk |
| IndexStore.StoredInWords | internal/index/store.go:121-170 | every consistent row is stored as it was given, and every chunk's text with its place |
| Indexer.Index.Rebuild | internal/index/indexer.go:31-106 | one of the possible events, and the database is as that event leaves it |
| Indexer.BuildRows | internal/index/indexer.go:57-70 | one document per file, and the chunks of all files in order |
| Indexer.RecordedRunCounts | internal/index/indexer.go:93-95 | a recorded run counts exactly the rows of the three tables |
| Indexer.TablesAreLastCommit | internal/index/indexer.go:57-105 | after any run of rebuilds the tables are exactly the data of the last commit |
| Indexer.TablesStayWellFormed | internal/index/store.go:103-176 | after any run of rebuilds every reference resolves and there is one full-text row per chunk |
| Indexer.StatusIsLastRecorded | internal/index/store.go:178-251 | the committed root is that of the last rebuild whose success was recorded |
| Indexer.StatusNamesTheData | internal/index/indexer.go:86-105 | the committed root is the data's if and only if the last commit was recorded or the last recorded one had the same root |
| Indexer.StatusCanNameAnotherRoot | internal/index/indexer.go:93-95 | two commits of different roots, the second not recorded: the tables hold the second's rows and the status names the first's root |
| Indexer.ChunkIdsNeverCollide | internal/index/chunker.go:40-52 | with a collision-free hash and distinct paths all chunk IDs differ |
| RuntimeManager.NextKeeps | internal/app/runtime_manager.go:52-76 | every step of every thread keeps the invariant |
| RuntimeManager.RunsKeep | internal/app/runtime_manager.go:40-76 | every interleaving keeps it |
| RuntimeManager.OneBuildAtATime | internal/app/runtime_manager.go:52-76 | at most one build runs |
| RuntimeManager.CurrentIsTheLatest | internal/app/runtime_manager.go:52-76 | the pointer holds the last stored build, or the initial state |
| RuntimeManager.QuiescentIsLatestSuccess | internal/app/runtime_manager.go:52-76 | with no refresh under way it holds the latest successful build of all |
| RuntimeManager.ReadsNeverGoBack | internal/app/runtime_manager.go:40-46 | later reads, by any thread, see no older build |
| RuntimeManager.RefreshOverRuns | internal/app/runtime_manager.go:52-76 | from any moment of a critical section, whatever steps all threads take before its unlock, nothing is stored but at most that thread's own build, and readers see the old or the new state |
| RuntimeManager.FailedBuildChangesNothing | internal/app/runtime_manager.go:53-59 | from any moment a refresh holds the lock until it has released it after a failed build, in every interleaving, pointer and stored builds stay as they were and every reader sees them so |
| RuntimeManager.SuccessfulBuildIsStored | internal/app/runtime_manager.go:53-61 | a refresh that succeeds has stored exactly its own build when it releases the lock, in every interleaving |
| RuntimeManager.HolderCanMove | internal/app/runtime_manager.go:52-76 | whoever holds the lock can take a step |
| RuntimeManager.Manager.CurrentSnapshot | internal/app/runtime_manager.go:40-46 | one atomic read of the pointer |
| SkillIds.NormalizeSkillId | internal/agent/skill_catalog.go:253-277 | the loop over `lastDash` computes the slug of the lower-case name |
| SkillIds.SkillIdIsSlug | internal/agent/skill_catalog.go:253-277 | every ID has the shape `[a-z0-9]+(-[a-z0-9]+)*` |
| SkillIds.SkillIdIsIdempotent | internal/agent/skill_catalog.go:253-277 | normalizing twice is normalizing once |
| SkillIds.SkillIdInWords | internal/agent/skill_catalog.go:253-277 | the ID is the runs of letters and digits of the lower-case name, with one dash between each two |
| SkillIds.SkillIdKeepsLetters | internal/agent/skill_catalog.go:253-277 | the letters and digits of the name survive in order |
| SkillIds.DirectoriesAreApart | internal/agent/skill_catalog.go:42-49 | one skill's directory holds no other skill's file, and not the catalog |
| SkillCatalog.InstallIsSafeAtEveryStep | internal/agent/skill_catalog.go:93-145 | after every file step each listed skill still has its file with its checksum; the catalog is unreadable exactly between its truncation and its writing, and lists the new skill only after |
| SkillCatalog.RemoveIsSafeAtEveryStep | internal/agent/skill_catalog.go:149-181 | the same of every remaining skill after each file step of a removal, whatever the order of the deletions; the removed one keeps its file until the manifest is written |
| SkillCatalog.SkillStore.InstallSkill | internal/agent/skill_catalog.go:93-145 | wherever it stops the skills listed before stay backed; success lists the skill, a taken ID with other content is refused, an unreadable catalog changes nothing |
| SkillCatalog.SkillStore.RemoveSkill | internal/agent/skill_catalog.go:149-181 | wherever it stops the other skills stay backed; an enabled skill is only removed by force, and an unreadable catalog changes nothing |
| SkillCatalog.SkillStore.Serve | internal/agent/skill_catalog.go:93-181 | any sequence of installs, removals, stops half way and restarts keeps every listed skill backed, and an unreadable catalog frozen |
| SkillMetrics.StaysInRange | internal/agent/skill_metrics.go:102-107 | the stored average stays between the least and the greatest latency |
| SkillMetrics.DriftIsBounded | internal/agent/skill_metrics.go:102-107 | n times the average is at most the sum and at least the sum less n(n-1)/2 |
| SkillMetrics.AverageLagsTheMean | internal/agent/skill_metrics.go:102-107 | never above the true mean, and at most (n-1)/2 below it |
| SkillMetrics.DriftIsAttained | internal/agent/skill_metrics.go:102-107 | latencies 0, 1, ..., n-1 reach that bound |
| SkillMetrics.MetricsStore.RecordSkillLatency | internal/agent/skill_metrics.go:76-100 | afterwards every skill's metric tells the truth about its own latencies |
| ApprovalGate.NextIdIsFresh | internal/agent/gating.go:31-32 | a new proposal takes no existing one's ID |
| ApprovalGate.ProposedInWords | internal/agent/gating.go:27-42 | a proposal is stored as it was asked for, unless its kind is unknown or its summary blank |
| ApprovalGate.LedgerAgrees | internal/agent/gating.go:27-72 | after any sequence of calls the events about a stored proposal are one proposal event and, once settled, one decision, with its request ID, kind and verdict; there are none about any other |
| ApprovalGate.CallbacksNeedApproval | internal/agent/gating.go:44-72 | a callback runs at most once, and only for an approved proposal |
| ApprovalGate.ProposalsOnlyAdvance | internal/agent/gating.go:44-59 | a proposal is settled at most once and never returns; everything else about it is fixed |
| ApprovalGate.ProposalStore.UpdateStatus | internal/agent/proposal_store.go:36-46 | changes the status of a known proposal and nothing else |
| ApprovalGate.Approvals.ProposeAction | internal/agent/gating.go:27-42 | takes one step of the specification; refuses exactly the invalid requests |
| ApprovalGate.Approvals.ResolveProposal | internal/agent/gating.go:44-72 | takes one step of the specification; the callback runs exactly on success |

## Left out

- Regular expressions: match spans are given. Nothing is claimed about scanning a redacted body again; the tail of a partly overlapped match may remain.
- Floating-point rounding, NaN and infinities: scores are reals, and the square root is exact.
- Integer overflow: counters, lengths and latencies are unbounded.
- Unicode: text is a sequence of one-byte characters with ASCII space and case, so rune boundaries, `ToLower` and `TrimSpace` beyond ASCII are not modelled.
- JSON, YAML, SHA-256, SQLite and `path.Match`: arbitrary functions, or tables with keys, commit and rollback.
- HTTP: reading, header copying, streaming, body hashing on the way back, timeouts and error bodies; a run ends with a status only for a rejection.
- Provider clients, token counting, logging, metrics, request IDs, debug headers, source references in audit events and timestamps.
- The classifier's errors: a failed classification is an absent one, as in the code.
- Request metadata and the fields of a chat request that neither policy, routing nor retrieval looks at.
- Query building, query rewriting and the full-text query: the two searches are given and honour their limit, and a query that cannot be built is a store that cannot be opened.
- The walk of `DiscoverFiles` and its size and text checks; only pattern matching and content normalization are modelled.
- Overlapping `Rebuild` processes, overlapping installs, and overlapping `Resolve` calls for one proposal.
- `ApprovalGate.Execute`, which does not consult the store; `GetInstalledSkill` and `ListInstalledSkills`, which only read.
- ApprovalGate.LedgerAgrees: assumes a recorder that works; the code drops the recorder's errors.
- ChatHandler.LedgerAccountsForCalls: assumes a recorder that works; `ChatHandler.Handler.ServeHTTP` states the ledger for one that does not as well.
- RuntimeManager.Manager.Refresh: states a call that finds the mutex free; waiting for it is a step of the machine, and `RuntimeManager.RefreshOverRuns` is about every interleaving.
- RuntimeManager.RunsKeep: a builder that panics, and the closing of the state that was replaced, are not modelled.
- SkillCatalog.SkillStore.RemoveSkill: directories are sets of files, so removing an empty directory is no step.
- The display name and capability summary taken from a skill's markdown: the name is given, the summary is not modelled.
- Configuration, module manifests, the CLI, the keyring and the local model client.
