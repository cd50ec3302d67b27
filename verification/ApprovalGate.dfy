/**
 The approval gate (internal/agent/gating.go, proposal_store.go, action_proposal.go): proposals are stored as
 pending, settled once, and every step is put on the audit ledger.  Calls do not overlap, and the recorder works.
 */
module ApprovalGate {
  import opened Wrappers
  import Text

  datatype Kind = ApplyPatch | RunTests | OtherKind(name: string)

  datatype ActionRequest = ActionRequest(kind: Kind, summary: string, payload: map<string, string>)

  datatype Status = Pending | Approved | Denied

  datatype Proposal = Proposal(id: string, kind: Kind, summary: string, payload: map<string, string>,
                               requestId: string, status: Status)

  datatype EventType = Proposed | WasApproved | WasDenied

  datatype Event = Event(eventType: EventType, requestId: string, verdict: Status, reason: Kind)

  /** An event with the proposal it is about, which the source's event does not name. */
  datatype Entry = Entry(proposalId: string, event: Event)

  /** The gate with its history: the ledger with its proposals, and the proposals whose callback ran. */
  datatype Gate = Gate(counter: nat, proposals: map<string, Proposal>, log: seq<Entry>, executed: seq<string>)

  datatype Call =
    | Propose(requestId: string, request: ActionRequest)
    | Resolve(proposalId: string, approved: bool, hasCallback: bool)

  const NEW_GATE := Gate(0, map[], [], [])

  function ProposalId(n: nat): string {
    "proposal-" + Text.Itoa(n)
  }

  predicate ValidRequest(r: ActionRequest) {
    (r.kind.ApplyPatch? || r.kind.RunTests?) && Text.TrimSpace(r.summary) != ""
  }

  function Step(g: Gate, call: Call): Gate {
    match call
    case Propose(requestId, r) =>
      if !ValidRequest(r) then g
      else
        var id := ProposalId(g.counter + 1);
        var p := Proposal(id, r.kind, r.summary, r.payload, requestId, Pending);
        var event := Event(Proposed, requestId, Pending, r.kind);
        Gate(g.counter + 1, g.proposals[id := p], g.log + [Entry(id, event)], g.executed)
    case Resolve(id, approved, hasCallback) =>
      if id !in g.proposals || g.proposals[id].status != Pending then g
      else
        var p := g.proposals[id].(status := if approved then Approved else Denied);
        var event := Event(if approved then WasApproved else WasDenied, p.requestId, p.status, p.kind);
        g.(proposals := g.proposals[id := p], log := g.log + [Entry(id, event)],
           executed := if approved && hasCallback then g.executed + [id] else g.executed)
  }

  function After(calls: seq<Call>): Gate {
    if calls == [] then NEW_GATE else Step(After(calls[..|calls| - 1]), calls[|calls| - 1])
  }

  /** A proposal is stored as it was asked for, unless its kind is unknown or its summary blank. */
  lemma ProposedInWords(g: Gate, requestId: string, r: ActionRequest)
    ensures r.kind.OtherKind? || (forall k :: 0 <= k < |r.summary| ==> r.summary[k] in Text.SPACES) ==>
              Step(g, Propose(requestId, r)) == g
    ensures (r.kind == ApplyPatch || r.kind == RunTests)
            && (exists k :: 0 <= k < |r.summary| && r.summary[k] !in Text.SPACES) ==>
              exists p: Proposal ::
                && Step(g, Propose(requestId, r)).proposals == g.proposals[p.id := p]
                && p.id == "proposal-" + Text.Itoa(g.counter + 1)
                && p.kind == r.kind && p.summary == r.summary && p.payload == r.payload
                && p.requestId == requestId && p.status == Pending
  {
    hide Text.TrimSpace, Text.Itoa;
    var i, j := Text.TrimSpaceIsTheMiddle(r.summary);
    if ValidRequest(r) {
      var id := ProposalId(g.counter + 1);
      var p := Proposal(id, r.kind, r.summary, r.payload, requestId, Pending);
      assert Step(g, Propose(requestId, r)).proposals == g.proposals[p.id := p];
    }
  }

  // ----- the ledger agrees with the store

  /** The events about one proposal, in order. */
  function EventsAbout(log: seq<Entry>, id: string): seq<Event> {
    if log == [] then []
    else
      var n := |log| - 1;
      EventsAbout(log[..n], id) + (if log[n].proposalId == id then [log[n].event] else [])
  }

  lemma EventsSnoc(log: seq<Entry>, e: Entry, id: string)
    ensures EventsAbout(log + [e], id) == EventsAbout(log, id) + (if e.proposalId == id then [e.event] else [])
  {
    assert (log + [e])[..|log|] == log;
  }

  /** What the ledger should say about a proposal: it was made, and was settled the way it stands. */
  function Story(p: Proposal): seq<Event> {
    [Event(Proposed, p.requestId, Pending, p.kind)]
    + match p.status
      case Pending => []
      case Approved => [Event(WasApproved, p.requestId, Approved, p.kind)]
      case Denied => [Event(WasDenied, p.requestId, Denied, p.kind)]
  }

  function Runs(executed: seq<string>, id: string): nat {
    if executed == [] then 0
    else Runs(executed[..|executed| - 1], id) + (if executed[|executed| - 1] == id then 1 else 0)
  }

  lemma RunsSnoc(executed: seq<string>, e: string, id: string)
    ensures Runs(executed + [e], id) == Runs(executed, id) + (if e == id then 1 else 0)
  {
    assert (executed + [e])[..|executed|] == executed;
  }

  /** The ledger tells each stored proposal's story, with its request, verdict and kind, and nothing about any other. */
  ghost predicate Accounted(g: Gate, id: string) {
    if id in g.proposals then
      && EventsAbout(g.log, id) == Story(g.proposals[id])
      && Runs(g.executed, id) <= (if g.proposals[id].status == Approved then 1 else 0)
    else
      EventsAbout(g.log, id) == [] && Runs(g.executed, id) == 0
  }

  /** IDs are those handed out so far. */
  ghost predicate Numbered(g: Gate) {
    && (forall id :: id in g.proposals ==> exists n: nat :: 1 <= n <= g.counter && id == ProposalId(n))
    && (forall id :: id in g.proposals ==> g.proposals[id].id == id)
  }

  lemma IdsDiffer(m: nat, n: nat)
    requires ProposalId(m) == ProposalId(n)
    ensures m == n
  {
    hide Text.Itoa;
    var prefix := "proposal-";
    assert ProposalId(m)[|prefix|..] == Text.Itoa(m) && ProposalId(n)[|prefix|..] == Text.Itoa(n);
    Text.ItoaInjective(m, n);
  }

  /** A new proposal never takes an existing one's ID. */
  lemma NextIdIsFresh(g: Gate)
    requires Numbered(g)
    ensures ProposalId(g.counter + 1) !in g.proposals
  {
    hide ProposalId;
    if ProposalId(g.counter + 1) in g.proposals {
      var n: nat :| 1 <= n <= g.counter && ProposalId(g.counter + 1) == ProposalId(n);
      IdsDiffer(g.counter + 1, n);
    }
  }

  lemma StepKeepsNumbers(g: Gate, call: Call)
    requires Numbered(g)
    ensures Numbered(Step(g, call))
  {
    hide ProposalId, ValidRequest;
    var g' := Step(g, call);
    forall id | id in g'.proposals ensures exists n: nat :: 1 <= n <= g'.counter && id == ProposalId(n) {
      if id in g.proposals {
        var n: nat :| 1 <= n <= g.counter && id == ProposalId(n);
      } else {
        assert id == ProposalId(g'.counter);
      }
    }
  }

  lemma StepKeepsAccounts(g: Gate, call: Call, id: string)
    requires Numbered(g) && Accounted(g, id)
    ensures Accounted(Step(g, call), id)
  {
    hide ProposalId, ValidRequest, Numbered, EventsAbout, Runs;
    var g' := Step(g, call);
    if |g'.log| != |g.log| {
      var e := g'.log[|g.log|];
      EventsSnoc(g.log, e, id);
      NextIdIsFresh(g);
      if |g'.executed| != |g.executed| { RunsSnoc(g.executed, g'.executed[|g.executed|], id); }
    }
  }

  /**
   Over any sequence of calls the ledger holds exactly one proposal event for each stored proposal, then one decision
   for each settled one, both with its request ID and kind and the verdict of the moment, and no event about anything
   else.
   */
  lemma {:induction false} LedgerAgrees(calls: seq<Call>, id: string)
    ensures Numbered(After(calls)) && Accounted(After(calls), id)
  {
    hide Accounted, Numbered, Step;
    if calls == [] {
      NewGateFits(id);
    } else {
      var before := After(calls[..|calls| - 1]);
      LedgerAgrees(calls[..|calls| - 1], id);
      StepKeepsNumbers(before, calls[|calls| - 1]);
      StepKeepsAccounts(before, calls[|calls| - 1], id);
    }
  }

  lemma NewGateFits(id: string)
    ensures Numbered(NEW_GATE) && Accounted(NEW_GATE, id)
  {}

  /** A callback runs at most once, and only for a proposal that was approved. */
  lemma CallbacksNeedApproval(calls: seq<Call>, id: string)
    ensures Runs(After(calls).executed, id) <= 1
    ensures Runs(After(calls).executed, id) == 1 ==>
              id in After(calls).proposals && After(calls).proposals[id].status == Approved
  {
    LedgerAgrees(calls, id);
  }

  // ----- a settled proposal stays settled

  /** What later calls may do to a proposal. */
  predicate Advances(p: Proposal, p': Proposal) {
    p' == p || (p.status == Pending && p'.status != Pending && p' == p.(status := p'.status))
  }

  lemma StepAdvances(g: Gate, call: Call, id: string)
    requires Numbered(g) && id in g.proposals
    ensures id in Step(g, call).proposals && Advances(g.proposals[id], Step(g, call).proposals[id])
  {
    hide ProposalId, ValidRequest, Numbered;
    NextIdIsFresh(g);
  }

  /**
   Once stored, a proposal keeps its kind, summary, payload and request; its status leaves pending at most once and
   never returns.
   */
  lemma {:induction false} ProposalsOnlyAdvance(calls: seq<Call>, n: nat, id: string)
    requires n <= |calls| && id in After(calls[..n]).proposals
    ensures id in After(calls).proposals && Advances(After(calls[..n]).proposals[id], After(calls).proposals[id])
    decreases |calls| - n
  {
    hide Step, Numbered;
    if n == |calls| {
      assert calls[..n] == calls;
    } else {
      assert calls[..n + 1][..n] == calls[..n];
      LedgerAgrees(calls[..n], id);
      StepAdvances(After(calls[..n]), calls[n], id);
      ProposalsOnlyAdvance(calls, n + 1, id);
    }
  }

  // ----- the gate as an object

  class ProposalStore {
    var proposals: map<string, Proposal>

    constructor ()
      ensures proposals == map[]
    {
      proposals := map[];
    }

    method Put(p: Proposal)
      modifies this
      ensures proposals == old(proposals)[p.id := p]
    {
      proposals := proposals[p.id := p];
    }

    method Get(id: string) returns (r: Option<Proposal>)
      ensures r == if id in proposals then Some(proposals[id]) else None
    {
      r := if id in proposals then Some(proposals[id]) else None;
    }

    method UpdateStatus(id: string, status: Status) returns (r: Option<Proposal>)
      modifies this
      ensures id !in old(proposals) ==> r.None? && proposals == old(proposals)
      ensures id in old(proposals) ==>
                r == Some(old(proposals)[id].(status := status)) && proposals == old(proposals)[id := r.value]
    {
      if id !in proposals { return None; }
      var p := proposals[id].(status := status);
      proposals := proposals[id := p];
      r := Some(p);
    }
  }

  class Approvals {
    const store: ProposalStore
    var counter: nat
    var ledger: seq<Event>
    ghost var owners: seq<string>
    ghost var executed: seq<string>

    ghost predicate Valid()
      reads this
    {
      |owners| == |ledger|
    }

    ghost function Entries(): (log: seq<Entry>)
      requires Valid()
      reads this
    {
      seq(|ledger|, k requires 0 <= k < |ledger| && |owners| == |ledger| reads this => Entry(owners[k], ledger[k]))
    }

    ghost function Contents(): Gate
      requires Valid()
      reads this, store
    {
      Gate(counter, store.proposals, Entries(), executed)
    }

    constructor ()
      ensures Valid() && Contents() == NEW_GATE && fresh(store)
    {
      store := new ProposalStore();
      counter, ledger, owners, executed := 0, [], [], [];
    }

    method Record(e: Event, ghost owner: string)
      requires Valid()
      modifies this`ledger, this`owners
      ensures Valid() && Entries() == old(Entries()) + [Entry(owner, e)]
    {
      ledger := ledger + [e];
      owners := owners + [owner];
    }

    method ProposeAction(requestId: string, request: ActionRequest) returns (r: Result<Proposal>)
      requires Valid()
      modifies this, store
      ensures Valid() && Contents() == Step(old(Contents()), Propose(requestId, request))
      ensures r.Success? <==> ValidRequest(request)
      ensures r.Success? ==>
                r.value.status == Pending && r.value.id in store.proposals && store.proposals[r.value.id] == r.value
    {
      hide ProposalId, Text.TrimSpace;
      if !ValidRequest(request) { return Failure("invalid action request"); }
      counter := counter + 1;
      var p := Proposal(ProposalId(counter), request.kind, request.summary, request.payload, requestId, Pending);
      store.Put(p);
      Record(Event(Proposed, requestId, p.status, request.kind), p.id);
      return Success(p);
    }

    /** The callback is called just before `ran` is set. */
    method ResolveProposal(id: string, approved: bool, hasCallback: bool) returns (r: Result<Proposal>, ran: bool)
      requires Valid()
      modifies this, store
      ensures Valid() && Contents() == Step(old(Contents()), Resolve(id, approved, hasCallback))
      ensures ran <==> r.Success? && hasCallback
      ensures r.Success? <==> approved && id in old(store.proposals) && old(store.proposals)[id].status == Pending
      ensures r.Success? ==> r.value.status == Approved && store.proposals[id] == r.value
    {
      ran := false;
      var found := store.Get(id);
      if found.None? { return Failure("proposal not found"), false; }
      if found.value.status != Pending { return Failure("already settled"), false; }
      var status := if approved then Approved else Denied;
      var updated := store.UpdateStatus(id, status);
      if updated.None? { assert false; return Failure("proposal not found"), false; }
      var p := updated.value;
      Record(Event(if approved then WasApproved else WasDenied, p.requestId, p.status, p.kind), id);
      if !approved { return Failure("action approval required"), false; }
      if hasCallback {
        executed := executed + [id];
        ran := true;
      }
      r := Success(p);
    }
  }
}
