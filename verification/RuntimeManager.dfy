/**
 The hot-reload manager (internal/app/runtime_manager.go): `Refresh` builds a new runtime state under a mutex and
 swaps an atomic pointer, `CurrentSnapshot` loads the pointer without the mutex.  A run is any interleaving of
 the lock and atomic steps of any number of calls.  Builds are numbered from 1 in the order they begin; the
 initial state has number 0.
 */
module RuntimeManager {
  import opened Wrappers

  type Thread = nat

  /** Where a thread stands in `Refresh`. */
  datatype Pc<T> =
    | Idle
    | Waiting                                // called, wants the lock
    | Locked                                 // holds the lock, has not begun to build
    | Building(number: nat)
    | Finished(number: nat, result: Option<T>)
    | Replacing(number: nat, next: T)        // has loaded the previous state
    | Stored(number: nat)

  datatype Step<T> =
    | CallRefresh(thread: Thread)
    | Lock(thread: Thread)
    | BeginBuild(thread: Thread)
    | EndBuild(thread: Thread, result: Option<T>)
    | LoadPrevious(thread: Thread)
    | StoreNext(thread: Thread)
    | Unlock(thread: Thread)
    | Read(thread: Thread)                   // CurrentSnapshot

  /** What one `CurrentSnapshot` call saw. */
  datatype Observation<T> = Observation(thread: Thread, number: nat, state: T)

  /** `number`, `started`, `finished`, `stored` and `seen` only record history; the code has `current` and the mutex. */
  datatype Machine<T> = Machine(current: T, holder: Option<Thread>, pcs: map<Thread, Pc<T>>,
                                number: nat, started: nat, finished: map<nat, Option<T>>, stored: seq<nat>,
                                seen: seq<Observation<T>>)

  function Start<T>(initial: T): Machine<T> {
    Machine(initial, None, map[], 0, 0, map[], [], [])
  }

  function PcOf<T>(m: Machine<T>, t: Thread): Pc<T> {
    if t in m.pcs then m.pcs[t] else Idle
  }

  predicate Enabled<T>(m: Machine<T>, s: Step<T>) {
    match s
    case CallRefresh(t) => PcOf(m, t).Idle?
    case Lock(t) => PcOf(m, t).Waiting? && m.holder.None?
    case BeginBuild(t) => PcOf(m, t).Locked?
    case EndBuild(t, _) => PcOf(m, t).Building?
    case LoadPrevious(t) => PcOf(m, t).Finished? && PcOf(m, t).result.Some?
    case StoreNext(t) => PcOf(m, t).Replacing?
    case Unlock(t) => PcOf(m, t).Stored? || (PcOf(m, t).Finished? && PcOf(m, t).result.None?)
    case Read(t) => PcOf(m, t).Idle?
  }

  function Next<T>(m: Machine<T>, s: Step<T>): Machine<T>
    requires Enabled(m, s)
  {
    match s
    case CallRefresh(t) => m.(pcs := m.pcs[t := Waiting])
    case Lock(t) => m.(holder := Some(t), pcs := m.pcs[t := Locked])
    case BeginBuild(t) => m.(started := m.started + 1, pcs := m.pcs[t := Building(m.started + 1)])
    case EndBuild(t, result) =>
      var n := PcOf(m, t).number;
      m.(finished := m.finished[n := result], pcs := m.pcs[t := Finished(n, result)])
    case LoadPrevious(t) =>
      var pc := PcOf(m, t);
      m.(pcs := m.pcs[t := Replacing(pc.number, pc.result.value)])
    case StoreNext(t) =>
      var pc := PcOf(m, t);
      m.(current := pc.next, number := pc.number, stored := m.stored + [pc.number],
         pcs := m.pcs[t := Stored(pc.number)])
    case Unlock(t) => m.(holder := None, pcs := m.pcs[t := Idle])
    case Read(t) => m.(seen := m.seen + [Observation(t, m.number, m.current)])
  }

  /** A run: every step is enabled where it is taken. */
  ghost predicate IsRun<T(!new)>(initial: T, steps: seq<Step<T>>, m: Machine<T>) {
    if steps == [] then m == Start(initial)
    else
      var n := |steps| - 1;
      exists before :: IsRun(initial, steps[..n], before) && Enabled(before, steps[n]) && m == Next(before, steps[n])
  }

  // ----- the invariant

  predicate Critical<T>(pc: Pc<T>) {
    !pc.Idle? && !pc.Waiting?
  }

  ghost predicate LockProtects<T>(m: Machine<T>) {
    forall t :: t in m.pcs && Critical(m.pcs[t]) ==> m.holder == Some(t)
  }

  /** What the thread in the critical section knows. */
  ghost predicate CriticalFits<T>(m: Machine<T>, pc: Pc<T>) {
    match pc
    case Idle => true
    case Waiting => true
    case Locked => Settled(m, m.started)
    case Building(n) => n == m.started >= 1 && n !in m.finished && Settled(m, n - 1)
    case Finished(n, result) => n == m.started >= 1 && n in m.finished && m.finished[n] == result && Settled(m, n - 1)
    case Replacing(n, next) =>
      n == m.started >= 1 && n in m.finished && m.finished[n] == Some(next) && Settled(m, n - 1)
    case Stored(n) => n == m.started && Settled(m, n)
  }

  /** Of the builds up to n, exactly the successful ones are stored, in order; later ones are not. */
  ghost predicate Settled<T>(m: Machine<T>, n: nat) {
    && (forall k :: 0 <= k < |m.stored| ==> 1 <= m.stored[k] <= n)
    && (forall b :: 1 <= b <= n ==> b in m.finished && (b in m.stored <==> m.finished[b].Some?))
  }

  /** The pointer holds the result of the build stored last. */
  ghost predicate CurrentIsLastStored<T>(m: Machine<T>, initial: T) {
    && (forall i, j :: 0 <= i < j < |m.stored| ==> m.stored[i] < m.stored[j])
    && (forall k :: 0 <= k < |m.stored| ==> m.stored[k] in m.finished && m.finished[m.stored[k]].Some?)
    && m.number == (if m.stored == [] then 0 else m.stored[|m.stored| - 1])
    && m.current == Version(m, initial, m.number)
  }

  /** The state with a given number. */
  ghost function Version<T>(m: Machine<T>, initial: T, n: nat): T {
    if n in m.finished && m.finished[n].Some? && n > 0 then m.finished[n].value else initial
  }

  ghost predicate ReadsFit<T>(m: Machine<T>, initial: T) {
    && (forall i, j :: 0 <= i < j < |m.seen| ==> m.seen[i].number <= m.seen[j].number)
    && (forall k :: 0 <= k < |m.seen| ==>
          && m.seen[k].number <= m.number && (m.seen[k].number == 0 || m.seen[k].number in m.finished)
          && m.seen[k].state == Version(m, initial, m.seen[k].number))
  }

  ghost predicate Inv<T>(m: Machine<T>, initial: T) {
    && LockProtects(m)
    && (forall t :: t in m.pcs ==> CriticalFits(m, m.pcs[t]))
    && (m.holder.Some? ==> Critical(PcOf(m, m.holder.value)))
    && (m.holder.None? ==> Settled(m, m.started))
    && (forall n :: n in m.finished ==> 1 <= n <= m.started)
    && CurrentIsLastStored(m, initial)
    && ReadsFit(m, initial)
  }

  lemma StartFits<T>(initial: T)
    ensures Inv(Start(initial), initial)
  {}

  /** Only the holder of the lock has anything to keep up. */
  lemma HolderAlone<T>(m: Machine<T>, m': Machine<T>, t: Thread, pc: Pc<T>)
    requires LockProtects(m) && m.holder == Some(t) && m'.pcs == m.pcs[t := pc]
    requires CriticalFits(m', pc)
    ensures forall u :: u in m'.pcs ==> CriticalFits(m', m'.pcs[u])
  {
    forall u | u in m'.pcs ensures CriticalFits(m', m'.pcs[u]) {
      if u != t { assert !Critical(m.pcs[u]); }
    }
  }

  lemma StoreSettles<T>(m: Machine<T>, s: Step<T>, initial: T)
    requires Inv(m, initial) && Enabled(m, s) && s.StoreNext?
    ensures Settled(Next(m, s), PcOf(m, s.thread).number) && PcOf(m, s.thread).number == m.started
    ensures PcOf(m, s.thread).number !in m.stored
  {
    var pc := PcOf(m, s.thread);
    var m' := Next(m, s);
    assert CriticalFits(m, pc) && pc.number !in m.stored;
    assert m'.stored[|m.stored|] == pc.number;
    assert forall b :: b in m'.stored <==> b in m.stored || b == pc.number;
  }

  lemma StoreIsLast<T>(m: Machine<T>, s: Step<T>, initial: T)
    requires Inv(m, initial) && Enabled(m, s) && s.StoreNext?
    ensures CurrentIsLastStored(Next(m, s), initial) && m.number <= Next(m, s).number
  {
    var pc := PcOf(m, s.thread);
    assert CriticalFits(m, pc);
    assert forall k :: 0 <= k < |m.stored| ==> m.stored[k] <= pc.number - 1;
  }

  lemma StoreKeeps<T>(m: Machine<T>, s: Step<T>, initial: T)
    requires Inv(m, initial) && Enabled(m, s) && s.StoreNext?
    ensures Inv(Next(m, s), initial)
  {
    StoreSettles(m, s, initial);
    StoreIsLast(m, s, initial);
    hide Settled, CurrentIsLastStored;
    HolderAlone(m, Next(m, s), s.thread, Stored(PcOf(m, s.thread).number));
  }

  lemma BeginKeeps<T>(m: Machine<T>, s: Step<T>, initial: T)
    requires Inv(m, initial) && Enabled(m, s) && s.BeginBuild?
    ensures Inv(Next(m, s), initial)
  {
    assert CriticalFits(m, PcOf(m, s.thread));
    HolderAlone(m, Next(m, s), s.thread, Building(m.started + 1));
  }

  lemma EndKeeps<T>(m: Machine<T>, s: Step<T>, initial: T)
    requires Inv(m, initial) && Enabled(m, s) && s.EndBuild?
    ensures Inv(Next(m, s), initial)
  {
    var m' := Next(m, s);
    var n := PcOf(m, s.thread).number;
    assert CriticalFits(m, PcOf(m, s.thread));
    assert Settled(m', n - 1);
    HolderAlone(m, m', s.thread, Finished(n, s.result));
  }

  lemma LoadKeeps<T>(m: Machine<T>, s: Step<T>, initial: T)
    requires Inv(m, initial) && Enabled(m, s) && s.LoadPrevious?
    ensures Inv(Next(m, s), initial)
  {
    var pc := PcOf(m, s.thread);
    assert CriticalFits(m, pc);
    HolderAlone(m, Next(m, s), s.thread, Replacing(pc.number, pc.result.value));
  }

  /** Threads outside the critical section have nothing to keep up, so they move freely. */
  lemma OthersFit<T>(m: Machine<T>, m': Machine<T>, t: Thread, pc: Pc<T>)
    requires forall u :: u in m.pcs ==> CriticalFits(m, m.pcs[u])
    requires m'.pcs == m.pcs[t := pc] && CriticalFits(m', pc)
    requires m'.started == m.started && m'.finished == m.finished && m'.stored == m.stored
    ensures forall u :: u in m'.pcs ==> CriticalFits(m', m'.pcs[u])
  {
    assert forall n :: Settled(m, n) == Settled(m', n);
  }

  lemma CallKeeps<T>(m: Machine<T>, s: Step<T>, initial: T)
    requires Inv(m, initial) && Enabled(m, s) && s.CallRefresh?
    ensures Inv(Next(m, s), initial)
  {
    hide CurrentIsLastStored, Settled;
    OthersFit(m, Next(m, s), s.thread, Waiting);
    FrameKeeps(m, Next(m, s), initial);
  }

  lemma LockKeeps<T>(m: Machine<T>, s: Step<T>, initial: T)
    requires Inv(m, initial) && Enabled(m, s) && s.Lock?
    ensures Inv(Next(m, s), initial)
  {
    hide CurrentIsLastStored, Settled;
    FrameKeeps(m, Next(m, s), initial);
    OthersFit(m, Next(m, s), s.thread, Locked);
  }

  lemma UnlockKeeps<T>(m: Machine<T>, s: Step<T>, initial: T)
    requires Inv(m, initial) && Enabled(m, s) && s.Unlock?
    ensures Inv(Next(m, s), initial)
  {
    assert Settled(m, m.started) by {
      assert CriticalFits(m, PcOf(m, s.thread));
    }
    hide CurrentIsLastStored, Settled;
    FrameKeeps(m, Next(m, s), initial);
    OthersFit(m, Next(m, s), s.thread, Idle);
  }

  lemma ReadKeeps<T>(m: Machine<T>, s: Step<T>, initial: T)
    requires Inv(m, initial) && Enabled(m, s) && s.Read?
    ensures Inv(Next(m, s), initial)
  {
    var m' := Next(m, s);
    assert m.number == 0 || m.number in m.finished;
    assert ReadsFit(m', initial);
    hide CurrentIsLastStored, Settled, ReadsFit;
    HistoryKeeps(m, m', initial);
    forall u | u in m'.pcs ensures CriticalFits(m', m'.pcs[u]) {}
  }

  lemma HistoryKeeps<T>(m: Machine<T>, m': Machine<T>, initial: T)
    requires m'.started == m.started && m'.finished == m.finished && m'.stored == m.stored
    requires m'.current == m.current && m'.number == m.number
    ensures CurrentIsLastStored(m, initial) ==> CurrentIsLastStored(m', initial)
    ensures forall n :: Settled(m, n) == Settled(m', n)
  {}

  lemma FrameKeeps<T>(m: Machine<T>, m': Machine<T>, initial: T)
    requires m'.started == m.started && m'.finished == m.finished && m'.stored == m.stored
    requires m'.current == m.current && m'.number == m.number && m'.seen == m.seen
    ensures CurrentIsLastStored(m, initial) ==> CurrentIsLastStored(m', initial)
    ensures ReadsFit(m, initial) ==> ReadsFit(m', initial)
    ensures forall n :: Settled(m, n) == Settled(m', n)
  {}

  lemma NextKeeps<T>(m: Machine<T>, s: Step<T>, initial: T)
    requires Inv(m, initial) && Enabled(m, s)
    ensures Inv(Next(m, s), initial)
  {
    hide Inv, Next, Enabled;
    match s {
      case StoreNext(_) => StoreKeeps(m, s, initial);
      case BeginBuild(_) => BeginKeeps(m, s, initial);
      case EndBuild(_, _) => EndKeeps(m, s, initial);
      case LoadPrevious(_) => LoadKeeps(m, s, initial);
      case CallRefresh(_) => CallKeeps(m, s, initial);
      case Lock(_) => LockKeeps(m, s, initial);
      case Unlock(_) => UnlockKeeps(m, s, initial);
      case Read(_) => ReadKeeps(m, s, initial);
    }
  }

  lemma {:induction false} RunsKeep<T(!new)>(initial: T, steps: seq<Step<T>>, m: Machine<T>)
    requires IsRun(initial, steps, m)
    ensures Inv(m, initial)
  {
    hide Inv;
    if steps == [] {
      StartFits(initial);
    } else {
      var n := |steps| - 1;
      var before :| IsRun(initial, steps[..n], before) && Enabled(before, steps[n]) && m == Next(before, steps[n]);
      RunsKeep(initial, steps[..n], before);
      NextKeeps(before, steps[n], initial);
    }
  }

  // ----- what every run promises

  /** At most one build runs at a time. */
  lemma OneBuildAtATime<T(!new)>(initial: T, steps: seq<Step<T>>, m: Machine<T>, t: Thread, u: Thread)
    requires IsRun(initial, steps, m)
    requires PcOf(m, t).Building? && PcOf(m, u).Building?
    ensures t == u
  {
    RunsKeep(initial, steps, m);
  }

  /** The pointer holds the initial state, or the result of the last stored build; a failed build is never stored. */
  lemma CurrentIsTheLatest<T(!new)>(initial: T, steps: seq<Step<T>>, m: Machine<T>)
    requires IsRun(initial, steps, m)
    ensures m.stored == [] ==> m.current == initial
    ensures m.stored != [] ==>
              var last := m.stored[|m.stored| - 1];
              last in m.finished && m.finished[last] == Some(m.current)
    ensures forall b :: b in m.finished && m.finished[b].None? ==> b !in m.stored
  {
    RunsKeep(initial, steps, m);
  }

  /** While no refresh is under way, the pointer holds the latest successful build of all. */
  lemma QuiescentIsLatestSuccess<T(!new)>(initial: T, steps: seq<Step<T>>, m: Machine<T>, b: nat)
    requires IsRun(initial, steps, m) && m.holder.None?
    requires b in m.finished && m.finished[b].Some?
    ensures b <= m.number
    ensures m.number in m.finished && m.finished[m.number] == Some(m.current)
  {
    hide LockProtects, ReadsFit, CriticalFits;
    RunsKeep(initial, steps, m);
    assert b in m.stored;
    var k :| 0 <= k < |m.stored| && m.stored[k] == b;
    assert m.stored[k] <= m.stored[|m.stored| - 1];
  }

  /** Readers never go back: a later read, by any thread, sees a build no older, and sees that build's own state. */
  lemma ReadsNeverGoBack<T(!new)>(initial: T, steps: seq<Step<T>>, m: Machine<T>, i: nat, j: nat)
    requires IsRun(initial, steps, m) && i <= j < |m.seen|
    ensures m.seen[i].number <= m.seen[j].number
    ensures m.seen[j].state == if m.seen[j].number == 0 then initial else Version(m, initial, m.seen[j].number)
  {
    RunsKeep(initial, steps, m);
  }

  // ----- one refresh among all the others

  /** The steps lead from m to m', each enabled where it is taken. */
  ghost predicate Leads<T>(m: Machine<T>, steps: seq<Step<T>>, m': Machine<T>)
    decreases |steps|
  {
    if steps == [] then m' == m else Enabled(m, steps[0]) && Leads(Next(m, steps[0]), steps[1..], m')
  }

  /** How far a thread is in its critical section. */
  function Progress<T>(pc: Pc<T>): nat {
    match pc
    case Idle => 0
    case Waiting => 0
    case Locked => 1
    case Building(_) => 2
    case Finished(_, _) => 3
    case Replacing(_, _) => 4
    case Stored(_) => 5
  }

  /** While t holds the lock every step but its own leaves the critical section as it is, and its own lead forward. */
  lemma HolderStep<T>(m: Machine<T>, s: Step<T>, t: Thread)
    requires LockProtects(m) && m.holder == Some(t) && Critical(PcOf(m, t)) && Enabled(m, s) && s != Unlock(t)
    ensures var m' := Next(m, s);
            && m'.holder == Some(t) && Critical(PcOf(m', t)) && Progress(PcOf(m, t)) <= Progress(PcOf(m', t))
            && (s.thread != t || s.Read? ==> PcOf(m', t) == PcOf(m, t))
            && (s.StoreNext? ==> s.thread == t)
            && (s.BeginBuild? ==> s.thread == t)
  {
    if s.thread != t && s.thread in m.pcs { assert !Critical(m.pcs[s.thread]); }
  }

  /** What a thread in its critical section has done since it was at `from`. */
  ghost predicate RefreshFits<T>(m: Machine<T>, m': Machine<T>, t: Thread) {
    && m'.holder == Some(t) && Critical(PcOf(m', t)) && Progress(PcOf(m, t)) <= Progress(PcOf(m', t))
    && |m.seen| <= |m'.seen| && m'.seen[..|m.seen|] == m.seen
    && match PcOf(m', t)
       case Stored(n) =>
         if PcOf(m, t).Stored? then SameState(m, m')
         else
           && m'.stored == m.stored + [n] && m'.number == n && n in m'.finished && m'.finished[n] == Some(m'.current)
           && forall k :: |m.seen| <= k < |m'.seen| ==>
                || (m'.seen[k].number == m.number && m'.seen[k].state == m.current)
                || (m'.seen[k].number == n && m'.seen[k].state == m'.current)
       case _ => SameState(m, m')
  }

  /** The pointer and the stored builds are untouched, and whoever has read the pointer since saw just that. */
  ghost predicate SameState<T>(m: Machine<T>, m': Machine<T>) {
    && m'.current == m.current && m'.number == m.number && m'.stored == m.stored
    && |m.seen| <= |m'.seen|
    && forall k :: |m.seen| <= k < |m'.seen| ==> m'.seen[k].number == m.number && m'.seen[k].state == m.current
  }

  lemma RefreshStep<T>(first: Machine<T>, m: Machine<T>, s: Step<T>, t: Thread, initial: T)
    requires Inv(m, initial) && m.holder == Some(t) && RefreshFits(first, m, t) && Enabled(m, s) && s != Unlock(t)
    ensures RefreshFits(first, Next(m, s), t)
  {
    HolderStep(m, s, t);
    assert CriticalFits(m, PcOf(m, t));
    hide Inv, Settled, CurrentIsLastStored, LockProtects;
  }

  /** Any steps of any threads, between two moments of one critical section. */
  lemma {:induction false} RefreshOverRuns<T(!new)
    >(first: Machine<T>, m: Machine<T>, steps: seq<Step<T>>, m': Machine<T>, t: Thread, initial: T)
    requires Inv(m, initial) && RefreshFits(first, m, t)
    requires Leads(m, steps, m') && Unlock(t) !in steps
    ensures Inv(m', initial) && RefreshFits(first, m', t)
    decreases |steps|
  {
    hide Inv, RefreshFits, Enabled, Next;
    if steps != [] {
      HolderOf(first, m, t);
      RefreshStep(first, m, steps[0], t, initial);
      NextKeeps(m, steps[0], initial);
      RefreshOverRuns(first, Next(m, steps[0]), steps[1..], m', t, initial);
    }
  }

  lemma HolderOf<T>(first: Machine<T>, m: Machine<T>, t: Thread)
    requires RefreshFits(first, m, t)
    ensures m.holder == Some(t)
  {}

  lemma RefreshBegins<T>(m: Machine<T>, t: Thread, initial: T)
    requires Inv(m, initial) && m.holder == Some(t)
    ensures RefreshFits(m, m, t)
  {}

  /**
   A refresh whose build fails changes nothing: from any moment it holds the lock until it has released it, whatever
   any number of other calls do meanwhile, the pointer and the stored builds stay as they were, and every reader sees
   the state there was.
   */
  lemma FailedBuildChangesNothing<T(!new)>(initial: T, before: seq<Step<T>>, m: Machine<T>, t: Thread,
                                           steps: seq<Step<T>>, m': Machine<T>)
    requires IsRun(initial, before, m) && m.holder == Some(t)
    requires Leads(m, steps, m') && Unlock(t) !in steps
    requires PcOf(m', t).Finished? && PcOf(m', t).result.None?
    ensures Enabled(m', Unlock(t)) && SameState(m, Next(m', Unlock(t))) && Next(m', Unlock(t)).holder.None?
    ensures PcOf(m', t).number !in Next(m', Unlock(t)).stored
  {
    RunsKeep(initial, before, m);
    RefreshBegins(m, t, initial);
    RefreshOverRuns(m, m, steps, m', t, initial);
    assert CriticalFits(m', PcOf(m', t));
  }

  /**
   A refresh whose build succeeds has stored exactly that build when it releases the lock, and nothing else was stored
   meanwhile.
   */
  lemma SuccessfulBuildIsStored<T(!new)>(initial: T, before: seq<Step<T>>, m: Machine<T>, t: Thread,
                                         steps: seq<Step<T>>, m': Machine<T>)
    requires IsRun(initial, before, m) && PcOf(m, t).Locked?
    requires Leads(m, steps, m') && Unlock(t) !in steps && Enabled(m', Unlock(t))
    ensures PcOf(m', t).Finished? || PcOf(m', t).Stored?
    ensures PcOf(m', t).Stored? ==>
              var n := PcOf(m', t).number;
              && n in m'.finished && m'.finished[n] == Some(m'.current) && m'.stored == m.stored + [n]
              && Next(m', Unlock(t)).current == m'.current
  {
    RunsKeep(initial, before, m);
    LockedHolds(m, t, initial);
    RefreshBegins(m, t, initial);
    RefreshOverRuns(m, m, steps, m', t, initial);
  }

  lemma LockedHolds<T>(m: Machine<T>, t: Thread, initial: T)
    requires Inv(m, initial) && PcOf(m, t).Locked?
    ensures m.holder == Some(t)
  {}

  /** Whoever holds the lock can take a step, so a refresh that is waiting never waits for ever on a stuck holder. */
  lemma HolderCanMove<T(!new)>(initial: T, steps: seq<Step<T>>, m: Machine<T>) returns (s: Step<T>)
    requires IsRun(initial, steps, m) && m.holder.Some?
    ensures s.thread == m.holder.value && Enabled(m, s)
  {
    RunsKeep(initial, steps, m);
    var t := m.holder.value;
    match PcOf(m, t) {
      case Locked => s := BeginBuild(t);
      case Building(_) => s := EndBuild(t, None);
      case Finished(_, result) => s := if result.Some? then LoadPrevious(t) else Unlock(t);
      case Replacing(_, _) => s := StoreNext(t);
      case Stored(_) => s := Unlock(t);
    }
  }

  // ----- the manager as an object

  /** The fields of the source, with the machine as its ghost; each method is one atomic step of a call. */
  class Manager<T> {
    var current: T
    var mu: Option<Thread>
    ghost const initial: T
    ghost var machine: Machine<T>

    ghost predicate Valid()
      reads this
    {
      Inv(machine, initial) && machine.current == current && machine.holder == mu
    }

    constructor (initial: T)
      ensures Valid() && current == initial && machine == Start(initial)
    {
      this.initial := initial;
      current, mu := initial, None;
      machine := Start(initial);
    }

    method CurrentSnapshot(t: Thread) returns (state: T)
      requires Valid() && Enabled(machine, Read(t))
      modifies this`machine
      ensures Valid() && state == current && machine == Next(old(machine), Read(t))
    {
      state := current;
      NextKeeps(machine, Read(t), initial);
      machine := Next(machine, Read(t));
    }

    method Acquire(t: Thread)
      requires Valid() && Enabled(machine, Lock(t))
      modifies this`mu, this`machine
      ensures Valid() && mu == Some(t) && machine == Next(old(machine), Lock(t))
    {
      NextKeeps(machine, Lock(t), initial);
      mu := Some(t);
      machine := Next(machine, Lock(t));
    }

    method Swap(t: Thread, next: T)
      requires Valid() && Enabled(machine, StoreNext(t)) && PcOf(machine, t).next == next
      modifies this`current, this`machine
      ensures Valid() && current == next && machine == Next(old(machine), StoreNext(t))
    {
      NextKeeps(machine, StoreNext(t), initial);
      current := next;
      machine := Next(machine, StoreNext(t));
    }

    method Release(t: Thread)
      requires Valid() && Enabled(machine, Unlock(t))
      modifies this`mu, this`machine
      ensures Valid() && mu.None? && machine == Next(old(machine), Unlock(t))
    {
      NextKeeps(machine, Unlock(t), initial);
      mu := None;
      machine := Next(machine, Unlock(t));
    }

    ghost method Local(s: Step<T>)
      requires Valid() && Enabled(machine, s) && (s.CallRefresh? || s.BeginBuild? || s.EndBuild? || s.LoadPrevious?)
      modifies this`machine
      ensures Valid() && machine == Next(old(machine), s)
    {
      NextKeeps(machine, s, initial);
      machine := Next(machine, s);
    }

    /** The steps of one `Refresh` in the order the code takes them, when no other call comes between. */
    method Refresh(t: Thread, built: Option<T>) returns (ok: bool)
      requires Valid() && PcOf(machine, t).Idle? && mu.None?
      modifies this
      ensures Valid() && PcOf(machine, t).Idle? && mu.None?
      ensures ok <==> built.Some?
      ensures current == if ok then built.value else old(current)
      ensures machine.stored == old(machine.stored) + (if ok then [machine.started] else [])
      ensures machine.started == old(machine.started) + 1
    {
      hide Inv;
      Local(CallRefresh(t));
      Acquire(t);
      Local(BeginBuild(t));
      Local(EndBuild(t, built));
      if built.None? {
        Release(t);
        return false;
      }
      Local(LoadPrevious(t));
      Swap(t, built.value);
      Release(t);
      return true;
    }
  }
}
