/**
 Skill latency metrics (internal/agent/skill_metrics.go): a rolling average in integer arithmetic, which truncates
 at every record.
 */
module SkillMetrics {
  import opened Ordering
  import Text

  datatype SkillMetric = SkillMetric(skillId: string, invocationCount: int, lastObservedAt: string,
                                     lastLatencyMillis: int, averageLatencyMs: int)

  /** Go's integer division. */
  function TruncDiv(a: int, b: int): int
    requires b > 0
  {
    if a >= 0 then a / b else -((-a) / b)
  }

  function RollingAverage(previous: int, count: int, latest: int): int {
    if count <= 1 then latest else TruncDiv(previous * (count - 1) + latest, count)
  }

  /** The stored average after recording the latencies in turn. */
  function Average(latencies: seq<int>): int
    requires latencies != []
  {
    var n := |latencies|;
    if n == 1 then latencies[0] else RollingAverage(Average(latencies[..n - 1]), n, latencies[n - 1])
  }

  function Sum(latencies: seq<int>): int {
    if latencies == [] then 0 else Sum(latencies[..|latencies| - 1]) + latencies[|latencies| - 1]
  }

  // ----- how far the average drifts

  lemma MulLe(n: nat, x: int, y: int)
    requires x <= y
    ensures n * x <= n * y
  {}

  /** One truncating step: between the exact weighted sum and less than one whole count below it. */
  lemma StepBounds(previous: int, count: int, latest: int)
    requires count > 1 && previous >= 0 && latest >= 0
    ensures var a := RollingAverage(previous, count, latest);
            a >= 0 && count * a <= previous * (count - 1) + latest <= count * a + count - 1
  {
    var total := previous * (count - 1) + latest;
    MulLe(count - 1, 0, previous);
    assert total >= 0;
    DivBounds(total, count);
  }

  lemma DivBounds(a: int, b: int)
    requires a >= 0 && b > 0
    ensures a / b >= 0 && b * (a / b) <= a <= b * (a / b) + b - 1
  {}

  lemma Divides(k: int, x: int, y: int)
    requires k > 0 && k * x <= k * y + k - 1
    ensures x <= y
  {
    if x > y { MulLe(k, y + 1, x); }
  }

  lemma {:induction false} StaysInRange(latencies: seq<int>, least: int, greatest: int)
    requires latencies != [] && 0 <= least
    requires forall k :: 0 <= k < |latencies| ==> least <= latencies[k] <= greatest
    ensures least <= Average(latencies) <= greatest
  {
    hide RollingAverage;
    var n := |latencies|;
    if n > 1 {
      var previous, latest := Average(latencies[..n - 1]), latencies[n - 1];
      StaysInRange(latencies[..n - 1], least, greatest);
      StepBounds(previous, n, latest);
      var a := RollingAverage(previous, n, latest);
      MulLe(n - 1, least, previous);
      MulLe(n - 1, previous, greatest);
      Weighted(n, least);
      Weighted(n, greatest);
      assert previous * (n - 1) == (n - 1) * previous;
      Divides(n, least, a);
      Divides(n, a, greatest);
    }
  }

  lemma Weighted(n: int, x: int)
    ensures (n - 1) * x + x == n * x
  {}

  /** n times the average never exceeds the sum, and lags it by at most n(n-1)/2. */
  lemma {:induction false} DriftIsBounded(latencies: seq<int>)
    requires latencies != [] && forall k :: 0 <= k < |latencies| ==> latencies[k] >= 0
    ensures var n := |latencies|;
            n * Average(latencies) <= Sum(latencies) && 2 * (Sum(latencies) - n * Average(latencies)) <= n * (n - 1)
  {
    hide RollingAverage;
    var n := |latencies|;
    if n == 1 {
      assert latencies[..0] == [];
    } else {
      var previous, latest := Average(latencies[..n - 1]), latencies[n - 1];
      DriftIsBounded(latencies[..n - 1]);
      AverageNonNegative(latencies[..n - 1]);
      StepBounds(previous, n, latest);
      assert previous * (n - 1) == (n - 1) * previous;
      assert n * (n - 1) == (n - 1) * (n - 2) + 2 * (n - 1);
    }
  }

  lemma {:induction false} AverageNonNegative(latencies: seq<int>)
    requires latencies != [] && forall k :: 0 <= k < |latencies| ==> latencies[k] >= 0
    ensures Average(latencies) >= 0
  {
    hide RollingAverage;
    var n := |latencies|;
    if n > 1 {
      AverageNonNegative(latencies[..n - 1]);
      StepBounds(Average(latencies[..n - 1]), n, latencies[n - 1]);
    }
  }

  /** Against the true mean: never above it, and at most (n - 1) / 2 below. */
  lemma AverageLagsTheMean(latencies: seq<int>)
    requires latencies != [] && forall k :: 0 <= k < |latencies| ==> latencies[k] >= 0
    ensures var n := |latencies|;
            var mean := (Sum(latencies) as real) / (n as real);
            0.0 <= mean - (Average(latencies) as real) <= ((n - 1) as real) / 2.0
  {
    hide Average, Sum;
    DriftIsBounded(latencies);
    var n, s, a := |latencies|, Sum(latencies), Average(latencies);
    var gap := s - n * a;
    assert (s as real) == (n as real) * (a as real) + (gap as real);
    Ratio(n, a, gap);
  }

  lemma Ratio(n: nat, a: int, gap: int)
    requires n > 0 && 0 <= gap && 2 * gap <= n * (n - 1)
    ensures var s := (n as real) * (a as real) + (gap as real);
            0.0 <= s / (n as real) - (a as real) <= ((n - 1) as real) / 2.0
  {
    var r := n as real;
    assert ((r * (a as real)) + (gap as real)) / r == (a as real) + (gap as real) / r;
    assert 2.0 * (gap as real) <= r * ((n - 1) as real);
    Halve(gap as real, r, (n - 1) as real);
  }

  lemma Halve(gap: real, r: real, m: real)
    requires r > 0.0 && 0.0 <= gap && 2.0 * gap <= r * m
    ensures 0.0 <= gap / r <= m / 2.0
  {
    assert gap / r <= (r * m / 2.0) / r;
    assert (r * m / 2.0) / r == m / 2.0;
  }

  function Counting(n: nat): (r: seq<int>)
    ensures |r| == n && forall k :: 0 <= k < n ==> r[k] == k
  {
    seq(n, k => k)
  }

  /** The bound is exact: latencies 0, 1, ..., n - 1 leave the average at 0 while their mean is (n - 1) / 2. */
  lemma {:induction false} DriftIsAttained(n: nat)
    requires n > 0
    ensures Average(Counting(n)) == 0 && 2 * Sum(Counting(n)) == n * (n - 1)
  {
    var l := Counting(n);
    if n == 1 {
      assert l[..0] == [];
    } else {
      DriftIsAttained(n - 1);
      assert l[..n - 1] == Counting(n - 1);
      assert RollingAverage(0, n, n - 1) == 0;
      assert n * (n - 1) == (n - 1) * (n - 2) + 2 * (n - 1);
    }
  }

  // ----- the store

  predicate IdBefore(a: SkillMetric, b: SkillMetric) {
    Text.LexLess(a.skillId, b.skillId)
  }

  lemma IdBeforeIsWeakOrder()
    ensures WeakOrder(IdBefore)
  {
    hide Text.LexLess;
    forall x, y | IdBefore(x, y) ensures !IdBefore(y, x) { Text.LexAsymmetric(x.skillId, y.skillId); }
    forall x, y, z | IdBefore(x, z) ensures IdBefore(x, y) || IdBefore(y, z) {
      Text.LexNegativelyTransitive(x.skillId, y.skillId, z.skillId);
    }
  }

  function SkillIdOf(m: SkillMetric): string {
    m.skillId
  }

  /** The metric tells the truth about a skill's latencies. */
  ghost predicate Reflects(m: SkillMetric, latencies: seq<int>) {
    && latencies != []
    && m.invocationCount == |latencies| && m.lastLatencyMillis == latencies[|latencies| - 1]
    && m.averageLatencyMs == Average(latencies)
  }

  ghost predicate Faithful(skills: seq<SkillMetric>, history: map<string, seq<int>>) {
    && (forall k :: 0 <= k < |skills| ==>
          skills[k].skillId in history && Reflects(skills[k], history[skills[k].skillId]))
    && (forall id :: id in history ==> exists k :: 0 <= k < |skills| && skills[k].skillId == id)
    && DistinctBy(skills, SkillIdOf)
  }

  function Recorded(history: map<string, seq<int>>, id: string, millis: int): map<string, seq<int>> {
    history[id := (if id in history then history[id] else []) + [millis]]
  }

  lemma AverageSnoc(latencies: seq<int>, millis: int)
    requires latencies != []
    ensures Average(latencies + [millis]) == RollingAverage(Average(latencies), |latencies| + 1, millis)
  {
    assert (latencies + [millis])[..|latencies|] == latencies;
  }

  lemma UpdateIsFaithful(skills: seq<SkillMetric>, history: map<string, seq<int>>, i: nat, m: SkillMetric, millis: int)
    requires Faithful(skills, history) && i < |skills| && m.skillId == skills[i].skillId
    requires m.invocationCount == skills[i].invocationCount + 1 && m.lastLatencyMillis == millis
    requires m.averageLatencyMs == RollingAverage(skills[i].averageLatencyMs, m.invocationCount, millis)
    ensures Faithful(skills[i := m], Recorded(history, m.skillId, millis))
  {
    hide Average, RollingAverage;
    AverageSnoc(history[m.skillId], millis);
    var next := skills[i := m];
    forall id | id in Recorded(history, m.skillId, millis)
      ensures exists k :: 0 <= k < |next| && next[k].skillId == id
    {
      var k :| 0 <= k < |skills| && skills[k].skillId == id;
      assert next[k].skillId == id;
    }
  }

  lemma AppendIsFaithful(skills: seq<SkillMetric>, history: map<string, seq<int>>, m: SkillMetric, millis: int)
    requires Faithful(skills, history) && forall k :: 0 <= k < |skills| ==> skills[k].skillId != m.skillId
    requires m.invocationCount == 1 && m.lastLatencyMillis == m.averageLatencyMs == millis
    ensures Faithful(skills + [m], Recorded(history, m.skillId, millis))
  {
    assert m.skillId !in history;
    var next := skills + [m];
    assert next[|skills|] == m;
    forall id | id in Recorded(history, m.skillId, millis)
      ensures exists k :: 0 <= k < |next| && next[k].skillId == id
    {
      if id != m.skillId {
        var k :| 0 <= k < |skills| && skills[k].skillId == id;
        assert next[k].skillId == id;
      }
    }
  }

  lemma SortIsFaithful(skills: seq<SkillMetric>, sorted: seq<SkillMetric>, history: map<string, seq<int>>)
    requires Faithful(skills, history) && multiset(skills) == multiset(sorted)
    ensures Faithful(sorted, history)
  {
    hide Reflects;
    SameElements(skills, sorted);
    forall k | 0 <= k < |sorted|
      ensures sorted[k].skillId in history && Reflects(sorted[k], history[sorted[k].skillId])
    {
      assert sorted[k] in skills;
    }
    forall id | id in history ensures exists k :: 0 <= k < |sorted| && sorted[k].skillId == id {
      var k :| 0 <= k < |skills| && skills[k].skillId == id;
      assert skills[k] in sorted;
    }
    DistinctPermutes(skills, sorted, SkillIdOf);
  }

  lemma OthersStay(skills: seq<SkillMetric>, k: nat, next: SkillMetric)
    requires k < |skills| && skills[k].skillId == next.skillId
    ensures forall m: SkillMetric :: m.skillId != next.skillId ==> (m in skills[k := next] <==> m in skills)
  {
    forall m: SkillMetric | m.skillId != next.skillId ensures m in skills[k := next] <==> m in skills {
      if m in skills {
        var i :| 0 <= i < |skills| && skills[i] == m;
        assert skills[k := next][i] == m;
      }
    }
  }

  class MetricsStore {
    var skills: seq<SkillMetric>
    ghost var history: map<string, seq<int>>

    ghost predicate Valid()
      reads this
    {
      Faithful(skills, history)
    }

    constructor ()
      ensures Valid() && history == map[]
    {
      skills, history := [], map[];
    }

    method Save()
      requires Valid()
      modifies this`skills
      ensures Valid() && IsSort(old(skills), skills, IdBefore)
    {
      hide Faithful;
      IdBeforeIsWeakOrder();
      var sorted := SortSlice(skills, IdBefore);
      SortIsFaithful(skills, sorted, history);
      skills := sorted;
    }

    method RecordSkillLatency(id: string, millis: int, observedAt: string)
      requires Valid()
      modifies this
      ensures Valid() && history == Recorded(old(history), id, millis)
      ensures exists m :: m in skills && m.skillId == id && m.lastObservedAt == observedAt
      ensures forall m: SkillMetric :: m.skillId != id ==> (m in skills <==> m in old(skills))
    {
      hide Faithful, RollingAverage, Recorded, Average;
      ghost var before := skills;
      var k := FindSkill(id);
      if k < |skills| {
        var m := skills[k];
        var count := m.invocationCount + 1;
        var next := SkillMetric(id, count, observedAt, millis, RollingAverage(m.averageLatencyMs, count, millis));
        UpdateIsFaithful(skills, history, k, next, millis);
        skills := skills[k := next];
        assert skills[k] == next;
        OthersStay(before, k, next);
      } else {
        var first := SkillMetric(id, 1, observedAt, millis, millis);
        AppendIsFaithful(skills, history, first, millis);
        skills := skills + [first];
      }
      history := Recorded(history, id, millis);
      ghost var unsorted := skills;
      Save();
      SameElements(unsorted, skills);
    }

    method FindSkill(id: string) returns (k: nat)
      ensures k <= |skills| && (k < |skills| ==> skills[k].skillId == id)
      ensures forall j :: 0 <= j < k ==> skills[j].skillId != id
    {
      k := 0;
      while k < |skills| && skills[k].skillId != id
        invariant k <= |skills| && forall j :: 0 <= j < k ==> skills[j].skillId != id
      {
        k := k + 1;
      }
    }
  }
}
