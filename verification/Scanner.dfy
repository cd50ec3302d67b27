/**
 The redaction scanner (internal/policy/scanner.go): matches are collected rule by rule, sorted, thinned to
 non-overlapping ones and spliced out of the text from right to left.  A rule's regular expression is an
 arbitrary function from texts to spans.
 */
module Scanner {
  import opened Ordering

  datatype FindingAction = ActionRedact | ActionBlock

  datatype Span = Span(start: nat, end: nat)

  datatype Rule = Rule(id: string, category: string, action: FindingAction, pattern: string -> seq<Span>,
                       replacement: string)

  datatype Finding = Finding(ruleId: string, category: string, action: FindingAction,
                             start: nat, end: nat, length: nat, replacement: string)

  datatype Match = Match(ruleIndex: nat, finding: Finding)

  datatype ScanResult = ScanResult(findings: seq<Finding>, redactedBody: string, hasBlockingFindings: bool)

  /** What `FindAllStringIndex` promises about one text. */
  ghost predicate InRange(spans: seq<Span>, length: nat) {
    forall k :: 0 <= k < |spans| ==> spans[k].start <= spans[k].end <= length
  }

  ghost predicate PatternsFit(rules: seq<Rule>, text: string) {
    forall i :: 0 <= i < |rules| ==> InRange(rules[i].pattern(text), |text|)
  }

  function MatchAt(rules: seq<Rule>, i: nat, span: Span): Match
    requires i < |rules| && span.start <= span.end
  {
    var rule := rules[i];
    Match(i, Finding(rule.id, rule.category, rule.action, span.start, span.end, span.end - span.start,
                     rule.replacement))
  }

  /** m is one of the matches of the rules in the text. */
  ghost predicate Hits(rules: seq<Rule>, text: string, m: Match)
    requires PatternsFit(rules, text)
  {
    && m.ruleIndex < |rules|
    && exists k :: 0 <= k < |rules[m.ruleIndex].pattern(text)|
                   && m == MatchAt(rules, m.ruleIndex, rules[m.ruleIndex].pattern(text)[k])
  }

  /** Earlier start first, then the longer match, then the lower rule. */
  predicate Before(a: Match, b: Match) {
    if a.finding.start != b.finding.start then a.finding.start < b.finding.start
    else if a.finding.end != b.finding.end then a.finding.end > b.finding.end
    else a.ruleIndex < b.ruleIndex
  }

  lemma BeforeIsWeakOrder()
    ensures WeakOrder(Before)
  {
    forall x, y | Before(x, y) ensures !Before(y, x) {}
    forall x, y, z | Before(x, z) ensures Before(x, y) || Before(y, z) {}
  }

  ghost predicate FromRules(rules: seq<Rule>, text: string, ms: seq<Match>)
    requires PatternsFit(rules, text)
  {
    forall m :: m in ms ==> Hits(rules, text, m)
  }

  /** Matches that tie in the order are the same match, so the order decides everything. */
  lemma BeforeSeparates(rules: seq<Rule>, text: string, ms: seq<Match>)
    requires PatternsFit(rules, text) && FromRules(rules, text, ms)
    ensures Separates(ms, Before)
  {
    forall x, y | x in ms && y in ms && x != y ensures Before(x, y) || Before(y, x) {
      assert Hits(rules, text, x) && Hits(rules, text, y);
    }
  }

  // ----- the greedy selection

  /** Keeps a match unless it starts before the end of the last kept one. */
  function Select(ms: seq<Match>, lastEnd: int): (kept: seq<Match>)
    decreases |ms|
  {
    if ms == [] then []
    else if ms[0].finding.start < lastEnd then Select(ms[1..], lastEnd)
    else [ms[0]] + Select(ms[1..], ms[0].finding.end)
  }

  function LastEnd(ms: seq<Match>, lastEnd: int): int
    decreases |ms|
  {
    if ms == [] then lastEnd
    else LastEnd(ms[1..], if ms[0].finding.start < lastEnd then lastEnd else ms[0].finding.end)
  }

  lemma {:induction false} SelectSnoc(ms: seq<Match>, m: Match, lastEnd: int)
    ensures Select(ms + [m], lastEnd)
         == Select(ms, lastEnd) + (if m.finding.start < LastEnd(ms, lastEnd) then [] else [m])
    ensures LastEnd(ms + [m], lastEnd)
         == if m.finding.start < LastEnd(ms, lastEnd) then LastEnd(ms, lastEnd) else m.finding.end
    decreases |ms|
  {
    if ms != [] {
      assert (ms + [m])[1..] == ms[1..] + [m];
      SelectSnoc(ms[1..], m, if ms[0].finding.start < lastEnd then lastEnd else ms[0].finding.end);
    }
  }

  function Findings(ms: seq<Match>): (fs: seq<Finding>)
    ensures |fs| == |ms|
    ensures forall k :: 0 <= k < |ms| ==> fs[k] == ms[k].finding
  {
    seq(|ms|, k requires 0 <= k < |ms| => ms[k].finding)
  }

  /** Sorted and pairwise disjoint spans of the text at or after `from`. */
  ghost predicate Disjoint(fs: seq<Finding>, from: nat, length: nat) {
    && (forall k :: 0 <= k < |fs| ==> from <= fs[k].start <= fs[k].end <= length
                                      && fs[k].length == fs[k].end - fs[k].start)
    && (forall j, k :: 0 <= j < k < |fs| ==> fs[j].end <= fs[k].start)
  }

  ghost predicate WellSpanned(ms: seq<Match>, length: nat) {
    forall m :: m in ms ==> m.finding.start <= m.finding.end <= length
                            && m.finding.length == m.finding.end - m.finding.start
  }

  lemma {:induction false} SelectDisjoint(ms: seq<Match>, lastEnd: int, length: nat)
    requires SortedBy(ms, Before) && WellSpanned(ms, length)
    ensures Disjoint(Findings(Select(ms, lastEnd)), if lastEnd < 0 then 0 else lastEnd, length)
    decreases |ms|
  {
    if ms != [] {
      var m := ms[0];
      assert SortedBy(ms[1..], Before) && WellSpanned(ms[1..], length);
      assert m in ms;
      if m.finding.start < lastEnd {
        SelectDisjoint(ms[1..], lastEnd, length);
      } else {
        SelectDisjoint(ms[1..], m.finding.end, length);
        var kept, rest := Findings(Select(ms, lastEnd)), Findings(Select(ms[1..], m.finding.end));
        assert kept == [m.finding] + rest;
      }
    }
  }

  predicate StartsInside(m: Match, k: Match) {
    k.finding.start <= m.finding.start < k.finding.end
  }

  lemma {:induction false} SelectSubset(ms: seq<Match>, lastEnd: int)
    ensures forall m :: m in Select(ms, lastEnd) ==> m in ms && m.finding.start >= lastEnd
    requires SortedBy(ms, Before) && forall m :: m in ms ==> m.finding.start <= m.finding.end
    decreases |ms|
  {
    if ms != [] {
      SelectSubset(ms[1..], if ms[0].finding.start < lastEnd then lastEnd else ms[0].finding.end);
    }
  }

  /** k was chosen before m and m starts within it. */
  ghost predicate Covers(k: Match, m: Match) {
    StartsInside(m, k) && !Before(m, k)
  }

  /** A match that was not kept starts inside an earlier kept one, or before the bound the selection began with. */
  lemma {:induction false} DroppedIsCovered(ms: seq<Match>, lastEnd: int, m: Match)
    requires SortedBy(ms, Before)
    requires m in ms && m !in Select(ms, lastEnd)
    ensures m.finding.start < lastEnd || exists k :: k in Select(ms, lastEnd) && Covers(k, m)
    decreases |ms|
  {
    var head := ms[0];
    var next := if head.finding.start < lastEnd then lastEnd else head.finding.end;
    if m != head {
      assert m in ms[1..];
      DroppedIsCovered(ms[1..], next, m);
      if next != lastEnd && m.finding.start < next {
        var i :| 0 < i < |ms| && ms[i] == m;
        assert !Before(ms[i], ms[0]);
        assert Covers(head, m) && head in Select(ms, lastEnd);
      } else if m.finding.start >= lastEnd && m.finding.start >= next {
        var k :| k in Select(ms[1..], next) && Covers(k, m);
        assert k in Select(ms, lastEnd);
      }
    }
  }

  lemma {:induction false} SelectSorted(ms: seq<Match>, lastEnd: int)
    requires SortedBy(ms, Before)
    ensures SortedBy(Select(ms, lastEnd), Before)
    ensures forall m :: m in Select(ms, lastEnd) ==> m in ms
    decreases |ms|
  {
    if ms != [] {
      SelectSorted(ms[1..], if ms[0].finding.start < lastEnd then lastEnd else ms[0].finding.end);
      forall m | m in ms[1..] ensures !Before(m, ms[0]) {}
    }
  }

  lemma KeptAreApart(ms: seq<Match>, length: nat, a: Match, b: Match)
    requires SortedBy(ms, Before) && WellSpanned(ms, length)
    requires a in Select(ms, -1) && b in Select(ms, -1) && Before(a, b)
    ensures a.finding.end <= b.finding.start
  {
    SelectDisjoint(ms, -1, length);
    SelectSorted(ms, -1);
    var kept := Select(ms, -1);
    var i :| 0 <= i < |kept| && kept[i] == a;
    var j :| 0 <= j < |kept| && kept[j] == b;
    assert Findings(kept)[i] == a.finding && Findings(kept)[j] == b.finding;
  }

  /**
   The selection from outside: a match is kept exactly when no kept match that precedes it contains its start.
   With the disjointness of the kept spans this leaves no choice in what is kept.
   */
  lemma KeptIffUncovered(ms: seq<Match>, length: nat, m: Match)
    requires SortedBy(ms, Before) && WellSpanned(ms, length) && Separates(ms, Before) && m in ms
    ensures m in Select(ms, -1) <==> !exists k :: k in Select(ms, -1) && k != m && Covers(k, m)
  {
    SelectSorted(ms, -1);
    var kept := Select(ms, -1);
    if m in kept {
      forall k | k in kept && k != m ensures !Covers(k, m) {
        if Before(k, m) { KeptAreApart(ms, length, k, m); }
      }
    } else {
      DroppedIsCovered(ms, -1, m);
    }
  }

  /**
   A kept match that is not empty precedes every other match with its start: none is longer, and none as long has a
   lower rule.
   */
  lemma KeptIsLongest(ms: seq<Match>, length: nat, kept: Match, m: Match)
    requires SortedBy(ms, Before) && WellSpanned(ms, length) && Separates(ms, Before)
    requires kept in Select(ms, -1) && kept.finding.start < kept.finding.end
    requires m in ms && m.finding.start == kept.finding.start
    ensures m.finding.end < kept.finding.end
         || (m.finding.end == kept.finding.end && kept.ruleIndex <= m.ruleIndex)
  {
    if Before(m, kept) {
      if m in Select(ms, -1) {
        KeptAreApart(ms, length, m, kept);
      } else {
        DroppedIsCovered(ms, -1, m);
        var k :| k in Select(ms, -1) && Covers(k, m);
        SelectSorted(ms, -1);
        assert k in ms;
        KeptAreApart(ms, length, k, kept);
      }
    }
  }

  // ----- the replacements

  /** One pass from the left: copy the gap before each span, then write its replacement. */
  function Rewrite(text: string, fs: seq<Finding>, from: nat): string
    requires from <= |text| && Disjoint(fs, from, |text|)
    decreases |fs|
  {
    if fs == [] then text[from..]
    else text[from..fs[0].start] + fs[0].replacement + Rewrite(text, fs[1..], fs[0].end)
  }

  lemma Regroup(a: string, b: string, c: string, d: string)
    ensures (a + b) + c + d == a + (b + c + d)
  {}

  /** Everything between `from` and the first span is copied, so the pass may as well begin later. */
  lemma RewriteFrom(text: string, fs: seq<Finding>, from: nat, mid: nat)
    requires from <= mid <= |text| && Disjoint(fs, mid, |text|)
    ensures Disjoint(fs, from, |text|)
    ensures Rewrite(text, fs, from) == text[from..mid] + Rewrite(text, fs, mid)
  {
    if fs == [] {
      assert text[from..] == text[from..mid] + text[mid..];
    } else {
      var s := fs[0].start;
      assert text[from..s] == text[from..mid] + text[mid..s];
      Regroup(text[from..mid], text[mid..s], fs[0].replacement, Rewrite(text, fs[1..], fs[0].end));
    }
  }

  lemma SpliceText(text: string, start: nat, end: nat, replacement: string, rest: string)
    requires start <= end <= |text|
    ensures var done := text[0..end] + rest;
            done[..start] + replacement + done[end..] == text[0..start] + replacement + rest
  {
    var done := text[0..end] + rest;
    assert done[..start] == text[0..start];
    assert done[end..] == rest;
  }

  /** One splice of the source's loop, at the first span, on a text whose later spans are already replaced. */
  lemma SpliceStep(text: string, fs: seq<Finding>, done: string)
    requires fs != [] && Disjoint(fs, 0, |text|) && Disjoint(fs[1..], 0, |text|)
    requires done == Rewrite(text, fs[1..], 0)
    ensures fs[0].end <= |done|
    ensures done[..fs[0].start] + fs[0].replacement + done[fs[0].end..] == Rewrite(text, fs, 0)
  {
    RewriteFrom(text, fs[1..], 0, fs[0].end);
    SpliceText(text, fs[0].start, fs[0].end, fs[0].replacement, Rewrite(text, fs[1..], fs[0].end));
  }

  ghost predicate StandsAt(whole: string, at: int, part: string) {
    0 <= at <= at + |part| <= |whole| && whole[at..at + |part|] == part
  }

  /** Each span's own replacement is in the result, at a position that depends only on the spans before it. */
  lemma {:induction false} ReplacementsStand(text: string, fs: seq<Finding>, from: nat, k: nat)
    requires from <= |text| && Disjoint(fs, from, |text|) && k < |fs|
    ensures StandsAt(Rewrite(text, fs, from), fs[k].start - from + Shift(fs[..k], fs[k].start), fs[k].replacement)
    decreases k
  {
    var f := fs[0];
    DisjointTail(fs, from, |text|, k);
    hide Disjoint, StandsAt;
    var gap, rest := text[from..f.start], Rewrite(text, fs[1..], f.end);
    assert Rewrite(text, fs, from) == gap + f.replacement + rest;
    if k == 0 {
      assert Shift(fs[..0], f.start) == 0;
      hide Rewrite, Shift;
      StandsInMiddle(gap, f.replacement, rest);
    } else {
      ReplacementsStand(text, fs[1..], f.end, k - 1);
      ShiftOfTail(fs, k);
      hide Rewrite, Shift;
      var at := fs[k].start - f.end + Shift(fs[1..][..k - 1], fs[k].start);
      StandsInThird(gap, f.replacement, rest, at, fs[k].replacement);
    }
  }

  lemma ShiftOfTail(fs: seq<Finding>, k: nat)
    requires 0 < k < |fs| && fs[0].end <= fs[k].start
    ensures Shift(fs[..k], fs[k].start)
         == |fs[0].replacement| - fs[0].length + Shift(fs[1..][..k - 1], fs[k].start)
  {
    assert fs[1..][..k - 1] == fs[..k][1..];
  }

  lemma DisjointTail(fs: seq<Finding>, from: nat, length: nat, k: nat)
    requires Disjoint(fs, from, length) && k < |fs|
    ensures from <= fs[0].start <= fs[0].end <= length && fs[0].length == fs[0].end - fs[0].start
    ensures Disjoint(fs[1..], fs[0].end, length)
    ensures k > 0 ==> fs[0].end <= fs[k].start
  {}

  lemma StandsInMiddle(a: string, b: string, c: string)
    ensures StandsAt(a + b + c, |a|, b)
  {}

  lemma StandsInThird(a: string, b: string, c: string, at: int, part: string)
    requires StandsAt(c, at, part)
    ensures StandsAt(a + b + c, |a| + |b| + at, part)
  {}

  /** How much the spans ending at or before p lengthen the text. */
  function Shift(fs: seq<Finding>, p: nat): int {
    if fs == [] then 0
    else (if fs[0].end <= p then |fs[0].replacement| - fs[0].length else 0) + Shift(fs[1..], p)
  }

  lemma {:induction false} RewriteLength(text: string, fs: seq<Finding>, from: nat)
    requires from <= |text| && Disjoint(fs, from, |text|)
    ensures |Rewrite(text, fs, from)| == |text| - from + Shift(fs, |text|)
    decreases |fs|
  {
    if fs != [] {
      RewriteLength(text, fs[1..], fs[0].end);
    }
  }

  lemma {:induction false} NoShiftBefore(fs: seq<Finding>, p: nat)
    requires forall k :: 0 <= k < |fs| ==> p < fs[k].start <= fs[k].end
    ensures Shift(fs, p) == 0
  {
    if fs != [] { NoShiftBefore(fs[1..], p); }
  }

  ghost predicate Outside(fs: seq<Finding>, p: nat) {
    forall k :: 0 <= k < |fs| ==> !(fs[k].start <= p < fs[k].end)
  }

  lemma OutsideTail(fs: seq<Finding>, from: nat, length: nat, p: nat)
    requires fs != [] && Disjoint(fs, from, length) && Outside(fs, p)
    ensures from <= fs[0].start <= fs[0].end <= length && fs[0].length == fs[0].end - fs[0].start
    ensures Disjoint(fs[1..], fs[0].end, length) && Outside(fs[1..], p)
    ensures if p < fs[0].start then Shift(fs, p) == 0 else fs[0].end <= p
  {
    if p < fs[0].start { NoShiftBefore(fs, p); }
  }

  lemma IndexThird(a: string, b: string, c: string, k: nat)
    requires k < |c|
    ensures (a + b + c)[|a| + |b| + k] == c[k]
  {}

  lemma IndexFirst(a: string, b: string, c: string, k: nat)
    requires k < |a|
    ensures k < |a + b + c| && (a + b + c)[k] == a[k]
  {}

  /** A byte outside every span survives, at a position that depends only on the spans before it. */
  lemma {:induction false} OutsideSurvives(text: string, fs: seq<Finding>, from: nat, p: nat)
    requires from <= p < |text| && Disjoint(fs, from, |text|) && Outside(fs, p)
    ensures 0 <= p - from + Shift(fs, p) < |Rewrite(text, fs, from)|
    ensures Rewrite(text, fs, from)[p - from + Shift(fs, p)] == text[p]
    decreases |fs|
  {
    if fs != [] {
      OutsideTail(fs, from, |text|, p);
      hide Disjoint, Outside;
      var f := fs[0];
      var gap, rest := text[from..f.start], Rewrite(text, fs[1..], f.end);
      assert Rewrite(text, fs, from) == gap + f.replacement + rest;
      if p < f.start {
        IndexFirst(gap, f.replacement, rest, p - from);
      } else {
        OutsideSurvives(text, fs[1..], f.end, p);
        var k := p - f.end + Shift(fs[1..], p);
        IndexThird(gap, f.replacement, rest, k);
        assert |gap| + |f.replacement| + k == p - from + Shift(fs, p);
      }
    }
  }

  lemma {:induction false} ShiftGrows(fs: seq<Finding>, from: nat, length: nat, p: nat, q: nat)
    requires from <= p < q && Disjoint(fs, from, length) && Outside(fs, p) && Outside(fs, q)
    ensures p + Shift(fs, p) < q + Shift(fs, q)
    decreases |fs|
  {
    if fs != [] {
      var f := fs[0];
      assert Outside(fs[1..], p) && Outside(fs[1..], q);
      if f.end <= p {
        ShiftGrows(fs[1..], f.end, length, p, q);
      } else {
        NoShiftBefore(fs, p);
        ShiftFloor(fs, from, length, p + 1, q);
      }
    }
  }

  /** Replacing spans that start at or after p never moves a later position before p. */
  lemma {:induction false} ShiftFloor(fs: seq<Finding>, from: nat, length: nat, p: nat, q: nat)
    requires p <= q && Disjoint(fs, from, length)
    requires forall k :: 0 <= k < |fs| ==> p <= fs[k].start
    ensures q + Shift(fs, q) >= p
    decreases |fs|
  {
    if fs != [] && fs[0].end <= q {
      ShiftFloor(fs[1..], fs[0].end, length, fs[0].end, q);
    } else if fs != [] {
      NoShiftAfter(fs, q);
    }
  }

  lemma {:induction false} NoShiftAfter(fs: seq<Finding>, q: nat)
    requires forall k :: 0 <= k < |fs| ==> q < fs[k].end
    ensures Shift(fs, q) == 0
  {
    if fs != [] { NoShiftAfter(fs[1..], q); }
  }

  lemma {:induction false} RewriteNonEmpty(text: string, fs: seq<Finding>, from: nat)
    requires from <= |text| && Disjoint(fs, from, |text|)
    requires fs != [] && forall k :: 0 <= k < |fs| ==> fs[k].replacement != ""
    ensures Rewrite(text, fs, from) != ""
  {}

  // ----- one scan

  function RuleMatches(rules: seq<Rule>, i: nat, text: string): seq<Match>
    requires i < |rules| && PatternsFit(rules, text)
  {
    var spans := rules[i].pattern(text);
    seq(|spans|, k requires 0 <= k < |spans| => MatchAt(rules, i, spans[k]))
  }

  /** The matches of the first n rules, in the order the source collects them. */
  function Collected(rules: seq<Rule>, text: string, n: nat): seq<Match>
    requires n <= |rules| && PatternsFit(rules, text)
  {
    if n == 0 then [] else Collected(rules, text, n - 1) + RuleMatches(rules, n - 1, text)
  }

  lemma {:induction false} CollectedFits(rules: seq<Rule>, text: string, n: nat)
    requires n <= |rules| && PatternsFit(rules, text)
    ensures FromRules(rules, text, Collected(rules, text, n))
  {
    if n != 0 {
      CollectedFits(rules, text, n - 1);
      forall m | m in RuleMatches(rules, n - 1, text) ensures Hits(rules, text, m) {}
    }
  }

  lemma FromRulesSpanned(rules: seq<Rule>, text: string, ms: seq<Match>)
    requires PatternsFit(rules, text) && FromRules(rules, text, ms)
    ensures WellSpanned(ms, |text|)
  {
    forall m | m in ms
      ensures m.finding.start <= m.finding.end <= |text| && m.finding.length == m.finding.end - m.finding.start
    {
      assert Hits(rules, text, m);
    }
  }

  predicate HasBlocking(fs: seq<Finding>) {
    exists k :: 0 <= k < |fs| && fs[k].action == ActionBlock
  }

  /** The result the sorted matches `ms` lead to. */
  ghost function Outcome(text: string, ms: seq<Match>): (r: ScanResult)
    requires SortedBy(ms, Before) && WellSpanned(ms, |text|)
  {
    SelectDisjoint(ms, -1, |text|);
    var fs := Findings(Select(ms, -1));
    ScanResult(fs, Rewrite(text, fs, 0), HasBlocking(fs))
  }

  /** r is what a scan of the text gives, whatever order the matches were collected in. */
  ghost predicate IsScan(rules: seq<Rule>, text: string, r: ScanResult) {
    && PatternsFit(rules, text)
    && exists ms :: IsSort(Collected(rules, text, |rules|), ms, Before) && WellSpanned(ms, |text|)
                    && r == Outcome(text, ms)
  }

  /** The order of collection and the sort cannot change the outcome. */
  lemma CollectionOrderIrrelevant(rules: seq<Rule>, text: string, collected: seq<Match>, ms: seq<Match>, r: ScanResult)
    requires IsScan(rules, text, r)
    requires multiset(collected) == multiset(Collected(rules, text, |rules|))
    requires IsSort(collected, ms, Before) && WellSpanned(ms, |text|)
    ensures r == Outcome(text, ms)
  {
    var all := Collected(rules, text, |rules|);
    var ms' :| IsSort(all, ms', Before) && WellSpanned(ms', |text|) && r == Outcome(text, ms');
    CollectedFits(rules, text, |rules|);
    BeforeSeparates(rules, text, all);
    SortsAgree(all, collected, ms', ms, Before);
  }

  lemma ScanIsDetermined(rules: seq<Rule>, text: string, r: ScanResult, r': ScanResult)
    requires IsScan(rules, text, r) && IsScan(rules, text, r')
    ensures r == r'
  {
    var all := Collected(rules, text, |rules|);
    var ms :| IsSort(all, ms, Before) && WellSpanned(ms, |text|) && r' == Outcome(text, ms);
    CollectionOrderIrrelevant(rules, text, all, ms, r);
  }

  /** The kept spans are sorted and disjoint, the body is their rewrite, and its length follows from theirs. */
  lemma ScanShape(rules: seq<Rule>, text: string, r: ScanResult)
    requires IsScan(rules, text, r)
    ensures Disjoint(r.findings, 0, |text|)
    ensures r.redactedBody == Rewrite(text, r.findings, 0)
    ensures |r.redactedBody| == |text| + Shift(r.findings, |text|)
    ensures r.hasBlockingFindings <==> exists f :: f in r.findings && f.action == ActionBlock
    ensures r.findings == [] ==> r.redactedBody == text
  {
    var ms :| IsSort(Collected(rules, text, |rules|), ms, Before) && WellSpanned(ms, |text|) && r == Outcome(text, ms);
    SelectDisjoint(ms, -1, |text|);
    RewriteLength(text, r.findings, 0);
    if r.hasBlockingFindings {
      var k :| 0 <= k < |r.findings| && r.findings[k].action == ActionBlock;
      assert r.findings[k] in r.findings;
    }
  }

  lemma {:induction false} HitIsCollected(rules: seq<Rule>, text: string, n: nat, m: Match)
    requires n <= |rules| && PatternsFit(rules, text) && Hits(rules, text, m) && m.ruleIndex < n
    ensures m in Collected(rules, text, n)
  {
    if m.ruleIndex < n - 1 {
      HitIsCollected(rules, text, n - 1, m);
    } else {
      var k :| 0 <= k < |rules[n - 1].pattern(text)| && m == MatchAt(rules, n - 1, rules[n - 1].pattern(text)[k]);
      assert RuleMatches(rules, n - 1, text)[k] == m;
    }
  }

  /** The sorted matches behind a scan, and what is known of them. */
  lemma SortedMatches(rules: seq<Rule>, text: string, r: ScanResult) returns (ms: seq<Match>)
    requires IsScan(rules, text, r)
    ensures SortedBy(ms, Before) && WellSpanned(ms, |text|) && r == Outcome(text, ms)
    ensures Separates(ms, Before) && FromRules(rules, text, ms)
    ensures forall m :: Hits(rules, text, m) ==> m in ms
  {
    var all := Collected(rules, text, |rules|);
    ms :| IsSort(all, ms, Before) && WellSpanned(ms, |text|) && r == Outcome(text, ms);
    SameElements(all, ms);
    CollectedFits(rules, text, |rules|);
    BeforeSeparates(rules, text, ms);
    forall m | Hits(rules, text, m) ensures m in ms {
      HitIsCollected(rules, text, |rules|, m);
    }
  }

  lemma KeptIsReported(ms: seq<Match>, m: Match)
    requires m in Select(ms, -1)
    ensures m.finding in Findings(Select(ms, -1))
  {
    var kept := Select(ms, -1);
    var i :| 0 <= i < |kept| && kept[i] == m;
    assert Findings(kept)[i] == m.finding;
  }

  /** Every match of every rule is either reported or starts inside a reported span. */
  lemma EveryHitIsAnswered(rules: seq<Rule>, text: string, r: ScanResult, m: Match)
    requires IsScan(rules, text, r) && Hits(rules, text, m)
    ensures m.finding in r.findings || exists f :: f in r.findings && f.start <= m.finding.start < f.end
  {
    var ms := SortedMatches(rules, text, r);
    if m in Select(ms, -1) {
      KeptIsReported(ms, m);
    } else {
      DroppedIsCovered(ms, -1, m);
      var k :| k in Select(ms, -1) && Covers(k, m);
      KeptIsReported(ms, k);
    }
  }

  /** A reported span that is not empty is the longest match at its start, and among the longest the lowest rule's. */
  lemma ReportedIsLongest(rules: seq<Rule>, text: string, r: ScanResult, f: Finding)
    requires IsScan(rules, text, r) && f in r.findings && f.start < f.end
    ensures exists kept :: Hits(rules, text, kept) && kept.finding == f
              && forall m :: Hits(rules, text, m) && m.finding.start == f.start ==>
                   m.finding.end < f.end || (m.finding.end == f.end && kept.ruleIndex <= m.ruleIndex)
  {
    var ms := SortedMatches(rules, text, r);
    SelectSorted(ms, -1);
    var i :| 0 <= i < |r.findings| && r.findings[i] == f;
    var kept := Select(ms, -1)[i];
    assert Hits(rules, text, kept) && kept.finding == f;
    forall m | Hits(rules, text, m) && m.finding.start == f.start
      ensures m.finding.end < f.end || (m.finding.end == f.end && kept.ruleIndex <= m.ruleIndex)
    {
      KeptIsLongest(ms, |text|, kept, m);
    }
  }

  lemma FindingsComeFromRules(rules: seq<Rule>, text: string, r: ScanResult)
    requires IsScan(rules, text, r)
    ensures forall f :: f in r.findings ==>
              exists i :: 0 <= i < |rules| && f.replacement == rules[i].replacement && f.action == rules[i].action
  {
    hide WellSpanned, Before, Rewrite;
    var ms := SortedMatches(rules, text, r);
    SelectSorted(ms, -1);
    forall f | f in r.findings
      ensures exists i :: 0 <= i < |rules| && f.replacement == rules[i].replacement && f.action == rules[i].action
    {
      var k :| 0 <= k < |r.findings| && r.findings[k] == f;
      assert Hits(rules, text, Select(ms, -1)[k]);
    }
  }

  /** Every finding is a span of some rule's pattern, with that rule's ID, category, action and replacement. */
  lemma FindingsInWords(rules: seq<Rule>, text: string, r: ScanResult, f: Finding)
    requires IsScan(rules, text, r) && f in r.findings
    ensures exists rule, span :: rule in rules && span in rule.pattern(text)
              && f == Finding(rule.id, rule.category, rule.action, span.start, span.end, span.end - span.start,
                              rule.replacement)
  {
    hide WellSpanned, Before, Rewrite;
    var ms := SortedMatches(rules, text, r);
    SelectSorted(ms, -1);
    var k :| 0 <= k < |r.findings| && r.findings[k] == f;
    var m := Select(ms, -1)[k];
    assert Hits(rules, text, m);
    var rule := rules[m.ruleIndex];
    var i :| 0 <= i < |rule.pattern(text)| && m == MatchAt(rules, m.ruleIndex, rule.pattern(text)[i]);
    assert rule in rules && rule.pattern(text)[i] in rule.pattern(text);
  }

  /** With non-empty replacements a scan that finds something never empties the body. */
  lemma RedactedBodyNonEmpty(rules: seq<Rule>, text: string, r: ScanResult)
    requires IsScan(rules, text, r)
    requires forall i :: 0 <= i < |rules| ==> rules[i].replacement != ""
    ensures r.findings != [] ==> r.redactedBody != ""
  {
    ScanShape(rules, text, r);
    FindingsComeFromRules(rules, text, r);
    if r.findings != [] {
      forall k | 0 <= k < |r.findings| ensures r.findings[k].replacement != "" {
        assert r.findings[k] in r.findings;
      }
      RewriteNonEmpty(text, r.findings, 0);
    }
  }

  /** Every text has a scan. */
  lemma ScanExists(rules: seq<Rule>, text: string) returns (r: ScanResult)
    requires PatternsFit(rules, text)
    ensures IsScan(rules, text, r)
  {
    hide Before, WellSpanned, Outcome, PatternsFit;
    BeforeIsWeakOrder();
    var all := Collected(rules, text, |rules|);
    var ms := SortExists(all, Before);
    CollectedFits(rules, text, |rules|);
    FromRulesPermutes(rules, text, all, ms);
    FromRulesSpanned(rules, text, ms);
    r := Outcome(text, ms);
  }

  lemma FromRulesPermutes(rules: seq<Rule>, text: string, all: seq<Match>, ms: seq<Match>)
    requires PatternsFit(rules, text) && FromRules(rules, text, all) && multiset(all) == multiset(ms)
    ensures FromRules(rules, text, ms)
  {
    hide Hits;
    SameElements(all, ms);
  }

  lemma {:induction false} SoleMatch(rules: seq<Rule>, text: string, m: Match)
    requires |rules| == 1 && rules[0].pattern(text) == [Span(0, |text|)]
    requires m == MatchAt(rules, 0, Span(0, |text|))
    ensures PatternsFit(rules, text) && Collected(rules, text, 1) == [m]
  {
    assert Collected(rules, text, 0) == [];
    assert RuleMatches(rules, 0, text) == [m];
    assert [] + [m] == [m];
  }

  /** One rule that matches the whole text makes its replacement of it. */
  lemma WholeTextIsReplaced(rules: seq<Rule>, text: string, r: ScanResult)
    requires |rules| == 1 && rules[0].pattern(text) == [Span(0, |text|)]
    requires IsScan(rules, text, r)
    ensures r.findings == [MatchAt(rules, 0, Span(0, |text|)).finding]
    ensures r.redactedBody == rules[0].replacement
    ensures r.hasBlockingFindings <==> rules[0].action == ActionBlock
  {
    hide Rewrite, Collected, Before, PatternsFit;
    var m := MatchAt(rules, 0, Span(0, |text|));
    SoleMatch(rules, text, m);
    var ms :| IsSort([m], ms, Before) && WellSpanned(ms, |text|) && r == Outcome(text, ms);
    SameElements([m], ms);
    assert ms == [m];
    assert Select(ms, -1) == [m];
    assert r.findings == [m.finding];
    RewriteWhole(text, m.finding);
  }

  lemma RewriteWhole(text: string, f: Finding)
    requires f.start == 0 && f.end == f.length == |text|
    ensures Rewrite(text, [f], 0) == f.replacement
  {
    assert Rewrite(text, [f][1..], |text|) == text[|text|..] == "";
    assert text[0..0] + f.replacement + "" == f.replacement;
  }

  class RedactionScanner {
    const rules: seq<Rule>

    constructor (rules: seq<Rule>)
      ensures this.rules == rules
    {
      this.rules := rules;
    }

    method Collect(body: string) returns (matches: seq<Match>)
      requires PatternsFit(rules, body)
      ensures matches == Collected(rules, body, |rules|)
    {
      matches := [];
      for i := 0 to |rules|
        invariant matches == Collected(rules, body, i)
      {
        var indices := rules[i].pattern(body);
        for k := 0 to |indices|
          invariant matches == Collected(rules, body, i) + RuleMatches(rules, i, body)[..k]
        {
          matches := matches + [MatchAt(rules, i, indices[k])];
        }
      }
    }

    method Scan(body: string) returns (r: ScanResult)
      requires PatternsFit(rules, body)
      ensures IsScan(rules, body, r)
    {
      var matches := Collect(body);
      CollectedFits(rules, body, |rules|);
      if |matches| == 0 {
        assert IsSort(matches, [], Before) && WellSpanned([], |body|);
        r := ScanResult([], body, false);
        assert r == Outcome(body, []);
        return;
      }
      BeforeIsWeakOrder();
      var sorted := SortSlice(matches, Before);
      SameElements(matches, sorted);
      FromRulesSpanned(rules, body, sorted);
      SelectDisjoint(sorted, -1, |body|);

      var selected := SelectMatches(sorted);
      var redacted := Splice(body, Findings(selected));
      var findings, hasBlocking := Report(selected);
      r := ScanResult(findings, redacted, hasBlocking);
      assert r == Outcome(body, sorted);
    }

    method SelectMatches(matches: seq<Match>) returns (selected: seq<Match>)
      ensures selected == Select(matches, -1)
    {
      selected := [];
      var lastEnd: int := -1;
      for i := 0 to |matches|
        invariant selected == Select(matches[..i], -1) && lastEnd == LastEnd(matches[..i], -1)
      {
        var candidate := matches[i];
        assert matches[..i + 1] == matches[..i] + [candidate];
        SelectSnoc(matches[..i], candidate, -1);
        if candidate.finding.start >= lastEnd {
          selected := selected + [candidate];
          lastEnd := candidate.finding.end;
        }
      }
      assert matches[..|matches|] == matches;
    }

    method Report(selected: seq<Match>) returns (findings: seq<Finding>, hasBlocking: bool)
      ensures findings == Findings(selected)
      ensures hasBlocking <==> HasBlocking(findings)
    {
      findings, hasBlocking := [], false;
      for i := 0 to |selected|
        invariant findings == Findings(selected)[..i]
        invariant hasBlocking <==> exists k :: 0 <= k < i && selected[k].finding.action == ActionBlock
      {
        findings := findings + [selected[i].finding];
        if selected[i].finding.action == ActionBlock {
          hasBlocking := true;
        }
      }
      assert forall k :: 0 <= k < |selected| ==> findings[k] == selected[k].finding;
    }

    /** The descending loop: each replacement is spliced into the text the later ones have already changed. */
    method Splice(text: string, fs: seq<Finding>) returns (redacted: string)
      requires Disjoint(fs, 0, |text|)
      ensures redacted == Rewrite(text, fs, 0)
    {
      redacted := text;
      var i := |fs|;
      while i > 0
        invariant 0 <= i <= |fs|
        invariant Disjoint(fs[i..], 0, |text|)
        invariant redacted == Rewrite(text, fs[i..], 0)
      {
        i := i - 1;
        assert fs[i..][1..] == fs[i + 1..];
        SpliceStep(text, fs[i..], redacted);
        redacted := redacted[..fs[i].start] + fs[i].replacement + redacted[fs[i].end..];
      }
      assert fs[0..] == fs;
    }
  }
}
