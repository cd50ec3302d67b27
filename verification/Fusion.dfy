/**
 Rank fusion of the vector and the keyword results (internal/retrieval/pipeline.go, fuseSearchResults), in
 exact arithmetic, with the order it shares with the vector search (internal/index/store.go).
 */
module Fusion {
  import opened IndexTypes
  import opened Ordering
  import Text

  /** Higher score first, then path, ordinal and chunk ID. */
  predicate ResultBefore(a: SearchResult, b: SearchResult) {
    if a.score != b.score then a.score > b.score
    else if a.documentPath != b.documentPath then Text.LexLess(a.documentPath, b.documentPath)
    else if a.ordinal != b.ordinal then a.ordinal < b.ordinal
    else Text.LexLess(a.chunkId, b.chunkId)
  }

  lemma ResultBeforeIsWeakOrder()
    ensures WeakOrder(ResultBefore)
  {
    hide Text.LexLess;
    forall x, y | ResultBefore(x, y) ensures !ResultBefore(y, x) {
      if Text.LexLess(x.documentPath, y.documentPath) { Text.LexAsymmetric(x.documentPath, y.documentPath); }
      if Text.LexLess(x.chunkId, y.chunkId) { Text.LexAsymmetric(x.chunkId, y.chunkId); }
    }
    forall x, y, z | ResultBefore(x, z) ensures ResultBefore(x, y) || ResultBefore(y, z) {
      Text.LexConnected(x.documentPath, y.documentPath);
      Text.LexConnected(y.documentPath, z.documentPath);
      if Text.LexLess(x.documentPath, z.documentPath) {
        Text.LexNegativelyTransitive(x.documentPath, y.documentPath, z.documentPath);
      }
      if Text.LexLess(y.documentPath, x.documentPath) && Text.LexLess(x.documentPath, z.documentPath) {
        Text.LexTransitive(y.documentPath, x.documentPath, z.documentPath);
      }
      if Text.LexLess(x.documentPath, z.documentPath) && Text.LexLess(z.documentPath, y.documentPath) {
        Text.LexTransitive(x.documentPath, z.documentPath, y.documentPath);
      }
      if Text.LexLess(x.chunkId, z.chunkId) { Text.LexNegativelyTransitive(x.chunkId, y.chunkId, z.chunkId); }
    }
  }

  function ChunkIdOf(r: SearchResult): string {
    r.chunkId
  }

  ghost predicate DistinctChunks(s: seq<SearchResult>) {
    DistinctBy(s, ChunkIdOf)
  }

  lemma ResultBeforeSeparates(s: seq<SearchResult>)
    requires DistinctChunks(s)
    ensures Separates(s, ResultBefore)
  {
    hide Text.LexLess;
    forall x, y | x in s && y in s && x != y ensures ResultBefore(x, y) || ResultBefore(y, x) {
      var i :| 0 <= i < |s| && s[i] == x;
      var j :| 0 <= j < |s| && s[j] == y;
      assert x.chunkId != y.chunkId;
      Text.LexConnected(x.documentPath, y.documentPath);
      Text.LexConnected(x.chunkId, y.chunkId);
    }
  }

  // ----- the combined map

  datatype Fused = Fused(result: SearchResult, score: real)

  function VectorWeight(rank: nat): real
    requires rank > 0
  {
    0.4 / rank as real
  }

  function KeywordWeight(rank: nat): real
    requires rank > 0
  {
    0.6 / rank as real
  }

  /** The map after the vector loop: a repeated chunk keeps its last rank. */
  function VectorEntries(vector: seq<SearchResult>): map<string, Fused> {
    if vector == [] then map[]
    else
      var n := |vector| - 1;
      VectorEntries(vector[..n])[vector[n].chunkId := Fused(vector[n], VectorWeight(n + 1))]
  }

  /** One round of the keyword loop; a missing entry is Go's zero value, whose chunk ID is empty. */
  function AddKeyword(combined: map<string, Fused>, result: SearchResult, rank: nat): map<string, Fused>
    requires rank > 0
  {
    var id := result.chunkId;
    var known := id in combined && combined[id].result.chunkId != "";
    var score := if id in combined then combined[id].score else 0.0;
    combined[id := Fused(if known then combined[id].result else result, score + KeywordWeight(rank))]
  }

  function Combined(vector: seq<SearchResult>, keyword: seq<SearchResult>): map<string, Fused> {
    if keyword == [] then VectorEntries(vector)
    else
      var n := |keyword| - 1;
      AddKeyword(Combined(vector, keyword[..n]), keyword[n], n + 1)
  }

  function ResultOf(entry: Fused): SearchResult {
    entry.result.(score := entry.score)
  }

  /** All fused results, in some order: one per key of the map. */
  ghost predicate Lists(combined: map<string, Fused>, results: seq<SearchResult>) {
    && DistinctChunks(results)
    && (forall r :: r in results ==> r.chunkId in combined && r == ResultOf(combined[r.chunkId]))
    && (forall id :: id in combined ==> ResultOf(combined[id]) in results)
  }

  /** r is what the fusion of two non-empty lists may return, whatever order the map is ranged over. */
  ghost predicate IsFusion(vector: seq<SearchResult>, keyword: seq<SearchResult>, limit: nat, r: seq<SearchResult>) {
    exists all, sorted ::
      && Lists(Combined(vector, keyword), all) && IsSort(all, sorted, ResultBefore)
      && r == sorted[..Min(limit, |sorted|)]
  }

  ghost predicate KeysAreIds(combined: map<string, Fused>) {
    forall id :: id in combined ==> combined[id].result.chunkId == id
  }

  ghost predicate Named(s: seq<SearchResult>, id: string) {
    exists k :: 0 <= k < |s| && s[k].chunkId == id
  }

  lemma NamedSnoc(s: seq<SearchResult>, id: string)
    requires s != []
    ensures Named(s, id) <==> Named(s[..|s| - 1], id) || s[|s| - 1].chunkId == id
  {
    if Named(s, id) {
      var k :| 0 <= k < |s| && s[k].chunkId == id;
      if k < |s| - 1 { assert s[..|s| - 1][k].chunkId == id; }
    }
    if Named(s[..|s| - 1], id) {
      var k :| 0 <= k < |s| - 1 && s[..|s| - 1][k].chunkId == id;
      assert s[k].chunkId == id;
    }
  }

  lemma {:induction false} VectorKeys(vector: seq<SearchResult>)
    ensures KeysAreIds(VectorEntries(vector))
    ensures forall id :: id in VectorEntries(vector) <==> Named(vector, id)
  {
    if vector != [] {
      var n := |vector| - 1;
      VectorKeys(vector[..n]);
      forall id ensures Named(vector, id) <==> Named(vector[..n], id) || vector[n].chunkId == id {
        NamedSnoc(vector, id);
      }
    }
  }

  lemma {:induction false} CombinedKeys(vector: seq<SearchResult>, keyword: seq<SearchResult>)
    ensures KeysAreIds(Combined(vector, keyword))
    ensures forall id :: id in Combined(vector, keyword) <==>
              Named(vector, id) || Named(keyword, id)
  {
    if keyword == [] {
      VectorKeys(vector);
    } else {
      var n := |keyword| - 1;
      CombinedKeys(vector, keyword[..n]);
      forall id ensures Named(keyword, id) <==> Named(keyword[..n], id) || keyword[n].chunkId == id {
        NamedSnoc(keyword, id);
      }
    }
  }

  method Combine(vector: seq<SearchResult>, keyword: seq<SearchResult>) returns (combined: map<string, Fused>)
    ensures combined == Combined(vector, keyword)
  {
    combined := map[];
    for i := 0 to |vector|
      invariant combined == VectorEntries(vector[..i])
    {
      assert vector[..i + 1][..i] == vector[..i];
      combined := combined[vector[i].chunkId := Fused(vector[i], VectorWeight(i + 1))];
    }
    assert vector[..|vector|] == vector;
    for i := 0 to |keyword|
      invariant combined == Combined(vector, keyword[..i])
    {
      assert keyword[..i + 1][..i] == keyword[..i];
      var result := keyword[i];
      var score := KeywordWeight(i + 1);
      if result.chunkId in combined {
        var entry := combined[result.chunkId];
        if entry.result.chunkId == "" { entry := entry.(result := result); }
        combined := combined[result.chunkId := entry.(score := entry.score + score)];
      } else {
        combined := combined[result.chunkId := Fused(result, 0.0 + score)];
      }
    }
    assert keyword[..|keyword|] == keyword;
  }

  /** The source ranges over the map, so each round takes any entry that is left. */
  method Listed(combined: map<string, Fused>) returns (results: seq<SearchResult>)
    requires KeysAreIds(combined)
    ensures Lists(combined, results)
  {
    results := [];
    var left := combined.Keys;
    while left != {}
      invariant left <= combined.Keys
      invariant DistinctChunks(results)
      invariant forall k :: 0 <= k < |results| ==>
                  results[k].chunkId in combined && results[k].chunkId !in left
                  && results[k] == ResultOf(combined[results[k].chunkId])
      invariant forall id :: id in combined && id !in left ==> ResultOf(combined[id]) in results
      decreases |left|
    {
      var id :| id in left;
      results := results + [ResultOf(combined[id])];
      left := left - {id};
    }
  }

  method FuseSearchResults(vector: seq<SearchResult>, keyword: seq<SearchResult>, limit: nat)
    returns (r: seq<SearchResult>)
    ensures vector == [] ==> r == keyword[..Min(limit, |keyword|)]
    ensures vector != [] && keyword == [] ==> r == vector[..Min(limit, |vector|)]
    ensures vector != [] && keyword != [] ==> IsFusion(vector, keyword, limit, r)
    ensures |r| <= limit
  {
    if |vector| == 0 {
      return if |keyword| > limit then keyword[..limit] else keyword;
    }
    if |keyword| == 0 {
      return if |vector| > limit then vector[..limit] else vector;
    }
    var combined := Combine(vector, keyword);
    CombinedKeys(vector, keyword);
    var all := Listed(combined);
    ResultBeforeIsWeakOrder();
    var sorted := SortSlice(all, ResultBefore);
    r := if |sorted| > limit then sorted[..limit] else sorted;
    assert r == sorted[..Min(limit, |sorted|)];
  }

  // ----- independence of the map's order

  lemma {:induction false} SameListing(a: seq<SearchResult>, b: seq<SearchResult>)
    requires DistinctChunks(a) && DistinctChunks(b)
    requires forall r :: r in a <==> r in b
    ensures multiset(a) == multiset(b)
  {
    forall r: SearchResult ensures multiset(a)[r] == multiset(b)[r] {
      DistinctCount(a, r);
      DistinctCount(b, r);
    }
  }

  lemma {:induction false} DistinctCount(s: seq<SearchResult>, r: SearchResult)
    requires DistinctChunks(s)
    ensures multiset(s)[r] == if r in s then 1 else 0
  {
    if s != [] {
      var n := |s| - 1;
      assert s == s[..n] + [s[n]];
      DistinctCount(s[..n], r);
    }
  }

  lemma FusionIsDetermined(vector: seq<SearchResult>, keyword: seq<SearchResult>, limit: nat,
                           r: seq<SearchResult>, r': seq<SearchResult>)
    requires IsFusion(vector, keyword, limit, r) && IsFusion(vector, keyword, limit, r')
    ensures r == r'
  {
    hide ResultBefore, Combined;
    var combined := Combined(vector, keyword);
    var all: seq<SearchResult>, sorted: seq<SearchResult> :|
      Lists(combined, all) && IsSort(all, sorted, ResultBefore) && r == sorted[..Min(limit, |sorted|)];
    var all': seq<SearchResult>, sorted': seq<SearchResult> :|
      Lists(combined, all') && IsSort(all', sorted', ResultBefore) && r' == sorted'[..Min(limit, |sorted'|)];
    SameListing(all, all');
    ResultBeforeSeparates(all);
    SortsAgree(all, all', sorted, sorted', ResultBefore);
  }

  // ----- dominance

  /** The rank of a chunk in a list, from 1; 0 when it is absent. */
  ghost function Rank(s: seq<SearchResult>, id: string): (rank: nat)
    ensures rank == 0 <==> !Named(s, id)
    ensures rank > 0 ==> rank <= |s| && s[rank - 1].chunkId == id
  {
    if Named(s, id) then
      var k :| 0 <= k < |s| && s[k].chunkId == id;
      k + 1
    else 0
  }

  /** Ranked no worse; absence counts as last. */
  predicate NoWorse(a: nat, b: nat) {
    b == 0 || 0 < a <= b
  }

  ghost function FusedScore(vector: seq<SearchResult>, keyword: seq<SearchResult>, id: string): real {
    var v, k := Rank(vector, id), Rank(keyword, id);
    (if v == 0 then 0.0 else VectorWeight(v)) + (if k == 0 then 0.0 else KeywordWeight(k))
  }

  lemma {:induction false} VectorScore(vector: seq<SearchResult>, id: string)
    requires DistinctChunks(vector)
    ensures id in VectorEntries(vector) <==> Rank(vector, id) != 0
    ensures id in VectorEntries(vector) ==> VectorEntries(vector)[id].score == VectorWeight(Rank(vector, id))
  {
    hide VectorWeight;
    VectorKeys(vector);
    if vector != [] {
      var n := |vector| - 1;
      VectorScore(vector[..n], id);
      var rank := Rank(vector, id);
      if vector[n].chunkId == id {
        assert rank == n + 1;
      } else if rank != 0 {
        assert vector[..n][rank - 1].chunkId == id;
        assert Rank(vector[..n], id) == rank;
      }
    }
  }

  lemma {:induction false} CombinedScore(vector: seq<SearchResult>, keyword: seq<SearchResult>, id: string)
    requires DistinctChunks(vector) && DistinctChunks(keyword)
    ensures id in Combined(vector, keyword) ==> Combined(vector, keyword)[id].score == FusedScore(vector, keyword, id)
    ensures id !in Combined(vector, keyword) ==> Rank(vector, id) == 0 && Rank(keyword, id) == 0
  {
    hide VectorWeight, KeywordWeight;
    if keyword == [] {
      VectorScore(vector, id);
    } else {
      var n := |keyword| - 1;
      CombinedScore(vector, keyword[..n], id);
      var rank := Rank(keyword, id);
      if keyword[n].chunkId == id {
        assert rank == n + 1;
        assert Rank(keyword[..n], id) == 0;
      } else if rank != 0 {
        assert keyword[..n][rank - 1].chunkId == id;
        assert Rank(keyword[..n], id) == rank;
      } else {
        assert Rank(keyword[..n], id) == 0;
      }
    }
  }

  lemma WeightsFall(a: nat, b: nat)
    requires 0 < a < b
    ensures VectorWeight(a) > VectorWeight(b) > 0.0
    ensures KeywordWeight(a) > KeywordWeight(b) > 0.0
  {}

  lemma WeightsPositive(a: nat)
    requires 0 < a
    ensures VectorWeight(a) > 0.0 && KeywordWeight(a) > 0.0
  {}

  /** The pair (a, b) of ranks dominates (a', b'). */
  predicate Dominates(v: nat, k: nat, v': nat, k': nat) {
    NoWorse(v, v') && NoWorse(k, k') && (v != v' || k != k')
  }

  lemma DominatingScoreIsHigher(vector: seq<SearchResult>, keyword: seq<SearchResult>, x: string, y: string)
    requires Dominates(Rank(vector, x), Rank(keyword, x), Rank(vector, y), Rank(keyword, y))
    ensures FusedScore(vector, keyword, x) > FusedScore(vector, keyword, y)
  {
    hide VectorWeight, KeywordWeight, Rank;
    var v, k, v', k' := Rank(vector, x), Rank(keyword, x), Rank(vector, y), Rank(keyword, y);
    if v > 0 { WeightsPositive(v); }
    if k > 0 { WeightsPositive(k); }
    if 0 < v < v' { WeightsFall(v, v'); }
    if 0 < k < k' { WeightsFall(k, k'); }
  }

  /** The sorted list a fusion is cut from holds the entries of the combined map and nothing else. */
  lemma FusionParts(vector: seq<SearchResult>, keyword: seq<SearchResult>, limit: nat, r: seq<SearchResult>)
    returns (sorted: seq<SearchResult>)
    requires IsFusion(vector, keyword, limit, r)
    ensures SortedBy(sorted, ResultBefore) && r == sorted[..Min(limit, |sorted|)]
    ensures var combined := Combined(vector, keyword);
            && (forall k :: 0 <= k < |sorted| ==>
                  sorted[k].chunkId in combined && sorted[k] == ResultOf(combined[sorted[k].chunkId]))
            && (forall id :: id in combined ==> ResultOf(combined[id]) in sorted)
  {
    hide ResultBefore, Combined;
    var combined := Combined(vector, keyword);
    var all: seq<SearchResult>;
    all, sorted :| Lists(combined, all) && IsSort(all, sorted, ResultBefore) && r == sorted[..Min(limit, |sorted|)];
    SameElements(all, sorted);
    forall k | 0 <= k < |sorted|
      ensures sorted[k].chunkId in combined && sorted[k] == ResultOf(combined[sorted[k].chunkId])
    {
      assert sorted[k] in all;
    }
  }

  lemma HigherScoreIsEarlier(vector: seq<SearchResult>, keyword: seq<SearchResult>, limit: nat, r: seq<SearchResult>,
                             x: string, j: nat)
    requires IsFusion(vector, keyword, limit, r) && j < |r|
    requires DistinctChunks(vector) && DistinctChunks(keyword)
    requires Named(vector, x) || Named(keyword, x)
    requires FusedScore(vector, keyword, x) > FusedScore(vector, keyword, r[j].chunkId)
    ensures exists i :: 0 <= i < j && r[i].chunkId == x
  {
    hide Rank, FusedScore, Combined, IsFusion, Named;
    var sorted := FusionParts(vector, keyword, limit, r);
    var combined := Combined(vector, keyword);
    CombinedScore(vector, keyword, x);
    CombinedScore(vector, keyword, r[j].chunkId);
    CombinedKeys(vector, keyword);
    var rx := ResultOf(combined[x]);
    var i :| 0 <= i < |sorted| && sorted[i] == rx;
    assert ResultBefore(rx, sorted[j]);
    assert i < j;
    assert r[i].chunkId == x;
  }

  /**
   In the result a chunk comes before any other that it dominates, and whatever it dominates is returned only if it is.
   */
  lemma FusionRespectsDominance(vector: seq<SearchResult>, keyword: seq<SearchResult>, limit: nat, r: seq<SearchResult>,
                                x: string, j: nat)
    requires IsFusion(vector, keyword, limit, r)
    requires DistinctChunks(vector) && DistinctChunks(keyword)
    requires j < |r|
    requires Dominates(Rank(vector, x), Rank(keyword, x), Rank(vector, r[j].chunkId), Rank(keyword, r[j].chunkId))
    ensures exists i :: 0 <= i < j && r[i].chunkId == x
  {
    hide Rank, FusedScore, Combined, IsFusion;
    DominatingScoreIsHigher(vector, keyword, x, r[j].chunkId);
    HigherScoreIsEarlier(vector, keyword, limit, r, x, j);
  }

  /** A chunk that is first in both lists is returned first. */
  lemma FirstInBothIsFirst(vector: seq<SearchResult>, keyword: seq<SearchResult>, limit: nat, r: seq<SearchResult>)
    requires IsFusion(vector, keyword, limit, r) && limit > 0
    requires DistinctChunks(vector) && DistinctChunks(keyword)
    requires vector != [] && keyword != [] && vector[0].chunkId == keyword[0].chunkId
    ensures r != [] && r[0].chunkId == vector[0].chunkId
  {
    hide Combined, FusedScore;
    var x := vector[0].chunkId;
    FusionSize(vector, keyword, limit, r);
    assert Rank(vector, x) == 1 && Rank(keyword, x) == 1;
    var y := r[0].chunkId;
    if y != x {
      FusionRespectsDominance(vector, keyword, limit, r, x, 0);
    }
  }

  /** As many results as there are different chunks in the two lists, up to the limit, and no chunk twice. */
  lemma FusionSize(vector: seq<SearchResult>, keyword: seq<SearchResult>, limit: nat, r: seq<SearchResult>)
    requires IsFusion(vector, keyword, limit, r)
    ensures |r| == Min(limit, |Combined(vector, keyword)|)
    ensures vector != [] && limit > 0 ==> r != []
    ensures DistinctChunks(r)
  {
    hide Combined, ResultBefore;
    var combined := Combined(vector, keyword);
    var all: seq<SearchResult>, sorted: seq<SearchResult> :|
      Lists(combined, all) && IsSort(all, sorted, ResultBefore) && r == sorted[..Min(limit, |sorted|)];
    CombinedKeys(vector, keyword);
    ListingSize(combined, all);
    SameElements(all, sorted);
    if vector != [] {
      assert vector[0].chunkId in combined;
      assert ResultOf(combined[vector[0].chunkId]) in all;
    }
    DistinctPermutes(all, sorted, ChunkIdOf);
  }

  lemma {:induction false} ListingSize(combined: map<string, Fused>, all: seq<SearchResult>)
    requires Lists(combined, all) && KeysAreIds(combined)
    ensures |all| == |combined|
  {
    var ids := set r | r in all :: r.chunkId;
    assert ids == combined.Keys by {
      forall id | id in combined ensures id in ids { assert ResultOf(combined[id]) in all; }
    }
    IdCount(all);
  }

  lemma {:induction false} IdCount(s: seq<SearchResult>)
    requires DistinctChunks(s)
    ensures |set r | r in s :: r.chunkId| == |s|
  {
    if s != [] {
      var n := |s| - 1;
      IdCount(s[..n]);
      assert s == s[..n] + [s[n]];
      assert (set r | r in s :: r.chunkId) == (set r | r in s[..n] :: r.chunkId) + {s[n].chunkId};
    }
  }

  /** Where the limit leaves room, every chunk of either list is returned. */
  lemma NothingIsLost(vector: seq<SearchResult>, keyword: seq<SearchResult>, limit: nat, r: seq<SearchResult>,
                      id: string)
    requires IsFusion(vector, keyword, limit, r) && |r| < limit
    requires Named(vector, id) || Named(keyword, id)
    ensures Named(r, id)
  {
    hide Combined, ResultBefore, IsFusion;
    var sorted := FusionParts(vector, keyword, limit, r);
    assert r == sorted;
    CombinedKeys(vector, keyword);
    var found := ResultOf(Combined(vector, keyword)[id]);
    var k :| 0 <= k < |sorted| && sorted[k] == found;
  }

  // ----- scores and contents in terms of the two lists

  /** A returned result with its entry. */
  lemma ReturnedEntry(vector: seq<SearchResult>, keyword: seq<SearchResult>, limit: nat, r: seq<SearchResult>, j: nat)
    requires IsFusion(vector, keyword, limit, r) && j < |r|
    ensures var id, combined := r[j].chunkId, Combined(vector, keyword);
            id in combined && r[j] == ResultOf(combined[id])
  {
    hide Combined, ResultBefore, ResultOf;
    var sorted := FusionParts(vector, keyword, limit, r);
    assert sorted[j] == r[j];
  }

  lemma BothWeights(v: nat, k: nat)
    requires v > 0 && k > 0
    ensures 10.0 * v as real * VectorWeight(v) == 4.0 && 10.0 * k as real * KeywordWeight(k) == 6.0
  {}

  lemma WeightedSum(v: real, k: real, a: real, b: real)
    requires 10.0 * v * a == 4.0 && 10.0 * k * b == 6.0
    ensures 10.0 * v * k * (a + b) == 4.0 * k + 6.0 * v
  {
    assert 10.0 * v * k * (a + b) == (10.0 * v * a) * k + (10.0 * k * b) * v;
  }

  /**
   The score of a returned chunk, by its ranks in the two lists: four tenths over the vector rank plus six tenths over
   the keyword rank, where it has them.
   */
  lemma ReturnedScore(vector: seq<SearchResult>, keyword: seq<SearchResult>, limit: nat, r: seq<SearchResult>, j: nat)
    requires IsFusion(vector, keyword, limit, r) && j < |r|
    requires DistinctChunks(vector) && DistinctChunks(keyword)
    ensures var v, k := Rank(vector, r[j].chunkId), Rank(keyword, r[j].chunkId);
            && (v > 0 || k > 0)
            && (v > 0 && k > 0 ==>
                  10.0 * v as real * k as real * r[j].score == 4.0 * k as real + 6.0 * v as real)
            && (v > 0 && k == 0 ==> 10.0 * v as real * r[j].score == 4.0)
            && (v == 0 && k > 0 ==> 10.0 * k as real * r[j].score == 6.0)
  {
    hide IsFusion, Combined, Rank, VectorWeight, KeywordWeight;
    var id := r[j].chunkId;
    var v, k := Rank(vector, id), Rank(keyword, id);
    ReturnedEntry(vector, keyword, limit, r, j);
    CombinedScore(vector, keyword, id);
    SomeRank(vector, keyword, id);
    if v > 0 { BothWeights(v, v); }
    if k > 0 { BothWeights(k, k); }
    if v > 0 && k > 0 { WeightedSum(v as real, k as real, VectorWeight(v), KeywordWeight(k)); }
  }

  lemma SomeRank(vector: seq<SearchResult>, keyword: seq<SearchResult>, id: string)
    requires id in Combined(vector, keyword)
    ensures Rank(vector, id) > 0 || Rank(keyword, id) > 0
  {
    hide Combined, Rank;
    CombinedKeys(vector, keyword);
  }

  lemma CrossedWeights(a: nat, b: nat)
    requires 0 < b < a
    ensures VectorWeight(a) + KeywordWeight(b) > VectorWeight(b) + KeywordWeight(a)
  {
    var x, y := 1.0 / a as real, 1.0 / b as real;
    assert x < y;
    assert VectorWeight(a) == 0.4 * x && KeywordWeight(b) == 0.6 * y;
    assert VectorWeight(b) == 0.4 * y && KeywordWeight(a) == 0.6 * x;
  }

  /** The keyword list counts more: of two chunks with crossed ranks, the one that it ranks better comes first. */
  lemma KeywordRankDecides(vector: seq<SearchResult>, keyword: seq<SearchResult>, limit: nat, r: seq<SearchResult>,
                           x: string, j: nat)
    requires IsFusion(vector, keyword, limit, r) && j < |r|
    requires DistinctChunks(vector) && DistinctChunks(keyword)
    requires Rank(vector, x) == Rank(keyword, r[j].chunkId) && Rank(keyword, x) == Rank(vector, r[j].chunkId)
    requires 0 < Rank(keyword, x) < Rank(keyword, r[j].chunkId)
    ensures exists i :: 0 <= i < j && r[i].chunkId == x
  {
    hide Rank, Combined, IsFusion, VectorWeight, KeywordWeight;
    CrossedWeights(Rank(vector, x), Rank(keyword, x));
    HigherScoreIsEarlier(vector, keyword, limit, r, x, j);
  }

  lemma {:induction false} VectorEntry(vector: seq<SearchResult>, id: string)
    requires DistinctChunks(vector)
    ensures id in VectorEntries(vector) ==>
              var v := Rank(vector, id);
              v > 0 && VectorEntries(vector)[id].result == vector[v - 1]
  {
    hide VectorWeight;
    VectorScore(vector, id);
    if vector != [] {
      var n := |vector| - 1;
      VectorEntry(vector[..n], id);
      var rank := Rank(vector, id);
      if vector[n].chunkId == id {
        assert rank == n + 1;
      } else if rank != 0 {
        assert vector[..n][rank - 1].chunkId == id;
        assert Rank(vector[..n], id) == rank;
      }
    }
  }

  lemma {:induction false} CombinedEntry(vector: seq<SearchResult>, keyword: seq<SearchResult>, id: string)
    requires DistinctChunks(vector) && DistinctChunks(keyword) && id != ""
    ensures id in Combined(vector, keyword) ==>
              var v, k := Rank(vector, id), Rank(keyword, id);
              && (v > 0 || k > 0)
              && Combined(vector, keyword)[id].result == if v > 0 then vector[v - 1] else keyword[k - 1]
  {
    hide VectorWeight, KeywordWeight;
    VectorScore(vector, id);
    if keyword == [] {
      VectorEntry(vector, id);
    } else {
      var n := |keyword| - 1;
      CombinedEntry(vector, keyword[..n], id);
      CombinedKeys(vector, keyword[..n]);
      var rank := Rank(keyword, id);
      if keyword[n].chunkId == id {
        assert rank == n + 1;
        assert Rank(keyword[..n], id) == 0;
      } else if rank != 0 {
        assert keyword[..n][rank - 1].chunkId == id;
        assert Rank(keyword[..n], id) == rank;
      } else {
        assert Rank(keyword[..n], id) == 0;
      }
    }
  }

  /**
   What is returned of a chunk is, but for the score, what the vector search found of it, or else the keyword search.
   */
  lemma ReturnedContent(vector: seq<SearchResult>, keyword: seq<SearchResult>, limit: nat, r: seq<SearchResult>, j: nat)
    requires IsFusion(vector, keyword, limit, r) && j < |r| && r[j].chunkId != ""
    requires DistinctChunks(vector) && DistinctChunks(keyword)
    ensures var v, k := Rank(vector, r[j].chunkId), Rank(keyword, r[j].chunkId);
            && (v > 0 || k > 0)
            && r[j] == (if v > 0 then vector[v - 1] else keyword[k - 1]).(score := r[j].score)
  {
    hide IsFusion, Combined, Rank;
    ReturnedEntry(vector, keyword, limit, r, j);
    CombinedEntry(vector, keyword, r[j].chunkId);
  }

  /** Results in order: never a lower score before a higher one; then path, ordinal and chunk ID. */
  lemma OrderInWords(r: seq<SearchResult>, i: nat, j: nat)
    requires SortedBy(r, ResultBefore) && i < j < |r|
    ensures r[i].score >= r[j].score
    ensures r[i].score == r[j].score ==> !Text.LexLess(r[j].documentPath, r[i].documentPath)
    ensures r[i].score == r[j].score && r[i].documentPath == r[j].documentPath ==> r[i].ordinal <= r[j].ordinal
    ensures r[i].score == r[j].score && r[i].documentPath == r[j].documentPath && r[i].ordinal == r[j].ordinal ==>
              !Text.LexLess(r[j].chunkId, r[i].chunkId)
  {
    hide Text.LexLess;
    Text.LexIrreflexive(r[i].documentPath);
  }
}
