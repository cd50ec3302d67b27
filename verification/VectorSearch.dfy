/**
 Vector search (internal/index/store.go, SearchChunks and cosineSimilarity) in exact arithmetic.  What number a
 float32 bit pattern stands for, and the square root, are parameters.
 */
module VectorSearch {
  import opened Wrappers
  import opened Ordering
  import opened IndexTypes
  import opened Vectors
  import opened Fusion

  // ----- cosine similarity

  function Times(x: real, y: real): real {
    x * y
  }

  function Dot(a: seq<real>, b: seq<real>): real
    requires |a| == |b|
  {
    if a == [] then 0.0
    else
      var n := |a| - 1;
      Dot(a[..n], b[..n]) + Times(a[n], b[n])
  }

  ghost predicate IsSqrt(sqrt: real -> real) {
    forall x: real :: x >= 0.0 ==> sqrt(x) >= 0.0 && sqrt(x) * sqrt(x) == x
  }

  /** The cosine of the two vectors; 0 where it is not defined.  With a true square root the scale is never 0 here. */
  function Cosine(a: seq<real>, b: seq<real>, sqrt: real -> real): real {
    if |a| != |b| || a == [] || Dot(a, a) == 0.0 || Dot(b, b) == 0.0 then 0.0
    else
      var scale := sqrt(Dot(a, a)) * sqrt(Dot(b, b));
      if scale == 0.0 then 0.0 else Dot(a, b) / scale
  }

  lemma TimesSquare(x: real)
    ensures Times(x, x) >= 0.0
    ensures x != 0.0 ==> Times(x, x) > 0.0
  {
    if x > 0.0 {
      ProductPositive(x, x);
    } else if x < 0.0 {
      ProductPositive(-x, -x);
      assert Times(-x, -x) == Times(x, x);
    }
  }

  lemma ProductPositive(x: real, y: real)
    requires x > 0.0 && y > 0.0
    ensures Times(x, y) > 0.0
  {}

  lemma {:induction false} SquareNonNegative(a: seq<real>)
    ensures Dot(a, a) >= 0.0
  {
    hide Times;
    if a != [] {
      SquareNonNegative(a[..|a| - 1]);
      TimesSquare(a[|a| - 1]);
    }
  }

  function Mix(p: real, x: real, q: real, y: real): real {
    p * x + q * y
  }

  function Scale(p: real, a: seq<real>, q: real, b: seq<real>): (r: seq<real>)
    requires |a| == |b|
    ensures |r| == |a|
    ensures forall i :: 0 <= i < |a| ==> r[i] == Mix(p, a[i], q, b[i])
  {
    seq(|a|, i requires 0 <= i < |a| => Mix(p, a[i], q, b[i]))
  }

  /** The square of the combination, as a polynomial in the two multipliers. */
  function Form(p: real, q: real, aa: real, ab: real, bb: real): real {
    p * p * aa + 2.0 * p * q * ab + q * q * bb
  }

  lemma FormStep(p: real, q: real, aa: real, ab: real, bb: real, x: real, y: real)
    ensures Form(p, q, aa, ab, bb) + Times(Mix(p, x, q, y), Mix(p, x, q, y))
         == Form(p, q, aa + Times(x, x), ab + Times(x, y), bb + Times(y, y))
  {}

  lemma {:induction false} DotOfCombination(p: real, a: seq<real>, q: real, b: seq<real>)
    requires |a| == |b|
    ensures Dot(Scale(p, a, q, b), Scale(p, a, q, b)) == Form(p, q, Dot(a, a), Dot(a, b), Dot(b, b))
  {
    if a == [] {
      assert Form(p, q, 0.0, 0.0, 0.0) == 0.0;
    } else {
      hide Form, Times, Mix;
      var n := |a| - 1;
      DotOfCombination(p, a[..n], q, b[..n]);
      assert Scale(p, a, q, b)[..n] == Scale(p, a[..n], q, b[..n]);
      FormStep(p, q, Dot(a[..n], a[..n]), Dot(a[..n], b[..n]), Dot(b[..n], b[..n]), a[n], b[n]);
    }
  }

  lemma {:induction false} ZeroNormMeansZeroDot(a: seq<real>, b: seq<real>)
    requires |a| == |b| && Dot(a, a) == 0.0
    ensures Dot(a, b) == 0.0
  {
    if a != [] {
      var n := |a| - 1;
      assert a[n] == 0.0 && Dot(a[..n], a[..n]) == 0.0 by {
        hide Times;
        SquareNonNegative(a[..n]);
        TimesSquare(a[n]);
      }
      ZeroNormMeansZeroDot(a[..n], b[..n]);
      assert Times(0.0, b[n]) == 0.0;
    }
  }

  lemma Cancel(l: real, x: real)
    requires l > 0.0 && l * x >= 0.0
    ensures x >= 0.0
  {}

  /** dot * dot <= leftNorm * rightNorm */
  lemma CauchySchwarz(a: seq<real>, b: seq<real>)
    requires |a| == |b|
    ensures Dot(a, b) * Dot(a, b) <= Dot(a, a) * Dot(b, b)
  {
    hide Dot, Scale, Form;
    var l, r, d := Dot(a, a), Dot(b, b), Dot(a, b);
    SquareNonNegative(a);
    if l == 0.0 {
      ZeroNormMeansZeroDot(a, b);
    } else {
      DotOfCombination(-d, a, l, b);
      SquareNonNegative(Scale(-d, a, l, b));
      FormAtMinimum(l, r, d);
      Cancel(l, l * r - d * d);
    }
  }

  lemma FormAtMinimum(l: real, r: real, d: real)
    ensures Form(-d, l, l, d, r) == l * (l * r - d * d)
  {}

  lemma SquareRootsBound(d: real, u: real)
    requires d * d <= u * u && u > 0.0
    ensures -1.0 <= d / u <= 1.0
  {
    if d > u { SquareGrows(u, d); }
    if d < -u { SquareGrows(u, -d); }
  }

  lemma SquareGrows(u: real, d: real)
    requires 0.0 < u < d
    ensures u * u < d * d
  {}

  /** Scores lie between -1 and 1. */
  lemma CosineInRange(a: seq<real>, b: seq<real>, sqrt: real -> real)
    requires IsSqrt(sqrt)
    ensures -1.0 <= Cosine(a, b, sqrt) <= 1.0
  {
    if |a| == |b| {
      CauchySchwarz(a, b);
      SquareNonNegative(a);
      SquareNonNegative(b);
      var sl, sr := sqrt(Dot(a, a)), sqrt(Dot(b, b));
      assert (sl * sr) * (sl * sr) == (sl * sl) * (sr * sr);
      if sl * sr != 0.0 { SquareRootsBound(Dot(a, b), sl * sr); }
    }
  }

  // ----- what a score is, without roots

  /**
   Zero for vectors of different length or without a direction; else the sign of the product, and its share of the
   norms.
   */
  ghost predicate IsScore(left: seq<real>, right: seq<real>, score: real) {
    if |left| != |right| || Dot(left, left) == 0.0 || Dot(right, right) == 0.0 then score == 0.0
    else
      && (score > 0.0 <==> Dot(left, right) > 0.0)
      && (score < 0.0 <==> Dot(left, right) < 0.0)
      && score * score * Dot(left, left) * Dot(right, right) == Dot(left, right) * Dot(left, right)
  }

  lemma QuotientSquared(d: real, x: real, y: real, l: real, r: real)
    requires x * x == l && y * y == r && x > 0.0 && y > 0.0
    ensures x * y > 0.0
    ensures var score := d / (x * y);
            score * score * l * r == d * d && (score > 0.0 <==> d > 0.0) && (score < 0.0 <==> d < 0.0)
  {
    var u := x * y;
    var score := d / u;
    assert u > 0.0;
    assert score * u == d;
    Regroup(score, x, y);
    QuotientSign(d, u);
  }

  lemma Regroup(score: real, x: real, y: real)
    ensures score * score * (x * x) * (y * y) == (score * (x * y)) * (score * (x * y))
  {}

  lemma QuotientSign(d: real, u: real)
    requires u > 0.0
    ensures d / u > 0.0 <==> d > 0.0
    ensures d / u < 0.0 <==> d < 0.0
  {}

  lemma RootIsPositive(x: real, sqrt: real -> real)
    requires IsSqrt(sqrt) && x > 0.0
    ensures sqrt(x) > 0.0 && sqrt(x) * sqrt(x) == x
  {}

  lemma CosineIsScore(a: seq<real>, b: seq<real>, sqrt: real -> real)
    requires IsSqrt(sqrt)
    ensures IsScore(a, b, Cosine(a, b, sqrt))
  {
    hide Dot, IsSqrt;
    if |a| == |b| && Dot(a, a) != 0.0 && Dot(b, b) != 0.0 {
      assert a != [] by { EmptyDot(a, b); }
      SquareNonNegative(a);
      SquareNonNegative(b);
      RootIsPositive(Dot(a, a), sqrt);
      RootIsPositive(Dot(b, b), sqrt);
      QuotientSquared(Dot(a, b), sqrt(Dot(a, a)), sqrt(Dot(b, b)), Dot(a, a), Dot(b, b));
    }
  }

  lemma EmptyDot(a: seq<real>, b: seq<real>)
    requires |a| == |b|
    ensures a == [] ==> Dot(a, a) == 0.0 && Dot(a, b) == 0.0
  {}

  // ----- the equality case: which vectors score 1

  /** b points the way a does. */
  ghost predicate SameDirection(a: seq<real>, b: seq<real>) {
    |a| == |b| && exists p: real :: p > 0.0 && IsMultiple(p, a, b)
  }

  ghost predicate IsMultiple(p: real, a: seq<real>, b: seq<real>)
    requires |a| == |b|
  {
    forall i :: 0 <= i < |a| ==> b[i] == Times(p, a[i])
  }

  lemma {:induction false} MultipleDots(p: real, a: seq<real>, b: seq<real>)
    requires |a| == |b| && IsMultiple(p, a, b)
    ensures Dot(a, b) == Times(p, Dot(a, a)) && Dot(b, b) == Times(Times(p, p), Dot(a, a))
  {
    if a == [] {
      assert Times(p, 0.0) == 0.0 && Times(Times(p, p), 0.0) == 0.0;
    } else {
      hide Times;
      var n := |a| - 1;
      MultipleDots(p, a[..n], b[..n]);
      MultipleStep(p, a[n], b[n], Dot(a[..n], a[..n]));
    }
  }

  lemma MultipleStep(p: real, x: real, y: real, d: real)
    requires y == Times(p, x)
    ensures Times(p, d) + Times(x, y) == Times(p, d + Times(x, x))
    ensures Times(Times(p, p), d) + Times(y, y) == Times(Times(p, p), d + Times(x, x))
  {}

  lemma ScoreOfMultiple(p: real, l: real, r: real, d: real, score: real)
    requires p > 0.0 && l > 0.0 && score > 0.0 && d == Times(p, l) && r == Times(Times(p, p), l)
    requires score * score * l * r == d * d
    ensures score == 1.0
  {
    assert l * r == d * d;
    ProductPositive(p, l);
    ProductPositive(d, d);
    assert d * d > 0.0;
    SquareIsOne(score, l, r, d * d);
  }

  lemma SquareIsOne(score: real, l: real, r: real, w: real)
    requires w > 0.0 && score > 0.0 && l * r == w && score * score * l * r == w
    ensures score == 1.0
  {
    assert (score * score) * (l * r) == score * score * l * r;
    assert (score * score - 1.0) * w == 0.0;
    assert (score - 1.0) * (score + 1.0) == 0.0;
  }

  lemma {:induction false} ZeroSquares(a: seq<real>)
    requires Dot(a, a) == 0.0
    ensures forall i :: 0 <= i < |a| ==> a[i] == 0.0
  {
    if a != [] {
      var n := |a| - 1;
      assert a[n] == 0.0 && Dot(a[..n], a[..n]) == 0.0 by {
        hide Times;
        SquareNonNegative(a[..n]);
        TimesSquare(a[n]);
      }
      ZeroSquares(a[..n]);
    }
  }

  lemma MixIsZero(d: real, l: real, x: real, y: real)
    requires l > 0.0 && Mix(-d, x, l, y) == 0.0
    ensures y == Times(d / l, x)
  {
    assert l * y == d * x;
    assert l * ((d / l) * x) == d * x;
  }

  /** Equality in Cauchy-Schwarz: one vector is a multiple of the other. */
  lemma EqualityMeansMultiple(a: seq<real>, b: seq<real>)
    requires |a| == |b| && Dot(a, a) > 0.0
    requires Dot(a, b) * Dot(a, b) == Dot(a, a) * Dot(b, b)
    ensures IsMultiple(Dot(a, b) / Dot(a, a), a, b)
  {
    hide Dot, Scale, Form;
    var l, r, d := Dot(a, a), Dot(b, b), Dot(a, b);
    DotOfCombination(-d, a, l, b);
    FormAtMinimum(l, r, d);
    var mix := Scale(-d, a, l, b);
    ZeroSquares(mix);
    hide Mix;
    hide Times;
    forall i | 0 <= i < |a| ensures b[i] == Times(d / l, a[i]) {
      assert mix[i] == 0.0;
      MixIsZero(d, l, a[i], b[i]);
    }
  }

  /** The score is 1 exactly for vectors of one direction. */
  lemma ScoreIsOneIffSameDirection(a: seq<real>, b: seq<real>, score: real)
    requires |a| == |b| && Dot(a, a) != 0.0 && Dot(b, b) != 0.0
    requires IsScore(a, b, score)
    ensures score == 1.0 <==> SameDirection(a, b)
  {
    hide Dot;
    SquareNonNegative(a);
    SquareNonNegative(b);
    if score == 1.0 {
      EqualityMeansMultiple(a, b);
      QuotientSign(Dot(a, b), Dot(a, a));
    }
    if SameDirection(a, b) {
      var p: real :| p > 0.0 && IsMultiple(p, a, b);
      MultipleDots(p, a, b);
      ProductPositive(p, Dot(a, a));
      ScoreOfMultiple(p, Dot(a, a), Dot(b, b), Dot(a, b), score);
    }
  }

  lemma MultipleHasDirection(a: seq<real>, b: seq<real>)
    requires SameDirection(a, b) && Dot(a, a) != 0.0
    ensures Dot(b, b) != 0.0
  {
    hide Dot;
    var p: real :| p > 0.0 && IsMultiple(p, a, b);
    MultipleDots(p, a, b);
    SquareNonNegative(a);
    ProductPositive(p, p);
    ProductPositive(Times(p, p), Dot(a, a));
  }

  method Accumulate(left: seq<real>, right: seq<real>) returns (dot: real, leftNorm: real, rightNorm: real)
    requires |left| == |right|
    ensures dot == Dot(left, right) && leftNorm == Dot(left, left) && rightNorm == Dot(right, right)
  {
    dot, leftNorm, rightNorm := 0.0, 0.0, 0.0;
    for i := 0 to |left|
      invariant dot == Dot(left[..i], right[..i])
      invariant leftNorm == Dot(left[..i], left[..i]) && rightNorm == Dot(right[..i], right[..i])
    {
      var l, r := left[i], right[i];
      assert left[..i + 1][..i] == left[..i] && right[..i + 1][..i] == right[..i];
      dot := dot + Times(l, r);
      leftNorm := leftNorm + Times(l, l);
      rightNorm := rightNorm + Times(r, r);
    }
    assert left[..|left|] == left && right[..|right|] == right;
  }

  method CosineSimilarity(left: seq<real>, right: seq<real>, sqrt: real -> real) returns (score: real)
    requires IsSqrt(sqrt)
    ensures score == Cosine(left, right, sqrt)
    ensures -1.0 <= score <= 1.0
    ensures IsScore(left, right, score)
  {
    hide Dot, IsSqrt, Times, IsScore;
    CosineInRange(left, right, sqrt);
    CosineIsScore(left, right, sqrt);
    if |left| == 0 || |right| == 0 || |left| != |right| { return 0.0; }
    var dot, leftNorm, rightNorm := Accumulate(left, right);
    if leftNorm == 0.0 || rightNorm == 0.0 { return 0.0; }
    SquareNonNegative(left);
    SquareNonNegative(right);
    RootsAreNotZero(leftNorm, rightNorm, sqrt);
    score := dot / (sqrt(leftNorm) * sqrt(rightNorm));
  }

  lemma RootsAreNotZero(x: real, y: real, sqrt: real -> real)
    requires IsSqrt(sqrt) && x > 0.0 && y > 0.0
    ensures sqrt(x) * sqrt(y) != 0.0
  {
    assert sqrt(x) != 0.0 && sqrt(y) != 0.0;
  }

  // ----- the search

  /** A joined row of chunks and vectors; the score of `chunk` is not set yet. */
  datatype Row = Row(chunk: SearchResult, embedding: seq<bv8>)

  function Numbers(values: seq<bv32>, value: bv32 -> real): (r: seq<real>)
    ensures |r| == |values|
    ensures forall i :: 0 <= i < |values| ==> r[i] == value(values[i])
  {
    MapSeq(value, values)
  }

  ghost predicate Readable(row: Row, dimensions: nat) {
    |row.embedding| % 4 == 0 && |row.embedding| / 4 == dimensions
  }

  function Scored(row: Row, query: seq<bv32>, value: bv32 -> real, sqrt: real -> real): SearchResult {
    if |row.embedding| % 4 != 0 then row.chunk
    else row.chunk.(score := Cosine(Numbers(query, value), Numbers(Decoded(row.embedding), value), sqrt))
  }

  ghost function AllScored(rows: seq<Row>, query: seq<bv32>, value: bv32 -> real, sqrt: real -> real)
    : seq<SearchResult>
  {
    MapSeq((row: Row) => Scored(row, query, value, sqrt), rows)
  }

  /** r is the first `limit` of some sort of the scored rows. */
  ghost predicate IsTop(scored: seq<SearchResult>, limit: nat, r: seq<SearchResult>) {
    exists sorted :: IsSort(scored, sorted, ResultBefore) && r == sorted[..Min(limit, |sorted|)]
  }

  method SearchChunks(rows: seq<Row>, query: seq<bv32>, limit: int, value: bv32 -> real, sqrt: real -> real)
    returns (r: Result<seq<SearchResult>>)
    requires IsSqrt(sqrt)
    ensures r.Failure? <==> limit < 1 || exists k :: 0 <= k < |rows| && !Readable(rows[k], |query|)
    ensures r.Success? ==> limit >= 1 && IsTop(AllScored(rows, query, value, sqrt), limit, r.value)
  {
    if limit < 1 { return Failure("search limit must be greater than zero"); }
    var results: seq<SearchResult> := [];
    for i := 0 to |rows|
      invariant |results| == i
      invariant forall k :: 0 <= k < i ==>
                  Readable(rows[k], |query|) && results[k] == Scored(rows[k], query, value, sqrt)
    {
      var decoded := DecodeEmbedding(rows[i].embedding);
      if decoded.Failure? { return Failure(decoded.error); }
      var embedding := decoded.value[..];
      if |query| != |embedding| { return Failure("query embedding dimensions do not match"); }
      var score := CosineSimilarity(Numbers(query, value), Numbers(embedding, value), sqrt);
      results := results + [rows[i].chunk.(score := score)];
    }
    assert results == AllScored(rows, query, value, sqrt);
    ResultBeforeIsWeakOrder();
    var sorted := SortSlice(results, ResultBefore);
    var top := if |sorted| > limit then sorted[..limit] else sorted;
    assert top == sorted[..Min(limit, |sorted|)];
    return Success(top);
  }

  /** The rows an index of these chunks and embeddings is read back as. */
  function StoredRows(chunks: seq<SearchResult>, vectors: seq<seq<bv32>>): (rows: seq<Row>)
    requires |chunks| == |vectors|
    ensures |rows| == |chunks|
  {
    seq(|chunks|, i requires 0 <= i < |chunks| => Row(chunks[i], Encoded(vectors[i])))
  }

  /** A stored row is scored on the very vector that was written. */
  lemma StoredRowsKeepTheirVectors(chunks: seq<SearchResult>, vectors: seq<seq<bv32>>, query: seq<bv32>,
                                   value: bv32 -> real, sqrt: real -> real)
    requires |chunks| == |vectors|
    ensures forall i :: 0 <= i < |chunks| ==>
              && Scored(StoredRows(chunks, vectors)[i], query, value, sqrt)
                 == chunks[i].(score := Cosine(Numbers(query, value), Numbers(vectors[i], value), sqrt))
              && (Readable(StoredRows(chunks, vectors)[i], |query|) <==> |vectors[i]| == |query|)
  {
    forall i | 0 <= i < |chunks| ensures Decoded(Encoded(vectors[i])) == vectors[i] {
      DecodeEncoded(vectors[i]);
    }
  }

  ghost predicate DistinctRows(rows: seq<Row>) {
    forall i, j :: 0 <= i < j < |rows| ==> rows[i].chunk.chunkId != rows[j].chunk.chunkId
  }

  /** The result depends on the rows only, not on the order the database returns them in nor on the unstable sort. */
  lemma SearchIsDetermined(rows: seq<Row>, rows': seq<Row>, query: seq<bv32>, limit: nat, value: bv32 -> real,
                           sqrt: real -> real, r: seq<SearchResult>, r': seq<SearchResult>)
    requires multiset(rows) == multiset(rows') && DistinctRows(rows)
    requires IsTop(AllScored(rows, query, value, sqrt), limit, r)
    requires IsTop(AllScored(rows', query, value, sqrt), limit, r')
    ensures r == r'
  {
    hide ResultBefore, Scored;
    var scored, scored' := AllScored(rows, query, value, sqrt), AllScored(rows', query, value, sqrt);
    var sorted :| IsSort(scored, sorted, ResultBefore) && r == sorted[..Min(limit, |sorted|)];
    var sorted' :| IsSort(scored', sorted', ResultBefore) && r' == sorted'[..Min(limit, |sorted'|)];
    MapPermutation((row: Row) => Scored(row, query, value, sqrt), rows, rows');
    ScoredDistinct(rows, query, value, sqrt);
    ResultBeforeSeparates(scored);
    SortsAgree(scored, scored', sorted, sorted', ResultBefore);
  }

  lemma ScoredDistinct(rows: seq<Row>, query: seq<bv32>, value: bv32 -> real, sqrt: real -> real)
    requires DistinctRows(rows)
    ensures DistinctChunks(AllScored(rows, query, value, sqrt))
  {
    hide Cosine, Numbers, Decoded;
  }

  /** Nothing left out comes before anything returned. */
  lemma NothingBetterIsLeftOut(scored: seq<SearchResult>, limit: nat, r: seq<SearchResult>, out: SearchResult, k: nat)
    requires IsTop(scored, limit, r) && DistinctChunks(scored)
    requires out in scored && out !in r && k < |r|
    ensures |r| == limit && !ResultBefore(out, r[k])
  {
    hide ResultBefore;
    var sorted :| IsSort(scored, sorted, ResultBefore) && r == sorted[..Min(limit, |sorted|)];
    SameElements(scored, sorted);
    assert out in sorted;
    var i :| 0 <= i < |sorted| && sorted[i] == out;
  }

  // ----- what comes first

  /** The row stands for the result: it has its chunk, and is scored as a row that can be read. */
  ghost predicate Stands(row: Row, query: seq<bv32>, value: bv32 -> real, sqrt: real -> real, r: SearchResult) {
    Readable(row, |query|) && r == Scored(row, query, value, sqrt)
  }

  lemma ScoreOfRow(row: Row, query: seq<bv32>, value: bv32 -> real, sqrt: real -> real)
    requires IsSqrt(sqrt) && Readable(row, |query|) && Dot(Numbers(query, value), Numbers(query, value)) != 0.0
    ensures Scored(row, query, value, sqrt).score <= 1.0
    ensures Scored(row, query, value, sqrt).score == 1.0
       <==> SameDirection(Numbers(query, value), Numbers(Decoded(row.embedding), value))
  {
    hide Dot, IsSqrt, IsScore, Cosine, SameDirection, Decoded;
    var a, b := Numbers(query, value), Numbers(Decoded(row.embedding), value);
    CosineInRange(a, b, sqrt);
    CosineIsScore(a, b, sqrt);
    if Dot(b, b) != 0.0 {
      ScoreIsOneIffSameDirection(a, b, Cosine(a, b, sqrt));
    } else {
      NoScoreWithoutDirection(a, b, Cosine(a, b, sqrt));
    }
  }

  lemma NoScoreWithoutDirection(a: seq<real>, b: seq<real>, score: real)
    requires |a| == |b| && Dot(a, a) != 0.0 && Dot(b, b) == 0.0 && IsScore(a, b, score)
    ensures score == 0.0 && !SameDirection(a, b)
  {
    hide Dot, SameDirection;
    if SameDirection(a, b) { MultipleHasDirection(a, b); }
  }

  lemma HigherIsEarlier(scored: seq<SearchResult>, limit: nat, r: seq<SearchResult>, i: nat, found: SearchResult)
    requires IsTop(scored, limit, r) && i < |r| && found in scored && found.score > r[i].score
    ensures exists j :: 0 <= j < i && r[j] == found
  {
    assert ResultBefore(found, r[i]) && found != r[i];
    hide ResultBefore;
    var sorted :| IsSort(scored, sorted, ResultBefore) && r == sorted[..Min(limit, |sorted|)];
    SameElements(scored, sorted);
    var j := EarlierInSort(sorted, ResultBefore, found, i);
    assert r[j] == found;
  }

  /**
   Whatever points the way of a query that is not zero is found first: a result of any other direction is returned only
   behind every stored row of the query's direction.
   */
  lemma SameDirectionIsFirst(rows: seq<Row>, query: seq<bv32>, limit: nat, value: bv32 -> real, sqrt: real -> real,
                             r: seq<SearchResult>, i: nat, other: Row, along: Row)
    requires IsSqrt(sqrt) && Dot(Numbers(query, value), Numbers(query, value)) != 0.0
    requires IsTop(AllScored(rows, query, value, sqrt), limit, r) && i < |r|
    requires other in rows && Stands(other, query, value, sqrt, r[i])
    requires !SameDirection(Numbers(query, value), Numbers(Decoded(other.embedding), value))
    requires along in rows && Readable(along, |query|)
    requires SameDirection(Numbers(query, value), Numbers(Decoded(along.embedding), value))
    ensures exists j :: 0 <= j < i && r[j] == Scored(along, query, value, sqrt) && r[j].score == 1.0
  {
    hide Dot, IsSqrt, Scored, SameDirection, Decoded, IsTop, Numbers;
    ScoreOfRow(other, query, value, sqrt);
    ScoreOfRow(along, query, value, sqrt);
    var scored := AllScored(rows, query, value, sqrt);
    var found := Scored(along, query, value, sqrt);
    var k :| 0 <= k < |rows| && rows[k] == along;
    assert scored[k] == found;
    HigherIsEarlier(scored, limit, r, i, found);
  }

  /** And the other way round: a vector against the query's way scores below zero, one across it zero. */
  lemma SignOfRow(row: Row, query: seq<bv32>, value: bv32 -> real, sqrt: real -> real)
    requires IsSqrt(sqrt) && Readable(row, |query|)
    requires Dot(Numbers(query, value), Numbers(query, value)) != 0.0
    requires Dot(Numbers(Decoded(row.embedding), value), Numbers(Decoded(row.embedding), value)) != 0.0
    ensures var dot := Dot(Numbers(query, value), Numbers(Decoded(row.embedding), value));
            && (Scored(row, query, value, sqrt).score > 0.0 <==> dot > 0.0)
            && (Scored(row, query, value, sqrt).score < 0.0 <==> dot < 0.0)
  {
    hide Dot, IsSqrt, Cosine, Decoded;
    CosineIsScore(Numbers(query, value), Numbers(Decoded(row.embedding), value), sqrt);
  }

  // ----- from what was written to what is found

  /** The chunks with the cosines of their own vectors. */
  function ByCosine(chunks: seq<SearchResult>, vectors: seq<seq<bv32>>, query: seq<bv32>, value: bv32 -> real,
                    sqrt: real -> real)
    : (scored: seq<SearchResult>)
    requires |chunks| == |vectors|
    ensures |scored| == |chunks|
  {
    seq(|chunks|, i requires 0 <= i < |chunks| =>
      chunks[i].(score := Cosine(Numbers(query, value), Numbers(vectors[i], value), sqrt)))
  }

  lemma StoredRowsAreDistinct(chunks: seq<SearchResult>, vectors: seq<seq<bv32>>)
    requires |chunks| == |vectors| && DistinctChunks(chunks)
    ensures DistinctRows(StoredRows(chunks, vectors))
  {
    hide Encoded;
  }

  lemma StoredRowsAreScored(chunks: seq<SearchResult>, vectors: seq<seq<bv32>>, query: seq<bv32>, value: bv32 -> real,
                            sqrt: real -> real)
    requires |chunks| == |vectors|
    ensures AllScored(StoredRows(chunks, vectors), query, value, sqrt) == ByCosine(chunks, vectors, query, value, sqrt)
  {
    hide Scored, Cosine, Numbers;
    StoredRowsKeepTheirVectors(chunks, vectors, query, value, sqrt);
  }

  /**
   The index and the search together: whatever the order in which the stored rows come back, and however the sort deals
   with ties, the search returns the first `limit` of the one list of the chunks sorted by the cosines of the vectors
   that were given to the encoder.
   */
  lemma SearchFindsTheNearest(chunks: seq<SearchResult>, vectors: seq<seq<bv32>>, rows: seq<Row>, query: seq<bv32>,
                              limit: nat, value: bv32 -> real, sqrt: real -> real, nearest: seq<SearchResult>,
                              r: seq<SearchResult>)
    requires |chunks| == |vectors| && DistinctChunks(chunks)
    requires multiset(rows) == multiset(StoredRows(chunks, vectors))
    requires IsSort(ByCosine(chunks, vectors, query, value, sqrt), nearest, ResultBefore)
    requires IsTop(AllScored(rows, query, value, sqrt), limit, r)
    ensures r == nearest[..Min(limit, |nearest|)]
  {
    hide ResultBefore, AllScored, StoredRows, ByCosine, DistinctChunks, DistinctRows;
    var stored := StoredRows(chunks, vectors);
    StoredRowsAreDistinct(chunks, vectors);
    StoredRowsAreScored(chunks, vectors, query, value, sqrt);
    assert IsTop(AllScored(stored, query, value, sqrt), limit, nearest[..Min(limit, |nearest|)]);
    SearchIsDetermined(stored, rows, query, limit, value, sqrt, nearest[..Min(limit, |nearest|)], r);
  }
}
