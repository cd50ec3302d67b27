/**
 Sorting, as the source's library calls promise it: some permutation of the input in which no later element
 comes before an earlier one.  Nothing is said about equal elements, so what is proved here covers the
 unstable `sort.Slice` and `slices.SortFunc` as well as `sort.SliceStable`.
 */
module Ordering {

  ghost predicate SortedBy<T>(s: seq<T>, less: (T, T) -> bool) {
    forall i, j :: 0 <= i < j < |s| ==> !less(s[j], s[i])
  }

  /** What a sort needs of its comparator: a strict weak order. */
  ghost predicate WeakOrder<T(!new)>(less: (T, T) -> bool) {
    && (forall x, y :: less(x, y) ==> !less(y, x))
    && (forall x, y, z :: less(x, z) ==> less(x, y) || less(y, z))
  }

  /** No two different elements of s are left unordered. */
  ghost predicate Separates<T>(s: seq<T>, less: (T, T) -> bool) {
    forall x, y :: x in s && y in s && x != y ==> less(x, y) || less(y, x)
  }

  ghost predicate IsSort<T>(s: seq<T>, r: seq<T>, less: (T, T) -> bool) {
    multiset(r) == multiset(s) && SortedBy(r, less)
  }

  lemma SameElements<T>(a: seq<T>, b: seq<T>)
    requires multiset(a) == multiset(b)
    ensures |a| == |b|
    ensures forall x :: x in a <==> x in b
  {
    assert |a| == |multiset(a)| == |multiset(b)| == |b|;
    forall x ensures x in a <==> x in b {
      assert x in a <==> x in multiset(a);
      assert x in b <==> x in multiset(b);
    }
  }

  lemma DropHead<T>(s: seq<T>)
    requires s != []
    ensures multiset(s[1..]) == multiset(s) - multiset{s[0]}
  {
    assert s == [s[0]] + s[1..];
  }

  lemma DropAt<T>(s: seq<T>, k: nat)
    requires k < |s|
    ensures multiset(s[..k] + s[k + 1..]) == multiset(s) - multiset{s[k]}
  {
    assert s == s[..k] + [s[k]] + s[k + 1..];
  }

  lemma HeadsAgree<T>(a: seq<T>, b: seq<T>, less: (T, T) -> bool)
    requires multiset(a) == multiset(b) && a != [] && b != []
    requires SortedBy(a, less) && SortedBy(b, less)
    requires Separates(a, less)
    ensures a[0] == b[0]
  {
    SameElements(a, b);
    assert a[0] in b && b[0] in a;
    var i :| 0 <= i < |a| && a[i] == b[0];
    var j :| 0 <= j < |b| && b[j] == a[0];
    if i != 0 && j != 0 {
      assert !less(a[i], a[0]) && !less(b[j], b[0]);
    }
  }

  lemma TailSorted<T>(s: seq<T>, less: (T, T) -> bool)
    requires s != [] && SortedBy(s, less) && Separates(s, less)
    ensures SortedBy(s[1..], less) && Separates(s[1..], less)
  {
    forall x | x in s[1..] ensures x in s {}
  }

  lemma SameTails<T>(a: seq<T>, b: seq<T>)
    requires a != [] && b != [] && multiset(a) == multiset(b) && a[0] == b[0]
    ensures multiset(a[1..]) == multiset(b[1..])
  {
    DropHead(a);
    DropHead(b);
  }

  /** An order that separates the elements leaves a sort, stable or not, only one possible outcome. */
  lemma {:induction false} SortIsUnique<T>(a: seq<T>, b: seq<T>, less: (T, T) -> bool)
    requires IsSort(a, b, less) && SortedBy(a, less)
    requires Separates(a, less) && Separates(b, less)
    ensures a == b
  {
    SameElements(a, b);
    if a != [] {
      HeadsAgree(a, b, less);
      SameTails(a, b);
      TailSorted(a, less);
      TailSorted(b, less);
      SortIsUnique(a[1..], b[1..], less);
      assert a == [a[0]] + a[1..] && b == [b[0]] + b[1..];
    }
  }

  /** Sorting two permutations of one list with a separating order gives the same list. */
  lemma SortsAgree<T>(s: seq<T>, s': seq<T>, r: seq<T>, r': seq<T>, less: (T, T) -> bool)
    requires multiset(s) == multiset(s') && Separates(s, less)
    requires IsSort(s, r, less) && IsSort(s', r', less)
    ensures r == r'
  {
    SameElements(s, r);
    SameElements(s, r');
    SortIsUnique(r, r', less);
  }

  lemma NotLessBelow<T(!new)>(r: seq<T>, k: nat, x: T, less: (T, T) -> bool)
    requires WeakOrder(less) && SortedBy(r, less) && k <= |r|
    requires k > 0 ==> !less(x, r[k - 1])
    ensures forall i :: 0 <= i < k ==> !less(x, r[i])
  {
    forall i | 0 <= i < k ensures !less(x, r[i]) {
      if i < k - 1 { assert !less(r[k - 1], r[i]); }
    }
  }

  lemma InsertSorted<T>(r: seq<T>, k: nat, x: T, less: (T, T) -> bool)
    requires SortedBy(r, less) && k <= |r|
    requires forall i :: 0 <= i < k ==> !less(x, r[i])
    requires forall i :: k <= i < |r| ==> !less(r[i], x)
    ensures SortedBy(r[..k] + [x] + r[k..], less)
  {
    var t := r[..k] + [x] + r[k..];
    forall i, j | 0 <= i < j < |t| ensures !less(t[j], t[i]) {
      assert i != k ==> t[i] == r[if i < k then i else i - 1];
      assert j != k ==> t[j] == r[if j < k then j else j - 1];
    }
  }

  lemma InsertAt<T>(r: seq<T>, k: nat, x: T)
    requires k <= |r|
    ensures multiset(r[..k] + [x] + r[k..]) == multiset(r) + multiset{x}
  {
    assert r == r[..k] + r[k..];
  }

  /** The library sort.  Callers may use only its contract. */
  method SortSlice<T(!new)>(s: seq<T>, less: (T, T) -> bool) returns (r: seq<T>)
    requires WeakOrder(less)
    ensures IsSort(s, r, less)
  {
    r := [];
    for i := 0 to |s|
      invariant IsSort(s[..i], r, less)
    {
      var k := |r|;
      while k > 0 && less(s[i], r[k - 1])
        invariant 0 <= k <= |r|
        invariant forall j :: k <= j < |r| ==> less(s[i], r[j])
      {
        k := k - 1;
      }
      NotLessBelow(r, k, s[i], less);
      InsertSorted(r, k, s[i], less);
      InsertAt(r, k, s[i]);
      assert s[..i + 1] == s[..i] + [s[i]];
      r := r[..k] + [s[i]] + r[k..];
    }
    assert s[..|s|] == s;
  }

  /** Some sort exists. */
  lemma SortExists<T(!new)>(s: seq<T>, less: (T, T) -> bool) returns (r: seq<T>)
    requires WeakOrder(less)
    ensures IsSort(s, r, less)
  {
    if s == [] { return []; }
    var n := |s| - 1;
    var q := SortExists(s[..n], less);
    var k := |q|;
    while k > 0 && less(s[n], q[k - 1])
      invariant 0 <= k <= |q|
      invariant forall j :: k <= j < |q| ==> less(s[n], q[j])
    {
      k := k - 1;
    }
    NotLessBelow(q, k, s[n], less);
    InsertSorted(q, k, s[n], less);
    InsertAt(q, k, s[n]);
    assert s == s[..n] + [s[n]];
    return q[..k] + [s[n]] + q[k..];
  }

  function Swap<T>(r: seq<T>, i: nat, j: nat): seq<T>
    requires i < |r| && j < |r|
  {
    r[i := r[j]][j := r[i]]
  }

  lemma SwapPermutes<T>(r: seq<T>, i: nat, j: nat)
    requires i < j < |r|
    ensures multiset(Swap(r, i, j)) == multiset(r)
  {
    var a, b, c := r[..i], r[i + 1..j], r[j + 1..];
    assert r == a + [r[i]] + b + [r[j]] + c;
    assert Swap(r, i, j) == a + [r[j]] + b + [r[i]] + c;
  }

  /** Two elements a sort leaves in any order may change places. */
  lemma SwapKeepsSorted<T(!new)>(r: seq<T>, i: nat, j: nat, less: (T, T) -> bool)
    requires WeakOrder(less) && SortedBy(r, less)
    requires i < j < |r| && !less(r[i], r[j]) && !less(r[j], r[i])
    ensures IsSort(r, Swap(r, i, j), less)
  {
    SwapPermutes(r, i, j);
    var q := Swap(r, i, j);
    forall a, b | 0 <= a < b < |r| ensures !less(q[b], q[a]) {}
  }

  /** What comes before the element at i is found in front of it. */
  lemma EarlierInSort<T>(sorted: seq<T>, less: (T, T) -> bool, x: T, i: nat) returns (j: nat)
    requires SortedBy(sorted, less) && x in sorted && i < |sorted| && less(x, sorted[i]) && x != sorted[i]
    ensures j < i && sorted[j] == x
  {
    j :| 0 <= j < |sorted| && sorted[j] == x;
  }

  function MapSeq<A, B>(f: A -> B, s: seq<A>): (r: seq<B>)
    ensures |r| == |s|
    ensures forall i :: 0 <= i < |s| ==> r[i] == f(s[i])
  {
    seq(|s|, i requires 0 <= i < |s| => f(s[i]))
  }

  lemma MapDropAt<A, B>(f: A -> B, s: seq<A>, k: nat)
    requires k < |s|
    ensures multiset(MapSeq(f, s)) == multiset(MapSeq(f, s[..k] + s[k + 1..])) + multiset{f(s[k])}
  {
    var ms := MapSeq(f, s);
    assert ms == ms[..k] + [ms[k]] + ms[k + 1..];
    assert MapSeq(f, s[..k] + s[k + 1..]) == ms[..k] + ms[k + 1..];
  }

  lemma SharedElement<T>(s: seq<T>, t: seq<T>) returns (k: nat)
    requires multiset(s) == multiset(t) && s != []
    ensures k < |t| && t[k] == s[0]
    ensures multiset(s[1..]) == multiset(t[..k] + t[k + 1..])
  {
    SameElements(s, t);
    assert s[0] in t;
    k :| 0 <= k < |t| && t[k] == s[0];
    DropHead(s);
    DropAt(t, k);
  }

  /** Mapping a permutation of a list gives a permutation of the mapped list. */
  lemma {:induction false} MapPermutation<A, B>(f: A -> B, s: seq<A>, t: seq<A>)
    requires multiset(s) == multiset(t)
    ensures multiset(MapSeq(f, s)) == multiset(MapSeq(f, t))
    decreases |s|
  {
    SameElements(s, t);
    if s != [] {
      var k := SharedElement(s, t);
      var t' := t[..k] + t[k + 1..];
      MapPermutation(f, s[1..], t');
      MapDropAt(f, t, k);
      var ms := MapSeq(f, s);
      DropHead(ms);
      assert MapSeq(f, s[1..]) == ms[1..];
    }
  }

  ghost predicate DistinctBy<T, K>(s: seq<T>, key: T -> K) {
    forall i, j :: 0 <= i < j < |s| ==> key(s[i]) != key(s[j])
  }

  lemma {:induction false} OneOfEach<T, K>(s: seq<T>, key: T -> K, x: T)
    requires DistinctBy(s, key)
    ensures multiset(s)[x] <= 1
  {
    if s != [] {
      var n := |s| - 1;
      assert s == s[..n] + [s[n]];
      OneOfEach(s[..n], key, x);
    }
  }

  lemma TwoOfOne<T>(s: seq<T>, i: nat, j: nat)
    requires i < j < |s| && s[i] == s[j]
    ensures multiset(s)[s[i]] >= 2
  {
    assert s == s[..j] + [s[j]] + s[j + 1..];
    assert s[i] in s[..j];
  }

  /** Keys that are distinct in one order are distinct in every order. */
  lemma DistinctPermutes<T, K>(s: seq<T>, t: seq<T>, key: T -> K)
    requires DistinctBy(s, key) && multiset(s) == multiset(t)
    ensures DistinctBy(t, key)
  {
    SameElements(s, t);
    forall i, j | 0 <= i < j < |t| ensures key(t[i]) != key(t[j]) {
      if key(t[i]) == key(t[j]) {
        assert t[i] in s && t[j] in s;
        OneOfEach(s, key, t[i]);
        TwoOfOne(t, i, j);
      }
    }
  }

  function Min(a: int, b: int): int {
    if a < b then a else b
  }
}
