/**
 Strings as the model sees them: sequences of characters, one character a byte.  Space and case are the
 ASCII ones.
 */
module Text {

  ghost predicate Contains(s: string, part: string) {
    exists i, j :: 0 <= i <= j <= |s| && s[i..j] == part
  }

  predicate IsSpace(c: char) {
    c == ' ' || c == '\t' || c == '\n' || c == '\r' || c == '\U{0B}' || c == '\U{0C}'
  }

  function TrimLeft(s: string): (r: string)
    ensures |r| <= |s|
    ensures r != "" ==> !IsSpace(r[0])
    ensures r == s[|s| - |r|..]
    ensures forall k :: 0 <= k < |s| - |r| ==> IsSpace(s[k])
  {
    if s != "" && IsSpace(s[0]) then TrimLeft(s[1..]) else s
  }

  function TrimRight(s: string): (r: string)
    ensures |r| <= |s|
    ensures r != "" ==> !IsSpace(r[|r| - 1])
    ensures r == s[..|r|]
    ensures forall k :: |r| <= k < |s| ==> IsSpace(s[k])
  {
    if s != "" && IsSpace(s[|s| - 1]) then TrimRight(s[..|s| - 1]) else s
  }

  function TrimSpace(s: string): (r: string)
    ensures |r| <= |s|
    ensures r != "" ==> !IsSpace(r[0]) && !IsSpace(r[|r| - 1])
  {
    TrimRight(TrimLeft(s))
  }

  const SPACES := " \t\n\r\U{0B}\U{0C}"

  /** The characters of a text that are not space, in order. */
  function Solid(s: string): string {
    if s == "" then ""
    else
      var n := |s| - 1;
      Solid(s[..n]) + (if s[n] in SPACES then "" else [s[n]])
  }

  lemma {:induction false} SolidConcat(a: string, b: string)
    ensures Solid(a + b) == Solid(a) + Solid(b)
  {
    if b == "" {
      assert a + b == a;
    } else {
      var n := |b| - 1;
      SolidConcat(a, b[..n]);
      assert (a + b)[..|a| + n] == a + b[..n];
    }
  }

  lemma {:induction false} NothingSolid(s: string)
    requires forall k :: 0 <= k < |s| ==> s[k] in SPACES
    ensures Solid(s) == ""
  {
    if s != "" { NothingSolid(s[..|s| - 1]); }
  }

  /** Trimming loses no character that is not space. */
  lemma TrimSpaceKeepsSolid(s: string)
    ensures Solid(TrimSpace(s)) == Solid(s)
  {
    hide TrimSpace, Solid;
    var i, j := TrimSpaceIsTheMiddle(s);
    NothingSolid(s[..i]);
    NothingSolid(s[j..]);
    SolidConcat(s[..i], s[i..j]);
    SolidConcat(s[..j], s[j..]);
    assert s == s[..j] + s[j..] && s[..j] == s[..i] + s[i..j];
  }

  lemma SpacesAreSix(c: char)
    ensures IsSpace(c) <==> c in SPACES
  {
    assert SPACES == [' ', '\t', '\n', '\r', '\U{0B}', '\U{0C}'];
  }

  /**
   Trimming takes the outer space off and nothing else: what stays begins and ends with something else, if it is
   anything.
   */
  lemma TrimSpaceIsTheMiddle(s: string) returns (i: nat, j: nat)
    ensures i <= j <= |s| && TrimSpace(s) == s[i..j]
    ensures forall k :: 0 <= k < i || j <= k < |s| ==> s[k] in SPACES
    ensures i < j ==> s[i] !in SPACES && s[j - 1] !in SPACES
    ensures TrimSpace(s) == "" <==> forall k :: 0 <= k < |s| ==> s[k] in SPACES
  {
    i, j := TrimmedMiddle(s);
    forall k | 0 <= k < |s| ensures IsSpace(s[k]) <==> s[k] in SPACES { SpacesAreSix(s[k]); }
    hide TrimSpace, IsSpace, SPACES;
  }

  lemma TrimmedMiddle(s: string) returns (i: nat, j: nat)
    ensures i <= j <= |s| && TrimSpace(s) == s[i..j]
    ensures forall k :: 0 <= k < i || j <= k < |s| ==> IsSpace(s[k])
    ensures i < j ==> !IsSpace(s[i]) && !IsSpace(s[j - 1])
  {
    hide IsSpace, TrimLeft, TrimRight;
    var left := TrimLeft(s);
    i := |s| - |left|;
    j := i + |TrimRight(left)|;
    forall k | j <= k < |s| ensures IsSpace(s[k]) { assert left[k - i] == s[k]; }
  }

  function LowerChar(c: char): char {
    if 'A' <= c <= 'Z' then ((c as int) + 32) as char else c
  }

  function ToLower(s: string): (r: string)
    ensures |r| == |s|
    ensures forall i :: 0 <= i < |s| ==> r[i] == LowerChar(s[i])
  {
    seq(|s|, i requires 0 <= i < |s| => LowerChar(s[i]))
  }

  /** `strings.ToLower(strings.TrimSpace(value))`, which four packages of the source share. */
  function Normalize(s: string): string {
    ToLower(TrimSpace(s))
  }

  /** Capital letters become small ones, each its own, and everything else stays. */
  lemma LowerCase(c: char)
    ensures 'A' <= c <= 'Z' ==> 'a' <= LowerChar(c) <= 'z' && LowerChar(c) as int - 'a' as int == c as int - 'A' as int
    ensures !('A' <= c <= 'Z') ==> LowerChar(c) == c
  {}

  /** Lower-case text without outer space is its own normal form. */
  lemma NormalizeKeeps(s: string)
    requires s != "" ==> !IsSpace(s[0]) && !IsSpace(s[|s| - 1])
    requires forall i :: 0 <= i < |s| ==> !('A' <= s[i] <= 'Z')
    ensures Normalize(s) == s
  {
    assert TrimLeft(s) == s;
    assert TrimRight(s) == s;
    hide TrimLeft, TrimRight, IsSpace;
    assert ToLower(s) == s;
  }

  /** The byte order of `strings.Compare` and of `<` on strings. */
  predicate LexLess(a: string, b: string) {
    if b == "" then false
    else if a == "" then true
    else a[0] < b[0] || (a[0] == b[0] && LexLess(a[1..], b[1..]))
  }

  /** The two agree up to n, where the first one ends or has the lower character. */
  predicate LessAt(a: string, b: string, n: nat) {
    n <= |a| && n < |b| && a[..n] == b[..n] && (n == |a| || a[n] < b[n])
  }

  lemma LessAtTail(a: string, b: string, n: nat)
    requires a != "" && b != "" && a[0] == b[0]
    ensures !LessAt(a, b, 0) && (LessAt(a, b, n + 1) <==> LessAt(a[1..], b[1..], n))
  {
    if n <= |a[1..]| && n <= |b[1..]| {
      assert a[..n + 1] == [a[0]] + a[1..][..n] && b[..n + 1] == [b[0]] + b[1..][..n];
      assert a[..n + 1][1..] == a[1..][..n] && b[..n + 1][1..] == b[1..][..n];
    }
  }

  lemma LessAtFirst(a: string, b: string, n: nat)
    requires a == "" || b == "" || a[0] != b[0]
    ensures LessAt(a, b, 0) <==> b != "" && (a == "" || a[0] < b[0])
    ensures n > 0 ==> !LessAt(a, b, n)
  {
    if n > 0 && n <= |a| && n <= |b| { assert a[..n][0] == a[0] && b[..n][0] == b[0]; }
  }

  /**
   One comes before the other if and only if it is a proper beginning of it, or has the lower character where they first
   differ.
   */
  lemma {:induction false} LexLessInWords(a: string, b: string)
    ensures LexLess(a, b) <==> exists n: nat :: LessAt(a, b, n)
  {
    hide LessAt;
    if a != "" && b != "" && a[0] == b[0] {
      LexLessInWords(a[1..], b[1..]);
      if n: nat :| LessAt(a[1..], b[1..], n) { LessAtTail(a, b, n); }
      if n: nat :| LessAt(a, b, n) {
        LessAtTail(a, b, 0);
        if n > 0 { LessAtTail(a, b, n - 1); }
      }
    } else {
      forall n: nat | n > 0 ensures !LessAt(a, b, n) { LessAtFirst(a, b, n); }
      LessAtFirst(a, b, 0);
    }
  }

  lemma {:induction false} LexIrreflexive(a: string)
    ensures !LexLess(a, a)
  {
    if a != "" { LexIrreflexive(a[1..]); }
  }

  lemma {:induction false} LexConnected(a: string, b: string)
    ensures a == b || LexLess(a, b) || LexLess(b, a)
  {
    if a != "" && b != "" && a[0] == b[0] {
      LexConnected(a[1..], b[1..]);
      assert a == [a[0]] + a[1..] && b == [b[0]] + b[1..];
    }
  }

  lemma {:induction false} LexTransitive(a: string, b: string, c: string)
    requires LexLess(a, b) && LexLess(b, c)
    ensures LexLess(a, c)
  {
    if a != "" && a[0] == b[0] && b[0] == c[0] {
      LexTransitive(a[1..], b[1..], c[1..]);
    }
  }

  lemma LexAsymmetric(a: string, b: string)
    requires LexLess(a, b)
    ensures !LexLess(b, a)
  {
    if LexLess(b, a) {
      LexTransitive(a, b, a);
      LexIrreflexive(a);
    }
  }

  lemma LexNegativelyTransitive(a: string, b: string, c: string)
    requires LexLess(a, c)
    ensures LexLess(a, b) || LexLess(b, c)
  {
    LexConnected(a, b);
    if LexLess(b, a) { LexTransitive(b, a, c); }
  }

  predicate IsDigit(c: char) {
    '0' <= c <= '9'
  }

  function Digit(d: nat): (c: char)
    requires d < 10
    ensures IsDigit(c) && c as int == '0' as int + d
  {
    (('0' as int) + d) as char
  }

  function Decimal(n: nat): (r: string)
    ensures r != "" && forall i :: 0 <= i < |r| ==> IsDigit(r[i])
  {
    if n < 10 then [Digit(n)] else Decimal(n / 10) + [Digit(n % 10)]
  }

  /** `strconv.Itoa` and the `%d` verb. */
  function Itoa(n: int): (r: string)
    ensures r != ""
  {
    if n < 0 then "-" + Decimal(-n) else Decimal(n)
  }

  /** The number that digits stand for. */
  function Value(digits: string): int {
    if digits == "" then 0
    else
      var n := |digits| - 1;
      10 * Value(digits[..n]) + (digits[n] as int - '0' as int)
  }

  /** Decimals stand for their number, without leading zeros. */
  lemma {:induction false} DecimalValue(n: nat)
    ensures Value(Decimal(n)) == n
    ensures n > 0 ==> Decimal(n)[0] != '0'
  {
    if n >= 10 {
      DecimalValue(n / 10);
      assert Decimal(n)[..|Decimal(n)| - 1] == Decimal(n / 10);
    } else {
      assert Decimal(n)[..0] == "";
    }
  }

  lemma {:induction false} DecimalInjective(m: nat, n: nat)
    requires Decimal(m) == Decimal(n)
    ensures m == n
  {
    var r := Decimal(m);
    assert r[|r| - 1] == Digit(m % 10) == Digit(n % 10);
    assert m < 10 <==> |r| == 1;
    if m >= 10 {
      assert Decimal(m / 10) == r[..|r| - 1] == Decimal(n / 10);
      DecimalInjective(m / 10, n / 10);
    }
  }

  lemma ItoaInjective(m: nat, n: nat)
    requires Itoa(m) == Itoa(n)
    ensures m == n
  {
    DecimalInjective(m, n);
  }

  lemma ItoaHasNoColon(n: int)
    ensures ':' !in Itoa(n)
  {
    var digits := Decimal(if n < 0 then -n else n);
    assert ':' !in digits;
    if n < 0 { assert Itoa(n) == "-" + digits; }
  }

  lemma NoColonAfter(a: string, x: string)
    requires ':' !in x
    ensures forall i :: |a| < i < |a| + 1 + |x| ==> (a + ":" + x)[i] != ':'
  {
    forall i | |a| < i < |a| + 1 + |x| ensures (a + ":" + x)[i] != ':' {
      assert (a + ":" + x)[i] == x[i - |a| - 1];
    }
  }

  lemma LastColonIsUnique(a: string, b: string, x: string, y: string)
    requires a + ":" + x == b + ":" + y
    requires ':' !in x && ':' !in y
    ensures a == b && x == y
  {
    var s := a + ":" + x;
    NoColonAfter(a, x);
    NoColonAfter(b, y);
    assert s[|a|] == ':' && s[|b|] == ':';
    assert |a| == |b|;
    assert a == s[..|a|] && b == s[..|b|];
    assert x == s[|a| + 1..] && y == s[|b| + 1..];
  }

  /** `strings.Split` with a one-character separator. */
  function Split(s: string, sep: char): (parts: seq<string>)
    ensures |parts| >= 1
    ensures forall i :: 0 <= i < |parts| ==> sep !in parts[i]
  {
    if s == "" then [""]
    else
      var rest := Split(s[1..], sep);
      if s[0] == sep then [""] + rest else [[s[0]] + rest[0]] + rest[1..]
  }

  /** `strings.Join` with a one-character separator. */
  function Join(parts: seq<string>, sep: char): string {
    if parts == [] then ""
    else if |parts| == 1 then parts[0]
    else parts[0] + [sep] + Join(parts[1..], sep)
  }

  lemma {:induction false} JoinSplit(s: string, sep: char)
    ensures Join(Split(s, sep), sep) == s
  {
    if s != "" {
      var rest := Split(s[1..], sep);
      JoinSplit(s[1..], sep);
      var parts := Split(s, sep);
      if s[0] == sep {
        assert parts[1..] == rest;
      } else {
        assert parts[1..] == rest[1..];
      }
      assert s == [s[0]] + s[1..];
    }
  }

  lemma {:induction false} SplitWord(word: string, sep: char)
    requires sep !in word
    ensures Split(word, sep) == [word]
  {
    if word != "" {
      SplitWord(word[1..], sep);
      assert word == [word[0]] + word[1..];
    }
  }

  lemma {:induction false} SplitAfterWord(word: string, rest: string, sep: char)
    requires sep !in word
    ensures Split(word + [sep] + rest, sep) == [word] + Split(rest, sep)
  {
    var s := word + [sep] + rest;
    if word == "" {
      assert s == [sep] + rest && s[1..] == rest;
    } else {
      assert s[1..] == word[1..] + [sep] + rest;
      SplitAfterWord(word[1..], rest, sep);
      assert word == [word[0]] + word[1..];
    }
  }

  lemma {:induction false} SplitJoin(parts: seq<string>, sep: char)
    requires parts != []
    requires forall i :: 0 <= i < |parts| ==> sep !in parts[i]
    ensures Split(Join(parts, sep), sep) == parts
  {
    if |parts| == 1 {
      SplitWord(parts[0], sep);
    } else {
      SplitJoin(parts[1..], sep);
      SplitAfterWord(parts[0], Join(parts[1..], sep), sep);
    }
  }
}
