/**
 The debug summary of a retrieval (internal/retrieval/pipeline.go): source references cut to a bound, and as many of
 them as fit a header.  A slice out of range is None, for the source's panic.
 */
module DebugSummary {
  import opened Wrappers
  import Text
  import opened ContextCompiler

  const MAX_REF_LEN := 80
  const MAX_REFS_SIZE := 256

  const SEPARATOR := "; "

  /** Eight hexadecimal digits of the SHA-256 of a reference. */
  type ShortHash = string -> string

  ghost predicate EightDigits(hash: ShortHash) {
    forall value :: |hash(value)| == 8
  }

  function LineRange(s: SourceReference): string {
    ":" + Text.Itoa(s.startLine) + "-" + Text.Itoa(s.endLine)
  }

  lemma LineRangeInWords(s: SourceReference)
    requires s.startLine == 12 && s.endLine == 47
    ensures LineRange(s) == ":12-47"
  {
    SomeNumbers();
  }

  function FullRef(s: SourceReference): string {
    s.documentPath + LineRange(s)
  }

  function Slice(s: string, n: int): Option<string> {
    if 0 <= n <= |s| then Some(s[..n]) else None
  }

  /** What surrounds the path in a shortened reference. */
  function Reserved(lineRange: string): nat {
    |lineRange| + 10
  }

  /** Cutting the reference panics: it is too long, and its bound is neither short nor beyond the reserved size. */
  predicate CutPanics(path: string, lineRange: string, maxLen: int) {
    |path + lineRange| > maxLen && 10 <= maxLen <= Reserved(lineRange)
  }

  function BoundSourceRef(hash: ShortHash, path: string, lineRange: string, maxLen: int): (r: Option<string>)
    requires EightDigits(hash)
    ensures r.None? <==> CutPanics(path, lineRange, maxLen)
    ensures r.Some? && maxLen >= 1 ==> |r.value| <= maxLen
    ensures r.Some? && maxLen >= 1 && |path + lineRange| > maxLen ==> |r.value| == maxLen
    ensures r.Some? && |path + lineRange| <= maxLen ==> r.value == path + lineRange
    ensures maxLen < 1 ==> r == Some(path + lineRange)
    ensures 1 <= maxLen < 10 && |path + lineRange| > maxLen ==> r == Some(("#" + hash(path + lineRange))[..maxLen])
    ensures r.Some? && Reserved(lineRange) < maxLen < |path + lineRange| ==>
              r.value == path[..maxLen - Reserved(lineRange)] + "~#" + hash(path + lineRange) + lineRange
  {
    var value := path + lineRange;
    if maxLen < 1 || |value| <= maxLen then Some(value)
    else
      var suffix := "#" + hash(value);
      var reserved := |lineRange| + |suffix| + 1;
      if maxLen <= reserved then Slice(suffix, maxLen)
      else
        var prefixLen := if maxLen - reserved < 1 then 1 else maxLen - reserved;
        var prefix := Slice(path, prefixLen);
        if prefix.None? then None else Some(prefix.value + "~" + suffix + lineRange)
  }

  function FormatSourceRefBounded(hash: ShortHash, s: SourceReference, maxLen: int): Option<string>
    requires EightDigits(hash)
  {
    BoundSourceRef(hash, s.documentPath, LineRange(s), maxLen)
  }

  // ----- shortened references stay apart

  lemma ColonLeadsLineRange(s: SourceReference)
    ensures LineRange(s) == ":" + LineRange(s)[1..] && ':' !in LineRange(s)[1..]
  {
    hide Text.Itoa;
    Text.ItoaHasNoColon(s.startLine);
    Text.ItoaHasNoColon(s.endLine);
    var tail := Text.Itoa(s.startLine) + "-" + Text.Itoa(s.endLine);
    assert LineRange(s) == [':'] + tail;
    assert LineRange(s)[1..] == tail;
  }

  /** Two sources whose references were shortened alike are the same source, as far as the hash can tell. */
  lemma ShortenedRefsTellSources(hash: ShortHash, s: SourceReference, t: SourceReference, maxLen: int)
    requires EightDigits(hash)
    requires Reserved(LineRange(s)) < maxLen < |FullRef(s)| && Reserved(LineRange(t)) < maxLen < |FullRef(t)|
    requires FormatSourceRefBounded(hash, s, maxLen) == FormatSourceRefBounded(hash, t, maxLen)
    ensures hash(FullRef(s)) == hash(FullRef(t)) && LineRange(s) == LineRange(t)
    ensures s.documentPath[..maxLen - Reserved(LineRange(s))] == t.documentPath[..maxLen - Reserved(LineRange(t))]
  {
    hide LineRange;
    var a, b := LineRange(s), LineRange(t);
    ColonLeadsLineRange(s);
    ColonLeadsLineRange(t);
    var p := s.documentPath[..maxLen - Reserved(a)];
    var q := t.documentPath[..maxLen - Reserved(b)];
    var x := p + "~#" + hash(FullRef(s));
    var y := q + "~#" + hash(FullRef(t));
    assert x + a == FormatSourceRefBounded(hash, s, maxLen).value;
    assert y + b == FormatSourceRefBounded(hash, t, maxLen).value;
    assert x + ":" + a[1..] == x + a && y + ":" + b[1..] == y + b;
    Text.LastColonIsUnique(x, y, a[1..], b[1..]);
    assert x[..|p|] == p && y[..|q|] == q;
    assert x[|p| + 2..] == hash(FullRef(s)) && y[|q| + 2..] == hash(FullRef(t));
  }

  // ----- the summary

  datatype Summary = Summary(active: bool, sourceCount: nat, topK: int, truncated: bool, refs: seq<string>)

  function Joined(refs: seq<string>): string {
    if refs == [] then ""
    else if |refs| == 1 then refs[0]
    else Joined(refs[..|refs| - 1]) + SEPARATOR + refs[|refs| - 1]
  }

  /** The references of the first `n` sources. */
  ghost predicate RefsOf(hash: ShortHash, sources: seq<SourceReference>, n: nat, maxLen: int, refs: seq<string>)
    requires EightDigits(hash) && n <= |sources|
  {
    |refs| == n && forall k :: 0 <= k < n ==> FormatSourceRefBounded(hash, sources[k], maxLen) == Some(refs[k])
  }

  function AtLeast(n: int, least: int): (r: int)
    ensures r >= n && r >= least && (r == n || r == least)
  {
    if n < least then least else n
  }

  /** One more reference would be one too many, or too long for the header. */
  ghost predicate Full(hash: ShortHash, sources: seq<SourceReference>, refs: seq<string>, maxRefs: int, maxLen: int,
                       maxTotal: int)
    requires EightDigits(hash)
  {
    || |refs| == |sources|
    || |refs| >= maxRefs
    || (|refs| < |sources|
        && var next := FormatSourceRefBounded(hash, sources[|refs|], maxLen);
           next.Some? && |Joined(refs + [next.value])| > maxTotal)
  }

  lemma JoinedSnoc(refs: seq<string>, r: string)
    ensures |Joined(refs + [r])| == |Joined(refs)| + |r| + (if refs == [] then 0 else |SEPARATOR|)
  {
    assert (refs + [r])[..|refs|] == refs;
  }

  lemma NoRefs()
    ensures Joined([]) == ""
  {}

  /** The references before the panicking one fit, so it is looked at. */
  ghost predicate SummaryPanics(hash: ShortHash, sources: seq<SourceReference>, refs: seq<string>, maxRefs: int,
                                maxLen: int, maxTotal: int)
    requires EightDigits(hash)
  {
    && |refs| < |sources| && |refs| < maxRefs
    && RefsOf(hash, sources, |refs|, maxLen, refs) && |Joined(refs)| <= maxTotal
    && CutPanics(sources[|refs|].documentPath, LineRange(sources[|refs|]), maxLen)
  }

  lemma {:induction false} JoinedGrows(refs: seq<string>, n: nat)
    requires n <= |refs|
    ensures |Joined(refs[..n])| <= |Joined(refs)|
  {
    if n == |refs| {
      assert refs[..n] == refs;
    } else {
      var m := |refs| - 1;
      JoinedGrows(refs[..m], n);
      assert refs[..m][..n] == refs[..n];
    }
  }

  /** Where the loop ends for want of sources or room, no reference it would look at panics. */
  lemma FullMeansNoPanic(hash: ShortHash, sources: seq<SourceReference>, refs: seq<string>, p: seq<string>,
                         maxRefs: int, maxLen: int, maxTotal: int)
    requires EightDigits(hash) && |refs| <= |sources|
    requires RefsOf(hash, sources, |refs|, maxLen, refs) && Full(hash, sources, refs, maxRefs, maxLen, maxTotal)
    ensures !SummaryPanics(hash, sources, p, maxRefs, maxLen, maxTotal)
  {
    hide LineRange, BoundSourceRef, Joined;
    if SummaryPanics(hash, sources, p, maxRefs, maxLen, maxTotal) {
      PanicIsNone(hash, sources[|p|], maxLen);
      if |p| > |refs| {
        var n := |refs| + 1;
        assert p[..n] == refs + [p[|refs|]];
        JoinedGrows(p, n);
      }
      assert false;
    }
  }

  lemma PanicIsNone(hash: ShortHash, s: SourceReference, maxLen: int)
    requires EightDigits(hash)
    ensures CutPanics(s.documentPath, LineRange(s), maxLen) <==> FormatSourceRefBounded(hash, s, maxLen).None?
  {
    hide LineRange;
  }

  /**
   The references of the longest prefix of the sources whose header fits both bounds; None exactly when cutting one of
   the references looked at panics.
   */
  method SummarizeDebugBounded(hash: ShortHash, enabled: bool, topK: int, compiled: CompiledContext,
                               maxRefs: int, maxRefLen: int, maxTotalLen: int) returns (r: Option<Summary>)
    requires EightDigits(hash)
    ensures r.Some? ==>
              var refs, bound := r.value.refs, AtLeast(maxRefLen, 1);
              && r.value == Summary(enabled, |compiled.sources|, topK, compiled.truncated, refs)
              && |refs| <= |compiled.sources| && |refs| <= AtLeast(maxRefs, 0)
              && RefsOf(hash, compiled.sources, |refs|, bound, refs)
              && |Joined(refs)| <= AtLeast(maxTotalLen, 1)
              && Full(hash, compiled.sources, refs, AtLeast(maxRefs, 0), bound, AtLeast(maxTotalLen, 1))
    ensures r.None? <==>
              exists p: seq<string> ::
                SummaryPanics(hash, compiled.sources, p, AtLeast(maxRefs, 0), AtLeast(maxRefLen, 1),
                              AtLeast(maxTotalLen, 1))
  {
    hide LineRange, Text.Itoa, BoundSourceRef, CutPanics, Joined;
    assert Joined([]) == "" by { NoRefs(); }
    var refsBound, lenBound, remaining := AtLeast(maxRefs, 0), AtLeast(maxRefLen, 1), AtLeast(maxTotalLen, 1);
    var sources := compiled.sources;
    var refs: seq<string> := [];
    var i := 0;
    while i < |sources|
      invariant 0 <= i <= |sources| && |refs| == i <= refsBound
      invariant RefsOf(hash, sources, i, lenBound, refs)
      invariant remaining >= 0 && |Joined(refs)| + remaining == AtLeast(maxTotalLen, 1)
    {
      if i >= refsBound { break; }
      var ref := FormatSourceRefBounded(hash, sources[i], lenBound);
      if ref.None? {
        PanicIsNone(hash, sources[i], lenBound);
        assert SummaryPanics(hash, sources, refs, refsBound, lenBound, AtLeast(maxTotalLen, 1));
        return None;
      }
      var separatorLen := if |refs| > 0 then 2 else 0;
      JoinedSnoc(refs, ref.value);
      if |ref.value| + separatorLen > remaining { break; }
      refs := refs + [ref.value];
      remaining := remaining - (|ref.value| + separatorLen);
      i := i + 1;
    }
    assert Full(hash, sources, refs, refsBound, lenBound, AtLeast(maxTotalLen, 1));
    forall p ensures !SummaryPanics(hash, sources, p, refsBound, lenBound, AtLeast(maxTotalLen, 1)) {
      FullMeansNoPanic(hash, sources, refs, p, refsBound, lenBound, AtLeast(maxTotalLen, 1));
    }
    r := Some(Summary(enabled, |sources|, topK, compiled.truncated, refs));
  }

  lemma DecimalWidth(n: nat, width: nat, power: nat)
    requires n < power && power == Power(width) && width >= 1
    ensures |Text.Decimal(n)| <= width
  {
    if n >= 10 {
      DecimalWidth(n / 10, width - 1, Power(width - 1));
    }
  }

  function Power(width: nat): nat {
    if width == 0 then 1 else 10 * Power(width - 1)
  }

  lemma LineRangeWidth(s: SourceReference)
    requires -0x8000_0000_0000_0000 <= s.startLine < 0x8000_0000_0000_0000
    requires -0x8000_0000_0000_0000 <= s.endLine < 0x8000_0000_0000_0000
    ensures |LineRange(s)| <= 42
  {
    assert Power(6) == 1_000_000 && Power(12) == 1_000_000_000_000;
    assert Power(19) == 10_000_000_000_000_000_000;
    var a := if s.startLine < 0 then -s.startLine else s.startLine;
    var b := if s.endLine < 0 then -s.endLine else s.endLine;
    DecimalWidth(a, 19, Power(19));
    DecimalWidth(b, 19, Power(19));
  }

  /** With line numbers of 64 bits the default bound is always beyond the reserved size. */
  lemma DefaultNeverPanics(s: SourceReference)
    requires -0x8000_0000_0000_0000 <= s.startLine < 0x8000_0000_0000_0000
    requires -0x8000_0000_0000_0000 <= s.endLine < 0x8000_0000_0000_0000
    ensures !CutPanics(s.documentPath, LineRange(s), MAX_REF_LEN)
  {
    hide LineRange;
    LineRangeWidth(s);
  }

  /** A bound of 10 up to the reserved size does panic, whatever the source, once its path is long. */
  lemma ShortBoundsPanic(hash: ShortHash, s: SourceReference, maxLen: int)
    requires EightDigits(hash)
    requires 10 <= maxLen <= |s.documentPath|
    ensures FormatSourceRefBounded(hash, s, maxLen).None? <==> maxLen <= Reserved(LineRange(s))
  {
    hide LineRange;
    var range := LineRange(s);
    assert |s.documentPath + range| > maxLen by { ColonLeadsLineRange(s); }
  }

  predicate Wide(n: int) {
    -0x8000_0000_0000_0000 <= n < 0x8000_0000_0000_0000
  }

  /** With the default bounds the summary never panics, and its header has at most 256 bytes. */
  method SummarizeDebug(hash: ShortHash, enabled: bool, topK: int, compiled: CompiledContext, maxRefs: int)
    returns (r: Option<Summary>)
    requires EightDigits(hash)
    requires forall s :: s in compiled.sources ==> Wide(s.startLine) && Wide(s.endLine)
    ensures r.Some? && |Joined(r.value.refs)| <= MAX_REFS_SIZE
    ensures |r.value.refs| <= |compiled.sources|
    ensures RefsOf(hash, compiled.sources, |r.value.refs|, MAX_REF_LEN, r.value.refs)
    ensures Full(hash, compiled.sources, r.value.refs, AtLeast(maxRefs, 0), MAX_REF_LEN, MAX_REFS_SIZE)
  {
    hide LineRange, BoundSourceRef, CutPanics, Joined, RefsOf, Full;
    r := SummarizeDebugBounded(hash, enabled, topK, compiled, maxRefs, MAX_REF_LEN, MAX_REFS_SIZE);
    forall s | s in compiled.sources ensures !CutPanics(s.documentPath, LineRange(s), MAX_REF_LEN) {
      DefaultNeverPanics(s);
    }
  }
}
