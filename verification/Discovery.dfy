/**
 File selection (internal/index/discovery.go): include and exclude patterns with `**`, and line-ending
 normalization.  `path.Match` is an arbitrary predicate on a pattern segment and a path segment; a malformed
 segment counts as no match.
 */
module Discovery {
  import opened Text

  type SegmentMatch = (string, string) -> bool

  function MatchPathSegments(pattern: seq<string>, value: seq<string>, segment: SegmentMatch): bool
    decreases |pattern| + |value|
  {
    if pattern == [] then value == []
    else if pattern[0] == "**" then
      MatchPathSegments(pattern[1..], value, segment)
      || (value != [] && MatchPathSegments(pattern, value[1..], segment))
    else
      value != [] && segment(pattern[0], value[0]) && MatchPathSegments(pattern[1..], value[1..], segment)
  }

  // ----- the meaning of a pattern

  function Flatten(runs: seq<seq<string>>): seq<string> {
    if runs == [] then [] else runs[0] + Flatten(runs[1..])
  }

  /** One pattern segment takes one run of path segments: `**` any, every other exactly one that it matches. */
  predicate Takes(pattern: string, run: seq<string>, segment: SegmentMatch) {
    pattern == "**" || (|run| == 1 && segment(pattern, run[0]))
  }

  /** The runs cut the value into consecutive pieces, one for each pattern segment. */
  ghost predicate Splits(pattern: seq<string>, value: seq<string>, runs: seq<seq<string>>, segment: SegmentMatch) {
    && |runs| == |pattern|
    && Flatten(runs) == value
    && forall i :: 0 <= i < |pattern| ==> Takes(pattern[i], runs[i], segment)
  }

  lemma SplitsCons(pattern: seq<string>, value: seq<string>, run: seq<string>, runs: seq<seq<string>>,
                   segment: SegmentMatch)
    requires pattern != [] && Takes(pattern[0], run, segment)
    requires Splits(pattern[1..], value, runs, segment)
    ensures Splits(pattern, run + value, [run] + runs, segment)
  {
    assert ([run] + runs)[1..] == runs;
  }

  lemma {:induction false} MatchHasSplit(pattern: seq<string>, value: seq<string>, segment: SegmentMatch)
    returns (runs: seq<seq<string>>)
    requires MatchPathSegments(pattern, value, segment)
    ensures Splits(pattern, value, runs, segment)
    decreases |pattern| + |value|
  {
    if pattern == [] {
      runs := [];
    } else if pattern[0] == "**" {
      if MatchPathSegments(pattern[1..], value, segment) {
        var rest := MatchHasSplit(pattern[1..], value, segment);
        SplitsCons(pattern, value, [], rest, segment);
        assert [] + value == value;
        runs := [[]] + rest;
      } else {
        var rest := MatchHasSplit(pattern, value[1..], segment);
        var tail := rest[1..];
        assert rest == [rest[0]] + tail;
        assert Splits(pattern[1..], Flatten(tail), tail, segment);
        SplitsCons(pattern, Flatten(tail), [value[0]] + rest[0], tail, segment);
        assert [value[0]] + rest[0] + Flatten(tail) == [value[0]] + value[1..] == value;
        runs := [[value[0]] + rest[0]] + tail;
      }
    } else {
      var rest := MatchHasSplit(pattern[1..], value[1..], segment);
      SplitsCons(pattern, value[1..], [value[0]], rest, segment);
      assert [value[0]] + value[1..] == value;
      runs := [[value[0]]] + rest;
    }
  }

  lemma {:induction false} SplitIsMatch(pattern: seq<string>, value: seq<string>, runs: seq<seq<string>>,
                                        segment: SegmentMatch)
    requires Splits(pattern, value, runs, segment)
    ensures MatchPathSegments(pattern, value, segment)
    decreases |pattern| + |value|
  {
    if pattern != [] {
      var run, tail := runs[0], runs[1..];
      assert value == run + Flatten(tail);
      assert Splits(pattern[1..], Flatten(tail), tail, segment);
      if pattern[0] == "**" && run != [] {
        assert value[1..] == run[1..] + Flatten(tail);
        SplitsCons(pattern, Flatten(tail), run[1..], tail, segment);
        SplitIsMatch(pattern, value[1..], [run[1..]] + tail, segment);
      } else if pattern[0] == "**" {
        assert value == Flatten(tail);
        SplitIsMatch(pattern[1..], value, tail, segment);
      } else {
        assert run == [value[0]] && value[1..] == Flatten(tail);
        SplitIsMatch(pattern[1..], value[1..], tail, segment);
      }
    }
  }

  /** The matcher answers yes exactly when the path splits along the pattern. */
  lemma MatchIffSplit(pattern: seq<string>, value: seq<string>, segment: SegmentMatch)
    ensures MatchPathSegments(pattern, value, segment) <==> exists runs :: Splits(pattern, value, runs, segment)
  {
    if MatchPathSegments(pattern, value, segment) {
      var runs := MatchHasSplit(pattern, value, segment);
    }
    if runs :| Splits(pattern, value, runs, segment) {
      SplitIsMatch(pattern, value, runs, segment);
    }
  }

  /** Adjacent `**` become one. */
  function Collapse(pattern: seq<string>): seq<string> {
    if pattern == [] then []
    else if |pattern| >= 2 && pattern[0] == "**" == pattern[1] then Collapse(pattern[1..])
    else [pattern[0]] + Collapse(pattern[1..])
  }

  lemma {:induction false} StarStar(rest: seq<string>, value: seq<string>, segment: SegmentMatch)
    ensures MatchPathSegments(["**", "**"] + rest, value, segment) <==> MatchPathSegments(["**"] + rest, value, segment)
    decreases |value|
  {
    assert (["**", "**"] + rest)[1..] == ["**"] + rest;
    if value != [] {
      StarStar(rest, value[1..], segment);
    }
  }

  lemma {:induction false} SameTailSameMatch(head: string, a: seq<string>, b: seq<string>, value: seq<string>,
                                             segment: SegmentMatch)
    requires forall v :: MatchPathSegments(a, v, segment) <==> MatchPathSegments(b, v, segment)
    ensures MatchPathSegments([head] + a, value, segment) <==> MatchPathSegments([head] + b, value, segment)
    decreases |value|
  {
    assert ([head] + a)[1..] == a && ([head] + b)[1..] == b;
    if value != [] {
      SameTailSameMatch(head, a, b, value[1..], segment);
    }
  }

  /** Collapsing adjacent `**` never changes the answer. */
  lemma {:induction false} CollapseKeepsMatches(pattern: seq<string>, value: seq<string>, segment: SegmentMatch)
    ensures MatchPathSegments(Collapse(pattern), value, segment) <==> MatchPathSegments(pattern, value, segment)
    decreases |pattern|
  {
    if pattern != [] {
      var tail := pattern[1..];
      if |pattern| >= 2 && pattern[0] == "**" == pattern[1] {
        CollapseKeepsMatches(tail, value, segment);
        StarStar(pattern[2..], value, segment);
        assert pattern == ["**", "**"] + pattern[2..] && tail == ["**"] + pattern[2..];
      } else {
        forall v ensures MatchPathSegments(Collapse(tail), v, segment) <==> MatchPathSegments(tail, v, segment) {
          CollapseKeepsMatches(tail, v, segment);
        }
        SameTailSameMatch(pattern[0], Collapse(tail), tail, value, segment);
        assert pattern == [pattern[0]] + tail;
      }
    }
  }

  // ----- patterns and paths

  predicate HasGlobCharacter(pattern: string) {
    exists i :: 0 <= i < |pattern| && pattern[i] in {'*', '?', '['}
  }

  predicate MatchesGlob(pattern: string, value: string, segment: SegmentMatch) {
    HasGlobCharacter(pattern) && MatchPathSegments(Split(pattern, '/'), Split(value, '/'), segment)
  }

  predicate HasPrefix(s: string, prefix: string) {
    |prefix| <= |s| && s[..|prefix|] == prefix
  }

  /** A trimmed pattern against a path and the path's last element. */
  predicate PatternAccepts(pattern: string, value: string, base: string, segment: SegmentMatch) {
    pattern != ""
    && (|| value == pattern || HasPrefix(value, pattern + "/")
        || MatchesGlob(pattern, value, segment)
        || ('/' !in pattern && MatchesGlob(pattern, base, segment)))
  }

  /**
   What a pattern accepts: its own path, everything below it, and, when it has one of the three glob characters,
   whatever matches it segment by segment, by the whole path or, for a pattern without a slash, by the last element.
   */
  lemma AcceptsInWords(pattern: string, value: string, base: string, segment: SegmentMatch)
    ensures PatternAccepts(pattern, value, base, segment) <==>
              && pattern != ""
              && (|| value == pattern
                  || (exists below: string :: value == pattern + "/" + below)
                  || (('*' in pattern || '?' in pattern || '[' in pattern)
                      && (|| MatchPathSegments(Split(pattern, '/'), Split(value, '/'), segment)
                          || ('/' !in pattern && MatchPathSegments(Split(pattern, '/'), Split(base, '/'), segment)))))
  {
    hide Split, MatchPathSegments;
    assert HasGlobCharacter(pattern) <==> '*' in pattern || '?' in pattern || '[' in pattern;
    hide HasGlobCharacter;
    var prefix := pattern + "/";
    if HasPrefix(value, prefix) { assert value == prefix + value[|prefix|..]; }
    if below: string :| value == prefix + below { assert value[..|prefix|] == prefix; }
  }

  /** `base` is `path.Base` of the trimmed path. */
  method MatchesPattern(path: string, patterns: seq<string>, base: string -> string, segment: SegmentMatch)
    returns (matches: bool)
    ensures matches <==>
              exists k :: 0 <= k < |patterns|
                && PatternAccepts(TrimSpace(patterns[k]), TrimSpace(path), base(TrimSpace(path)), segment)
  {
    hide TrimSpace, MatchesGlob, HasPrefix;
    var value := TrimSpace(path);
    var last := base(value);
    for i := 0 to |patterns|
      invariant forall k :: 0 <= k < i ==> !PatternAccepts(TrimSpace(patterns[k]), value, last, segment)
    {
      var pattern := TrimSpace(patterns[i]);
      matches := false;
      if pattern == "" { continue; }
      if value == pattern || HasPrefix(value, pattern + "/") {
        matches := true;
      } else if MatchesGlob(pattern, value, segment) {
        matches := true;
      } else if '/' !in pattern && MatchesGlob(pattern, last, segment) {
        matches := true;
      }
      assert matches == PatternAccepts(pattern, value, last, segment);
      if matches { return; }
    }
    return false;
  }

  // ----- line endings

  /** `strings.ReplaceAll(s, "\r\n", "\n")` */
  function ReplacePairs(s: string): string {
    if s == "" then ""
    else if |s| >= 2 && s[0] == '\r' && s[1] == '\n' then "\n" + ReplacePairs(s[2..])
    else [s[0]] + ReplacePairs(s[1..])
  }

  /** `strings.ReplaceAll(s, "\r", "\n")` */
  function ReplaceReturns(s: string): string {
    if s == "" then "" else [if s[0] == '\r' then '\n' else s[0]] + ReplaceReturns(s[1..])
  }

  function NormalizeContent(content: string): string {
    ReplaceReturns(ReplacePairs(content))
  }

  /** One pass over the content: each of the three line endings becomes one newline. */
  function OnePass(s: string): string {
    if s == "" then ""
    else if s[0] == '\r' then "\n" + OnePass(if |s| >= 2 && s[1] == '\n' then s[2..] else s[1..])
    else [s[0]] + OnePass(s[1..])
  }

  lemma {:induction false} NormalizeIsOnePass(content: string)
    ensures NormalizeContent(content) == OnePass(content)
    ensures '\r' !in OnePass(content)
    decreases |content|
  {
    if content != "" {
      if |content| >= 2 && content[0] == '\r' && content[1] == '\n' {
        NormalizeIsOnePass(content[2..]);
        assert ReplacePairs(content)[1..] == ReplacePairs(content[2..]);
      } else {
        NormalizeIsOnePass(content[1..]);
        assert ReplacePairs(content)[1..] == ReplacePairs(content[1..]);
      }
    }
  }

  lemma {:induction false} OnePassKeeps(line: string, rest: string)
    requires '\r' !in line
    ensures OnePass(line + rest) == line + OnePass(rest)
  {
    if line == "" {
      assert line + rest == rest;
    } else {
      OnePassKeeps(line[1..], rest);
      assert (line + rest)[1..] == line[1..] + rest;
      assert line == [line[0]] + line[1..];
    }
  }

  lemma OnePassEndings(rest: string)
    ensures OnePass("\n" + rest) == "\n" + OnePass(rest)
    ensures OnePass("\r\n" + rest) == "\n" + OnePass(rest)
    ensures rest == "" || rest[0] != '\n' ==> OnePass("\r" + rest) == "\n" + OnePass(rest)
  {
    assert ("\n" + rest)[1..] == rest && ("\r\n" + rest)[2..] == rest && ("\r" + rest)[1..] == rest;
  }

  lemma EndedLine(line: string, ending: string, rest: string)
    requires '\r' !in line && OnePass(ending + rest) == "\n" + OnePass(rest)
    ensures NormalizeContent(line + ending + rest) == line + "\n" + NormalizeContent(rest)
  {
    hide NormalizeContent, OnePass;
    NormalizeIsOnePass(rest);
    NormalizeIsOnePass(line + ending + rest);
    OnePassKeeps(line, ending + rest);
    assert line + ending + rest == line + (ending + rest);
    assert line + ("\n" + OnePass(rest)) == line + "\n" + OnePass(rest);
  }

  /** A line stays as it is, and its ending, any of the three, becomes a newline. */
  lemma LineEndingsInWords(line: string, rest: string)
    requires '\r' !in line
    ensures NormalizeContent(line + "\n" + rest) == line + "\n" + NormalizeContent(rest)
    ensures NormalizeContent(line + "\r\n" + rest) == line + "\n" + NormalizeContent(rest)
    ensures rest == "" || rest[0] != '\n' ==>
              NormalizeContent(line + "\r" + rest) == line + "\n" + NormalizeContent(rest)
    ensures NormalizeContent(line) == line
  {
    hide NormalizeContent, OnePass;
    OnePassEndings(rest);
    EndedLine(line, "\n", rest);
    EndedLine(line, "\r\n", rest);
    if rest == "" || rest[0] != '\n' { EndedLine(line, "\r", rest); }
    NormalizeIsOnePass(line);
    CleanContentIsKept(line);
  }

  lemma {:induction false} CleanContentIsKept(content: string)
    requires '\r' !in content
    ensures OnePass(content) == content
  {
    if content != "" {
      CleanContentIsKept(content[1..]);
      assert content == [content[0]] + content[1..];
    }
  }

  /** Normalizing again changes nothing. */
  lemma NormalizeIsIdempotent(content: string)
    ensures NormalizeContent(NormalizeContent(content)) == NormalizeContent(content)
  {
    NormalizeIsOnePass(content);
    NormalizeIsOnePass(NormalizeContent(content));
    CleanContentIsKept(OnePass(content));
  }
}
