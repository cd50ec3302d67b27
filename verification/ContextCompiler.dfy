/**
 Compiling search results into a context of bounded size (internal/retrieval/pipeline.go, CompileContext and
 trimSection).
 */
module ContextCompiler {
  import opened IndexTypes
  import opened Ordering
  import Text

  datatype SourceReference = SourceReference(chunkId: string, documentPath: string, startLine: int, endLine: int,
                                             score: real)

  datatype CompiledContext = CompiledContext(text: string, sources: seq<SourceReference>, truncated: bool)

  const MARKER := "\n...[truncated]"

  function ReferenceOf(r: SearchResult): SourceReference {
    SourceReference(r.chunkId, r.documentPath, r.startLine, r.endLine, r.score)
  }

  /** `[source i+1] path:start-end` */
  function Reference(i: nat, r: SearchResult): string {
    "[source " + Text.Itoa(i + 1) + "] " + r.documentPath + ":" + Text.Itoa(r.startLine) + "-" + Text.Itoa(r.endLine)
  }

  function Lead(i: nat): string {
    if i == 0 then "" else "\n\n"
  }

  function TrimSection(reference: string, content: string, available: int): string {
    if available <= |reference| + 1 then ""
    else
      var contentLimit := available - |reference| - 1;
      if |content| <= contentLimit then reference + "\n" + content
      else if contentLimit <= |MARKER| then ""
      else reference + "\n" + (Text.TrimSpace(content[..contentLimit - |MARKER|]) + MARKER)
  }

  function Concat(sections: seq<string>): string {
    if sections == [] then "" else Concat(sections[..|sections| - 1]) + sections[|sections| - 1]
  }

  /** The section of the i-th result, uncut. */
  function Complete(i: nat, r: SearchResult): string {
    Lead(i) + (Reference(i, r) + "\n" + r.content)
  }

  /** How many characters of the content fit with the reference and the marker. */
  function Kept(i: nat, r: SearchResult, remaining: int): int {
    remaining - |Lead(i)| - |Reference(i, r)| - 1 - |MARKER|
  }

  /** A shortened section: the whole reference, as much of the content as fits, trimmed, and the marker. */
  ghost predicate Shortened(i: nat, r: SearchResult, remaining: int, section: string) {
    && |Complete(i, r)| > remaining
    && 0 < Kept(i, r, remaining) <= |r.content|
    && section == Lead(i) + (Reference(i, r) + "\n" + (Text.TrimSpace(r.content[..Kept(i, r, remaining)]) + MARKER))
  }

  /** The section is whole if it fits into what remains of the budget, and shortened otherwise. */
  ghost predicate SectionFits(i: nat, r: SearchResult, remaining: int, section: string) {
    && remaining > 0 && |section| <= remaining
    && if |Complete(i, r)| <= remaining then section == Complete(i, r) else Shortened(i, r, remaining, section)
  }

  /** What is left of the budget before the i-th section. */
  function Left(maxChars: int, sections: seq<string>, i: nat): int
    requires i <= |sections|
  {
    maxChars - |Concat(sections[..i])|
  }

  /** What is promised of a compiled context. */
  ghost predicate Compiles(results: seq<SearchResult>, maxChars: int, sections: seq<string>, c: CompiledContext) {
    && Partial(results, maxChars, sections, c.sources)
    && c.text == Concat(sections)
    // the flag is set exactly when a section was cut, or a result left out although the budget was not spent
    && (c.truncated <==>
          || AnyCut(results, maxChars, sections)
          || (|sections| < |results| && |c.text| < maxChars))
    // a result is left out only when the budget is spent, or it does not fit and its reference and a marker would not
    // either
    && (|sections| < |results| && |c.text| < maxChars ==>
          && |Complete(|sections|, results[|sections|])| > maxChars - |c.text|
          && Kept(|sections|, results[|sections|], maxChars - |c.text|) <= 0)
  }

  ghost predicate IsCompiled(results: seq<SearchResult>, maxChars: int, c: CompiledContext) {
    exists sections :: Compiles(results, maxChars, sections, c)
  }

  /** The sources are a prefix of the results, in order, with one section each. */
  ghost predicate Partial(results: seq<SearchResult>, maxChars: int, sections: seq<string>,
                          sources: seq<SourceReference>)
  {
    && |sections| == |sources| <= |results|
    && forall i :: 0 <= i < |sections| ==>
         sources[i] == ReferenceOf(results[i]) && SectionFits(i, results[i], Left(maxChars, sections, i), sections[i])
  }

  ghost predicate AnyCut(results: seq<SearchResult>, maxChars: int, sections: seq<string>)
    requires |sections| <= |results|
  {
    exists i :: 0 <= i < |sections| && |Complete(i, results[i])| > Left(maxChars, sections, i)
  }

  /** The room trimSection is given: the separator is taken off when it fits. */
  function Room(i: nat, remaining: int): int {
    if i > 0 && remaining >= 2 then remaining - 2 else remaining
  }

  /** When the whole section does not fit, trimSection cuts it or gives up; it never returns it uncut. */
  lemma TrimCuts(i: nat, r: SearchResult, remaining: int)
    requires |Complete(i, r)| > remaining > 0
    ensures var trimmed := TrimSection(Reference(i, r), r.content, Room(i, remaining));
            if trimmed == "" then Kept(i, r, remaining) <= 0
            else Shortened(i, r, remaining, Lead(i) + trimmed) && |Lead(i) + trimmed| <= remaining
  {
    hide Reference, Text.TrimSpace;
    var reference := Reference(i, r);
    var available := Room(i, remaining);
    if available > |reference| + 1 {
      var contentLimit := available - |reference| - 1;
      assert |r.content| > contentLimit;
      if contentLimit > |MARKER| {
        var k := contentLimit - |MARKER|;
        assert k == Kept(i, r, remaining);
        var cut := Text.TrimSpace(r.content[..k]);
        assert |cut| <= k;
        var trimmed := TrimSection(reference, r.content, available);
        assert trimmed == reference + "\n" + (cut + MARKER);
        assert |trimmed| <= available;
      }
    }
  }

  lemma ConcatSnoc(sections: seq<string>, section: string)
    ensures Concat(sections + [section]) == Concat(sections) + section
  {
    assert (sections + [section])[..|sections|] == sections;
  }

  lemma LeftSnoc(maxChars: int, sections: seq<string>, section: string, i: nat)
    requires i <= |sections|
    ensures Left(maxChars, sections + [section], i) == Left(maxChars, sections, i)
  {
    assert (sections + [section])[..i] == sections[..i];
  }

  lemma LeftOfAll(maxChars: int, sections: seq<string>)
    ensures Left(maxChars, sections, |sections|) == maxChars - |Concat(sections)|
  {
    assert sections[..|sections|] == sections;
  }

  lemma PartialStep(results: seq<SearchResult>, maxChars: int, sections: seq<string>, sources: seq<SourceReference>,
                    section: string)
    requires Partial(results, maxChars, sections, sources) && |sections| < |results|
    requires SectionFits(|sections|, results[|sections|], maxChars - |Concat(sections)|, section)
    ensures Partial(results, maxChars, sections + [section], sources + [ReferenceOf(results[|sections|])])
    ensures AnyCut(results, maxChars, sections + [section])
       <==> || AnyCut(results, maxChars, sections)
            || |Complete(|sections|, results[|sections|])| > maxChars - |Concat(sections)|
  {
    hide SectionFits, Complete, ReferenceOf, Left;
    var n := |sections|;
    LeftOfAll(maxChars, sections);
    forall i | 0 <= i <= n ensures Left(maxChars, sections + [section], i) == Left(maxChars, sections, i) {
      LeftSnoc(maxChars, sections, section, i);
    }
    var next := sections + [section];
    if i :| 0 <= i < n && |Complete(i, results[i])| > Left(maxChars, sections, i) {
      assert |Complete(i, results[i])| > Left(maxChars, next, i);
    }
    if |Complete(n, results[n])| > maxChars - |Concat(sections)| {
      assert |Complete(n, results[n])| > Left(maxChars, next, n);
    }
    if i :| 0 <= i < |next| && |Complete(i, results[i])| > Left(maxChars, next, i) {
      if i < n { assert |Complete(i, results[i])| > Left(maxChars, sections, i); }
    }
  }

  lemma NothingYet(results: seq<SearchResult>, maxChars: int)
    ensures Partial(results, maxChars, [], []) && !AnyCut(results, maxChars, []) && Concat([]) == ""
  {}

  method CompileContext(results: seq<SearchResult>, maxChars: int) returns (c: CompiledContext)
    ensures IsCompiled(results, maxChars, c)
  {
    hide Shortened, Complete, Reference, ReferenceOf, TrimSection, Partial, AnyCut, Kept, Concat;
    NothingYet(results, maxChars);
    if maxChars < 1 || |results| == 0 {
      c := CompiledContext("", [], false);
      assert Compiles(results, maxChars, [], c);
      return;
    }
    var remaining := maxChars;
    var sections: seq<string> := [];
    var sources: seq<SourceReference> := [];
    var truncated := false;
    var dropped := false;
    for i := 0 to |results|
      invariant |sections| == |sources| == i && remaining > 0 && !dropped
      invariant remaining == maxChars - |Concat(sections)|
      invariant Partial(results, maxChars, sections, sources)
      invariant truncated <==> AnyCut(results, maxChars, sections)
    {
      var result := results[i];
      var section := Complete(i, result);
      var cut := |section| > remaining;
      if cut {
        TrimCuts(i, result, remaining);
        var trimmed := TrimSection(Reference(i, result), result.content, Room(i, remaining));
        if trimmed == "" {
          dropped := true;
          break;
        }
        section := Lead(i) + trimmed;
      }
      PartialStep(results, maxChars, sections, sources, section);
      ConcatSnoc(sections, section);
      truncated := truncated || cut;
      sections := sections + [section];
      remaining := remaining - |section|;
      sources := sources + [ReferenceOf(result)];
      if remaining <= 0 { break; }
    }
    c := CompiledContext(Concat(sections), sources, truncated || dropped);
    assert Compiles(results, maxChars, sections, c);
  }

  // ----- what a caller sees

  /** The two limits: never more bytes than allowed, never more sources than results. */
  lemma ContextIsBounded(results: seq<SearchResult>, maxChars: int, c: CompiledContext)
    requires IsCompiled(results, maxChars, c)
    ensures |c.text| <= if maxChars < 0 then 0 else maxChars
    ensures |c.sources| <= |results|
    ensures forall i :: 0 <= i < |c.sources| ==>
              var r := results[i];
              c.sources[i] == SourceReference(r.chunkId, r.documentPath, r.startLine, r.endLine, r.score)
  {
    hide Shortened, Complete;
    var sections :| Compiles(results, maxChars, sections, c);
    if sections != [] {
      var n := |sections| - 1;
      assert Concat(sections) == Concat(sections[..n]) + sections[n];
    }
  }

  function CompleteUpTo(results: seq<SearchResult>, n: nat): string
    requires n <= |results|
  {
    if n == 0 then "" else CompleteUpTo(results, n - 1) + Complete(n - 1, results[n - 1])
  }

  lemma {:induction false} CompletePrefix(results: seq<SearchResult>, sections: seq<string>)
    requires |sections| <= |results|
    requires forall i :: 0 <= i < |sections| ==> sections[i] == Complete(i, results[i])
    ensures Concat(sections) == CompleteUpTo(results, |sections|)
  {
    if sections != [] { CompletePrefix(results, sections[..|sections| - 1]); }
  }

  lemma {:induction false} ConcatGrows(sections: seq<string>, i: nat)
    requires i < |sections|
    ensures |Concat(sections[..i])| + |sections[i]| <= |Concat(sections)|
  {
    var n := |sections| - 1;
    if i < n {
      ConcatGrows(sections[..n], i);
      assert sections[..n][..i] == sections[..i];
    }
  }

  lemma RoomForEach(sections: seq<string>, maxChars: int, i: nat)
    requires i < |sections| && |Concat(sections)| <= maxChars
    ensures |sections[i]| <= Left(maxChars, sections, i)
  {
    hide Concat;
    ConcatGrows(sections, i);
  }

  lemma CompleteIsSomething(i: nat, r: SearchResult)
    ensures |Complete(i, r)| > 0
  {}

  /** With room for all sections, all of them uncut are a compiled context. */
  lemma CompleteIsCompiled(results: seq<SearchResult>, sections: seq<string>, maxChars: int, c: CompiledContext)
    requires |c.text| <= maxChars
    requires |sections| == |results|
    requires forall i :: 0 <= i < |sections| ==> sections[i] == Complete(i, results[i])
    requires c == CompiledContext(Concat(sections), MapSeq(ReferenceOf, results), false)
    ensures IsCompiled(results, maxChars, c)
  {
    hide Complete, Concat, Left, Shortened, ReferenceOf, Lead, Reference;
    forall i | 0 <= i < |sections| ensures 0 < |Complete(i, results[i])| <= Left(maxChars, sections, i) {
      RoomForEach(sections, maxChars, i);
      CompleteIsSomething(i, results[i]);
    }
    assert Compiles(results, maxChars, sections, c);
  }

  /**
   An unset flag can be trusted: the text is the uncut sections of the sources, and a result is missing only if the
   budget is spent to the byte.
   */
  lemma UnsetFlagMeansComplete(results: seq<SearchResult>, maxChars: int, c: CompiledContext)
    requires IsCompiled(results, maxChars, c) && !c.truncated && maxChars > 0
    ensures |c.sources| <= |results|
    ensures c.text == CompleteUpTo(results, |c.sources|)
    ensures |c.sources| == |results| || |c.text| == maxChars
  {
    hide Shortened, Complete, Concat;
    ContextIsBounded(results, maxChars, c);
    var sections :| Compiles(results, maxChars, sections, c);
    CompletePrefix(results, sections);
  }

  /**
   A section that was cut is the source's reference, what fits of the content without its outer space, and the marker:
   it holds every character of what fits that is not space, in order.
   */
  lemma CutKeepsTheText(i: nat, r: SearchResult, remaining: int, section: string) returns (from: nat, to: nat)
    requires Shortened(i, r, remaining, section)
    ensures from <= to <= remaining - |Lead(i)| - |Reference(i, r)| - 1 - |"\n...[truncated]"| <= |r.content|
    ensures section == Lead(i) + (Reference(i, r) + "\n" + (r.content[from..to] + "\n...[truncated]"))
    ensures forall k :: 0 <= k < from || to <= k < Kept(i, r, remaining) ==> r.content[k] in Text.SPACES
    ensures Text.Solid(r.content[from..to]) == Text.Solid(r.content[..Kept(i, r, remaining)])
  {
    hide Complete, Lead, Reference, Text.TrimSpace, Text.Solid;
    var fitting := r.content[..Kept(i, r, remaining)];
    from, to := Text.TrimSpaceIsTheMiddle(fitting);
    Text.TrimSpaceKeepsSolid(fitting);
    assert fitting[from..to] == r.content[from..to];
  }

  /** What a reference looks like; later sections are set off by a blank line. */
  lemma ReferenceInWords(r: SearchResult)
    requires r.startLine == 12 && r.endLine == 47
    ensures Reference(2, r) == "[source 3] " + r.documentPath + ":12-47"
    ensures Lead(0) == "" && Lead(2) == "\n\n"
    ensures Complete(2, r) == "\n\n" + ("[source 3] " + r.documentPath + ":12-47" + "\n" + r.content)
  {
    assert Text.Itoa(3) == "3" && Text.Itoa(12) == "12" && Text.Itoa(47) == "47" by { SomeNumbers(); }
    hide Text.Itoa;
    assert "[source " + "3" + "] " == "[source 3] ";
    assert ":" + "12" + "-" + "47" == ":12-47";
    var path := r.documentPath;
    assert "[source " + "3" + "] " + path + ":" + "12" + "-" + "47"
        == ("[source " + "3" + "] ") + path + (":" + "12" + "-" + "47");
  }

  lemma SomeNumbers()
    ensures Text.Itoa(3) == "3" && Text.Itoa(12) == "12" && Text.Itoa(47) == "47"
  {
    assert Text.Decimal(1) == "1" && Text.Decimal(4) == "4";
    assert Text.Decimal(12) == Text.Decimal(1) + "2";
    assert Text.Decimal(47) == Text.Decimal(4) + "7";
  }

  // ----- there is one context

  lemma {:induction false} SectionsAgree(results: seq<SearchResult>, maxChars: int, a: seq<string>, b: seq<string>,
                                         x: seq<SourceReference>, y: seq<SourceReference>, n: nat)
    requires Partial(results, maxChars, a, x) && Partial(results, maxChars, b, y) && n <= |a| && n <= |b|
    ensures a[..n] == b[..n]
  {
    hide Complete, Shortened, Concat;
    if n > 0 {
      SectionsAgree(results, maxChars, a, b, x, y, n - 1);
      SameSection(n - 1, results[n - 1], Left(maxChars, a, n - 1), a[n - 1], b[n - 1]);
      assert a[..n] == a[..n - 1] + [a[n - 1]] && b[..n] == b[..n - 1] + [b[n - 1]];
    }
  }

  lemma SameSection(i: nat, r: SearchResult, remaining: int, a: string, b: string)
    requires SectionFits(i, r, remaining, a) && SectionFits(i, r, remaining, b)
    ensures a == b
  {
    hide Complete, Reference, Text.TrimSpace;
  }

  lemma NextSectionFits(results: seq<SearchResult>, maxChars: int, a: seq<string>, b: seq<string>,
                        x: seq<SourceReference>, y: seq<SourceReference>)
    requires Partial(results, maxChars, a, x) && Partial(results, maxChars, b, y) && |a| < |b|
    ensures |a| < |results| && SectionFits(|a|, results[|a|], maxChars - |Concat(a)|, b[|a|])
  {
    hide Complete, Shortened, Concat;
    var n := |a|;
    SectionsAgree(results, maxChars, a, b, x, y, n);
    assert a[..n] == a;
    assert SectionFits(n, results[n], Left(maxChars, b, n), b[n]);
  }

  /** A result whose section was emitted fits or can be shortened, so it is not one to be left out. */
  lemma NotLeftOut(results: seq<SearchResult>, maxChars: int, a: seq<string>, b: seq<string>, c: CompiledContext,
                   d: CompiledContext)
    requires maxChars > 0 && Compiles(results, maxChars, a, c) && Compiles(results, maxChars, b, d)
    ensures |a| >= |b|
  {
    hide Complete, Concat, Partial;
    if |a| < |b| { NextSectionFits(results, maxChars, a, b, c.sources, d.sources); }
  }

  /** The results and the budget determine the context to the byte. */
  lemma ContextIsDetermined(results: seq<SearchResult>, maxChars: int, c: CompiledContext, d: CompiledContext)
    requires IsCompiled(results, maxChars, c) && IsCompiled(results, maxChars, d)
    ensures c == d
  {
    hide Complete, Shortened, Concat, SectionFits, AnyCut, Kept;
    var a :| Compiles(results, maxChars, a, c);
    var b :| Compiles(results, maxChars, b, d);
    if maxChars > 0 {
      NotLeftOut(results, maxChars, a, b, c, d);
      NotLeftOut(results, maxChars, b, a, d, c);
    } else {
      NoBudgetNoSections(results, maxChars, a, c);
      NoBudgetNoSections(results, maxChars, b, d);
    }
    SectionsAgree(results, maxChars, a, b, c.sources, d.sources, |a|);
    assert a == a[..|a|] == b[..|a|] == b;
    assert c.sources == d.sources;
  }

  lemma NoBudgetNoSections(results: seq<SearchResult>, maxChars: int, a: seq<string>, c: CompiledContext)
    requires maxChars <= 0 && Compiles(results, maxChars, a, c)
    ensures a == []
  {
    hide Partial;
    if a != [] { SectionsNeedBudget(results, maxChars, a, c.sources); }
  }

  lemma SectionsNeedBudget(results: seq<SearchResult>, maxChars: int, a: seq<string>, x: seq<SourceReference>)
    requires Partial(results, maxChars, a, x) && a != []
    ensures maxChars > 0
  {
    hide Complete, Shortened;
    assert SectionFits(0, results[0], Left(maxChars, a, 0), a[0]);
    assert a[..0] == [];
  }
}
