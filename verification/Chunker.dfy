/**
 Chunking a file by lines (internal/index/chunker.go).  The hash is an arbitrary function from strings to
 strings.
 */
module Chunker {
  import opened IndexTypes
  import opened Text

  const DEFAULT_LINES := 120

  function BuildDocument(file: SourceFile, hash: string -> string): DocumentRecord {
    DocumentRecord(file.relativePath, hash(file.content), file.sizeBytes)
  }

  /** The string a chunk's ID is the hash of. */
  function ChunkKey(path: string, ordinal: int, contentHash: string): string {
    path + ":" + (Itoa(ordinal) + ":" + contentHash)
  }

  function Chunk(file: SourceFile, lines: seq<string>, start: nat, end: nat, ordinal: nat, hash: string -> string)
    : ChunkRecord
    requires start <= end <= |lines|
  {
    var content := Join(lines[start..end], '\n');
    ChunkRecord(hash(ChunkKey(file.relativePath, ordinal, hash(content))), file.relativePath, ordinal, start + 1, end,
                content, hash(content))
  }

  function Blank(n: nat): (r: seq<string>)
    ensures |r| == n
  {
    seq(n, _ => "")
  }

  /** Line ranges inside 1..n, none empty, in increasing order. */
  ghost predicate Ranged(chunks: seq<ChunkRecord>, n: nat) {
    && (forall k :: 0 <= k < |chunks| ==> 1 <= chunks[k].startLine <= chunks[k].endLine <= n)
    && (forall j, k :: 0 <= j < k < |chunks| ==> chunks[j].endLine < chunks[k].startLine)
  }

  /** The file's lines, read off the chunks and the number of lines alone: uncovered lines are empty. */
  function Restored(chunks: seq<ChunkRecord>, n: nat): seq<string>
    requires Ranged(chunks, n)
  {
    if chunks == [] then Blank(n)
    else
      var m := |chunks| - 1;
      var last := chunks[m];
      Restored(chunks[..m], last.startLine - 1) + Split(last.content, '\n') + Blank(n - last.endLine)
  }

  /** Everything said of one file's chunks but where their lines lie. */
  ghost predicate Labelled(file: SourceFile, lines: seq<string>, chunks: seq<ChunkRecord>, hash: string -> string) {
    && Ranged(chunks, |lines|)
    && forall k :: 0 <= k < |chunks| ==>
         && chunks[k] == Chunk(file, lines, chunks[k].startLine - 1, chunks[k].endLine, k, hash)
         && chunks[k].content != ""
  }

  predicate IsSlice(chunk: ChunkRecord, q: int, size: int, n: nat) {
    chunk.startLine - 1 == q * size && chunk.endLine == (if (q + 1) * size > n then n else (q + 1) * size)
  }

  ghost predicate Sliced(chunk: ChunkRecord, size: int, n: nat) {
    exists q :: IsSlice(chunk, q, size, n)
  }

  /** Each chunk is one of the consecutive slices of `size` lines, the last of which may be shorter. */
  ghost predicate Sized(chunks: seq<ChunkRecord>, size: int, n: nat)
    requires size > 0
  {
    forall k :: 0 <= k < |chunks| ==> Sliced(chunks[k], size, n)
  }

  function Size(linesPerChunk: int): (size: int)
    ensures size > 0
    ensures linesPerChunk >= 1 ==> size == linesPerChunk
    ensures linesPerChunk <= 0 ==> size == 120
  {
    if linesPerChunk < 1 then DEFAULT_LINES else linesPerChunk
  }

  /** What chunking one file gives: labelled chunks that restore its lines. */
  ghost predicate ChunksFile(file: SourceFile, chunks: seq<ChunkRecord>, hash: string -> string) {
    var lines := Split(file.content, '\n');
    Labelled(file, lines, chunks, hash) && Restored(chunks, |lines|) == lines
  }

  lemma {:induction false} JoinNonEmpty(parts: seq<string>)
    ensures Join(parts, '\n') == "" <==> parts == [] || parts == [""]
  {
    if |parts| == 1 { assert parts == [parts[0]]; }
  }

  lemma SplitChunk(lines: seq<string>, start: nat, end: nat)
    requires start < end <= |lines|
    requires forall i :: 0 <= i < |lines| ==> '\n' !in lines[i]
    ensures Split(Join(lines[start..end], '\n'), '\n') == lines[start..end]
  {
    SplitJoin(lines[start..end], '\n');
  }

  lemma BlankExtends(chunks: seq<ChunkRecord>, n: nat)
    requires Ranged(chunks, n)
    ensures Restored(chunks, n + 1) == Restored(chunks, n) + [""]
  {
    if chunks == [] {
      assert Blank(n + 1) == Blank(n) + [""];
    } else {
      var last := chunks[|chunks| - 1];
      assert Blank(n + 1 - last.endLine) == Blank(n - last.endLine) + [""];
    }
  }

  lemma ChunkExtends(chunks: seq<ChunkRecord>, chunk: ChunkRecord, n: nat, lines: seq<string>)
    requires Ranged(chunks, n) && chunk.startLine == n + 1 <= chunk.endLine
    requires Split(chunk.content, '\n') == lines
    ensures Ranged(chunks + [chunk], chunk.endLine)
    ensures Restored(chunks + [chunk], chunk.endLine) == Restored(chunks, n) + lines
  {
    assert (chunks + [chunk])[..|chunks|] == chunks;
    assert Blank(0) == [];
  }

  lemma LabelledStep(file: SourceFile, lines: seq<string>, chunks: seq<ChunkRecord>, chunk: ChunkRecord, start: nat,
                     end: nat, hash: string -> string)
    requires Labelled(file, lines, chunks, hash) && Ranged(chunks, start) && start < end <= |lines|
    requires chunk == Chunk(file, lines, start, end, |chunks|, hash) && chunk.content != ""
    ensures Labelled(file, lines, chunks + [chunk], hash)
  {}

  /** The loop's invariant: the first `done` lines are in the chunks, or blank and left out. */
  ghost predicate Progress(file: SourceFile, lines: seq<string>, chunks: seq<ChunkRecord>, done: nat,
                           hash: string -> string)
  {
    && done <= |lines|
    && Labelled(file, lines, chunks, hash) && Ranged(chunks, done)
    && Restored(chunks, done) == lines[..done]
  }

  lemma SizedStep(chunks: seq<ChunkRecord>, chunk: ChunkRecord, q: int, size: int, n: nat)
    requires size > 0 && Sized(chunks, size, n) && IsSlice(chunk, q, size, n)
    ensures Sized(chunks + [chunk], size, n)
  {
    var next := chunks + [chunk];
    forall k | 0 <= k < |next| ensures Sliced(next[k], size, n) {
      if k < |chunks| { assert Sliced(chunks[k], size, n); }
    }
  }

  lemma NoChunks(file: SourceFile, lines: seq<string>, hash: string -> string)
    ensures Progress(file, lines, [], 0, hash)
    ensures file.content == "" && lines == Split(file.content, '\n') ==>
              Labelled(file, lines, [], hash) && Restored([], |lines|) == lines
  {
    assert Blank(0) == lines[..0];
    assert Blank(1) == [""];
  }

  lemma AllLines(file: SourceFile, lines: seq<string>, chunks: seq<ChunkRecord>, hash: string -> string)
    requires Progress(file, lines, chunks, |lines|, hash)
    ensures Labelled(file, lines, chunks, hash) && Restored(chunks, |lines|) == lines
  {
    assert lines[..|lines|] == lines;
  }

  lemma SkipStep(file: SourceFile, lines: seq<string>, chunks: seq<ChunkRecord>, start: nat, end: nat,
                 hash: string -> string)
    requires Progress(file, lines, chunks, start, hash) && start < end <= |lines|
    requires Join(lines[start..end], '\n') == ""
    ensures Progress(file, lines, chunks, end, hash)
  {
    hide Restored, Labelled, Join;
    JoinNonEmpty(lines[start..end]);
    BlankExtends(chunks, start);
    assert lines[..end] == lines[..start] + lines[start..end];
  }

  lemma ChunkStep(file: SourceFile, lines: seq<string>, chunks: seq<ChunkRecord>, start: nat, end: nat,
                  hash: string -> string)
    requires Progress(file, lines, chunks, start, hash) && start < end <= |lines|
    requires forall i :: 0 <= i < |lines| ==> '\n' !in lines[i]
    requires Join(lines[start..end], '\n') != ""
    ensures Progress(file, lines, chunks + [Chunk(file, lines, start, end, |chunks|, hash)], end, hash)
  {
    hide Restored, Labelled, Join, Chunk;
    var chunk := Chunk(file, lines, start, end, |chunks|, hash);
    ChunkFields(file, lines, start, end, |chunks|, hash);
    SplitChunk(lines, start, end);
    ChunkExtends(chunks, chunk, start, lines[start..end]);
    LabelledStep(file, lines, chunks, chunk, start, end, hash);
    assert lines[..end] == lines[..start] + lines[start..end];
  }

  method ChunkFile(file: SourceFile, linesPerChunk: int, hash: string -> string) returns (chunks: seq<ChunkRecord>)
    ensures ChunksFile(file, chunks, hash)
    ensures Sized(chunks, Size(linesPerChunk), |Split(file.content, '\n')|)
  {
    var size := if linesPerChunk < 1 then DEFAULT_LINES else linesPerChunk;
    var lines := Split(file.content, '\n');
    chunks := [];
    hide Progress, Split, Join, Chunk, Labelled, Restored;
    NoChunks(file, lines, hash);
    if file.content == "" { return; }
    var ordinal := 0;
    ghost var q := 0;
    var start := 0;
    while start < |lines|
      invariant start >= 0 && start == q * size && ordinal == |chunks|
      invariant Sized(chunks, size, |lines|)
      invariant Progress(file, lines, chunks, if start < |lines| then start else |lines|, hash)
    {
      var end := start + size;
      if end > |lines| { end := |lines|; }
      var content := Join(lines[start..end], '\n');
      if content == "" {
        SkipStep(file, lines, chunks, start, end, hash);
      } else {
        ChunkStep(file, lines, chunks, start, end, hash);
        ChunkFields(file, lines, start, end, ordinal, hash);
        assert (q + 1) * size == start + size;
        SizedStep(chunks, Chunk(file, lines, start, end, ordinal, hash), q, size, |lines|);
        chunks := chunks + [Chunk(file, lines, start, end, ordinal, hash)];
        ordinal := ordinal + 1;
      }
      assert (q + 1) * size == start + size;
      q := q + 1;
      start := start + size;
    }
    AllLines(file, lines, chunks, hash);
  }

  lemma ChunkFields(file: SourceFile, lines: seq<string>, start: nat, end: nat, ordinal: nat, hash: string -> string)
    requires start <= end <= |lines|
    ensures var c := Chunk(file, lines, start, end, ordinal, hash);
            && c.startLine == start + 1 && c.endLine == end
            && c.content == Join(lines[start..end], '\n') && c.ordinal == ordinal
  {}

  // ----- what chunking keeps

  /** Nothing is lost: the content is rebuilt from the chunks and the number of lines. */
  lemma FileIsRebuilt(file: SourceFile, chunks: seq<ChunkRecord>, hash: string -> string)
    requires ChunksFile(file, chunks, hash)
    ensures Join(Restored(chunks, |Split(file.content, '\n')|), '\n') == file.content
  {
    JoinSplit(file.content, '\n');
  }

  /** What a file's records say: documents carry the hash of the content, chunks their place and their own hash. */
  lemma RecordsInWords(file: SourceFile, chunks: seq<ChunkRecord>, hash: string -> string, k: nat)
    requires ChunksFile(file, chunks, hash)
    ensures BuildDocument(file, hash).path == file.relativePath
    ensures BuildDocument(file, hash).contentHash == hash(file.content)
    ensures BuildDocument(file, hash).sizeBytes == file.sizeBytes
    ensures k < |chunks| ==>
              var c := chunks[k];
              && c.documentPath == file.relativePath && c.ordinal == k && c.contentHash == hash(c.content)
              && c.id == hash(file.relativePath + ":" + Itoa(k) + ":" + hash(c.content))
  {
    hide Join, Split, Restored, Itoa;
    if k < |chunks| {
      var h := hash(chunks[k].content);
      assert file.relativePath + ":" + (Itoa(k) + ":" + h) == file.relativePath + ":" + Itoa(k) + ":" + h;
    }
  }

  /** A line number no chunk covers. */
  ghost predicate Uncovered(chunks: seq<ChunkRecord>, line: int) {
    forall k :: 0 <= k < |chunks| ==> !(chunks[k].startLine <= line <= chunks[k].endLine)
  }

  lemma {:induction false} RestoredLength(chunks: seq<ChunkRecord>, n: nat)
    requires Ranged(chunks, n) && FullRanges(chunks)
    ensures |Restored(chunks, n)| == n
    decreases |chunks|
  {
    if chunks != [] {
      RestoredLength(chunks[..|chunks| - 1], chunks[|chunks| - 1].startLine - 1);
    }
  }

  lemma InTheFront(front: seq<string>, middle: seq<string>, end: seq<string>, i: nat)
    requires i < |front|
    ensures (front + middle + end)[i] == front[i]
  {}

  lemma InTheGap(front: seq<string>, middle: seq<string>, gap: nat, i: nat)
    requires |front| + |middle| <= i < |front| + |middle| + gap
    ensures (front + middle + Blank(gap))[i] == ""
  {
    assert Blank(gap)[i - |front| - |middle|] == "";
  }

  lemma RestoredUnfolds(chunks: seq<ChunkRecord>, n: nat)
    requires Ranged(chunks, n) && chunks != []
    ensures var m := |chunks| - 1;
            Ranged(chunks[..m], chunks[m].startLine - 1)
            && Restored(chunks, n)
               == Restored(chunks[..m], chunks[m].startLine - 1)
                  + Split(chunks[m].content, '\n') + Blank(n - chunks[m].endLine)
  {
    hide Split, Blank;
  }

  /** Every chunk has as many lines as its range says. */
  ghost predicate FullRanges(chunks: seq<ChunkRecord>) {
    forall k :: 0 <= k < |chunks| ==> |Split(chunks[k].content, '\n')| == chunks[k].endLine - chunks[k].startLine + 1
  }

  lemma BlankAfterLast(chunks: seq<ChunkRecord>, n: nat, line: int)
    requires Ranged(chunks, n) && chunks != [] && FullRanges(chunks)
    requires chunks[|chunks| - 1].endLine < line <= n
    ensures |Restored(chunks, n)| == n && Restored(chunks, n)[line - 1] == ""
  {
    hide Split, Blank, Restored;
    var m := |chunks| - 1;
    var last := chunks[m];
    RestoredUnfolds(chunks, n);
    RestoredLength(chunks, n);
    RestoredLength(chunks[..m], last.startLine - 1);
    InTheGap(Restored(chunks[..m], last.startLine - 1), Split(last.content, '\n'), n - last.endLine, line - 1);
  }

  lemma SameBeforeLast(chunks: seq<ChunkRecord>, n: nat, line: int)
    requires Ranged(chunks, n) && chunks != [] && FullRanges(chunks)
    requires 1 <= line < chunks[|chunks| - 1].startLine
    requires Ranged(chunks[..|chunks| - 1], chunks[|chunks| - 1].startLine - 1)
    ensures var front := Restored(chunks[..|chunks| - 1], chunks[|chunks| - 1].startLine - 1);
            && |Restored(chunks, n)| == n && line <= |front|
            && Restored(chunks, n)[line - 1] == front[line - 1]
  {
    hide Split, Blank, Restored;
    var m := |chunks| - 1;
    var last := chunks[m];
    RestoredUnfolds(chunks, n);
    RestoredLength(chunks, n);
    RestoredLength(chunks[..m], last.startLine - 1);
    InTheFront(Restored(chunks[..m], last.startLine - 1), Split(last.content, '\n'), Blank(n - last.endLine), line - 1);
  }

  lemma {:induction false} UncoveredIsBlank(chunks: seq<ChunkRecord>, n: nat, line: int)
    requires Ranged(chunks, n) && 1 <= line <= n && Uncovered(chunks, line) && FullRanges(chunks)
    ensures |Restored(chunks, n)| == n && Restored(chunks, n)[line - 1] == ""
    decreases |chunks|
  {
    if chunks == [] {
      assert Blank(n)[line - 1] == "";
    } else {
      hide Split, Blank, Restored;
      var m := |chunks| - 1;
      RestoredUnfolds(chunks, n);
      if line < chunks[m].startLine {
        UncoveredIsBlank(chunks[..m], chunks[m].startLine - 1, line);
        SameBeforeLast(chunks, n, line);
      } else {
        assert !(chunks[m].startLine <= line <= chunks[m].endLine);
        BlankAfterLast(chunks, n, line);
      }
    }
  }

  /** Only empty lines are left out of the chunks. */
  lemma UncoveredLinesAreEmpty(file: SourceFile, chunks: seq<ChunkRecord>, hash: string -> string, line: int)
    requires ChunksFile(file, chunks, hash)
    requires 1 <= line <= |Split(file.content, '\n')| && Uncovered(chunks, line)
    ensures Split(file.content, '\n')[line - 1] == ""
  {
    var lines := Split(file.content, '\n');
    hide Restored;
    forall k | 0 <= k < |chunks|
      ensures |Split(chunks[k].content, '\n')| == chunks[k].endLine - chunks[k].startLine + 1
    {
      SplitChunk(lines, chunks[k].startLine - 1, chunks[k].endLine);
    }
    UncoveredIsBlank(chunks, |lines|, line);
  }

  // ----- chunk keys

  /** The strings hashed into chunk IDs tell path, ordinal and content hash apart, whatever colons the path has. */
  lemma ChunkKeysAreDistinct(path: string, path': string, ordinal: nat, ordinal': nat, h: string, h': string)
    requires ':' !in h && ':' !in h'
    requires ChunkKey(path, ordinal, h) == ChunkKey(path', ordinal', h')
    ensures path == path' && ordinal == ordinal' && h == h'
  {
    hide Itoa;
    ItoaHasNoColon(ordinal);
    ItoaHasNoColon(ordinal');
    assert ChunkKey(path, ordinal, h) == path + ":" + Itoa(ordinal) + ":" + h;
    assert ChunkKey(path', ordinal', h') == path' + ":" + Itoa(ordinal') + ":" + h';
    LastColonIsUnique(path + ":" + Itoa(ordinal), path' + ":" + Itoa(ordinal'), h, h');
    LastColonIsUnique(path, path', Itoa(ordinal), Itoa(ordinal'));
    ItoaInjective(ordinal, ordinal');
  }
}
