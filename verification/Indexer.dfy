/**
 Rebuilding the index (internal/index/indexer.go): a run is recorded, the files are discovered, chunked and
 embedded, the tables are replaced in one transaction and the run is completed.  Every step may fail or be the
 one the process stops at.
 */
module Indexer {
  import opened Wrappers
  import opened IndexTypes
  import opened Ordering
  import opened IndexStore
  import Text
  import Chunker

  /** How one rebuild ended, as far as the database can tell. */
  datatype Event =
    | NotStarted
    | Aborted(run: IndexRun)                      // recorded as running or failed, nothing replaced
    | Unrecorded(root: string, data: Data)        // replaced, but the success record was not written
    | Recorded(root: string, data: Data)

  function Apply(db: Database, e: Event): Database {
    match e
    case NotStarted => db
    case Aborted(run) => db.(runs := db.runs + [run])
    case Unrecorded(root, data) => Database(Loaded(data), db.runs + [IndexRun(root, Running, 0, 0, 0, None)])
    case Recorded(root, data) =>
      var run := IndexRun(root, Succeeded, |data.documents|, |data.chunks|, |data.vectors|, None);
      Database(Loaded(data), db.runs + [run])
  }

  /** What a rebuild may leave behind. */
  ghost predicate Possible(e: Event) {
    match e
    case NotStarted => true
    case Aborted(run) => run.status != Succeeded
    case Unrecorded(_, data) => Consistent(data)
    case Recorded(_, data) => Consistent(data)
  }

  // ----- the rows built from files

  /** The chunks of all files, file after file; each file can be read back from its own. */
  ghost predicate ChunksOf(files: seq<SourceFile>, chunks: seq<ChunkRecord>, hash: string -> string)
    decreases |files|
  {
    if files == [] then chunks == []
    else
      var n := |files| - 1;
      exists k :: 0 <= k <= |chunks|
        && ChunksOf(files[..n], chunks[..k], hash)
        && Chunker.ChunksFile(files[n], chunks[k..], hash)
  }

  method BuildRows(files: seq<SourceFile>, linesPerChunk: int, hash: string -> string)
    returns (documents: seq<DocumentRecord>, chunks: seq<ChunkRecord>)
    ensures documents == MapSeq(f => Chunker.BuildDocument(f, hash), files)
    ensures ChunksOf(files, chunks, hash)
  {
    hide Chunker.ChunksFile;
    documents, chunks := [], [];
    for i := 0 to |files|
      invariant |documents| == i
      invariant forall k :: 0 <= k < i ==> documents[k] == Chunker.BuildDocument(files[k], hash)
      invariant ChunksOf(files[..i], chunks, hash)
    {
      documents := documents + [Chunker.BuildDocument(files[i], hash)];
      var fileChunks := Chunker.ChunkFile(files[i], linesPerChunk, hash);
      assert files[..i + 1][..i] == files[..i];
      ghost var before := chunks;
      chunks := chunks + fileChunks;
      assert chunks[..|before|] == before && chunks[|before|..] == fileChunks;
    }
    assert files[..|files|] == files;
  }

  // ----- one rebuild

  /** What the world does during one call: the discovered files, the embeddings and the faults. */
  datatype Environment = Environment(
    opens: bool,
    hasVectorStore: bool,
    discovered: Option<seq<SourceFile>>,
    graphFiles: Option<seq<SourceFile>>,
    embed: seq<ChunkRecord> -> Option<seq<VectorRecord>>,
    startFault: Fault,
    discoverFault: Fault,
    embedFault: Fault,
    replaceFaults: nat -> Fault,
    completionFault: Fault)

  /** The rows are those of the discovered files, with the embeddings of their chunks. */
  ghost predicate BuiltFrom(data: Data, env: Environment, hash: string -> string) {
    && env.discovered.Some? && env.graphFiles.Some?
    && data.documents == MapSeq(f => Chunker.BuildDocument(f, hash), env.discovered.value + env.graphFiles.value)
    && ChunksOf(env.discovered.value + env.graphFiles.value, data.chunks, hash)
    && env.embed(data.chunks) == Some(data.vectors)
  }

  /** Something gave a rebuild that was started reason to stop short of replacing the tables. */
  ghost predicate MayAbort(env: Environment, hash: string -> string) {
    || env.discoverFault != NoFault || env.discovered.None? || env.graphFiles.None?
    || env.embedFault != NoFault
    || (exists chunks :: ChunksOf(env.discovered.value + env.graphFiles.value, chunks, hash) && env.embed(chunks).None?)
    || (exists n :: env.replaceFaults(n) != NoFault)
    || (exists data :: BuiltFrom(data, env, hash) && !Consistent(data))
  }

  class Index {
    const store: Store
    const hash: string -> string

    constructor (store: Store, hash: string -> string)
      ensures this.store == store && this.hash == hash
    {
      this.store, this.hash := store, hash;
    }

    /** The failure branch: the run is marked as failed, if the process is still there and the record succeeds. */
    method Abort(id: nat, message: string, fault: Fault, completionFault: Fault) returns (run: IndexRun)
      requires id == |store.runs| - 1 && store.runs[id].status == Running
      modifies store
      ensures store.tables == old(store.tables)
      ensures store.runs == old(store.runs)[..id] + [run]
      ensures run.status != Succeeded && run.root == old(store.runs)[id].root
    {
      if fault != Crash {
        var _ := store.RecordRunCompletion(id, Failed, 0, 0, 0, message, completionFault);
      }
      run := store.runs[id];
    }

    method Rebuild(root: string, linesPerChunk: int, env: Environment) returns (event: Event)
      modifies store
      ensures store.Contents() == Apply(old(store.Contents()), event)
      ensures Possible(event)
      ensures event.NotStarted? <==> !env.opens || !env.hasVectorStore || env.startFault != NoFault
      ensures event.Aborted? ==> event.run.root == root && MayAbort(env, hash)
      ensures event.Unrecorded? || event.Recorded? ==> event.root == root && BuiltFrom(event.data, env, hash)
      ensures event.Unrecorded? ==> env.completionFault != NoFault
      ensures event.Recorded? ==> env.completionFault == NoFault
    {
      hide Loaded, Consistent, ChunksOf, Chunker.BuildDocument;
      if !env.opens || !env.hasVectorStore { return NotStarted; }
      var id := store.RecordRunStart(root, env.startFault);
      if id.None? { return NotStarted; }
      if env.discoverFault != NoFault || env.discovered.None? || env.graphFiles.None? {
        var run := Abort(id.value, "discover", env.discoverFault, env.completionFault);
        return Aborted(run);
      }
      var files := env.discovered.value + env.graphFiles.value;
      var documents, chunks := BuildRows(files, linesPerChunk, hash);
      var vectors := env.embed(chunks);
      if env.embedFault != NoFault || vectors.None? {
        var run := Abort(id.value, "embed", env.embedFault, env.completionFault);
        return Aborted(run);
      }
      var data := Data(documents, chunks, vectors.value);
      var stopped := store.ReplaceAll(data, env.replaceFaults);
      assert BuiltFrom(data, env, hash);
      if stopped != NoFault {
        assert (forall n :: env.replaceFaults(n) == NoFault) ==> !Consistent(data);
        var run := Abort(id.value, "replace", stopped, env.completionFault);
        return Aborted(run);
      }
      var ok := store.RecordRunCompletion(id.value, Succeeded, |documents|, |chunks|, |vectors.value|, "",
                                          env.completionFault);
      return if ok then Recorded(root, data) else Unrecorded(root, data);
    }
  }

  // ----- every run of rebuilds

  function After(events: seq<Event>): Database {
    if events == [] then Database(EMPTY_TABLES, [])
    else Apply(After(events[..|events| - 1]), events[|events| - 1])
  }

  ghost predicate History(events: seq<Event>) {
    forall k :: 0 <= k < |events| ==> Possible(events[k])
  }

  predicate Commits(e: Event) {
    e.Unrecorded? || e.Recorded?
  }

  /** The last rebuild whose transaction committed. */
  function LastCommit(events: seq<Event>): Option<Event> {
    if events == [] then None
    else
      var n := |events| - 1;
      if Commits(events[n]) then Some(events[n]) else LastCommit(events[..n])
  }

  function LastRecorded(events: seq<Event>): Option<Event> {
    if events == [] then None
    else
      var n := |events| - 1;
      if events[n].Recorded? then Some(events[n]) else LastRecorded(events[..n])
  }

  lemma {:induction false} LastCommitIsOne(events: seq<Event>)
    ensures LastCommit(events).Some? ==> Commits(LastCommit(events).value) && LastCommit(events).value in events
    ensures LastRecorded(events).Some? ==> LastRecorded(events).value.Recorded? && LastRecorded(events).value in events
  {
    if events != [] {
      var n := |events| - 1;
      LastCommitIsOne(events[..n]);
      assert events == events[..n] + [events[n]];
    }
  }

  /** The tables hold exactly the rows of the last committed replacement. */
  lemma {:induction false} TablesAreLastCommit(events: seq<Event>)
    requires History(events)
    ensures After(events).tables
         == match LastCommit(events)
            case None => EMPTY_TABLES
            case Some(e) => if Commits(e) then Loaded(e.data) else EMPTY_TABLES
  {
    hide Loaded, Consistent;
    LastCommitIsOne(events);
    if events != [] {
      TablesAreLastCommit(events[..|events| - 1]);
    }
  }

  /** After any run of rebuilds every reference resolves and the full-text table has one row per chunk. */
  lemma TablesStayWellFormed(events: seq<Event>)
    requires History(events)
    ensures WellFormed(After(events).tables)
  {
    hide Loaded, Consistent;
    TablesAreLastCommit(events);
    LastCommitIsOne(events);
    match LastCommit(events) {
      case None =>
      case Some(e) =>
        assert Possible(e);
        LoadedIsWellFormed(e.data);
    }
  }

  lemma {:induction false} StatusIsLastRecorded(events: seq<Event>)
    requires History(events)
    ensures CommittedRoot(After(events).runs)
         == match LastRecorded(events)
            case None => None
            case Some(e) => if e.Recorded? then Some(e.root) else None
  {
    hide Loaded, Consistent;
    LastCommitIsOne(events);
    if events != [] {
      var n := |events| - 1;
      StatusIsLastRecorded(events[..n]);
      var runs, runs' := After(events[..n]).runs, After(events).runs;
      assert !events[n].NotStarted? ==> runs'[..|runs'| - 1] == runs;
    }
  }

  lemma {:induction false} RecordedCommitIsLastRecorded(events: seq<Event>)
    requires LastCommit(events).Some? && LastCommit(events).value.Recorded?
    ensures LastRecorded(events) == LastCommit(events)
  {
    var n := |events| - 1;
    if !Commits(events[n]) { RecordedCommitIsLastRecorded(events[..n]); }
  }

  /** A recorded rebuild's run counts what the tables hold. */
  lemma RecordedRunCounts(db: Database, e: Event)
    requires e.Recorded? && Possible(e)
    ensures var after := Apply(db, e);
            var run := after.runs[|after.runs| - 1];
            && run.root == e.root && run.status == Succeeded && run.error == None
            && run.documents == |after.tables.documents| && run.chunks == |after.tables.chunks|
            && run.vectors == |after.tables.vectors|
  {
    DocumentCount(e.data.documents);
    ChunkCount(e.data.chunks);
    VectorCount(e.data.vectors);
  }

  lemma {:induction false} DocumentCount(documents: seq<DocumentRecord>)
    requires forall i, j :: 0 <= i < j < |documents| ==> documents[i].path != documents[j].path
    ensures |DocumentTable(documents)| == |documents|
  {
    if documents != [] {
      var n := |documents| - 1;
      DocumentCount(documents[..n]);
      DocumentKeys(documents[..n]);
      assert documents[n].path !in DocumentTable(documents[..n]);
    }
  }

  lemma {:induction false} ChunkCount(chunks: seq<ChunkRecord>)
    requires forall i, j :: 0 <= i < j < |chunks| ==> chunks[i].id != chunks[j].id
    ensures |ChunkTable(chunks)| == |chunks|
  {
    if chunks != [] {
      var n := |chunks| - 1;
      ChunkCount(chunks[..n]);
      ChunkKeys(chunks[..n]);
      assert chunks[n].id !in ChunkTable(chunks[..n]);
    }
  }

  lemma {:induction false} VectorCount(vectors: seq<VectorRecord>)
    requires forall i, j :: 0 <= i < j < |vectors| ==> vectors[i].chunkId != vectors[j].chunkId
    ensures |VectorTable(vectors)| == |vectors|
  {
    if vectors != [] {
      var n := |vectors| - 1;
      VectorCount(vectors[..n]);
      VectorKeys(vectors[..n]);
      assert vectors[n].chunkId !in VectorTable(vectors[..n]);
    }
  }

  /**
   The committed root of the status is the root of the data in the tables unless the last commit's success record
   was lost; and then it is so only if the last recorded rebuild happened to be of the same root.
   */
  lemma StatusNamesTheData(events: seq<Event>)
    requires History(events) && LastCommit(events).Some?
    ensures Commits(LastCommit(events).value)
    ensures CommittedRoot(After(events).runs) == Some(LastCommit(events).value.root)
       <==> || LastCommit(events).value.Recorded?
            || (LastRecorded(events).Some? && LastRecorded(events).value.Recorded?
                && LastRecorded(events).value.root == LastCommit(events).value.root)
  {
    hide After, History;
    LastCommitIsOne(events);
    StatusIsLastRecorded(events);
    if LastCommit(events).value.Recorded? { RecordedCommitIsLastRecorded(events); }
  }

  /** The second of two commits is not recorded: the tables hold its rows, and the status names the first one's root. */
  lemma StatusCanNameAnotherRoot(a: string, b: string, first: Data, second: Data)
    requires a != b && Consistent(first) && Consistent(second)
    ensures var events := [Recorded(a, first), Unrecorded(b, second)];
            && History(events) && After(events).tables == Loaded(second)
            && CommittedRoot(After(events).runs) == Some(a) && LastCommit(events).value.root == b
  {
    hide Consistent, Loaded, After;
    var events := [Recorded(a, first), Unrecorded(b, second)];
    assert events[..1] == [Recorded(a, first)];
    TablesAreLastCommit(events);
    StatusIsLastRecorded(events);
  }

  // ----- chunk IDs never collide

  ghost predicate GoodHash(hash: string -> string) {
    && (forall a, b :: hash(a) == hash(b) ==> a == b)
    && (forall a :: ':' !in hash(a))
  }

  ghost predicate DistinctFiles(files: seq<SourceFile>) {
    forall i, j :: 0 <= i < j < |files| ==> files[i].relativePath != files[j].relativePath
  }

  /** Every chunk's ID is the hash of its key, and its path is one of the files'. */
  ghost predicate Keyed(files: seq<SourceFile>, chunks: seq<ChunkRecord>, hash: string -> string) {
    forall k :: 0 <= k < |chunks| ==>
      && chunks[k].ordinal >= 0
      && chunks[k].id == hash(Chunker.ChunkKey(chunks[k].documentPath, chunks[k].ordinal, hash(chunks[k].content)))
      && HasPath(files, chunks[k].documentPath)
  }

  ghost predicate HasPath(files: seq<SourceFile>, path: string) {
    exists i :: 0 <= i < |files| && files[i].relativePath == path
  }

  ghost predicate DistinctPlaces(chunks: seq<ChunkRecord>) {
    forall i, j :: 0 <= i < j < |chunks| ==>
      chunks[i].documentPath != chunks[j].documentPath || chunks[i].ordinal != chunks[j].ordinal
  }

  lemma LabelledIsKeyed(file: SourceFile, chunks: seq<ChunkRecord>, hash: string -> string)
    requires Chunker.ChunksFile(file, chunks, hash)
    ensures KeyedBy(file, chunks, hash)
  {
    hide Text.Split, Text.Join, Chunker.ChunkKey;
  }

  lemma NothingIsKeyed(hash: string -> string)
    ensures Keyed([], [], hash) && DistinctPlaces([])
  {}

  lemma {:induction false} ChunksAreKeyed(files: seq<SourceFile>, chunks: seq<ChunkRecord>, hash: string -> string)
    requires ChunksOf(files, chunks, hash) && DistinctFiles(files)
    ensures Keyed(files, chunks, hash) && DistinctPlaces(chunks)
    decreases |files|
  {
    hide Chunker.ChunksFile, Chunker.ChunkKey, KeyedBy, Keyed, DistinctPlaces;
    NothingIsKeyed(hash);
    if files != [] {
      var n := |files| - 1;
      var k :| 0 <= k <= |chunks|
        && ChunksOf(files[..n], chunks[..k], hash)
        && Chunker.ChunksFile(files[n], chunks[k..], hash);
      ChunksAreKeyed(files[..n], chunks[..k], hash);
      LabelledIsKeyed(files[n], chunks[k..], hash);
      KeyedJoin(files, chunks[..k], chunks[k..], hash);
      PlacesJoin(files, chunks[..k], chunks[k..], hash);
      assert chunks == chunks[..k] + chunks[k..];
    }
  }

  lemma OfEarlierFile(files: seq<SourceFile>, path: string)
    requires files != [] && DistinctFiles(files) && HasPath(files[..|files| - 1], path)
    ensures path != files[|files| - 1].relativePath && HasPath(files, path)
  {
    var i :| 0 <= i < |files| - 1 && files[..|files| - 1][i].relativePath == path;
    assert files[i].relativePath == path;
  }

  /** `later` are the chunks of one file, in order. */
  ghost predicate KeyedBy(file: SourceFile, later: seq<ChunkRecord>, hash: string -> string) {
    forall j :: 0 <= j < |later| ==>
      && later[j].documentPath == file.relativePath && later[j].ordinal == j
      && later[j].id == hash(Chunker.ChunkKey(file.relativePath, j, hash(later[j].content)))
  }

  lemma KeyedJoin(files: seq<SourceFile>, earlier: seq<ChunkRecord>, later: seq<ChunkRecord>, hash: string -> string)
    requires files != [] && DistinctFiles(files)
    requires Keyed(files[..|files| - 1], earlier, hash) && KeyedBy(files[|files| - 1], later, hash)
    ensures Keyed(files, earlier + later, hash)
  {
    hide Chunker.ChunkKey, DistinctFiles, HasPath;
    forall i | 0 <= i < |earlier| ensures HasPath(files, earlier[i].documentPath) {
      OfEarlierFile(files, earlier[i].documentPath);
    }
    LastHasPath(files);
  }

  lemma LastHasPath(files: seq<SourceFile>)
    requires files != []
    ensures HasPath(files, files[|files| - 1].relativePath)
  {}

  lemma PlacesJoin(files: seq<SourceFile>, earlier: seq<ChunkRecord>, later: seq<ChunkRecord>, hash: string -> string)
    requires files != [] && DistinctFiles(files)
    requires Keyed(files[..|files| - 1], earlier, hash) && DistinctPlaces(earlier)
    requires KeyedBy(files[|files| - 1], later, hash)
    ensures DistinctPlaces(earlier + later)
  {
    hide Chunker.ChunkKey, DistinctFiles, HasPath;
    forall i | 0 <= i < |earlier| ensures earlier[i].documentPath != files[|files| - 1].relativePath {
      OfEarlierFile(files, earlier[i].documentPath);
    }
  }

  /** With a collision-free hash, files with distinct paths never make a chunk insert fail. */
  lemma ChunkIdsNeverCollide(files: seq<SourceFile>, chunks: seq<ChunkRecord>, hash: string -> string)
    requires GoodHash(hash) && DistinctFiles(files) && ChunksOf(files, chunks, hash)
    ensures DistinctIds(chunks)
  {
    hide Chunker.ChunkKey, ChunksOf;
    ChunksAreKeyed(files, chunks, hash);
    forall i, j | 0 <= i < j < |chunks| ensures chunks[i].id != chunks[j].id {
      var a, b := chunks[i], chunks[j];
      if a.id == b.id {
        Chunker.ChunkKeysAreDistinct(a.documentPath, b.documentPath, a.ordinal, b.ordinal, hash(a.content),
                                     hash(b.content));
      }
    }
  }
}
