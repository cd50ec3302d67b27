/**
 The index database (internal/index/store.go, schema.go): four tables under primary and foreign keys, and the
 log of index runs.  A statement may fail, or the process may stop at it.
 */
module IndexStore {
  import opened Wrappers
  import opened IndexTypes
  import opened Ordering

  datatype FtsRow = FtsRow(chunkId: string, documentPath: string, ordinal: int, startLine: int, endLine: int,
                           content: string)

  datatype Tables = Tables(documents: map<string, DocumentRecord>, chunks: map<string, ChunkRecord>,
                           fts: seq<FtsRow>, vectors: map<string, VectorRecord>)

  datatype RunStatus = Running | Succeeded | Failed

  datatype IndexRun = IndexRun(root: string, status: RunStatus, documents: nat, chunks: nat, vectors: nat,
                               error: Option<string>)

  datatype Database = Database(tables: Tables, runs: seq<IndexRun>)

  datatype Fault = NoFault | Error | Crash

  /** What one call of `ReplaceAll` is given to store. */
  datatype Data = Data(documents: seq<DocumentRecord>, chunks: seq<ChunkRecord>, vectors: seq<VectorRecord>)

  const EMPTY_TABLES := Tables(map[], map[], [], map[])

  // ----- statements

  datatype Statement =
    | DeleteVectors
    | DeleteFts
    | DeleteChunks
    | DeleteDocuments
    | InsertDocument(document: DocumentRecord)
    | InsertChunk(chunk: ChunkRecord)
    | InsertFts(chunk: ChunkRecord)
    | InsertVector(vector: VectorRecord)

  function FtsRowOf(c: ChunkRecord): FtsRow {
    FtsRow(c.id, c.documentPath, c.ordinal, c.startLine, c.endLine, c.content)
  }

  /** One statement; None is a violated key.  Deleting a parent row deletes the rows that refer to it. */
  function Exec(t: Tables, s: Statement): Option<Tables> {
    match s
    case DeleteVectors => Some(t.(vectors := map[]))
    case DeleteFts => Some(t.(fts := []))
    case DeleteChunks => Some(t.(chunks := map[], vectors := map[]))
    case DeleteDocuments => Some(t.(documents := map[], chunks := map[], vectors := map[]))
    case InsertDocument(d) =>
      if d.path in t.documents then None else Some(t.(documents := t.documents[d.path := d]))
    case InsertChunk(c) =>
      if c.id in t.chunks || c.documentPath !in t.documents then None else Some(t.(chunks := t.chunks[c.id := c]))
    case InsertFts(c) => Some(t.(fts := t.fts + [FtsRowOf(c)]))
    case InsertVector(v) =>
      if v.chunkId in t.vectors || v.chunkId !in t.chunks then None else Some(t.(vectors := t.vectors[v.chunkId := v]))
  }

  // ----- the tables a committed ReplaceAll leaves

  function DocumentTable(documents: seq<DocumentRecord>): map<string, DocumentRecord> {
    if documents == [] then map[]
    else
      var n := |documents| - 1;
      DocumentTable(documents[..n])[documents[n].path := documents[n]]
  }

  function ChunkTable(chunks: seq<ChunkRecord>): map<string, ChunkRecord> {
    if chunks == [] then map[]
    else
      var n := |chunks| - 1;
      ChunkTable(chunks[..n])[chunks[n].id := chunks[n]]
  }

  function VectorTable(vectors: seq<VectorRecord>): map<string, VectorRecord> {
    if vectors == [] then map[]
    else
      var n := |vectors| - 1;
      VectorTable(vectors[..n])[vectors[n].chunkId := vectors[n]]
  }

  function Loaded(data: Data): Tables {
    Tables(DocumentTable(data.documents), ChunkTable(data.chunks), MapSeq(FtsRowOf, data.chunks),
           VectorTable(data.vectors))
  }

  /** The keys and references hold among the rows. */
  ghost predicate Consistent(data: Data) {
    && (forall i, j :: 0 <= i < j < |data.documents| ==> data.documents[i].path != data.documents[j].path)
    && (forall i, j :: 0 <= i < j < |data.chunks| ==> data.chunks[i].id != data.chunks[j].id)
    && (forall i, j :: 0 <= i < j < |data.vectors| ==> data.vectors[i].chunkId != data.vectors[j].chunkId)
    && (forall c :: c in data.chunks ==> c.documentPath in DocumentTable(data.documents))
    && (forall v :: v in data.vectors ==> v.chunkId in ChunkTable(data.chunks))
  }

  lemma {:induction false} DocumentKeys(documents: seq<DocumentRecord>)
    ensures forall path :: path in DocumentTable(documents) <==> exists d :: d in documents && d.path == path
  {
    if documents != [] {
      var n := |documents| - 1;
      DocumentKeys(documents[..n]);
      assert documents == documents[..n] + [documents[n]];
    }
  }

  lemma {:induction false} ChunkKeys(chunks: seq<ChunkRecord>)
    ensures forall id :: id in ChunkTable(chunks) <==> exists c :: c in chunks && c.id == id
  {
    if chunks != [] {
      var n := |chunks| - 1;
      ChunkKeys(chunks[..n]);
      assert chunks == chunks[..n] + [chunks[n]];
    }
  }

  lemma {:induction false} VectorKeys(vectors: seq<VectorRecord>)
    ensures forall id :: id in VectorTable(vectors) <==> exists v :: v in vectors && v.chunkId == id
  {
    if vectors != [] {
      var n := |vectors| - 1;
      VectorKeys(vectors[..n]);
      assert vectors == vectors[..n] + [vectors[n]];
    }
  }

  lemma LastIsNew(chunks: seq<ChunkRecord>)
    requires chunks != [] && forall i, j :: 0 <= i < j < |chunks| ==> chunks[i].id != chunks[j].id
    ensures chunks[|chunks| - 1].id !in ChunkTable(chunks[..|chunks| - 1])
  {
    hide ChunkTable;
    ChunkKeys(chunks[..|chunks| - 1]);
  }

  lemma {:induction false} ChunkRows(chunks: seq<ChunkRecord>)
    requires forall i, j :: 0 <= i < j < |chunks| ==> chunks[i].id != chunks[j].id
    ensures |ChunkTable(chunks)| == |chunks|
    ensures forall k :: 0 <= k < |chunks| ==>
              chunks[k].id in ChunkTable(chunks) && ChunkTable(chunks)[chunks[k].id] == chunks[k]
  {
    if chunks != [] {
      var n := |chunks| - 1;
      ChunkRows(chunks[..n]);
      LastIsNew(chunks);
      var t := ChunkTable(chunks[..n]);
      assert ChunkTable(chunks) == t[chunks[n].id := chunks[n]];
      assert ChunkTable(chunks).Keys == t.Keys + {chunks[n].id};
      assert forall k :: 0 <= k < n ==> chunks[..n][k] == chunks[k];
    }
  }

  /** One full-text row for each chunk, and every reference resolved. */
  ghost predicate WellFormed(t: Tables) {
    && |t.fts| == |t.chunks|
    && (forall i, j :: 0 <= i < j < |t.fts| ==> t.fts[i].chunkId != t.fts[j].chunkId)
    && (forall k :: 0 <= k < |t.fts| ==>
          t.fts[k].chunkId in t.chunks && t.fts[k] == FtsRowOf(t.chunks[t.fts[k].chunkId]))
    && (forall id :: id in t.chunks ==> t.chunks[id].id == id && t.chunks[id].documentPath in t.documents)
    && (forall id :: id in t.vectors ==> id in t.chunks)
  }

  lemma {:induction false} ChunkTableFrom(chunks: seq<ChunkRecord>, id: string)
    requires id in ChunkTable(chunks)
    ensures ChunkTable(chunks)[id] in chunks && ChunkTable(chunks)[id].id == id
  {
    var n := |chunks| - 1;
    if chunks[n].id != id { ChunkTableFrom(chunks[..n], id); }
  }

  /** Tables loaded from consistent rows are well formed. */
  lemma LoadedIsWellFormed(data: Data)
    requires Consistent(data)
    ensures WellFormed(Loaded(data))
  {
    hide DocumentTable, ChunkTable, VectorTable;
    ChunkRows(data.chunks);
    VectorKeys(data.vectors);
    forall id | id in ChunkTable(data.chunks)
      ensures ChunkTable(data.chunks)[id].id == id
      ensures ChunkTable(data.chunks)[id].documentPath in DocumentTable(data.documents)
    {
      ChunkTableFrom(data.chunks, id);
    }
  }

  // ----- the status

  /** No last state stands for one that was never indexed. */
  datatype Status = Status(lastState: Option<RunStatus>, lastRoot: string, lastError: Option<string>,
                           committedRoot: Option<string>, documents: nat, chunks: nat, vectors: nat)

  const NEVER_INDEXED := Status(None, "", None, None, 0, 0, 0)

  /** Every consistent row is stored as it was given, and every chunk's text can be found with its place. */
  lemma {:induction false} StoredInWords(data: Data, k: nat)
    requires Consistent(data)
    ensures k < |data.documents| ==>
              var d := data.documents[k];
              d.path in Loaded(data).documents && Loaded(data).documents[d.path] == d
    ensures k < |data.chunks| ==>
              var c := data.chunks[k];
              && c.id in Loaded(data).chunks && Loaded(data).chunks[c.id] == c
              && FtsRow(c.id, c.documentPath, c.ordinal, c.startLine, c.endLine, c.content) in Loaded(data).fts
    ensures k < |data.vectors| ==>
              var v := data.vectors[k];
              v.chunkId in Loaded(data).vectors && Loaded(data).vectors[v.chunkId] == v
  {
    hide DocumentTable, ChunkTable, VectorTable;
    if k < |data.documents| { DocumentStored(data.documents, k); }
    if k < |data.chunks| {
      ChunkStored(data.chunks, k);
      assert MapSeq(FtsRowOf, data.chunks)[k] == FtsRowOf(data.chunks[k]);
    }
    if k < |data.vectors| { VectorStored(data.vectors, k); }
  }

  lemma {:induction false} DocumentStored(documents: seq<DocumentRecord>, k: nat)
    requires k < |documents| && forall i, j :: 0 <= i < j < |documents| ==> documents[i].path != documents[j].path
    ensures documents[k].path in DocumentTable(documents) && DocumentTable(documents)[documents[k].path] == documents[k]
  {
    var n := |documents| - 1;
    if k < n { DocumentStored(documents[..n], k); }
  }

  lemma {:induction false} ChunkStored(chunks: seq<ChunkRecord>, k: nat)
    requires k < |chunks| && forall i, j :: 0 <= i < j < |chunks| ==> chunks[i].id != chunks[j].id
    ensures chunks[k].id in ChunkTable(chunks) && ChunkTable(chunks)[chunks[k].id] == chunks[k]
  {
    var n := |chunks| - 1;
    if k < n { ChunkStored(chunks[..n], k); }
  }

  lemma {:induction false} VectorStored(vectors: seq<VectorRecord>, k: nat)
    requires k < |vectors| && forall i, j :: 0 <= i < j < |vectors| ==> vectors[i].chunkId != vectors[j].chunkId
    ensures vectors[k].chunkId in VectorTable(vectors) && VectorTable(vectors)[vectors[k].chunkId] == vectors[k]
  {
    var n := |vectors| - 1;
    if k < n { VectorStored(vectors[..n], k); }
  }

  /** The root of the latest run with status succeeded. */
  function CommittedRoot(runs: seq<IndexRun>): Option<string> {
    if runs == [] then None
    else
      var n := |runs| - 1;
      if runs[n].status == Succeeded then Some(runs[n].root) else CommittedRoot(runs[..n])
  }

  class Store {
    var tables: Tables
    var runs: seq<IndexRun>

    constructor ()
      ensures tables == EMPTY_TABLES && runs == []
    {
      tables, runs := EMPTY_TABLES, [];
    }

    ghost function Contents(): Database
      reads this
    {
      Database(tables, runs)
    }

    /** The row's ID, from 0 where SQLite counts from 1. */
    method RecordRunStart(root: string, fault: Fault) returns (id: Option<nat>)
      modifies this`runs
      ensures id.Some? <==> fault == NoFault
      ensures id.Some? ==> id.value == |old(runs)| && runs == old(runs) + [IndexRun(root, Running, 0, 0, 0, None)]
      ensures id.None? ==> runs == old(runs)
    {
      if fault != NoFault { return None; }
      id := Some(|runs|);
      runs := runs + [IndexRun(root, Running, 0, 0, 0, None)];
    }

    /** An ID that no run has updates no row, which is no error. */
    method RecordRunCompletion(id: int, status: RunStatus, documents: nat, chunks: nat, vectors: nat, message: string,
                               fault: Fault)
      returns (ok: bool)
      modifies this`runs
      ensures ok <==> fault == NoFault
      ensures runs == if ok && 0 <= id < |old(runs)|
                      then old(runs)[id := IndexRun(old(runs)[id].root, status, documents, chunks, vectors,
                                                    if message == "" then None else Some(message))]
                      else old(runs)
    {
      ok := fault == NoFault;
      if ok && 0 <= id < |runs| {
        runs := runs[id := IndexRun(runs[id].root, status, documents, chunks, vectors,
                                    if message == "" then None else Some(message))];
      }
    }

    /** `faults` names the fault at each of the transaction's statements, in the order they are reached. */
    method ReplaceAll(data: Data, faults: nat -> Fault) returns (stopped: Fault)
      modifies this`tables
      ensures stopped == NoFault ==> tables == Loaded(data) && Consistent(data)
      ensures stopped != NoFault ==> tables == old(tables)
      ensures (forall n :: faults(n) == NoFault) ==> (stopped == NoFault <==> Consistent(data))
    {
      hide Loaded, Consistent;
      var next := 0;
      if faults(next) != NoFault { return faults(next); }  // begin
      next := 1;
      var tx := tables;
      stopped, next, tx := ClearTables(tx, faults, next);
      if stopped != NoFault { return; }
      if faults(next) != NoFault { return faults(next); }  // prepare documents
      stopped, next, tx := InsertDocuments(tx, data.documents, faults, next + 1);
      if stopped != NoFault { NotLoadable(data); return; }
      if faults(next) != NoFault { return faults(next); }  // prepare chunks
      if faults(next + 1) != NoFault { return faults(next + 1); }  // prepare full text
      stopped, next, tx := InsertChunks(tx, data.chunks, faults, next + 2);
      if stopped != NoFault { NotLoadable(data); return; }
      if faults(next) != NoFault { return faults(next); }  // prepare vectors
      stopped, next, tx := InsertVectors(tx, data.vectors, faults, next + 1);
      if stopped != NoFault { NotLoadable(data); return; }
      if faults(next) != NoFault { return faults(next); }  // commit
      tables := tx;
      IsLoaded(data, tx);
      return NoFault;
    }

    /** Runs one statement of an open transaction. */
    static method Step(tx: Tables, s: Statement, fault: Fault) returns (stopped: Fault, tx': Tables)
      ensures stopped == if fault != NoFault then fault else if Exec(tx, s).None? then Error else NoFault
      ensures stopped == NoFault ==> Exec(tx, s) == Some(tx')
    {
      if fault != NoFault { return fault, tx; }
      match Exec(tx, s) {
        case None => return Error, tx;
        case Some(t) => return NoFault, t;
      }
    }

    static method ClearTables(tx0: Tables, faults: nat -> Fault, from: nat)
      returns (stopped: Fault, next: nat, tx: Tables)
      ensures stopped == NoFault ==> tx == EMPTY_TABLES
      ensures (forall n :: faults(n) == NoFault) ==> stopped == NoFault
    {
      next, tx := from, tx0;
      stopped, tx := Step(tx, DeleteVectors, faults(next));
      if stopped != NoFault { return; }
      stopped, tx := Step(tx, DeleteFts, faults(next + 1));
      if stopped != NoFault { return; }
      stopped, tx := Step(tx, DeleteChunks, faults(next + 2));
      if stopped != NoFault { return; }
      stopped, tx := Step(tx, DeleteDocuments, faults(next + 3));
      next := next + 4;
    }

    static method InsertDocuments(tx0: Tables, documents: seq<DocumentRecord>, faults: nat -> Fault, from: nat)
      returns (stopped: Fault, next: nat, tx: Tables)
      requires tx0.documents == map[]
      ensures stopped == NoFault ==> tx == tx0.(documents := DocumentTable(documents)) && DistinctPaths(documents)
      ensures (forall n :: faults(n) == NoFault) ==> (stopped == NoFault <==> DistinctPaths(documents))
    {
      hide DistinctPaths, DocumentTable;
      next, tx, stopped := from, tx0, NoFault;
      NoDocuments();
      for i := 0 to |documents|
        invariant stopped == NoFault && DistinctPaths(documents[..i])
        invariant tx == tx0.(documents := DocumentTable(documents[..i]))
      {
        NextDocument(documents, i);
        stopped, tx := Step(tx, InsertDocument(documents[i]), faults(next));
        if stopped != NoFault {
          if faults(next) == NoFault { RepeatedPath(documents, i); }
          return;
        }
        next := next + 1;
      }
      assert documents[..|documents|] == documents;
    }

    static method InsertChunks(tx0: Tables, chunks: seq<ChunkRecord>, faults: nat -> Fault, from: nat)
      returns (stopped: Fault, next: nat, tx: Tables)
      requires tx0.chunks == map[] && tx0.fts == []
      ensures stopped == NoFault ==>
                && tx == tx0.(chunks := ChunkTable(chunks), fts := MapSeq(FtsRowOf, chunks))
                && DistinctIds(chunks) && Documented(chunks, tx0.documents)
      ensures (forall n :: faults(n) == NoFault) ==>
                (stopped == NoFault <==> DistinctIds(chunks) && Documented(chunks, tx0.documents))
    {
      hide DistinctIds, Documented, ChunkTable, FtsRowOf, MapSeq;
      next, tx, stopped := from, tx0, NoFault;
      NoChunks(tx0.documents);
      for i := 0 to |chunks|
        invariant stopped == NoFault
        invariant tx == tx0.(chunks := ChunkTable(chunks[..i]), fts := MapSeq(FtsRowOf, chunks[..i]))
        invariant DistinctIds(chunks[..i]) && Documented(chunks[..i], tx0.documents)
      {
        NextChunk(chunks, i, tx0.documents);
        stopped, tx := Step(tx, InsertChunk(chunks[i]), faults(next));
        if stopped != NoFault {
          if faults(next) == NoFault { RefusedChunk(chunks, i, tx0.documents); }
          return;
        }
        stopped, tx := Step(tx, InsertFts(chunks[i]), faults(next + 1));
        if stopped != NoFault { return; }
        next := next + 2;
      }
      assert chunks[..|chunks|] == chunks;
    }

    static method InsertVectors(tx0: Tables, vectors: seq<VectorRecord>, faults: nat -> Fault, from: nat)
      returns (stopped: Fault, next: nat, tx: Tables)
      requires tx0.vectors == map[]
      ensures stopped == NoFault ==>
                && tx == tx0.(vectors := VectorTable(vectors))
                && DistinctVectors(vectors) && Chunked(vectors, tx0.chunks)
      ensures (forall n :: faults(n) == NoFault) ==>
                (stopped == NoFault <==> DistinctVectors(vectors) && Chunked(vectors, tx0.chunks))
    {
      hide DistinctVectors, Chunked, VectorTable;
      next, tx, stopped := from, tx0, NoFault;
      NoVectors(tx0.chunks);
      for i := 0 to |vectors|
        invariant stopped == NoFault && tx == tx0.(vectors := VectorTable(vectors[..i]))
        invariant DistinctVectors(vectors[..i]) && Chunked(vectors[..i], tx0.chunks)
      {
        NextVector(vectors, i, tx0.chunks);
        stopped, tx := Step(tx, InsertVector(vectors[i]), faults(next));
        if stopped != NoFault {
          if faults(next) == NoFault { RefusedVector(vectors, i, tx0.chunks); }
          return;
        }
        next := next + 1;
      }
      assert vectors[..|vectors|] == vectors;
    }

    /**
     The five queries in order; None when one that is reached fails.  Without any run only the first is.
     */
    method ReadStatus(faults: nat -> Fault) returns (r: Option<Status>)
      ensures r.None? <==> faults(0) != NoFault || (runs != [] && exists k :: 1 <= k <= 4 && faults(k) != NoFault)
      ensures r.Some? && runs == [] ==> r.value == NEVER_INDEXED
      ensures r.Some? && runs != [] ==>
                && r.value.lastState == Some(runs[|runs| - 1].status) && r.value.lastRoot == runs[|runs| - 1].root
                && r.value.lastError == runs[|runs| - 1].error
                && r.value.documents == |tables.documents| && r.value.chunks == |tables.chunks|
                && r.value.vectors == |tables.vectors|
                && r.value.committedRoot == CommittedRoot(runs)
    {
      if faults(0) != NoFault { return None; }
      if runs == [] { return Some(NEVER_INDEXED); }
      var last := runs[|runs| - 1];
      var status := NEVER_INDEXED.(lastState := Some(last.status), lastRoot := last.root, lastError := last.error);
      if faults(1) != NoFault { return None; }
      status := status.(documents := |tables.documents|);
      if faults(2) != NoFault { return None; }
      status := status.(chunks := |tables.chunks|);
      if faults(3) != NoFault { return None; }
      status := status.(vectors := |tables.vectors|);
      if faults(4) != NoFault { return None; }
      var i := |runs|;
      assert runs[..i] == runs;
      while i > 0 && runs[i - 1].status != Succeeded
        invariant 0 <= i <= |runs| && CommittedRoot(runs) == CommittedRoot(runs[..i])
      {
        assert runs[..i][..i - 1] == runs[..i - 1];
        i := i - 1;
      }
      return Some(status.(committedRoot := if i > 0 then Some(runs[i - 1].root) else None));
    }
  }

  // ----- the parts of consistency, as the loops meet them

  ghost predicate DistinctPaths(documents: seq<DocumentRecord>) {
    forall i, j :: 0 <= i < j < |documents| ==> documents[i].path != documents[j].path
  }

  ghost predicate DistinctIds(chunks: seq<ChunkRecord>) {
    forall i, j :: 0 <= i < j < |chunks| ==> chunks[i].id != chunks[j].id
  }

  ghost predicate Documented(chunks: seq<ChunkRecord>, documents: map<string, DocumentRecord>) {
    forall c :: c in chunks ==> c.documentPath in documents
  }

  ghost predicate DistinctVectors(vectors: seq<VectorRecord>) {
    forall i, j :: 0 <= i < j < |vectors| ==> vectors[i].chunkId != vectors[j].chunkId
  }

  ghost predicate Chunked(vectors: seq<VectorRecord>, chunks: map<string, ChunkRecord>) {
    forall v :: v in vectors ==> v.chunkId in chunks
  }

  lemma NoDocuments()
    ensures DocumentTable([]) == map[] && DistinctPaths([])
  {}

  lemma NextDocument(documents: seq<DocumentRecord>, i: nat)
    requires i < |documents| && DistinctPaths(documents[..i])
    ensures DocumentTable(documents[..i + 1]) == DocumentTable(documents[..i])[documents[i].path := documents[i]]
    ensures documents[i].path !in DocumentTable(documents[..i]) ==> DistinctPaths(documents[..i + 1])
  {
    assert documents[..i + 1][..i] == documents[..i];
    DocumentKeys(documents[..i]);
    if documents[i].path !in DocumentTable(documents[..i]) {
      forall k | 0 <= k < i ensures documents[k].path != documents[i].path {
        assert documents[..i][k] in documents[..i];
      }
    }
  }

  lemma RepeatedPath(documents: seq<DocumentRecord>, i: nat)
    requires i < |documents| && documents[i].path in DocumentTable(documents[..i])
    ensures !DistinctPaths(documents)
  {
    DocumentKeys(documents[..i]);
    var d :| d in documents[..i] && d.path == documents[i].path;
    var k :| 0 <= k < i && documents[..i][k] == d;
    assert documents[k].path == documents[i].path;
  }

  lemma NoChunks(documents: map<string, DocumentRecord>)
    ensures ChunkTable([]) == map[] && MapSeq(FtsRowOf, []) == [] && DistinctIds([]) && Documented([], documents)
  {}

  lemma NextChunk(chunks: seq<ChunkRecord>, i: nat, documents: map<string, DocumentRecord>)
    requires i < |chunks| && DistinctIds(chunks[..i]) && Documented(chunks[..i], documents)
    ensures ChunkTable(chunks[..i + 1]) == ChunkTable(chunks[..i])[chunks[i].id := chunks[i]]
    ensures MapSeq(FtsRowOf, chunks[..i + 1]) == MapSeq(FtsRowOf, chunks[..i]) + [FtsRowOf(chunks[i])]
    ensures chunks[i].id !in ChunkTable(chunks[..i]) && chunks[i].documentPath in documents ==>
              DistinctIds(chunks[..i + 1]) && Documented(chunks[..i + 1], documents)
  {
    hide FtsRowOf;
    assert chunks[..i + 1][..i] == chunks[..i];
    assert chunks[..i + 1] == chunks[..i] + [chunks[i]];
    ChunkKeys(chunks[..i]);
    if chunks[i].id !in ChunkTable(chunks[..i]) {
      forall k | 0 <= k < i ensures chunks[k].id != chunks[i].id { assert chunks[..i][k] in chunks[..i]; }
    }
  }

  lemma RefusedChunk(chunks: seq<ChunkRecord>, i: nat, documents: map<string, DocumentRecord>)
    requires i < |chunks| && (chunks[i].id in ChunkTable(chunks[..i]) || chunks[i].documentPath !in documents)
    ensures !(DistinctIds(chunks) && Documented(chunks, documents))
  {
    if chunks[i].id in ChunkTable(chunks[..i]) {
      ChunkKeys(chunks[..i]);
      var c :| c in chunks[..i] && c.id == chunks[i].id;
      var k :| 0 <= k < i && chunks[..i][k] == c;
      assert chunks[k].id == chunks[i].id;
    } else {
      assert chunks[i] in chunks;
    }
  }

  lemma NoVectors(chunks: map<string, ChunkRecord>)
    ensures VectorTable([]) == map[] && DistinctVectors([]) && Chunked([], chunks)
  {}

  lemma NextVector(vectors: seq<VectorRecord>, i: nat, chunks: map<string, ChunkRecord>)
    requires i < |vectors| && DistinctVectors(vectors[..i]) && Chunked(vectors[..i], chunks)
    ensures VectorTable(vectors[..i + 1]) == VectorTable(vectors[..i])[vectors[i].chunkId := vectors[i]]
    ensures vectors[i].chunkId !in VectorTable(vectors[..i]) && vectors[i].chunkId in chunks ==>
              DistinctVectors(vectors[..i + 1]) && Chunked(vectors[..i + 1], chunks)
  {
    assert vectors[..i + 1][..i] == vectors[..i];
    assert vectors[..i + 1] == vectors[..i] + [vectors[i]];
    VectorKeys(vectors[..i]);
    if vectors[i].chunkId !in VectorTable(vectors[..i]) {
      forall k | 0 <= k < i ensures vectors[k].chunkId != vectors[i].chunkId { assert vectors[..i][k] in vectors[..i]; }
    }
  }

  lemma RefusedVector(vectors: seq<VectorRecord>, i: nat, chunks: map<string, ChunkRecord>)
    requires i < |vectors| && (vectors[i].chunkId in VectorTable(vectors[..i]) || vectors[i].chunkId !in chunks)
    ensures !(DistinctVectors(vectors) && Chunked(vectors, chunks))
  {
    if vectors[i].chunkId in VectorTable(vectors[..i]) {
      VectorKeys(vectors[..i]);
      var v :| v in vectors[..i] && v.chunkId == vectors[i].chunkId;
      var k :| 0 <= k < i && vectors[..i][k] == v;
      assert vectors[k].chunkId == vectors[i].chunkId;
    } else {
      assert vectors[i] in vectors;
    }
  }

  lemma NotLoadable(data: Data)
    ensures Consistent(data) ==>
              DistinctPaths(data.documents) && DistinctIds(data.chunks) && DistinctVectors(data.vectors)
                                 && Documented(data.chunks, DocumentTable(data.documents))
                                 && Chunked(data.vectors, ChunkTable(data.chunks))
  {}

  lemma IsLoaded(data: Data, t: Tables)
    requires DistinctPaths(data.documents) && DistinctIds(data.chunks) && DistinctVectors(data.vectors)
    requires Documented(data.chunks, DocumentTable(data.documents)) && Chunked(data.vectors, ChunkTable(data.chunks))
    requires t == Tables(DocumentTable(data.documents), ChunkTable(data.chunks), MapSeq(FtsRowOf, data.chunks),
                         VectorTable(data.vectors))
    ensures t == Loaded(data) && Consistent(data)
  {}
}
