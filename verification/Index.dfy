/** The chunk table derived from the repository (siatt/memory/index.py). */
module Index {
  import opened Document
  import opened Layout
  import opened Wrappers

  type Bytes = string
  type Sha = string

  /** What the index takes from elsewhere: git's blob hash, the parser, and the chunker's texts, header first. */
  datatype Machinery = Machinery(sha: Bytes -> Sha, parse: Bytes -> Option<Doc>, texts: Doc -> seq<string>) {
    ghost predicate Valid() {
      && (forall a, b :: sha(a) == sha(b) ==> a == b)
      && (forall d :: texts(d) != [])
    }
  }

  /** A directory entry named like a memory: bytes, or something that cannot be read. */
  datatype Entry = Unreadable | Readable(bytes: Bytes)
  type Disk = map<Path, Entry>

  /** `<memory id>:<ordinal>`; a memory id holds no colon, so the pair is the string. */
  datatype ChunkId = ChunkId(memoryId: Id, ordinal: nat)
  datatype Row = Row(memoryId: Id, path: Path, ordinal: nat, text: string, scope: string, salience: real,
    pinned: bool, updated: int)
  type Rows = map<ChunkId, Row>

  datatype Tables = Tables(chunks: Rows, state: map<Path, Sha>)

  const EMPTY := Tables(map[], map[])

  function RowOf(mc: Machinery, doc: Doc, path: Path, ordinal: nat): Row
    requires ordinal < |mc.texts(doc)|
  {
    Row(doc.id, path, ordinal, mc.texts(doc)[ordinal], doc.visibility, doc.salience, doc.pinned, doc.updated)
  }

  function ChunkIds(mc: Machinery, doc: Doc): set<ChunkId> {
    set k | 0 <= k < |mc.texts(doc)| :: ChunkId(doc.id, k)
  }

  /** `chunk_document` */
  function RowsOf(mc: Machinery, doc: Doc, path: Path): Rows {
    map c | c in ChunkIds(mc, doc) :: RowOf(mc, doc, path, c.ordinal)
  }

  // ----- the statements a run issues, one transaction each

  datatype Statement =
    | ClearChunks
    | ClearState
    | DeleteChunks(path: Path)
    | InsertChunks(rows: Rows)
    | SetState(path: Path, sha: Sha)
    | DeleteState(path: Path)

  function Without(chunks: Rows, path: Path): Rows {
    map c | c in chunks && chunks[c].path != path :: chunks[c]
  }

  /** None is `UNIQUE constraint failed: chunks.id`. */
  function Execute(t: Tables, s: Statement): Option<Tables> {
    match s
    case ClearChunks => Some(t.(chunks := map[]))
    case ClearState => Some(t.(state := map[]))
    case DeleteChunks(path) => Some(t.(chunks := Without(t.chunks, path)))
    case InsertChunks(rows) => if t.chunks.Keys !! rows.Keys then Some(t.(chunks := t.chunks + rows)) else None
    case SetState(path, sha) => Some(t.(state := t.state[path := sha]))
    case DeleteState(path) => Some(t.(state := t.state - {path}))
  }

  function ExecuteAll(t: Tables, ss: seq<Statement>): Option<Tables> {
    if ss == [] then Some(t)
    else match ExecuteAll(t, ss[..|ss| - 1])
      case None => None
      case Some(mid) => Execute(mid, ss[|ss| - 1])
  }

  // ----- one file

  ghost predicate HeldElsewhere(t: Tables, id: Id, path: Path) {
    exists c :: c in t.chunks && t.chunks[c].memoryId == id && t.chunks[c].path != path
  }

  predicate IsHeldElsewhere(t: Tables, id: Id, path: Path)
    ensures IsHeldElsewhere(t, id, path) <==> HeldElsewhere(t, id, path)
  {
    exists c | c in t.chunks :: t.chunks[c].memoryId == id && t.chunks[c].path != path
  }

  datatype Verdict = Skipped | Problem | Duplicate(id: Id) | Indexes(doc: Doc, sha: Sha)

  function Judge(mc: Machinery, disk: Disk, t: Tables, path: Path): Verdict {
    if path !in disk || disk[path].Unreadable? then Problem
    else
      var sha := mc.sha(disk[path].bytes);
      if path in t.state && t.state[path] == sha then Skipped
      else
        match mc.parse(disk[path].bytes)
        case None => Problem
        case Some(doc) => if IsHeldElsewhere(t, doc.id, path) then Duplicate(doc.id) else Indexes(doc, sha)
  }

  function FileStatements(mc: Machinery, disk: Disk, t: Tables, path: Path): seq<Statement> {
    match Judge(mc, disk, t, path)
    case Indexes(doc, sha) => [DeleteChunks(path), InsertChunks(RowsOf(mc, doc, path)), SetState(path, sha)]
    case _ => []
  }

  function ForgetStatements(path: Path): seq<Statement> {
    [DeleteChunks(path), DeleteState(path)]
  }

  // ----- the run: forget what is gone, then the listing in order

  function ForgetAll(gone: seq<Path>): seq<Statement> {
    if gone == [] then [] else ForgetAll(gone[..|gone| - 1]) + ForgetStatements(gone[|gone| - 1])
  }

  function FilesStatements(mc: Machinery, disk: Disk, listing: seq<Path>, t: Tables): seq<Statement> {
    if listing == [] then []
    else
      var before := FilesStatements(mc, disk, listing[..|listing| - 1], t);
      match ExecuteAll(t, before)
      case None => before
      case Some(mid) => before + FileStatements(mc, disk, mid, listing[|listing| - 1])
  }

  function Forgotten(t: Tables, listing: seq<Path>): Tables {
    Tables(map c | c in t.chunks && !(t.chunks[c].path in t.state && t.chunks[c].path !in listing) :: t.chunks[c],
           map p | p in t.state && p in listing :: t.state[p])
  }

  /** Some file's effect on the tables, when no constraint fails. */
  function Step(mc: Machinery, disk: Disk, t: Tables, path: Path): Tables {
    match Judge(mc, disk, t, path)
    case Indexes(doc, sha) => Tables(Without(t.chunks, path) + RowsOf(mc, doc, path), t.state[path := sha])
    case _ => t
  }

  function Steps(mc: Machinery, disk: Disk, listing: seq<Path>, t: Tables): Tables {
    if listing == [] then t
    else Step(mc, disk, Steps(mc, disk, listing[..|listing| - 1], t), listing[|listing| - 1])
  }

  function Reindexed(mc: Machinery, disk: Disk, listing: seq<Path>, t: Tables): Tables {
    Steps(mc, disk, listing, Forgotten(t, listing))
  }

  // ----- safety: the UNIQUE key is never hit, wherever an earlier run stopped

  /** Rows are filed under their own key, and the rows of one memory all come from one path. */
  ghost predicate Keyed(t: Tables) {
    && (forall c | c in t.chunks :: c == ChunkId(t.chunks[c].memoryId, t.chunks[c].ordinal))
    && (forall c, d | c in t.chunks && d in t.chunks && t.chunks[c].memoryId == t.chunks[d].memoryId ::
          t.chunks[c].path == t.chunks[d].path)
  }

  lemma {:induction false} ExecuteConcat(t: Tables, a: seq<Statement>, b: seq<Statement>)
    ensures ExecuteAll(t, a + b)
         == if ExecuteAll(t, a).None? then None else ExecuteAll(ExecuteAll(t, a).value, b)
  {
    if b == [] {
      assert a + b == a;
    } else {
      assert (a + b)[..|a + b| - 1] == a + b[..|b| - 1];
      ExecuteConcat(t, a, b[..|b| - 1]);
    }
  }

  lemma ExecuteOne(t: Tables, s: Statement)
    ensures ExecuteAll(t, [s]) == Execute(t, s)
  {
    var one := [s];
    assert one[..|one| - 1] == [];
    assert ExecuteAll(t, one[..|one| - 1]) == Some(t);
  }

  /** One file's statements run through, to `Step`; stopped anywhere they leave the tables keyed. */
  lemma FileRuns(mc: Machinery, disk: Disk, t: Tables, path: Path, k: nat)
    requires Keyed(t) && k <= |FileStatements(mc, disk, t, path)|
    ensures var r := ExecuteAll(t, FileStatements(mc, disk, t, path)[..k]);
            && r.Some? && Keyed(r.value)
            && (k == |FileStatements(mc, disk, t, path)| ==> r.value == Step(mc, disk, t, path))
  {
    match Judge(mc, disk, t, path)
    case Indexes(doc, sha) =>
      var s0, s1, s2 := DeleteChunks(path), InsertChunks(RowsOf(mc, doc, path)), SetState(path, sha);
      var cleared := t.(chunks := Without(t.chunks, path));
      var ss := FileStatements(mc, disk, t, path);
      assert ss[..0] == [] && ss[..1] == [s0] && ss[..2] == [s0] + [s1] && ss[..3] == [s0, s1] + [s2];
      ExecuteOne(t, s0);
      ExecuteConcat(t, [s0], [s1]);
      ExecuteOne(cleared, s1);
      assert cleared.chunks.Keys !! RowsOf(mc, doc, path).Keys by {
        forall c | c in cleared.chunks ensures c !in RowsOf(mc, doc, path) {
          assert c in t.chunks && t.chunks[c].path != path;
        }
      }
      var filled := cleared.(chunks := cleared.chunks + RowsOf(mc, doc, path));
      assert Keyed(filled) by { FilledIsKeyed(mc, t, doc, path); }
      ExecuteConcat(t, [s0, s1], [s2]);
      ExecuteOne(filled, s2);
    case _ =>
      assert FileStatements(mc, disk, t, path)[..k] == [];
  }

  lemma FilledIsKeyed(mc: Machinery, t: Tables, doc: Doc, path: Path)
    requires Keyed(t) && !HeldElsewhere(t, doc.id, path)
    ensures Keyed(t.(chunks := Without(t.chunks, path) + RowsOf(mc, doc, path)))
  {
    var filled := Without(t.chunks, path) + RowsOf(mc, doc, path);
    forall c | c in filled ensures c == ChunkId(filled[c].memoryId, filled[c].ordinal) {}
    forall c, d | c in filled && d in filled && filled[c].memoryId == filled[d].memoryId
      ensures filled[c].path == filled[d].path
    {}
  }

  /** The listing's statements run through to `Steps`, and any prefix of them leaves the tables keyed. */
  lemma {:induction false} FilesRun(mc: Machinery, disk: Disk, listing: seq<Path>, t: Tables, k: nat)
    requires Keyed(t) && k <= |FilesStatements(mc, disk, listing, t)|
    ensures var r := ExecuteAll(t, FilesStatements(mc, disk, listing, t)[..k]);
            r.Some? && Keyed(r.value)
            && (k == |FilesStatements(mc, disk, listing, t)| ==> r.value == Steps(mc, disk, listing, t))
  {
    var all := FilesStatements(mc, disk, listing, t);
    if listing != [] {
      var init, last := listing[..|listing| - 1], listing[|listing| - 1];
      var before := FilesStatements(mc, disk, init, t);
      FilesRun(mc, disk, init, t, |before|);
      assert before[..|before|] == before;
      var mid := Steps(mc, disk, init, t);
      var rest := FileStatements(mc, disk, mid, last);
      assert all == before + rest;
      if k <= |before| {
        FilesRun(mc, disk, init, t, k);
        assert all[..k] == before[..k];
        if k == |before| && rest == [] {
          FileRuns(mc, disk, mid, last, 0);
        }
      } else {
        FileRuns(mc, disk, mid, last, k - |before|);
        assert all[..k] == before + rest[..k - |before|];
        ExecuteConcat(t, before, rest[..k - |before|]);
      }
    } else {
      assert all[..k] == [];
    }
  }

  predicate OnlyDeletes(ss: seq<Statement>) {
    forall i | 0 <= i < |ss| :: !ss[i].InsertChunks? && !ss[i].SetState?
  }

  lemma {:induction false} DeletesRun(ss: seq<Statement>, t: Tables)
    requires Keyed(t) && OnlyDeletes(ss)
    ensures ExecuteAll(t, ss).Some? && Keyed(ExecuteAll(t, ss).value)
  {
    if ss != [] {
      DeletesRun(ss[..|ss| - 1], t);
    }
  }

  /** What a run issues before it looks at any file: a full run starts by emptying both tables. */
  function Opening(full: bool, gone: seq<Path>): seq<Statement> {
    (if full then [ClearChunks, ClearState] else []) + ForgetAll(gone)
  }

  lemma {:induction false} OpeningOnlyDeletes(full: bool, gone: seq<Path>)
    ensures OnlyDeletes(Opening(full, gone))
  {
    if gone != [] {
      OpeningOnlyDeletes(full, gone[..|gone| - 1]);
      assert Opening(full, gone) == Opening(full, gone[..|gone| - 1]) + ForgetStatements(gone[|gone| - 1]);
    }
  }

  /** One run, over its own disk, stopped after some number of statements. */
  datatype Run = Run(full: bool, disk: Disk, listing: seq<Path>, gone: seq<Path>, stop: nat)

  function RunStatements(mc: Machinery, run: Run, t: Tables): seq<Statement> {
    var opening := Opening(run.full, run.gone);
    match ExecuteAll(t, opening)
    case None => opening
    case Some(cleared) => opening + FilesStatements(mc, run.disk, run.listing, cleared)
  }

  function AfterRun(mc: Machinery, run: Run, t: Tables): Option<Tables> {
    var ss := RunStatements(mc, run, t);
    ExecuteAll(t, if run.stop <= |ss| then ss[..run.stop] else ss)
  }

  lemma RunIsSafe(mc: Machinery, run: Run, t: Tables)
    requires Keyed(t)
    ensures AfterRun(mc, run, t).Some? && Keyed(AfterRun(mc, run, t).value)
  {
    hide ExecuteAll;
    hide FilesStatements;
    hide Opening;
    hide Keyed;
    var opening := Opening(run.full, run.gone);
    OpeningOnlyDeletes(run.full, run.gone);
    DeletesRun(opening, t);
    var cleared := ExecuteAll(t, opening).value;
    var files := FilesStatements(mc, run.disk, run.listing, cleared);
    var ss := opening + files;
    var k := if run.stop <= |ss| then run.stop else |ss|;
    assert ss == ss[..|ss|];
    if k <= |opening| {
      assert ss[..k] == opening[..k];
      DeletesRun(opening[..k], t);
    } else {
      FilesRun(mc, run.disk, run.listing, cleared, k - |opening|);
      assert ss[..k] == opening + files[..k - |opening|];
      ExecuteConcat(t, opening, files[..k - |opening|]);
    }
  }

  /** The tables after a sequence of runs. */
  function AfterRuns(mc: Machinery, runs: seq<Run>): Option<Tables> {
    if runs == [] then Some(EMPTY)
    else match AfterRuns(mc, runs[..|runs| - 1])
      case None => None
      case Some(t) => AfterRun(mc, runs[|runs| - 1], t)
  }

  /** However many runs there were and wherever each one stopped, no insert ever finds its chunk id taken. */
  lemma {:induction false} UniqueNeverFails(mc: Machinery, runs: seq<Run>)
    ensures AfterRuns(mc, runs).Some? && Keyed(AfterRuns(mc, runs).value)
  {
    if runs != [] {
      UniqueNeverFails(mc, runs[..|runs| - 1]);
      RunIsSafe(mc, runs[|runs| - 1], AfterRuns(mc, runs[..|runs| - 1]).value);
    }
  }

  // ----- exactness: the tables as completed runs leave them

  function RowsAt(t: Tables, path: Path): Rows {
    map c | c in t.chunks && t.chunks[c].path == path :: t.chunks[c]
  }

  ghost predicate Backed(mc: Machinery, t: Tables, path: Path, bytes: Bytes) {
    && path in t.state && t.state[path] == mc.sha(bytes)
    && mc.parse(bytes).Some?
    && RowsAt(t, path) == RowsOf(mc, mc.parse(bytes).value, path)
  }

  /** Every row belongs to a recorded file, and a recorded file's rows are the chunks of bytes with its hash. */
  ghost predicate Exact(mc: Machinery, t: Tables) {
    && (forall c | c in t.chunks :: t.chunks[c].path in t.state)
    && (forall path | path in t.state :: exists bytes :: Backed(mc, t, path, bytes))
  }

  /** The hashes determine the rows. */
  lemma StateDeterminesRows(mc: Machinery, s: Tables, t: Tables)
    requires mc.Valid() && Exact(mc, s) && Exact(mc, t) && s.state == t.state
    ensures s == t
  {
    forall path | path in s.state ensures RowsAt(s, path) == RowsAt(t, path) {
      var a :| Backed(mc, s, path, a);
      var b :| Backed(mc, t, path, b);
      assert a == b;
    }
    SameRows(s, t);
    SameRows(t, s);
    assert s.chunks == t.chunks;
  }

  lemma SameRows(s: Tables, t: Tables)
    requires forall c | c in s.chunks :: s.chunks[c].path in s.state
    requires forall path | path in s.state :: RowsAt(s, path) == RowsAt(t, path)
    ensures forall c | c in s.chunks :: c in t.chunks && t.chunks[c] == s.chunks[c]
  {
    forall c | c in s.chunks ensures c in t.chunks && t.chunks[c] == s.chunks[c] {
      var path := s.chunks[c].path;
      assert c in RowsAt(s, path);
      assert c in RowsAt(t, path) && RowsAt(t, path)[c] == RowsAt(s, path)[c];
    }
  }

  lemma ForgottenRows(t: Tables, listing: seq<Path>, path: Path)
    requires path in listing || (path !in t.state && forall c | c in t.chunks :: t.chunks[c].path in t.state)
    ensures RowsAt(Forgotten(t, listing), path) == RowsAt(t, path)
  {
  }

  lemma ForgottenIsExact(mc: Machinery, t: Tables, listing: seq<Path>)
    requires Exact(mc, t) && Keyed(t)
    ensures Exact(mc, Forgotten(t, listing)) && Keyed(Forgotten(t, listing))
  {
    var f := Forgotten(t, listing);
    forall path | path in f.state ensures exists bytes :: Backed(mc, f, path, bytes) {
      var bytes :| Backed(mc, t, path, bytes);
      ForgottenRows(t, listing, path);
      assert Backed(mc, f, path, bytes);
    }
  }

  lemma OwnRowsReplaced(mc: Machinery, chunks: Rows, doc: Doc, path: Path)
    ensures RowsAt(Tables(Without(chunks, path) + RowsOf(mc, doc, path), map[]), path) == RowsOf(mc, doc, path)
  {
    var s := Tables(Without(chunks, path) + RowsOf(mc, doc, path), map[]);
    assert RowsAt(s, path).Keys == RowsOf(mc, doc, path).Keys;
  }

  lemma OtherRowsKept(mc: Machinery, chunks: Rows, doc: Doc, path: Path, other: Path)
    requires other != path && Without(chunks, path).Keys !! RowsOf(mc, doc, path).Keys
    ensures RowsAt(Tables(Without(chunks, path) + RowsOf(mc, doc, path), map[]), other)
       == RowsAt(Tables(chunks, map[]), other)
  {
    var filled := Without(chunks, path) + RowsOf(mc, doc, path);
    forall c ensures c in filled && filled[c].path == other <==> c in chunks && chunks[c].path == other {}
  }

  lemma NoOverlap(mc: Machinery, t: Tables, doc: Doc, path: Path)
    requires Keyed(t) && !HeldElsewhere(t, doc.id, path)
    ensures Without(t.chunks, path).Keys !! RowsOf(mc, doc, path).Keys
  {
    forall c | c in t.chunks && t.chunks[c].path != path ensures c !in RowsOf(mc, doc, path) {}
  }

  /** Replacing one path's rows leaves every other path's rows alone. */
  lemma ReplacedRows(mc: Machinery, t: Tables, doc: Doc, path: Path, other: Path)
    requires Keyed(t) && !HeldElsewhere(t, doc.id, path)
    ensures var s := t.(chunks := Without(t.chunks, path) + RowsOf(mc, doc, path));
            RowsAt(s, other) == if other == path then RowsOf(mc, doc, path) else RowsAt(t, other)
  {
    NoOverlap(mc, t, doc, path);
    if other == path {
      OwnRowsReplaced(mc, t.chunks, doc, path);
    } else {
      OtherRowsKept(mc, t.chunks, doc, path, other);
    }
    var s := t.(chunks := Without(t.chunks, path) + RowsOf(mc, doc, path));
    assert RowsAt(s, other) == RowsAt(Tables(s.chunks, map[]), other);
    assert RowsAt(t, other) == RowsAt(Tables(t.chunks, map[]), other);
  }

  lemma IndexedIsExact(mc: Machinery, t: Tables, bytes: Bytes, path: Path)
    requires Exact(mc, t) && Keyed(t) && mc.parse(bytes).Some? && !HeldElsewhere(t, mc.parse(bytes).value.id, path)
    ensures var doc := mc.parse(bytes).value;
            Exact(mc, Tables(Without(t.chunks, path) + RowsOf(mc, doc, path), t.state[path := mc.sha(bytes)]))
  {
    var doc := mc.parse(bytes).value;
    var s := Tables(Without(t.chunks, path) + RowsOf(mc, doc, path), t.state[path := mc.sha(bytes)]);
    forall other | other in s.state ensures exists b :: Backed(mc, s, other, b) {
      ReplacedRows(mc, t, doc, path, other);
      assert RowsAt(s, other) == RowsAt(t.(chunks := s.chunks), other);
      if other == path {
        assert Backed(mc, s, path, bytes);
      } else {
        var b :| Backed(mc, t, other, b);
        assert Backed(mc, s, other, b);
      }
    }
  }

  lemma StepIsExact(mc: Machinery, disk: Disk, t: Tables, path: Path)
    requires Exact(mc, t) && Keyed(t)
    ensures Exact(mc, Step(mc, disk, t, path)) && Keyed(Step(mc, disk, t, path))
  {
    match Judge(mc, disk, t, path)
    case Indexes(doc, sha) =>
      FilledIsKeyed(mc, t, doc, path);
      IndexedIsExact(mc, t, disk[path].bytes, path);
    case _ =>
  }

  lemma StepElsewhere(mc: Machinery, disk: Disk, t: Tables, path: Path, other: Path)
    requires Keyed(t) && other != path
    ensures var s := Step(mc, disk, t, path);
            && RowsAt(s, other) == RowsAt(t, other)
            && (other in s.state <==> other in t.state)
            && (other in t.state ==> s.state[other] == t.state[other])
  {
    match Judge(mc, disk, t, path)
    case Indexes(doc, sha) =>
      ReplacedRows(mc, t, doc, path, other);
      var s := t.(chunks := Without(t.chunks, path) + RowsOf(mc, doc, path));
      assert RowsAt(Step(mc, disk, t, path), other) == RowsAt(s, other);
    case _ =>
  }

  /** All listed files read, parse, and carry distinct ids. */
  ghost predicate CleanListing(mc: Machinery, disk: Disk, listing: seq<Path>) {
    && (forall i, j | 0 <= i < j < |listing| :: listing[i] != listing[j])
    && (forall i | 0 <= i < |listing| :: DocAt(mc, disk, listing[i]).Some?)
    && (forall i, j | 0 <= i < j < |listing| ::
          DocAt(mc, disk, listing[i]).value.id != DocAt(mc, disk, listing[j]).value.id)
  }

  function DocAt(mc: Machinery, disk: Disk, path: Path): Option<Doc> {
    if path in disk && disk[path].Readable? then mc.parse(disk[path].bytes) else None
  }

  function ShaAt(mc: Machinery, disk: Disk, path: Path): Sha
    requires DocAt(mc, disk, path).Some?
  {
    mc.sha(disk[path].bytes)
  }

  ghost predicate UpToDate(mc: Machinery, disk: Disk, t: Tables, path: Path)
    requires DocAt(mc, disk, path).Some?
  {
    path in t.state && t.state[path] == ShaAt(mc, disk, path)
  }

  /** The index holds no listed memory under a path that comes later in the listing. */
  ghost predicate NoLaterHolder(mc: Machinery, disk: Disk, listing: seq<Path>, t: Tables)
    requires CleanListing(mc, disk, listing)
  {
    forall i, j, c | 0 <= i < j < |listing| && c in t.chunks && t.chunks[c].path == listing[j] ::
      t.chunks[c].memoryId != DocAt(mc, disk, listing[i]).value.id
  }

  lemma UpToDateRows(mc: Machinery, disk: Disk, t: Tables, path: Path)
    requires mc.Valid() && Exact(mc, t) && DocAt(mc, disk, path).Some? && UpToDate(mc, disk, t, path)
    ensures RowsAt(t, path) == RowsOf(mc, DocAt(mc, disk, path).value, path)
  {
    var bytes :| Backed(mc, t, path, bytes);
    assert bytes == disk[path].bytes;
  }

  lemma RowHasId(t: Tables, c: ChunkId, mc: Machinery, doc: Doc, path: Path)
    requires c in t.chunks && t.chunks[c].path == path && RowsAt(t, path) == RowsOf(mc, doc, path)
    ensures t.chunks[c].memoryId == doc.id
  {
    assert c in RowsAt(t, path);
  }

  ghost predicate SameAt(s: Tables, t: Tables, path: Path) {
    && RowsAt(s, path) == RowsAt(t, path)
    && (path in s.state <==> path in t.state)
    && (path in s.state ==> s.state[path] == t.state[path])
  }

  /** The rows of a listed path are the chunks of the file that is there. */
  ghost predicate RowsStand(mc: Machinery, disk: Disk, t: Tables, path: Path)
    requires DocAt(mc, disk, path).Some?
  {
    RowsAt(t, path) == RowsOf(mc, DocAt(mc, disk, path).value, path)
  }

  /** Every listed file whose hash is recorded has its rows. */
  ghost predicate RecordedRowsStand(mc: Machinery, disk: Disk, listing: seq<Path>, t: Tables)
    requires CleanListing(mc, disk, listing)
  {
    forall k | 0 <= k < |listing| && UpToDate(mc, disk, t, listing[k]) :: RowsStand(mc, disk, t, listing[k])
  }

  /** Every row belongs to a path that is recorded or listed. */
  predicate NoOrphans(listing: seq<Path>, t: Tables) {
    forall c | c in t.chunks :: t.chunks[c].path in t.state || t.chunks[c].path in listing
  }

  /** Only listed paths are recorded, and only they have rows. */
  predicate Within(listing: seq<Path>, t: Tables) {
    && (forall path | path in t.state :: path in listing)
    && (forall c | c in t.chunks :: t.chunks[c].path in listing)
  }

  lemma StepIsKeyed(mc: Machinery, disk: Disk, t: Tables, path: Path)
    requires Keyed(t)
    ensures Keyed(Step(mc, disk, t, path))
  {
    match Judge(mc, disk, t, path)
    case Indexes(doc, sha) => FilledIsKeyed(mc, t, doc, path);
    case _ =>
  }

  /** The middle of a run: what is done is up to date with its rows, and what is to come is untouched. */
  ghost predicate Midway(mc: Machinery, disk: Disk, listing: seq<Path>, i: nat, start: Tables, t: Tables)
    requires CleanListing(mc, disk, listing) && i <= |listing|
  {
    && Keyed(t) && Within(listing, t)
    && (forall k | 0 <= k < i :: UpToDate(mc, disk, t, listing[k]) && RowsStand(mc, disk, t, listing[k]))
    && (forall k | i <= k < |listing| :: SameAt(t, start, listing[k]))
  }

  lemma NotHeld(mc: Machinery, disk: Disk, listing: seq<Path>, i: nat, start: Tables, t: Tables)
    requires CleanListing(mc, disk, listing) && i < |listing|
    requires Midway(mc, disk, listing, i, start, t) && NoLaterHolder(mc, disk, listing, start)
    ensures !HeldElsewhere(t, DocAt(mc, disk, listing[i]).value.id, listing[i])
  {
    hide RowsOf;
    hide Keyed;
    hide UpToDate;
    var id := DocAt(mc, disk, listing[i]).value.id;
    forall c | c in t.chunks && t.chunks[c].path != listing[i] ensures t.chunks[c].memoryId != id {
      var k :| 0 <= k < |listing| && listing[k] == t.chunks[c].path;
      if k < i {
        assert RowsStand(mc, disk, t, listing[k]);
        RowHasId(t, c, mc, DocAt(mc, disk, listing[k]).value, listing[k]);
      } else {
        assert SameAt(t, start, listing[k]);
        assert c in RowsAt(t, listing[k]);
        assert c in RowsAt(start, listing[k]);
      }
    }
  }

  lemma StepFinishes(mc: Machinery, disk: Disk, t: Tables, path: Path)
    requires Keyed(t) && DocAt(mc, disk, path).Some? && !HeldElsewhere(t, DocAt(mc, disk, path).value.id, path)
    requires UpToDate(mc, disk, t, path) ==> RowsStand(mc, disk, t, path)
    ensures var s := Step(mc, disk, t, path);
            UpToDate(mc, disk, s, path) && RowsStand(mc, disk, s, path)
  {
    hide RowsOf;
    hide Without;
    hide Keyed;
    if !UpToDate(mc, disk, t, path) {
      var doc := DocAt(mc, disk, path).value;
      ReplacedRows(mc, t, doc, path, path);
      var s := t.(chunks := Without(t.chunks, path) + RowsOf(mc, doc, path));
      assert RowsAt(Step(mc, disk, t, path), path) == RowsAt(s, path);
    }
  }

  lemma StepStaysWithin(mc: Machinery, disk: Disk, listing: seq<Path>, t: Tables, path: Path)
    requires Within(listing, t) && path in listing
    ensures Within(listing, Step(mc, disk, t, path))
  {
  }

  lemma MidwayStep(mc: Machinery, disk: Disk, listing: seq<Path>, i: nat, start: Tables, t: Tables)
    requires CleanListing(mc, disk, listing) && i < |listing|
    requires Midway(mc, disk, listing, i, start, t) && NoLaterHolder(mc, disk, listing, start)
    requires RecordedRowsStand(mc, disk, listing, start)
    ensures Midway(mc, disk, listing, i + 1, start, Step(mc, disk, t, listing[i]))
  {
    hide Step;
    hide Keyed;
    hide Within;
    hide HeldElsewhere;
    NotHeld(mc, disk, listing, i, start, t);
    StepIsKeyed(mc, disk, t, listing[i]);
    StepStaysWithin(mc, disk, listing, t, listing[i]);
    assert SameAt(t, start, listing[i]);
    StepFinishes(mc, disk, t, listing[i]);
    var s := Step(mc, disk, t, listing[i]);
    forall k | 0 <= k < |listing| && k != i ensures SameAt(s, t, listing[k]) {
      StepElsewhere(mc, disk, t, listing[i], listing[k]);
    }
  }

  lemma {:induction false} RunToDate(mc: Machinery, disk: Disk, listing: seq<Path>, start: Tables, i: nat)
    requires CleanListing(mc, disk, listing) && i <= |listing|
    requires Keyed(start) && Within(listing, start) && NoLaterHolder(mc, disk, listing, start)
    requires RecordedRowsStand(mc, disk, listing, start)
    ensures Midway(mc, disk, listing, i, start, Steps(mc, disk, listing[..i], start))
  {
    if i > 0 {
      RunToDate(mc, disk, listing, start, i - 1);
      StepsOn(mc, disk, listing, start, i);
      MidwayStep(mc, disk, listing, i - 1, start, Steps(mc, disk, listing[..i - 1], start));
    } else {
      assert listing[..0] == [];
    }
  }

  lemma StepsOn(mc: Machinery, disk: Disk, listing: seq<Path>, start: Tables, k: nat)
    requires 0 < k <= |listing|
    ensures Steps(mc, disk, listing[..k], start)
       == Step(mc, disk, Steps(mc, disk, listing[..k - 1], start), listing[k - 1])
  {
    assert listing[..k][..k - 1] == listing[..k - 1];
  }

  /** The rows of a later path hold file `i`'s id, and file `i` is as the index had it. */
  ghost predicate Blocked(mc: Machinery, disk: Disk, listing: seq<Path>, start: Tables, i: nat, j: nat, c: ChunkId,
                          t: Tables, k: nat)
    requires CleanListing(mc, disk, listing) && i < j < |listing|
  {
    && Keyed(t)
    && (k <= j ==> c in t.chunks && t.chunks[c].path == listing[j]
                   && t.chunks[c].memoryId == DocAt(mc, disk, listing[i]).value.id)
    && SameAt(t, start, listing[i])
  }

  lemma BlockedStep(mc: Machinery, disk: Disk, listing: seq<Path>, start: Tables, i: nat, j: nat, c: ChunkId,
                    t: Tables, k: nat)
    requires CleanListing(mc, disk, listing) && i < j < |listing| && k < |listing|
    requires Blocked(mc, disk, listing, start, i, j, c, t, k)
    ensures Blocked(mc, disk, listing, start, i, j, c, Step(mc, disk, t, listing[k]), k + 1)
  {
    StepIsKeyed(mc, disk, t, listing[k]);
    if k == i {
      assert HeldElsewhere(t, DocAt(mc, disk, listing[i]).value.id, listing[i]);
    } else {
      StepElsewhere(mc, disk, t, listing[k], listing[i]);
    }
    if k < j {
      StepElsewhere(mc, disk, t, listing[k], listing[j]);
      assert c in RowsAt(t, listing[j]);
      assert c in RowsAt(Step(mc, disk, t, listing[k]), listing[j]);
    }
  }

  /** A file whose id sits under a later path of the listing is refused, and stays as the index had it. */
  lemma {:induction false} RefusedStays(mc: Machinery, disk: Disk, listing: seq<Path>, start: Tables, i: nat, j: nat,
                                        c: ChunkId, k: nat) returns (t: Tables)
    requires CleanListing(mc, disk, listing) && i < j < |listing| && k <= |listing|
    requires Blocked(mc, disk, listing, start, i, j, c, start, 0)
    ensures t == Steps(mc, disk, listing[..k], start)
    ensures Blocked(mc, disk, listing, start, i, j, c, t, k)
  {
    hide Blocked;
    hide Step;
    if k == 0 {
      t := start;
      assert listing[..0] == [];
    } else {
      var before := RefusedStays(mc, disk, listing, start, i, j, c, k - 1);
      BlockedStep(mc, disk, listing, start, i, j, c, before, k - 1);
      t := Step(mc, disk, before, listing[k - 1]);
      StepsOn(mc, disk, listing, start, k);
    }
  }

  lemma OwnRow(mc: Machinery, t: Tables, doc: Doc, path: Path)
    requires mc.Valid() && RowsAt(t, path) == RowsOf(mc, doc, path)
    ensures exists d :: d in t.chunks && t.chunks[d].memoryId == doc.id && t.chunks[d].path == path
  {
    var d := ChunkId(doc.id, 0);
    assert |mc.texts(doc)| > 0;
    assert d in RowsOf(mc, doc, path);
    assert d in RowsAt(t, path);
  }

  /** What `reindex(full=True)` builds. */
  function FullIndex(mc: Machinery, disk: Disk, listing: seq<Path>): Tables {
    Reindexed(mc, disk, listing, EMPTY)
  }

  /** Every listed file is recorded and has its rows, and nothing else is in the tables. */
  ghost predicate Complete(mc: Machinery, disk: Disk, listing: seq<Path>, t: Tables)
    requires CleanListing(mc, disk, listing)
  {
    && Within(listing, t)
    && (forall k | 0 <= k < |listing| :: UpToDate(mc, disk, t, listing[k]) && RowsStand(mc, disk, t, listing[k]))
  }

  lemma FullIsComplete(mc: Machinery, disk: Disk, listing: seq<Path>)
    requires CleanListing(mc, disk, listing)
    ensures Keyed(FullIndex(mc, disk, listing)) && Complete(mc, disk, listing, FullIndex(mc, disk, listing))
  {
    assert Forgotten(EMPTY, listing) == EMPTY;
    RunToDate(mc, disk, listing, EMPTY, |listing|);
    assert listing[..|listing|] == listing;
  }

  /** Completeness leaves no choice. */
  lemma CompleteIsUnique(mc: Machinery, disk: Disk, listing: seq<Path>, s: Tables, t: Tables)
    requires CleanListing(mc, disk, listing)
    requires Complete(mc, disk, listing, s) && Complete(mc, disk, listing, t)
    ensures s == t
  {
    hide RowsOf;
    forall path | path in listing
      ensures path in s.state && path in t.state && s.state[path] == t.state[path] && RowsAt(s, path) == RowsAt(t, path)
    {
      var k :| 0 <= k < |listing| && listing[k] == path;
      assert UpToDate(mc, disk, s, listing[k]) && UpToDate(mc, disk, t, listing[k]);
      assert RowsStand(mc, disk, s, listing[k]) && RowsStand(mc, disk, t, listing[k]);
    }
    assert s.state == t.state;
    SameRows(s, t);
    SameRows(t, s);
    assert s.chunks == t.chunks;
  }

  lemma FullIsUpToDate(mc: Machinery, disk: Disk, listing: seq<Path>)
    requires mc.Valid() && CleanListing(mc, disk, listing)
    ensures var t := FullIndex(mc, disk, listing);
            && Exact(mc, t) && Keyed(t)
            && (forall path :: path in t.state <==> path in listing)
            && (forall path | path in listing :: UpToDate(mc, disk, t, path))
  {
    hide RowsOf;
    hide Reindexed;
    FullIsComplete(mc, disk, listing);
    var t := FullIndex(mc, disk, listing);
    forall path | path in listing ensures UpToDate(mc, disk, t, path) && Backed(mc, t, path, disk[path].bytes) {
      var k :| 0 <= k < |listing| && listing[k] == path;
      assert UpToDate(mc, disk, t, listing[k]) && RowsStand(mc, disk, t, listing[k]);
    }
  }

  lemma ForgottenIsKeyed(t: Tables, listing: seq<Path>)
    requires Keyed(t)
    ensures Keyed(Forgotten(t, listing))
  {
  }

  /** Forgetting leaves listed paths alone, and what is left is within the listing unless a row was orphaned. */
  lemma ForgottenWithin(mc: Machinery, disk: Disk, listing: seq<Path>, t: Tables)
    requires CleanListing(mc, disk, listing) && Keyed(t)
    ensures var f := Forgotten(t, listing);
            && Keyed(f)
            && (forall path | path in listing :: SameAt(f, t, path))
            && (NoOrphans(listing, t) <==> Within(listing, f))
  {
    var f := Forgotten(t, listing);
    if Within(listing, f) {
      forall c | c in t.chunks ensures t.chunks[c].path in t.state || t.chunks[c].path in listing {
        if t.chunks[c].path !in t.state {
          assert c in f.chunks && f.chunks[c] == t.chunks[c];
        }
      }
    }
  }

  lemma SameHolders(mc: Machinery, disk: Disk, listing: seq<Path>, s: Tables, t: Tables)
    requires CleanListing(mc, disk, listing)
    requires forall path | path in listing :: SameAt(s, t, path)
    ensures NoLaterHolder(mc, disk, listing, s) ==> NoLaterHolder(mc, disk, listing, t)
    ensures RecordedRowsStand(mc, disk, listing, s) ==> RecordedRowsStand(mc, disk, listing, t)
  {
    if NoLaterHolder(mc, disk, listing, s) {
      forall i, j, c | 0 <= i < j < |listing| && c in t.chunks && t.chunks[c].path == listing[j]
        ensures t.chunks[c].memoryId != DocAt(mc, disk, listing[i]).value.id
      {
        assert SameAt(s, t, listing[j]);
        assert c in RowsAt(t, listing[j]);
        assert c in RowsAt(s, listing[j]) && s.chunks[c] == t.chunks[c];
      }
    }
    if RecordedRowsStand(mc, disk, listing, s) {
      forall k | 0 <= k < |listing| && UpToDate(mc, disk, t, listing[k]) ensures RowsStand(mc, disk, t, listing[k]) {
        assert SameAt(s, t, listing[k]);
        assert UpToDate(mc, disk, s, listing[k]);
      }
    }
  }

  /** While one path holds a memory's rows no other path has that memory's rows. */
  lemma HolderExcludes(mc: Machinery, t: Tables, doc: Doc, path: Path, c: ChunkId)
    requires mc.Valid() && Keyed(t)
    requires c in t.chunks && t.chunks[c].memoryId == doc.id && t.chunks[c].path != path
    ensures RowsAt(t, path) != RowsOf(mc, doc, path)
  {
    if RowsAt(t, path) == RowsOf(mc, doc, path) {
      OwnRow(mc, t, doc, path);
    }
  }

  /** A file whose id is held by a later path is never finished: its rows are not there, or it is refused. */
  lemma HeldThenIncomplete(mc: Machinery, disk: Disk, listing: seq<Path>, start: Tables)
    requires mc.Valid() && CleanListing(mc, disk, listing)
    requires Keyed(start) && !NoLaterHolder(mc, disk, listing, start)
    ensures !Complete(mc, disk, listing, Steps(mc, disk, listing, start))
  {
    hide Steps;
    hide RowsOf;
    hide Keyed;
    var i, j, c :| 0 <= i < j < |listing| && c in start.chunks && start.chunks[c].path == listing[j]
                   && start.chunks[c].memoryId == DocAt(mc, disk, listing[i]).value.id;
    var s := RefusedStays(mc, disk, listing, start, i, j, c, |listing|);
    assert listing[..|listing|] == listing;
    if Complete(mc, disk, listing, s) {
      assert RowsStand(mc, disk, s, listing[i]);
      var doc := DocAt(mc, disk, listing[i]).value;
      Apart(mc, disk, listing, i, j);
      HolderExcludes(mc, start, doc, listing[i], c);
    }
  }

  lemma Apart(mc: Machinery, disk: Disk, listing: seq<Path>, i: nat, j: nat)
    requires CleanListing(mc, disk, listing) && i < j < |listing|
    ensures listing[i] != listing[j]
  {
  }

  /** A path the listing leaves out, or whose hash is recorded, is not touched by the files' part of a run. */
  lemma {:induction false} UntouchedStays(mc: Machinery, disk: Disk, listing: seq<Path>, start: Tables, path: Path)
    requires Keyed(start)
    requires path !in listing || (DocAt(mc, disk, path).Some? && UpToDate(mc, disk, start, path))
    ensures Keyed(Steps(mc, disk, listing, start)) && SameAt(Steps(mc, disk, listing, start), start, path)
  {
    if listing != [] {
      var init, last := listing[..|listing| - 1], listing[|listing| - 1];
      UntouchedStays(mc, disk, init, start, path);
      var mid := Steps(mc, disk, init, start);
      StepIsKeyed(mc, disk, mid, last);
      if last != path {
        StepElsewhere(mc, disk, mid, last, path);
      }
    }
  }

  lemma OrphanStays(mc: Machinery, disk: Disk, listing: seq<Path>, t: Tables, c: ChunkId)
    requires Keyed(t) && c in t.chunks
    requires t.chunks[c].path !in t.state && t.chunks[c].path !in listing
    ensures !NoOrphans(listing, Reindexed(mc, disk, listing, t))
  {
    hide Steps;
    hide Keyed;
    var f, s := Forgotten(t, listing), Reindexed(mc, disk, listing, t);
    var path := t.chunks[c].path;
    assert Keyed(f) by { ForgottenIsKeyed(t, listing); }
    UntouchedStays(mc, disk, listing, f, path);
    assert c in RowsAt(f, path);
    assert c in RowsAt(s, path) && path !in s.state;
  }

  lemma MissingRowsStay(mc: Machinery, disk: Disk, listing: seq<Path>, t: Tables, k: nat)
    requires CleanListing(mc, disk, listing) && Keyed(t) && k < |listing|
    requires UpToDate(mc, disk, t, listing[k]) && !RowsStand(mc, disk, t, listing[k])
    ensures !RecordedRowsStand(mc, disk, listing, Reindexed(mc, disk, listing, t))
  {
    hide Steps;
    hide Keyed;
    hide Forgotten;
    hide RowsOf;
    ForgottenWithin(mc, disk, listing, t);
    var f, s := Forgotten(t, listing), Reindexed(mc, disk, listing, t);
    assert SameAt(f, t, listing[k]);
    UntouchedStays(mc, disk, listing, f, listing[k]);
    assert UpToDate(mc, disk, s, listing[k]) && !RowsStand(mc, disk, s, listing[k]);
  }

  /** Rows missing under a recorded hash, and rows of a path neither recorded nor listed, are never put right. */
  lemma DamageStays(mc: Machinery, disk: Disk, listing: seq<Path>, t: Tables)
    requires CleanListing(mc, disk, listing) && Keyed(t)
    requires !RecordedRowsStand(mc, disk, listing, t) || !NoOrphans(listing, t)
    ensures var s := Reindexed(mc, disk, listing, t);
            !RecordedRowsStand(mc, disk, listing, s) || !NoOrphans(listing, s)
  {
    hide RowsStand;
    hide Reindexed;
    hide Keyed;
    if !NoOrphans(listing, t) {
      var c :| c in t.chunks && t.chunks[c].path !in t.state && t.chunks[c].path !in listing;
      OrphanStays(mc, disk, listing, t, c);
    } else {
      var k :| 0 <= k < |listing| && UpToDate(mc, disk, t, listing[k]) && !RowsStand(mc, disk, t, listing[k]);
      MissingRowsStay(mc, disk, listing, t, k);
    }
  }

  lemma CompleteIsSound(mc: Machinery, disk: Disk, listing: seq<Path>, t: Tables)
    requires CleanListing(mc, disk, listing) && Complete(mc, disk, listing, t)
    ensures RecordedRowsStand(mc, disk, listing, t) && NoOrphans(listing, t)
  {
    hide RowsStand;
    hide CleanListing;
  }

  lemma RepairedNeeds(mc: Machinery, disk: Disk, listing: seq<Path>, t: Tables)
    requires mc.Valid() && CleanListing(mc, disk, listing) && Keyed(t)
    requires Complete(mc, disk, listing, Reindexed(mc, disk, listing, t))
    ensures NoLaterHolder(mc, disk, listing, t)
    ensures RecordedRowsStand(mc, disk, listing, t) && NoOrphans(listing, t)
  {
    hide Steps;
    hide Keyed;
    hide Complete;
    hide CleanListing;
    hide Forgotten;
    var f, s := Forgotten(t, listing), Reindexed(mc, disk, listing, t);
    CompleteIsSound(mc, disk, listing, s);
    if !RecordedRowsStand(mc, disk, listing, t) || !NoOrphans(listing, t) {
      DamageStays(mc, disk, listing, t);
    }
    ForgottenWithin(mc, disk, listing, t);
    SameHolders(mc, disk, listing, f, t);
    if !NoLaterHolder(mc, disk, listing, f) {
      HeldThenIncomplete(mc, disk, listing, f);
    }
  }

  lemma RepairedWhen(mc: Machinery, disk: Disk, listing: seq<Path>, t: Tables)
    requires CleanListing(mc, disk, listing) && Keyed(t)
    requires NoLaterHolder(mc, disk, listing, t)
    requires RecordedRowsStand(mc, disk, listing, t) && NoOrphans(listing, t)
    ensures Complete(mc, disk, listing, Reindexed(mc, disk, listing, t))
  {
    hide Steps;
    hide Keyed;
    hide RowsStand;
    hide Within;
    hide NoOrphans;
    hide CleanListing;
    hide Forgotten;
    var f := Forgotten(t, listing);
    ForgottenWithin(mc, disk, listing, t);
    forall path | path in listing ensures SameAt(t, f, path) {
      assert SameAt(f, t, path);
    }
    SameHolders(mc, disk, listing, t, f);
    RunToDate(mc, disk, listing, f, |listing|);
    assert listing[..|listing|] == listing;
  }

  /**
   * When the next incremental run over a clean listing ends with exactly what a full rebuild makes, whatever
   * earlier runs left behind and wherever they were stopped: no listed memory's chunks are held under a
   * path later in the listing, every listed file whose hash is recorded has its rows, and no row belongs to
   * a path that is neither recorded nor listed.
   */
  lemma RepairedExactly(mc: Machinery, disk: Disk, listing: seq<Path>, t: Tables)
    requires mc.Valid() && CleanListing(mc, disk, listing) && Keyed(t)
    ensures Reindexed(mc, disk, listing, t) == FullIndex(mc, disk, listing)
       <==> NoLaterHolder(mc, disk, listing, t) && RecordedRowsStand(mc, disk, listing, t) && NoOrphans(listing, t)
  {
    hide *;
    var s, full := Reindexed(mc, disk, listing, t), FullIndex(mc, disk, listing);
    FullIsComplete(mc, disk, listing);
    if s == full {
      RepairedNeeds(mc, disk, listing, t);
    } else if NoLaterHolder(mc, disk, listing, t) && RecordedRowsStand(mc, disk, listing, t) && NoOrphans(listing, t) {
      RepairedWhen(mc, disk, listing, t);
      CompleteIsUnique(mc, disk, listing, s, full);
    }
  }

  /** After completed runs only the first of these can fail. */
  lemma IncrementalIsFull(mc: Machinery, disk: Disk, listing: seq<Path>, t: Tables)
    requires mc.Valid() && CleanListing(mc, disk, listing)
    requires Exact(mc, t) && Keyed(t)
    ensures Reindexed(mc, disk, listing, t) == FullIndex(mc, disk, listing) <==> NoLaterHolder(mc, disk, listing, t)
  {
    RepairedExactly(mc, disk, listing, t);
    forall k | 0 <= k < |listing| && UpToDate(mc, disk, t, listing[k]) ensures RowsStand(mc, disk, t, listing[k]) {
      UpToDateRows(mc, disk, t, listing[k]);
    }
  }

  /** Files that are up to date are skipped. */
  lemma {:induction false} UpToDateStays(mc: Machinery, disk: Disk, listing: seq<Path>, t: Tables)
    requires forall i | 0 <= i < |listing| :: DocAt(mc, disk, listing[i]).Some? && UpToDate(mc, disk, t, listing[i])
    ensures Steps(mc, disk, listing, t) == t
  {
    if listing != [] {
      var k := |listing| - 1;
      assert forall i | 0 <= i < k :: listing[..k][i] == listing[i];
      UpToDateStays(mc, disk, listing[..k], t);
      assert UpToDate(mc, disk, t, listing[k]);
    }
  }

  /** A run that reached the full index has nothing left to do. */
  lemma SecondRunIdle(mc: Machinery, disk: Disk, listing: seq<Path>)
    requires CleanListing(mc, disk, listing)
    ensures Reindexed(mc, disk, listing, FullIndex(mc, disk, listing)) == FullIndex(mc, disk, listing)
  {
    hide FullIndex, Forgotten, Within, RowsStand;
    var t := FullIndex(mc, disk, listing);
    FullIsComplete(mc, disk, listing);
    ForgetsNothing(listing, t);
    UpToDateStays(mc, disk, listing, t);
  }

  lemma ForgetsNothing(listing: seq<Path>, t: Tables)
    requires Within(listing, t)
    ensures Forgotten(t, listing) == t
  {
    assert Forgotten(t, listing).chunks == t.chunks;
    assert Forgotten(t, listing).state == t.state;
  }
}
