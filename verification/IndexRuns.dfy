/** The indexer as it runs, and what `freshness` says about it (siatt/memory/index.py). */
module IndexRuns {
  import opened Document
  import opened Index
  import opened Layout
  import opened Wrappers

  // ----- what a run reports

  datatype Report = Report(indexed: seq<Path>, skipped: seq<Path>, problems: seq<Path>)

  function ReportOf(mc: Machinery, disk: Disk, listing: seq<Path>, t: Tables): Report {
    if listing == [] then Report([], [], [])
    else
      var init, last := listing[..|listing| - 1], listing[|listing| - 1];
      var before := ReportOf(mc, disk, init, t);
      match Judge(mc, disk, Steps(mc, disk, init, t), last)
      case Indexes(_, _) => before.(indexed := before.indexed + [last])
      case Skipped => before.(skipped := before.skipped + [last])
      case _ => before.(problems := before.problems + [last])
  }

  /** The tables without the rows and records of some paths. */
  function Dropped(t: Tables, gone: set<Path>): Tables {
    Tables(map c | c in t.chunks && t.chunks[c].path !in gone :: t.chunks[c],
           map p | p in t.state && p !in gone :: t.state[p])
  }

  class MemoryIndex {
    const mc: Machinery
    var chunks: Rows
    var state: map<Path, Sha>

    constructor (mc: Machinery)
      ensures this.mc == mc && Contents() == EMPTY
    {
      this.mc := mc;
      chunks, state := map[], map[];
    }

    function Contents(): Tables
      reads this
    {
      Tables(chunks, state)
    }

    /** `_indexed_at`: another path already holding this memory's chunks, if there is one. */
    method IndexedAt(id: Id, path: Path) returns (owner: Option<Path>)
      ensures owner.Some? <==> HeldElsewhere(Contents(), id, path)
      ensures owner.Some? ==>
        exists c :: c in chunks && chunks[c].memoryId == id && chunks[c].path == owner.value != path
    {
      var todo := chunks.Keys;
      while todo != {}
        invariant todo <= chunks.Keys
        invariant forall c | c in chunks && c !in todo :: chunks[c].memoryId != id || chunks[c].path == path
      {
        var c :| c in todo;
        if chunks[c].memoryId == id && chunks[c].path != path {
          return Some(chunks[c].path);
        }
        todo := todo - {c};
      }
      owner := None;
    }

    /** `_replace`: delete, insert, record. The insert is the statement that could hit the UNIQUE key. */
    method Replace(path: Path, rows: Rows, sha: Sha)
      requires Without(chunks, path).Keys !! rows.Keys
      modifies this
      ensures Contents() == Tables(Without(old(chunks), path) + rows, old(state)[path := sha])
    {
      chunks := Without(chunks, path);
      chunks := chunks + rows;
      state := state[path := sha];
    }

    method ForgetPath(path: Path)
      modifies this
      ensures Contents() == Dropped(old(Contents()), {path})
    {
      chunks := Without(chunks, path);
      state := state - {path};
    }

    method ForgetGone(listing: seq<Path>)
      modifies this
      ensures Contents() == Forgotten(old(Contents()), listing)
    {
      ghost var before := Contents();
      var gone := set p | p in state && p !in listing;
      ghost var all := gone;
      while gone != {}
        invariant gone <= all
        invariant Contents() == Dropped(before, all - gone)
      {
        var p :| p in gone;
        ForgetPath(p);
        gone := gone - {p};
        DroppedMore(before, all - gone - {p}, p);
        assert all - gone == (all - gone - {p}) + {p};
      }
      assert all - {} == all;
      assert Forgotten(before, listing) == Dropped(before, all);
    }

    method IndexFile(disk: Disk, path: Path) returns (verdict: Verdict)
      requires Keyed(Contents())
      modifies this
      ensures Contents() == Step(mc, disk, old(Contents()), path)
      ensures verdict == Judge(mc, disk, old(Contents()), path)
      ensures Keyed(Contents())
    {
      if path !in disk || disk[path].Unreadable? {
        return Problem;
      }
      var sha := mc.sha(disk[path].bytes);
      if path in state && state[path] == sha {
        return Skipped;
      }
      var parsed := mc.parse(disk[path].bytes);
      if parsed.None? {
        return Problem;
      }
      var owner := IndexedAt(parsed.value.id, path);
      if owner.Some? {
        return Duplicate(parsed.value.id);
      }
      NoOverlap(mc, Contents(), parsed.value, path);
      FilledIsKeyed(mc, Contents(), parsed.value, path);
      Replace(path, RowsOf(mc, parsed.value, path), sha);
      verdict := Indexes(parsed.value, sha);
    }

    /** `_reindex` */
    method Reindex(disk: Disk, listing: seq<Path>, full: bool) returns (report: Report)
      requires Keyed(Contents())
      modifies this
      ensures Keyed(Contents())
      ensures Contents() == Reindexed(mc, disk, listing, if full then EMPTY else old(Contents()))
      ensures report == ReportOf(mc, disk, listing, Forgotten(if full then EMPTY else old(Contents()), listing))
    {
      if full {
        chunks := map[];
        state := map[];
      }
      ghost var begun := Contents();
      ForgetGone(listing);
      ghost var start := Contents();
      assert start == Forgotten(begun, listing);
      report := Report([], [], []);
      for i := 0 to |listing|
        invariant Keyed(Contents())
        invariant Contents() == Steps(mc, disk, listing[..i], start)
        invariant report == ReportOf(mc, disk, listing[..i], start)
      {
        assert listing[..i + 1][..i] == listing[..i];
        var verdict := IndexFile(disk, listing[i]);
        match verdict {
          case Indexes(_, _) => report := report.(indexed := report.indexed + [listing[i]]);
          case Skipped => report := report.(skipped := report.skipped + [listing[i]]);
          case _ => report := report.(problems := report.problems + [listing[i]]);
        }
      }
      assert listing[..|listing|] == listing;
    }
  }

  lemma DroppedMore(t: Tables, gone: set<Path>, p: Path)
    ensures Dropped(Dropped(t, gone), {p}) == Dropped(t, gone + {p})
  {
    assert Dropped(Dropped(t, gone), {p}).chunks == Dropped(t, gone + {p}).chunks;
    assert Dropped(Dropped(t, gone), {p}).state == Dropped(t, gone + {p}).state;
  }

  /** Completed runs keep the tables exact, whatever the disks and listings were. */
  lemma {:induction false} StepsKeepExact(mc: Machinery, disk: Disk, listing: seq<Path>, t: Tables)
    requires Exact(mc, t) && Keyed(t)
    ensures Exact(mc, Steps(mc, disk, listing, t)) && Keyed(Steps(mc, disk, listing, t))
  {
    if listing != [] {
      StepsKeepExact(mc, disk, listing[..|listing| - 1], t);
      StepIsExact(mc, disk, Steps(mc, disk, listing[..|listing| - 1], t), listing[|listing| - 1]);
    }
  }

  lemma RunsKeepExact(mc: Machinery, disk: Disk, listing: seq<Path>, t: Tables)
    requires Exact(mc, t) && Keyed(t)
    ensures Exact(mc, Reindexed(mc, disk, listing, t)) && Keyed(Reindexed(mc, disk, listing, t))
  {
    ForgottenIsExact(mc, t, listing);
    StepsKeepExact(mc, disk, listing, Forgotten(t, listing));
  }

  // ----- what a stopped run can leave for good

  /** Incremental runs one after another while the disk stays as it is. */
  function Again(mc: Machinery, disk: Disk, listing: seq<Path>, t: Tables, times: nat): Tables {
    if times == 0 then t else Reindexed(mc, disk, listing, Again(mc, disk, listing, t, times - 1))
  }

  /** What `RepairedExactly` asks beyond `NoLaterHolder`, no number of runs brings about. */
  lemma {:induction false} DamageIsForGood(mc: Machinery, disk: Disk, listing: seq<Path>, t: Tables, times: nat)
    requires mc.Valid() && CleanListing(mc, disk, listing) && Keyed(t)
    requires !RecordedRowsStand(mc, disk, listing, t) || !NoOrphans(listing, t)
    ensures var s := Again(mc, disk, listing, t, times);
            && Keyed(s) && s != FullIndex(mc, disk, listing)
            && (!RecordedRowsStand(mc, disk, listing, s) || !NoOrphans(listing, s))
  {
    hide *;
    var s := Again(mc, disk, listing, t, times);
    if times == 0 {
      AgainStarts(mc, disk, listing, t);
    } else {
      DamageIsForGood(mc, disk, listing, t, times - 1);
      AgainSteps(mc, disk, listing, t, times);
      var before := Again(mc, disk, listing, t, times - 1);
      DamageStays(mc, disk, listing, before);
      ReindexedIsKeyed(mc, disk, listing, before);
    }
    FullIsComplete(mc, disk, listing);
    CompleteOrNot(mc, disk, listing, s);
  }

  lemma AgainStarts(mc: Machinery, disk: Disk, listing: seq<Path>, t: Tables)
    ensures Again(mc, disk, listing, t, 0) == t
  {
  }

  lemma AgainSteps(mc: Machinery, disk: Disk, listing: seq<Path>, t: Tables, times: nat)
    requires times > 0
    ensures Again(mc, disk, listing, t, times) == Reindexed(mc, disk, listing, Again(mc, disk, listing, t, times - 1))
  {
  }

  lemma CompleteOrNot(mc: Machinery, disk: Disk, listing: seq<Path>, t: Tables)
    requires CleanListing(mc, disk, listing)
    ensures Complete(mc, disk, listing, t) ==> RecordedRowsStand(mc, disk, listing, t) && NoOrphans(listing, t)
  {
    hide *;
    if Complete(mc, disk, listing, t) {
      CompleteIsSound(mc, disk, listing, t);
    }
  }

  lemma ReindexedIsKeyed(mc: Machinery, disk: Disk, listing: seq<Path>, t: Tables)
    requires Keyed(t)
    ensures Keyed(Reindexed(mc, disk, listing, t))
  {
    hide Keyed;
    ForgottenIsKeyed(t, listing);
    StepsKeepKeyed(mc, disk, listing, Forgotten(t, listing));
  }

  lemma {:induction false} StepsKeepKeyed(mc: Machinery, disk: Disk, listing: seq<Path>, t: Tables)
    requires Keyed(t)
    ensures Keyed(Steps(mc, disk, listing, t))
  {
    hide Keyed;
    hide Step;
    if listing != [] {
      StepsKeepKeyed(mc, disk, listing[..|listing| - 1], t);
      StepIsKeyed(mc, disk, Steps(mc, disk, listing[..|listing| - 1], t), listing[|listing| - 1]);
    }
  }

  /** A run over a listing of one file. */
  lemma OneFile(mc: Machinery, disk: Disk, path: Path, t: Tables)
    ensures Steps(mc, disk, [path], t) == Step(mc, disk, t, path)
    ensures FilesStatements(mc, disk, [path], t) == FileStatements(mc, disk, t, path)
  {
    var one := [path];
    assert one[..|one| - 1] == [];
    assert Steps(mc, disk, one[..|one| - 1], t) == t;
    assert FilesStatements(mc, disk, one[..|one| - 1], t) == [];
    assert ExecuteAll(t, []) == Some(t);
    assert [] + FileStatements(mc, disk, t, path) == FileStatements(mc, disk, t, path);
  }

  /** The first two statements of a run that forgets nothing and indexes one file. */
  lemma StoppedRun(mc: Machinery, disk: Disk, path: Path, t: Tables, doc: Doc, sha: Sha)
    requires Keyed(t) && Judge(mc, disk, t, path) == Indexes(doc, sha)
    ensures var cleared := t.(chunks := Without(t.chunks, path));
            && AfterRun(mc, Run(false, disk, [path], [], 1), t) == Some(cleared)
            && AfterRun(mc, Run(false, disk, [path], [], 2), t)
               == Some(cleared.(chunks := cleared.chunks + RowsOf(mc, doc, path)))
  {
    hide Keyed;
    hide RowsOf;
    var delete, insert, record := DeleteChunks(path), InsertChunks(RowsOf(mc, doc, path)), SetState(path, sha);
    assert Opening(false, []) == [] && ExecuteAll(t, []) == Some(t);
    OneFile(mc, disk, path, t);
    var ss := [] + FilesStatements(mc, disk, [path], t);
    assert ss == [delete, insert, record];
    assert ss[..1] == [delete] && ss[..2] == [delete] + [insert];
    NoOverlap(mc, t, doc, path);
    ExecuteOne(t, delete);
    ExecuteConcat(t, [delete], [insert]);
    ExecuteOne(t.(chunks := Without(t.chunks, path)), insert);
  }

  /**
   * A run over an edited file, stopped between its delete and its insert, leaves the file's hash without
   * its rows; if the file then goes back to its recorded bytes, no number of incremental runs puts them back.
   */
  lemma StoppedRunCanStick(mc: Machinery, disk: Disk, edited: Disk, path: Path, t: Tables, times: nat)
    requires mc.Valid() && Keyed(t) && t.state.Keys == {path} && forall c | c in t.chunks :: t.chunks[c].path == path
    requires DocAt(mc, disk, path).Some? && UpToDate(mc, disk, t, path)
    requires DocAt(mc, edited, path).Some? && !UpToDate(mc, edited, t, path)
    ensures AfterRun(mc, Run(false, edited, [path], [], 1), t) == Some(Tables(map[], t.state))
    ensures CleanListing(mc, disk, [path])
    ensures Again(mc, disk, [path], Tables(map[], t.state), times) != FullIndex(mc, disk, [path])
  {
    hide AfterRun;
    hide Again;
    hide FullIndex;
    var stopped := Tables(map[], t.state);
    assert Without(t.chunks, path) == map[];
    StoppedRun(mc, edited, path, t, DocAt(mc, edited, path).value, ShaAt(mc, edited, path));
    var doc := DocAt(mc, disk, path).value;
    assert [path][0] == path;
    if RowsStand(mc, disk, stopped, path) {
      OwnRow(mc, stopped, doc, path);
    }
    DamageIsForGood(mc, disk, [path], stopped, times);
  }

  /**
   * A first run stopped after its insert leaves rows that no record answers for. If the file then moves, the
   * rows keep its id, the moved file is refused by a path that is not there, and no number of incremental
   * runs forgets it, since a run forgets only what is recorded.
   */
  lemma StoppedRunCanOrphan(mc: Machinery, disk: Disk, moved: Disk, p: Path, q: Path, times: nat)
    requires mc.Valid() && p != q && DocAt(mc, disk, p).Some? && DocAt(mc, moved, q) == DocAt(mc, disk, p)
    ensures var t := Tables(RowsOf(mc, DocAt(mc, disk, p).value, p), map[]);
            && AfterRun(mc, Run(false, disk, [p], [], 2), EMPTY) == Some(t)
            && Reindexed(mc, moved, [q], t) == t
            && CleanListing(mc, moved, [q])
            && Again(mc, moved, [q], t, times) != FullIndex(mc, moved, [q])
  {
    hide AfterRun;
    hide Again;
    hide FullIndex;
    var doc := DocAt(mc, disk, p).value;
    var t := Tables(RowsOf(mc, doc, p), map[]);
    StoppedRun(mc, disk, p, EMPTY, doc, ShaAt(mc, disk, p));
    assert Without(map[], p) + RowsOf(mc, doc, p) == RowsOf(mc, doc, p);
    var c := ChunkId(doc.id, 0);
    assert |mc.texts(doc)| > 0 && c in t.chunks && t.chunks[c].path == p;
    assert HeldElsewhere(t, doc.id, q);
    assert Forgotten(t, [q]) == t;
    OneFile(mc, moved, q, t);
    assert [q][0] == q;
    DamageIsForGood(mc, moved, [q], t, times);
  }

  // ----- freshness

  datatype Freshness = Freshness(owners: map<Id, Path>, changed: seq<Path>, refused: seq<Path>)

  predicate Unchanged(mc: Machinery, disk: Disk, t: Tables, path: Path) {
    path in disk && disk[path].Readable? && path in t.state && t.state[path] == mc.sha(disk[path].bytes)
  }

  /** The ids the index carries for a path; an exact index carries one. */
  function IndexedIds(t: Tables, path: Path): set<Id> {
    set c | c in t.chunks && t.chunks[c].path == path :: t.chunks[c].memoryId
  }

  /** One file of the walk; `id` is what the index carries for an unchanged file, the parsed id otherwise. */
  function Looked(mc: Machinery, disk: Disk, t: Tables, f: Freshness, path: Path, id: Option<Id>): Freshness {
    var owned := id.Some? && id.value in f.owners && f.owners[id.value] != path;
    var claimed := f.(owners := if id.Some? && id.value !in f.owners then f.owners[id.value := path] else f.owners);
    if owned then claimed.(refused := f.refused + [path])
    else if !Unchanged(mc, disk, t, path) then claimed.(changed := f.changed + [path])
    else claimed
  }

  ghost predicate LooksTo(mc: Machinery, disk: Disk, t: Tables, f: Freshness, path: Path, g: Freshness) {
    if path !in disk || disk[path].Unreadable? then g == f.(refused := f.refused + [path])
    else if Unchanged(mc, disk, t, path) then
      if IndexedIds(t, path) == {} then g == Looked(mc, disk, t, f, path, None)
      else exists id :: id in IndexedIds(t, path) && g == Looked(mc, disk, t, f, path, Some(id))
    else match mc.parse(disk[path].bytes)
      case None => g == f.(refused := f.refused + [path])
      case Some(doc) => g == Looked(mc, disk, t, f, path, Some(doc.id))
  }

  /** The readings of a walk over `*.md`: one `Freshness` after each file. */
  ghost predicate Walks(mc: Machinery, disk: Disk, t: Tables, walk: seq<Path>, readings: seq<Freshness>) {
    && |readings| == |walk| + 1
    && readings[0] == Freshness(map[], [], [])
    && forall i | 0 <= i < |walk| :: LooksTo(mc, disk, t, readings[i], walk[i], readings[i + 1])
  }

  method Fresh(mc: Machinery, disk: Disk, t: Tables, walk: seq<Path>)
    returns (changed: seq<Path>, removed: set<Path>, refused: seq<Path>, ghost readings: seq<Freshness>)
    ensures Walks(mc, disk, t, walk, readings)
    ensures changed == readings[|walk|].changed && refused == readings[|walk|].refused
    ensures removed == t.state.Keys - (set p | p in walk)
  {
    var f := Freshness(map[], [], []);
    readings := [f];
    for i := 0 to |walk|
      invariant |readings| == i + 1 && readings[0] == Freshness(map[], [], []) && readings[i] == f
      invariant forall k | 0 <= k < i :: LooksTo(mc, disk, t, readings[k], walk[k], readings[k + 1])
    {
      var path := walk[i];
      if path !in disk || disk[path].Unreadable? {
        f := f.(refused := f.refused + [path]);
      } else if Unchanged(mc, disk, t, path) {
        var ids := IndexedIds(t, path);
        if ids == {} {
          f := Looked(mc, disk, t, f, path, None);
        } else {
          var id :| id in ids;
          f := Looked(mc, disk, t, f, path, Some(id));
        }
      } else {
        var parsed := mc.parse(disk[path].bytes);
        if parsed.None? {
          f := f.(refused := f.refused + [path]);
        } else {
          f := Looked(mc, disk, t, f, path, Some(parsed.value.id));
        }
      }
      readings := readings + [f];
    }
    changed, refused := f.changed, f.refused;
    removed := t.state.Keys - (set p | p in walk);
  }

  /** The id the index carries for a file with its rows is the file's own. */
  lemma CarriesOwnId(mc: Machinery, disk: Disk, t: Tables, path: Path)
    requires mc.Valid() && DocAt(mc, disk, path).Some? && RowsStand(mc, disk, t, path)
    ensures IndexedIds(t, path) == {DocAt(mc, disk, path).value.id}
  {
    var doc := DocAt(mc, disk, path).value;
    OwnRow(mc, t, doc, path);
    forall c | c in t.chunks && t.chunks[c].path == path ensures t.chunks[c].memoryId == doc.id {
      RowHasId(t, c, mc, doc, path);
    }
  }

  ghost predicate CleanSoFar(mc: Machinery, disk: Disk, t: Tables, walk: seq<Path>, i: nat, f: Freshness)
    requires CleanListing(mc, disk, walk) && i <= |walk|
  {
    && f.refused == []
    && (forall id | id in f.owners ::
          exists k :: 0 <= k < i && DocAt(mc, disk, walk[k]).value.id == id && f.owners[id] == walk[k])
    && (forall path ::
          path in f.changed <==> exists k :: 0 <= k < i && walk[k] == path && !UpToDate(mc, disk, t, walk[k]))
  }

  lemma CleanLook(mc: Machinery, disk: Disk, t: Tables, walk: seq<Path>, i: nat, f: Freshness, g: Freshness)
    requires mc.Valid() && CleanListing(mc, disk, walk) && RecordedRowsStand(mc, disk, walk, t) && i < |walk|
    requires CleanSoFar(mc, disk, t, walk, i, f) && LooksTo(mc, disk, t, f, walk[i], g)
    ensures CleanSoFar(mc, disk, t, walk, i + 1, g)
  {
    var id := DocAt(mc, disk, walk[i]).value.id;
    if UpToDate(mc, disk, t, walk[i]) {
      CarriesOwnId(mc, disk, t, walk[i]);
    }
    assert id !in f.owners;
    assert g == Looked(mc, disk, t, f, walk[i], Some(id));
    forall path
      ensures path in g.changed <==> exists k :: 0 <= k < i + 1 && walk[k] == path && !UpToDate(mc, disk, t, walk[k])
    {
      if path == walk[i] && !UpToDate(mc, disk, t, walk[i]) {
        assert path in g.changed;
      }
    }
    forall o | o in g.owners
      ensures exists k :: 0 <= k < i + 1 && DocAt(mc, disk, walk[k]).value.id == o && g.owners[o] == walk[k]
    {
      if o in f.owners {
        var k :| 0 <= k < i && DocAt(mc, disk, walk[k]).value.id == o && f.owners[o] == walk[k];
        assert g.owners[o] == walk[k];
      } else {
        assert o == id;
      }
    }
  }

  /** Over a clean walk `freshness` refuses nothing and calls changed exactly the files that are not up to date. */
  lemma {:induction false} CleanWalk(mc: Machinery, disk: Disk, t: Tables, walk: seq<Path>,
                                     readings: seq<Freshness>, i: nat)
    requires mc.Valid() && CleanListing(mc, disk, walk) && RecordedRowsStand(mc, disk, walk, t) && i <= |walk|
    requires Walks(mc, disk, t, walk, readings)
    ensures CleanSoFar(mc, disk, t, walk, i, readings[i])
  {
    hide CleanSoFar, LooksTo, RecordedRowsStand, DocAt;
    if i == 0 {
      NothingLookedAt(mc, disk, t, walk);
    } else {
      CleanWalk(mc, disk, t, walk, readings, i - 1);
      CleanLook(mc, disk, t, walk, i - 1, readings[i - 1], readings[i]);
    }
  }

  lemma NothingLookedAt(mc: Machinery, disk: Disk, t: Tables, walk: seq<Path>)
    requires CleanListing(mc, disk, walk)
    ensures CleanSoFar(mc, disk, t, walk, 0, Freshness(map[], [], []))
  {}

  ghost predicate Stale(t: Tables, walk: seq<Path>, readings: seq<Freshness>)
    requires |readings| == |walk| + 1
  {
    readings[|walk|].changed != [] || exists path :: path in t.state && path !in walk
  }

  /**
   * When nothing is archived and the next run would bring the index up to date, stale means that it would
   * change it.
   */
  lemma StaleMeansWork(mc: Machinery, disk: Disk, t: Tables, listing: seq<Path>, readings: seq<Freshness>)
    requires mc.Valid() && Keyed(t) && CleanListing(mc, disk, listing) && NoLaterHolder(mc, disk, listing, t)
    requires RecordedRowsStand(mc, disk, listing, t) && NoOrphans(listing, t)
    requires Walks(mc, disk, t, listing, readings)
    ensures Stale(t, listing, readings) <==> Reindexed(mc, disk, listing, t) != t
  {
    hide RowsStand, Reindexed, Keyed, FullIndex, LooksTo, UpToDate, NoLaterHolder;
    CleanWalk(mc, disk, t, listing, readings, |listing|);
    RepairedExactly(mc, disk, listing, t);
    FullIsComplete(mc, disk, listing);
    var full := FullIndex(mc, disk, listing);
    var changed := readings[|listing|].changed;
    if Stale(t, listing, readings) {
      if changed != [] {
        assert changed[0] in changed;
        var k :| 0 <= k < |listing| && listing[k] == changed[0] && !UpToDate(mc, disk, t, listing[k]);
        assert UpToDate(mc, disk, full, listing[k]);
      }
    } else {
      forall k | 0 <= k < |listing| ensures UpToDate(mc, disk, t, listing[k]) && RowsStand(mc, disk, t, listing[k]) {
        assert listing[k] !in changed;
      }
      CompleteIsUnique(mc, disk, listing, t, full);
    }
  }

  /**
   * The walk of `freshness` takes archived files in and the indexer leaves them out, so one archived
   * memory makes an index with nothing to do look stale, on every run.
   */
  lemma ArchivedLooksStale(mc: Machinery, disk: Disk, walk: seq<Path>, listing: seq<Path>, readings: seq<Freshness>,
                           p: Path)
    requires mc.Valid() && CleanListing(mc, disk, walk) && CleanListing(mc, disk, listing)
    requires forall path :: path in listing <==> path in walk && !IsArchived(path)
    requires p in walk && IsArchived(p)
    requires Walks(mc, disk, FullIndex(mc, disk, listing), walk, readings)
    ensures Stale(FullIndex(mc, disk, listing), walk, readings)
    ensures Reindexed(mc, disk, listing, FullIndex(mc, disk, listing)) == FullIndex(mc, disk, listing)
  {
    var t := FullIndex(mc, disk, listing);
    SecondRunIdle(mc, disk, listing);
    FullIsComplete(mc, disk, listing);
    forall k | 0 <= k < |walk| && UpToDate(mc, disk, t, walk[k]) ensures RowsStand(mc, disk, t, walk[k]) {
      var i :| 0 <= i < |listing| && listing[i] == walk[k];
      assert RowsStand(mc, disk, t, listing[i]);
    }
    CleanWalk(mc, disk, t, walk, readings, |walk|);
    var k :| 0 <= k < |walk| && walk[k] == p;
    assert !UpToDate(mc, disk, t, walk[k]);
    assert p in readings[|walk|].changed;
  }

  /** A listed file is not as recorded, or a recorded one is gone from the walk. */
  ghost predicate Behind(mc: Machinery, disk: Disk, t: Tables, walk: seq<Path>, listing: seq<Path>)
    requires CleanListing(mc, disk, listing)
  {
    || (exists k :: 0 <= k < |listing| && !UpToDate(mc, disk, t, listing[k]))
    || (exists path :: path in t.state && path !in walk)
  }

  /** An archived file of the walk is not as recorded, which is how `freshness` sees one the indexer leaves out. */
  ghost predicate ArchivedUnrecorded(mc: Machinery, disk: Disk, t: Tables, walk: seq<Path>)
    requires CleanListing(mc, disk, walk)
  {
    exists k :: 0 <= k < |walk| && IsArchived(walk[k]) && !UpToDate(mc, disk, t, walk[k])
  }

  /** An archived file of the walk is recorded, so that the next run forgets it. */
  ghost predicate ArchivedRecorded(t: Tables, walk: seq<Path>) {
    exists path :: path in walk && IsArchived(path) && path in t.state
  }

  /** The indexer's listing is the walk of `freshness` without its archived files. */
  ghost predicate ListsLive(walk: seq<Path>, listing: seq<Path>) {
    forall path :: path in listing <==> path in walk && !IsArchived(path)
  }

  /**
   * What `freshness` calls stale and what a run would change, exactly. They part only over archived files: one
   * that is not as recorded looks stale without work to do, and one that is recorded is work that may not show.
   */
  lemma FreshnessExact(mc: Machinery, disk: Disk, t: Tables, walk: seq<Path>, listing: seq<Path>,
                       readings: seq<Freshness>)
    requires mc.Valid() && Keyed(t) && CleanListing(mc, disk, walk) && CleanListing(mc, disk, listing)
    requires ListsLive(walk, listing) && Walks(mc, disk, t, walk, readings)
    requires RecordedRowsStand(mc, disk, walk, t) && NoOrphans(listing, t) && NoLaterHolder(mc, disk, listing, t)
    ensures Stale(t, walk, readings) <==> Behind(mc, disk, t, walk, listing) || ArchivedUnrecorded(mc, disk, t, walk)
    ensures Reindexed(mc, disk, listing, t) != t <==> Behind(mc, disk, t, walk, listing) || ArchivedRecorded(t, walk)
  {
    StaleExactly(mc, disk, t, walk, listing, readings);
    WorkExactly(mc, disk, t, walk, listing);
  }

  lemma StaleExactly(mc: Machinery, disk: Disk, t: Tables, walk: seq<Path>, listing: seq<Path>,
                     readings: seq<Freshness>)
    requires mc.Valid() && CleanListing(mc, disk, walk) && CleanListing(mc, disk, listing)
    requires ListsLive(walk, listing) && Walks(mc, disk, t, walk, readings) && RecordedRowsStand(mc, disk, walk, t)
    ensures Stale(t, walk, readings) <==> Behind(mc, disk, t, walk, listing) || ArchivedUnrecorded(mc, disk, t, walk)
  {
    hide IsArchived, UpToDate, RowsStand, LooksTo;
    CleanWalk(mc, disk, t, walk, readings, |walk|);
    var changed := readings[|walk|].changed;
    if changed != [] {
      assert changed[0] in changed;
      var k :| 0 <= k < |walk| && walk[k] == changed[0] && !UpToDate(mc, disk, t, walk[k]);
      if !IsArchived(walk[k]) {
        var i :| 0 <= i < |listing| && listing[i] == walk[k];
        assert !UpToDate(mc, disk, t, listing[i]);
      }
    }
    if i :| 0 <= i < |listing| && !UpToDate(mc, disk, t, listing[i]) {
      assert listing[i] in listing;
      var k :| 0 <= k < |walk| && walk[k] == listing[i];
      assert listing[i] in changed;
    }
    if k :| 0 <= k < |walk| && IsArchived(walk[k]) && !UpToDate(mc, disk, t, walk[k]) {
      assert walk[k] in changed;
    }
  }

  lemma WorkExactly(mc: Machinery, disk: Disk, t: Tables, walk: seq<Path>, listing: seq<Path>)
    requires mc.Valid() && Keyed(t) && CleanListing(mc, disk, walk) && CleanListing(mc, disk, listing)
    requires ListsLive(walk, listing) && RecordedRowsStand(mc, disk, walk, t)
    requires NoOrphans(listing, t) && NoLaterHolder(mc, disk, listing, t)
    ensures Reindexed(mc, disk, listing, t) != t <==> Behind(mc, disk, t, walk, listing) || ArchivedRecorded(t, walk)
  {
    hide IsArchived, UpToDate, RowsStand, Reindexed, FullIndex, Keyed, NoLaterHolder;
    forall k | 0 <= k < |listing| && UpToDate(mc, disk, t, listing[k]) ensures RowsStand(mc, disk, t, listing[k]) {
      assert listing[k] in listing;
      var i :| 0 <= i < |walk| && walk[i] == listing[k];
      assert RowsStand(mc, disk, t, walk[i]);
    }
    RepairedExactly(mc, disk, listing, t);
    FullIsComplete(mc, disk, listing);
    if Behind(mc, disk, t, walk, listing) || ArchivedRecorded(t, walk) {
      assert !Complete(mc, disk, listing, t);
    } else {
      forall path | path in t.state ensures path in listing {
        assert path in walk;
      }
      CompleteIsUnique(mc, disk, listing, t, FullIndex(mc, disk, listing));
    }
  }
}
