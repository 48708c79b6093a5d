/** What a full rebuild holds, told from the files (siatt/memory/index.py). */
module IndexContents {
  import opened Document
  import opened Index
  import opened IndexRuns
  import opened Layout
  import opened Wrappers

  /** At `k` of the listing there is a readable file that parses, and none before it has its id. */
  ghost predicate ClaimsAt(mc: Machinery, disk: Disk, listing: seq<Path>, k: int) {
    && 0 <= k < |listing| && DocAt(mc, disk, listing[k]).Some?
    && forall j | 0 <= j < k && DocAt(mc, disk, listing[j]).Some? ::
         DocAt(mc, disk, listing[j]).value.id != DocAt(mc, disk, listing[k]).value.id
  }

  /** The file is the first of the listing with its id. */
  ghost predicate Claims(mc: Machinery, disk: Disk, listing: seq<Path>, p: Path) {
    DocAt(mc, disk, p).Some? && exists k :: ClaimsAt(mc, disk, listing, k) && listing[k] == p
  }

  /** A chunk as the search reads it: whose it is, where it is from, its text, and what ranks and hides it. */
  ghost predicate IsChunk(mc: Machinery, doc: Doc, path: Path, c: ChunkId, row: Row) {
    && c.memoryId == doc.id == row.memoryId && c.ordinal == row.ordinal < |mc.texts(doc)|
    && row.text == mc.texts(doc)[c.ordinal] && row.path == path
    && row.scope == doc.visibility && row.salience == doc.salience && row.pinned == doc.pinned
    && row.updated == doc.updated
  }

  /** The rows are the chunks of the files that claim their ids, and their hashes are recorded, and nothing else is. */
  ghost predicate Holds(mc: Machinery, disk: Disk, listing: seq<Path>, t: Tables) {
    && (forall c | c in t.chunks ::
          var p := t.chunks[c].path;
          Claims(mc, disk, listing, p) && IsChunk(mc, DocAt(mc, disk, p).value, p, c, t.chunks[c]))
    && (forall p, n: nat | Claims(mc, disk, listing, p) && n < |mc.texts(DocAt(mc, disk, p).value)| ::
          ChunkId(DocAt(mc, disk, p).value.id, n) in t.chunks)
    && (forall p :: p in t.state <==> Claims(mc, disk, listing, p))
    && (forall p | p in t.state :: t.state[p] == ShaAt(mc, disk, p))
  }

  /** Some file claims the id of any file that parses. */
  lemma {:induction false} FirstClaimant(mc: Machinery, disk: Disk, listing: seq<Path>, j: int) returns (k: int)
    requires 0 <= j < |listing| && DocAt(mc, disk, listing[j]).Some?
    ensures k <= j && ClaimsAt(mc, disk, listing, k)
    ensures DocAt(mc, disk, listing[k]).value.id == DocAt(mc, disk, listing[j]).value.id
  {
    hide DocAt;
    if ClaimsAt(mc, disk, listing, j) {
      k := j;
    } else {
      var i :| && 0 <= i < j && DocAt(mc, disk, listing[i]).Some?
               && DocAt(mc, disk, listing[i]).value.id == DocAt(mc, disk, listing[j]).value.id;
      k := FirstClaimant(mc, disk, listing, i);
    }
  }

  /** Whether one more file claims its id. */
  ghost predicate ClaimsLast(mc: Machinery, disk: Disk, init: seq<Path>, last: Path) {
    && DocAt(mc, disk, last).Some?
    && forall j | 0 <= j < |init| && DocAt(mc, disk, init[j]).Some? ::
         DocAt(mc, disk, init[j]).value.id != DocAt(mc, disk, last).value.id
  }

  lemma ClaimsOn(mc: Machinery, disk: Disk, init: seq<Path>, last: Path, p: Path)
    requires last !in init
    ensures Claims(mc, disk, init + [last], p)
       <==> Claims(mc, disk, init, p) || (p == last && ClaimsLast(mc, disk, init, last))
    ensures Claims(mc, disk, init, p) ==> p in init && DocAt(mc, disk, p).Some?
  {
    hide DocAt;
    var all := init + [last];
    forall k | 0 <= k < |init| ensures ClaimsAt(mc, disk, all, k) <==> ClaimsAt(mc, disk, init, k) {
      assert forall j | 0 <= j <= k :: all[j] == init[j];
    }
    assert all[|init|] == last;
    assert ClaimsAt(mc, disk, all, |init|) <==> ClaimsLast(mc, disk, init, last) by {
      assert forall j | 0 <= j < |init| :: all[j] == init[j];
    }
    if Claims(mc, disk, all, p) {
      var k :| ClaimsAt(mc, disk, all, k) && all[k] == p;
      assert k < |init| ==> init[k] == p;
    }
    if Claims(mc, disk, init, p) {
      var k :| ClaimsAt(mc, disk, init, k) && init[k] == p;
      assert all[k] == p;
    }
  }

  /** The id of a file is held under another path exactly when an earlier file claims it. */
  lemma HeldMeansClaimed(mc: Machinery, disk: Disk, init: seq<Path>, last: Path, t: Tables)
    requires mc.Valid() && Holds(mc, disk, init, t) && last !in init && DocAt(mc, disk, last).Some?
    ensures HeldElsewhere(t, DocAt(mc, disk, last).value.id, last) <==> !ClaimsLast(mc, disk, init, last)
  {
    hide DocAt;
    var id := DocAt(mc, disk, last).value.id;
    if HeldElsewhere(t, id, last) {
      var c :| c in t.chunks && t.chunks[c].memoryId == id && t.chunks[c].path != last;
      var k :| ClaimsAt(mc, disk, init, k) && init[k] == t.chunks[c].path;
    }
    if !ClaimsLast(mc, disk, init, last) {
      var j :| 0 <= j < |init| && DocAt(mc, disk, init[j]).Some? && DocAt(mc, disk, init[j]).value.id == id;
      var k := FirstClaimant(mc, disk, init, j);
      assert Claims(mc, disk, init, init[k]);
      var doc := DocAt(mc, disk, init[k]).value;
      assert mc.texts(doc) != [];
      var c := ChunkId(doc.id, 0);
      assert c in t.chunks;
      ClaimsOn(mc, disk, init, last, t.chunks[c].path);
    }
  }

  lemma RowsAreChunks(mc: Machinery, doc: Doc, path: Path, c: ChunkId)
    ensures c in RowsOf(mc, doc, path) <==> c.memoryId == doc.id && c.ordinal < |mc.texts(doc)|
    ensures c in RowsOf(mc, doc, path) ==> IsChunk(mc, doc, path, c, RowsOf(mc, doc, path)[c])
  {
    if c.memoryId == doc.id && c.ordinal < |mc.texts(doc)| {
      assert c == ChunkId(doc.id, c.ordinal);
    }
  }

  /** Adding a file that claims its id: its chunks join the rest. */
  lemma Claimed(mc: Machinery, disk: Disk, init: seq<Path>, last: Path, t: Tables)
    requires Holds(mc, disk, init, t) && last !in init && ClaimsLast(mc, disk, init, last)
    ensures var doc := DocAt(mc, disk, last).value;
            Holds(mc, disk, init + [last],
                  Tables(Without(t.chunks, last) + RowsOf(mc, doc, last), t.state[last := ShaAt(mc, disk, last)]))
  {
    assert DocAt(mc, disk, last).Some?;
    hide DocAt, RowsOf, ShaAt, Claims, ClaimsLast;
    var doc, all := DocAt(mc, disk, last).value, init + [last];
    var s := Tables(Without(t.chunks, last) + RowsOf(mc, doc, last), t.state[last := ShaAt(mc, disk, last)]);
    forall p ensures Claims(mc, disk, all, p) <==> Claims(mc, disk, init, p) || p == last
             ensures Claims(mc, disk, all, p) ==> DocAt(mc, disk, p).Some?
    {
      ClaimsOn(mc, disk, init, last, p);
    }
    forall c | c in s.chunks
      ensures Claims(mc, disk, all, s.chunks[c].path)
      ensures IsChunk(mc, DocAt(mc, disk, s.chunks[c].path).value, s.chunks[c].path, c, s.chunks[c])
    {
      RowsAreChunks(mc, doc, last, c);
    }
    forall p, n: nat | Claims(mc, disk, all, p) && n < |mc.texts(DocAt(mc, disk, p).value)|
      ensures ChunkId(DocAt(mc, disk, p).value.id, n) in s.chunks
    {
      var c := ChunkId(DocAt(mc, disk, p).value.id, n);
      RowsAreChunks(mc, doc, last, c);
      if p != last {
        assert c in t.chunks;
        ClaimsOn(mc, disk, init, last, t.chunks[c].path);
      }
    }
  }

  /** Adding a file that does not claim its id changes nothing. */
  lemma Unclaimed(mc: Machinery, disk: Disk, init: seq<Path>, last: Path, t: Tables)
    requires Holds(mc, disk, init, t) && last !in init && !ClaimsLast(mc, disk, init, last)
    ensures Holds(mc, disk, init + [last], t)
  {
    hide DocAt, IsChunk, Claims, ShaAt;
    forall p ensures Claims(mc, disk, init + [last], p) <==> Claims(mc, disk, init, p) {
      ClaimsOn(mc, disk, init, last, p);
    }
  }

  lemma {:induction false} StepsHold(mc: Machinery, disk: Disk, listing: seq<Path>)
    requires mc.Valid() && forall i, j | 0 <= i < j < |listing| :: listing[i] != listing[j]
    ensures Holds(mc, disk, listing, Steps(mc, disk, listing, EMPTY))
  {
    hide Holds, HeldElsewhere, ClaimsLast, RowsOf, Without;
    if listing == [] {
      NothingHeld(mc, disk);
    } else {
      var init, last := listing[..|listing| - 1], listing[|listing| - 1];
      var t := Steps(mc, disk, init, EMPTY);
      StepsHold(mc, disk, init);
      assert listing == init + [last];
      assert last !in init;
      NotRecorded(mc, disk, init, last, t);
      if DocAt(mc, disk, last).Some? {
        HeldMeansClaimed(mc, disk, init, last, t);
      }
      if DocAt(mc, disk, last).Some? && ClaimsLast(mc, disk, init, last) {
        Claimed(mc, disk, init, last, t);
      } else {
        NotClaimed(mc, disk, init, last);
        Unclaimed(mc, disk, init, last, t);
      }
    }
  }

  lemma NotClaimed(mc: Machinery, disk: Disk, init: seq<Path>, last: Path)
    ensures DocAt(mc, disk, last).None? ==> !ClaimsLast(mc, disk, init, last)
  {}

  lemma NothingHeld(mc: Machinery, disk: Disk)
    ensures Holds(mc, disk, [], EMPTY)
  {}

  lemma NotRecorded(mc: Machinery, disk: Disk, init: seq<Path>, last: Path, t: Tables)
    requires Holds(mc, disk, init, t) && last !in init
    ensures last !in t.state
  {
    hide DocAt, IsChunk;
    hide Claims;
    forall p | p in t.state ensures p in init {
      ClaimsOn(mc, disk, init, last, p);
    }
  }

  /**
   * A full rebuild holds, for the first listed file of each id, a row for every one of its chunks, with the fields
   * the search reads taken from the document, and the file's hash; and it holds nothing else.
   */
  lemma FullIndexHolds(mc: Machinery, disk: Disk, listing: seq<Path>)
    requires mc.Valid() && forall i, j | 0 <= i < j < |listing| :: listing[i] != listing[j]
    ensures Holds(mc, disk, listing, Reindexed(mc, disk, listing, EMPTY))
  {
    hide Holds, Steps;
    assert Forgotten(EMPTY, listing) == EMPTY;
    StepsHold(mc, disk, listing);
  }

  // ----- what a full run reports, and what freshness foresees

  /** The files of the listing that claim their ids, and the others. */
  ghost function Claimants(mc: Machinery, disk: Disk, listing: seq<Path>): seq<Path> {
    if listing == [] then []
    else
      var init, last := listing[..|listing| - 1], listing[|listing| - 1];
      Claimants(mc, disk, init) + if ClaimsLast(mc, disk, init, last) then [last] else []
  }

  ghost function Others(mc: Machinery, disk: Disk, listing: seq<Path>): seq<Path> {
    if listing == [] then []
    else
      var init, last := listing[..|listing| - 1], listing[|listing| - 1];
      Others(mc, disk, init) + if ClaimsLast(mc, disk, init, last) then [] else [last]
  }

  lemma JudgedFresh(mc: Machinery, disk: Disk, init: seq<Path>, last: Path, t: Tables)
    requires mc.Valid() && Holds(mc, disk, init, t) && last !in init
    ensures Judge(mc, disk, t, last).Indexes? <==> ClaimsLast(mc, disk, init, last)
    ensures !Judge(mc, disk, t, last).Skipped?
  {
    hide Holds, HeldElsewhere, ClaimsLast;
    NotRecorded(mc, disk, init, last, t);
    NotClaimed(mc, disk, init, last);
    if DocAt(mc, disk, last).Some? {
      HeldMeansClaimed(mc, disk, init, last, t);
    }
  }

  /** A full run reports the files that claim their ids as indexed, and every other as a problem. */
  lemma {:induction false} FullRunReports(mc: Machinery, disk: Disk, listing: seq<Path>)
    requires mc.Valid() && forall i, j | 0 <= i < j < |listing| :: listing[i] != listing[j]
    ensures ReportOf(mc, disk, listing, EMPTY)
         == Report(Claimants(mc, disk, listing), [], Others(mc, disk, listing))
  {
    hide Holds, ClaimsLast, Steps, Judge;
    if listing != [] {
      var init, last := listing[..|listing| - 1], listing[|listing| - 1];
      FullRunReports(mc, disk, init);
      StepsHold(mc, disk, init);
      assert last !in init;
      JudgedFresh(mc, disk, init, last, Steps(mc, disk, init, EMPTY));
    }
  }

  /** The ids that earlier files of the walk have. */
  ghost predicate OwnersAre(mc: Machinery, disk: Disk, init: seq<Path>, owners: map<Id, Path>) {
    && (forall id | id in owners :: owners[id] in init)
    && (forall id :: id in owners <==> Seen(mc, disk, init, id))
  }

  ghost predicate Seen(mc: Machinery, disk: Disk, init: seq<Path>, id: Id) {
    exists j :: 0 <= j < |init| && HasId(mc, disk, init[j], id)
  }

  lemma SeenOn(mc: Machinery, disk: Disk, init: seq<Path>, last: Path, id: Id)
    ensures Seen(mc, disk, init + [last], id) <==> Seen(mc, disk, init, id) || HasId(mc, disk, last, id)
  {
    hide HasId;
    var all := init + [last];
    assert all[|init|] == last;
    if j :| 0 <= j < |init| && HasId(mc, disk, init[j], id) {
      assert all[j] == init[j];
    }
  }

  ghost predicate HasId(mc: Machinery, disk: Disk, path: Path, id: Id) {
    DocAt(mc, disk, path).Some? && DocAt(mc, disk, path).value.id == id
  }

  lemma OwnersOn(mc: Machinery, disk: Disk, init: seq<Path>, last: Path, owners: map<Id, Path>)
    requires OwnersAre(mc, disk, init, owners)
    ensures DocAt(mc, disk, last).None? ==> OwnersAre(mc, disk, init + [last], owners)
    ensures DocAt(mc, disk, last).Some? ==>
              var id := DocAt(mc, disk, last).value.id;
              && OwnersAre(mc, disk, init + [last], if id in owners then owners else owners[id := last])
              && (id in owners <==> !ClaimsLast(mc, disk, init, last))
  {
    hide DocAt;
    forall id ensures Seen(mc, disk, init + [last], id) <==> Seen(mc, disk, init, id) || HasId(mc, disk, last, id) {
      SeenOn(mc, disk, init, last, id);
    }
    assert forall p | p in init :: p in init + [last];
    if DocAt(mc, disk, last).Some? {
      var id := DocAt(mc, disk, last).value.id;
      assert ClaimsLast(mc, disk, init, last) <==> forall j | 0 <= j < |init| :: !HasId(mc, disk, init[j], id);
    }
  }

  lemma FreshLook(mc: Machinery, disk: Disk, init: seq<Path>, last: Path, f: Freshness, g: Freshness)
    requires last !in init && OwnersAre(mc, disk, init, f.owners) && LooksTo(mc, disk, EMPTY, f, last, g)
    ensures OwnersAre(mc, disk, init + [last], g.owners)
    ensures g.changed == f.changed + if ClaimsLast(mc, disk, init, last) then [last] else []
    ensures g.refused == f.refused + if ClaimsLast(mc, disk, init, last) then [] else [last]
  {
    OwnersOn(mc, disk, init, last, f.owners);
    NotClaimed(mc, disk, init, last);
    hide ClaimsLast, OwnersAre;
    if DocAt(mc, disk, last).Some? {
      OwnerIsEarlier(mc, disk, init, f.owners, DocAt(mc, disk, last).value.id);
    }
  }

  lemma OwnerIsEarlier(mc: Machinery, disk: Disk, init: seq<Path>, owners: map<Id, Path>, id: Id)
    requires OwnersAre(mc, disk, init, owners)
    ensures id in owners ==> owners[id] in init
  {}

  /** Against an empty index, what `freshness` calls changed is what a full run indexes, and what it calls refused is
      what that run reports. */
  lemma {:induction false} FreshForesees(mc: Machinery, disk: Disk, listing: seq<Path>, readings: seq<Freshness>,
                                         n: nat)
    requires mc.Valid() && forall i, j | 0 <= i < j < |listing| :: listing[i] != listing[j]
    requires Walks(mc, disk, EMPTY, listing, readings) && n <= |listing|
    ensures OwnersAre(mc, disk, listing[..n], readings[n].owners)
    ensures readings[n].changed == ReportOf(mc, disk, listing[..n], EMPTY).indexed
    ensures readings[n].refused == ReportOf(mc, disk, listing[..n], EMPTY).problems
  {
    hide LooksTo, OwnersAre, ClaimsLast, ReportOf;
    FullRunReports(mc, disk, listing[..n]);
    if n == 0 {
      NoOwners(mc, disk);
    } else {
      FreshForesees(mc, disk, listing, readings, n - 1);
      FullRunReports(mc, disk, listing[..n - 1]);
      var init, last := listing[..n - 1], listing[n - 1];
      assert listing[..n] == init + [last] && listing[..n][..n - 1] == init;
      FreshLook(mc, disk, init, last, readings[n - 1], readings[n]);
    }
  }

  lemma NoOwners(mc: Machinery, disk: Disk)
    ensures OwnersAre(mc, disk, [], map[])
  {}

  // ----- any run accounts for every file, and a second one finds nothing to do

  /** Each of the files is reported, as one thing. */
  ghost predicate Accounts(r: Report, files: seq<Path>) {
    multiset(r.indexed) + multiset(r.skipped) + multiset(r.problems) == multiset(files)
  }

  lemma OneMoreReported(r: Report, files: seq<Path>, x: Path)
    requires Accounts(r, files)
    ensures Accounts(r.(indexed := r.indexed + [x]), files + [x])
    ensures Accounts(r.(skipped := r.skipped + [x]), files + [x])
    ensures Accounts(r.(problems := r.problems + [x]), files + [x])
  {}

  lemma NothingReported()
    ensures Accounts(Report([], [], []), [])
  {}

  /** Every listed file is reported once: indexed, skipped or a problem. */
  lemma {:induction false} ReportAccounts(mc: Machinery, disk: Disk, listing: seq<Path>, t: Tables)
    ensures Accounts(ReportOf(mc, disk, listing, t), listing)
  {
    hide Judge, Steps, Accounts;
    if listing == [] {
      NothingReported();
    } else {
      var init, last := listing[..|listing| - 1], listing[|listing| - 1];
      ReportAccounts(mc, disk, init, t);
      OneMoreReported(ReportOf(mc, disk, init, t), init, last);
      assert listing == init + [last];
    }
  }

  /** A file of a full index is skipped if it claims its id, and otherwise refused again. */
  lemma JudgedAgain(mc: Machinery, disk: Disk, listing: seq<Path>, t: Tables, k: nat)
    requires mc.Valid() && Holds(mc, disk, listing, t) && k < |listing|
    requires forall i, j | 0 <= i < j < |listing| :: listing[i] != listing[j]
    ensures Judge(mc, disk, t, listing[k]).Skipped? <==> ClaimsLast(mc, disk, listing[..k], listing[k])
    ensures !Judge(mc, disk, t, listing[k]).Indexes?
  {
    var p := listing[k];
    assert Claims(mc, disk, listing, p) <==> ClaimsLast(mc, disk, listing[..k], p) by {
      ClaimsInPlace(mc, disk, listing, k);
    }
    hide Claims, ClaimsLast;
    if DocAt(mc, disk, p).Some? && !Claims(mc, disk, listing, p) {
      var j := FirstClaimant(mc, disk, listing, k);
      HeldByClaimant(mc, disk, listing, t, j, p);
    }
    if Claims(mc, disk, listing, p) {
      assert p in t.state && t.state[p] == ShaAt(mc, disk, p);
    }
  }

  lemma ClaimsInPlace(mc: Machinery, disk: Disk, listing: seq<Path>, k: nat)
    requires k < |listing| && forall i, j | 0 <= i < j < |listing| :: listing[i] != listing[j]
    ensures Claims(mc, disk, listing, listing[k]) <==> ClaimsLast(mc, disk, listing[..k], listing[k])
  {
    hide DocAt;
    var init := listing[..k];
    assert forall j | 0 <= j < k :: init[j] == listing[j];
    assert ClaimsAt(mc, disk, listing, k) <==> ClaimsLast(mc, disk, init, listing[k]);
  }

  lemma HeldByClaimant(mc: Machinery, disk: Disk, listing: seq<Path>, t: Tables, j: int, p: Path)
    requires mc.Valid() && Holds(mc, disk, listing, t) && ClaimsAt(mc, disk, listing, j)
    requires DocAt(mc, disk, p).Some? && DocAt(mc, disk, p).value.id == DocAt(mc, disk, listing[j]).value.id
    requires !Claims(mc, disk, listing, p)
    ensures HeldElsewhere(t, DocAt(mc, disk, p).value.id, p)
  {
    hide DocAt;
    assert Claims(mc, disk, listing, listing[j]);
    var doc := DocAt(mc, disk, listing[j]).value;
    assert mc.texts(doc) != [];
    var c := ChunkId(doc.id, 0);
    assert c in t.chunks;
    assert Claims(mc, disk, listing, t.chunks[c].path);
  }

  lemma {:induction false} StepsIdle(mc: Machinery, disk: Disk, listing: seq<Path>, t: Tables, n: nat)
    requires mc.Valid() && Holds(mc, disk, listing, t) && n <= |listing|
    requires forall i, j | 0 <= i < j < |listing| :: listing[i] != listing[j]
    ensures Steps(mc, disk, listing[..n], t) == t
    ensures ReportOf(mc, disk, listing[..n], t)
         == Report([], Claimants(mc, disk, listing[..n]), Others(mc, disk, listing[..n]))
  {
    hide Holds, ClaimsLast, Judge;
    if n > 0 {
      StepsIdle(mc, disk, listing, t, n - 1);
      assert listing[..n][..n - 1] == listing[..n - 1];
      JudgedAgain(mc, disk, listing, t, n - 1);
    }
  }

  /**
   * Whatever is listed, unreadable files and shared ids included, a run over a full index changes nothing, skips every
   * file that is in it, and reports the same problems.
   */
  lemma SecondRunReports(mc: Machinery, disk: Disk, listing: seq<Path>)
    requires mc.Valid() && forall i, j | 0 <= i < j < |listing| :: listing[i] != listing[j]
    ensures var t := Reindexed(mc, disk, listing, EMPTY);
            && Reindexed(mc, disk, listing, t) == t
            && ReportOf(mc, disk, listing, t) == Report([], Claimants(mc, disk, listing), Others(mc, disk, listing))
  {
    hide Holds, Steps, ReportOf, Claims;
    var t := Reindexed(mc, disk, listing, EMPTY);
    FullIndexHolds(mc, disk, listing);
    StepsIdle(mc, disk, listing, t, |listing|);
    assert listing[..|listing|] == listing;
    NothingGone(mc, disk, listing, t);
  }

  lemma NothingGone(mc: Machinery, disk: Disk, listing: seq<Path>, t: Tables)
    requires Holds(mc, disk, listing, t)
    ensures Forgotten(t, listing) == t
  {
    hide DocAt, IsChunk;
    forall p | Claims(mc, disk, listing, p) ensures p in listing {
      var k :| ClaimsAt(mc, disk, listing, k) && listing[k] == p;
    }
    assert Forgotten(t, listing).state == t.state;
    assert Forgotten(t, listing).chunks == t.chunks;
  }

  // ----- a whole run, statement by statement

  /**
   * Why a file whose id is held elsewhere is refused: replacing its chunks would fail, and only then, on a chunk that
   * another path has under the same number.
   */
  lemma ReplaceFailsExactly(mc: Machinery, t: Tables, doc: Doc, path: Path)
    requires Keyed(t)
    ensures ExecuteAll(t, [DeleteChunks(path), InsertChunks(RowsOf(mc, doc, path))]).None?
       <==> exists c :: && c in t.chunks && t.chunks[c].memoryId == doc.id && t.chunks[c].path != path
                        && c.ordinal < |mc.texts(doc)|
  {
    hide RowsOf;
    var delete, insert := DeleteChunks(path), InsertChunks(RowsOf(mc, doc, path));
    var cleared := t.(chunks := Without(t.chunks, path));
    assert [delete, insert] == [delete] + [insert];
    ExecuteOne(t, delete);
    ExecuteConcat(t, [delete], [insert]);
    ExecuteOne(cleared, insert);
    hide ExecuteAll;
    var left, rows := cleared.chunks.Keys, RowsOf(mc, doc, path).Keys;
    assert ExecuteAll(t, [delete, insert]).None? <==> !(left !! rows);
    forall c ensures c in rows <==> c.memoryId == doc.id && c.ordinal < |mc.texts(doc)| {
      RowsAreChunks(mc, doc, path, c);
    }
    forall c | c in t.chunks ensures c.memoryId == t.chunks[c].memoryId {}
    assert forall c :: c in left <==> c in t.chunks && t.chunks[c].path != path;
    if c :| c in t.chunks && t.chunks[c].memoryId == doc.id && t.chunks[c].path != path && c.ordinal < |mc.texts(doc)| {
      assert c in left && c in rows;
    }
    SomethingShared(left, rows);
  }

  lemma SomethingShared(a: set<ChunkId>, b: set<ChunkId>)
    ensures !(a !! b) ==> exists c :: c in a && c in b
  {
    if forall c | c in a :: c !in b {
      assert a !! b;
    }
  }

  function PathsIn(gone: seq<Path>): set<Path> {
    set p | p in gone
  }

  lemma ForgetOne(t: Tables, p: Path)
    ensures ExecuteAll(t, ForgetStatements(p)) == Some(Dropped(t, {p}))
  {
    var ss := ForgetStatements(p);
    assert ss == [ss[0]] + [ss[1]];
    ExecuteOne(t, ss[0]);
    ExecuteConcat(t, [ss[0]], [ss[1]]);
    ExecuteOne(Execute(t, ss[0]).value, ss[1]);
    assert Without(t.chunks, p) == Dropped(t, {p}).chunks;
    assert t.state - {p} == Dropped(t, {p}).state;
  }

  lemma {:induction false} ForgettingDrops(t: Tables, gone: seq<Path>)
    ensures ExecuteAll(t, ForgetAll(gone)) == Some(Dropped(t, PathsIn(gone)))
  {
    hide ForgetStatements;
    if gone == [] {
      assert ForgetAll([]) == [] && PathsIn([]) == {};
      assert Dropped(t, {}).chunks == t.chunks && Dropped(t, {}).state == t.state;
    } else {
      var init, last := gone[..|gone| - 1], gone[|gone| - 1];
      ForgettingDrops(t, init);
      ExecuteConcat(t, ForgetAll(init), ForgetStatements(last));
      ForgetOne(Dropped(t, PathsIn(init)), last);
      DroppedMore(t, PathsIn(init), last);
      assert gone == init + [last];
      assert PathsIn(gone) == PathsIn(init) + {last};
    }
  }

  /** What an incremental run forgets: the recorded paths that are not listed any more. */
  ghost predicate ListsGone(gone: seq<Path>, t: Tables, listing: seq<Path>) {
    forall p :: p in gone <==> p in t.state && p !in listing
  }

  lemma GoneAreForgotten(gone: seq<Path>, t: Tables, listing: seq<Path>)
    requires ListsGone(gone, t, listing)
    ensures Dropped(t, PathsIn(gone)) == Forgotten(t, listing)
  {
    assert Dropped(t, PathsIn(gone)).chunks == Forgotten(t, listing).chunks;
    assert Dropped(t, PathsIn(gone)).state == Forgotten(t, listing).state;
  }

  lemma ClearsAll(t: Tables)
    ensures ExecuteAll(t, [ClearChunks, ClearState]) == Some(EMPTY)
  {
    assert [ClearChunks, ClearState] == [ClearChunks] + [ClearState];
    ExecuteOne(t, ClearChunks);
    ExecuteConcat(t, [ClearChunks], [ClearState]);
    ExecuteOne(t.(chunks := map[]), ClearState);
  }

  lemma OpeningForgets(full: bool, gone: seq<Path>, t: Tables, listing: seq<Path>)
    requires ListsGone(gone, if full then EMPTY else t, listing)
    ensures ExecuteAll(t, Opening(full, gone)) == Some(Forgotten(if full then EMPTY else t, listing))
  {
    hide ExecuteAll, ForgetAll;
    var begun := if full then EMPTY else t;
    ForgettingDrops(begun, gone);
    GoneAreForgotten(gone, begun, listing);
    if full {
      ClearsAll(t);
      ExecuteConcat(t, [ClearChunks, ClearState], ForgetAll(gone));
    } else {
      assert [] + ForgetAll(gone) == ForgetAll(gone);
    }
  }

  /** Run to its end, a full or an incremental run leaves, statement by statement, what `Reindexed` says. */
  lemma WholeRunReaches(mc: Machinery, run: Run, t: Tables)
    requires Keyed(t) && run.stop >= |RunStatements(mc, run, t)|
    requires ListsGone(run.gone, if run.full then EMPTY else t, run.listing)
    ensures AfterRun(mc, run, t) == Some(Reindexed(mc, run.disk, run.listing, if run.full then EMPTY else t))
  {
    hide ExecuteAll, FilesStatements, Opening, Keyed, Steps, Forgotten;
    var begun := if run.full then EMPTY else t;
    OpeningForgets(run.full, run.gone, t, run.listing);
    var start := Forgotten(begun, run.listing);
    assert Keyed(start) by {
      NothingKeyed();
      ForgottenIsKeyed(begun, run.listing);
    }
    var opening, files := Opening(run.full, run.gone), FilesStatements(mc, run.disk, run.listing, start);
    assert RunStatements(mc, run, t) == opening + files;
    FilesRun(mc, run.disk, run.listing, start, |files|);
    assert files[..|files|] == files && (opening + files)[..|opening + files|] == opening + files;
    ExecuteConcat(t, opening, files);
    assert run.stop > |opening + files| || (opening + files)[..run.stop] == opening + files;
  }

  lemma NothingKeyed()
    ensures Keyed(EMPTY)
  {}
}
