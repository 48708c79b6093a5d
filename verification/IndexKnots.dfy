/** Which files keep each other out of the index however often it runs (siatt/memory/index.py). */
module IndexKnots {
  import opened Document
  import opened Index
  import opened IndexRuns
  import opened Layout
  import opened Wrappers

  /** Some row filed under path `at` belongs to a memory. */
  ghost predicate HoldsRow(t: Tables, at: Path, id: Id) {
    exists c :: c in t.chunks && t.chunks[c].path == at && t.chunks[c].memoryId == id
  }

  /** A listed file that parses, is not up to date, and whose id is held under another path of the set. */
  ghost predicate Tied(mc: Machinery, disk: Disk, t: Tables, knot: set<Path>, path: Path) {
    && DocAt(mc, disk, path).Some? && !UpToDate(mc, disk, t, path)
    && exists other :: other in knot && other != path && HoldsRow(t, other, DocAt(mc, disk, path).value.id)
  }

  /** Listed files each of which is kept out by another one of them. */
  ghost predicate Knot(mc: Machinery, disk: Disk, listing: seq<Path>, t: Tables, knot: set<Path>) {
    knot != {} && forall path | path in knot :: path in listing && Tied(mc, disk, t, knot, path)
  }

  ghost predicate Knotted(mc: Machinery, disk: Disk, listing: seq<Path>, t: Tables) {
    exists knot :: Knot(mc, disk, listing, t, knot)
  }

  // ----- a knot stays

  ghost predicate SameOn(s: Tables, t: Tables, paths: set<Path>) {
    forall path | path in paths :: SameAt(s, t, path)
  }

  lemma SameRow(s: Tables, t: Tables, at: Path, id: Id)
    requires SameAt(s, t, at)
    ensures HoldsRow(s, at, id) <==> HoldsRow(t, at, id)
  {
    if c :| c in s.chunks && s.chunks[c].path == at && s.chunks[c].memoryId == id {
      assert c in RowsAt(s, at);
      assert c in RowsAt(t, at);
    }
    if c :| c in t.chunks && t.chunks[c].path == at && t.chunks[c].memoryId == id {
      assert c in RowsAt(t, at);
      assert c in RowsAt(s, at);
    }
  }

  lemma SameTied(mc: Machinery, disk: Disk, s: Tables, t: Tables, knot: set<Path>, path: Path)
    requires SameOn(s, t, knot) && path in knot && Tied(mc, disk, t, knot, path)
    ensures Tied(mc, disk, s, knot, path)
  {
    hide RowsAt, HoldsRow;
    var id := DocAt(mc, disk, path).value.id;
    var other :| other in knot && other != path && HoldsRow(t, other, id);
    SameRow(s, t, other, id);
    assert SameAt(s, t, path);
  }

  /** A tied file is refused. */
  lemma TiedIsRefused(mc: Machinery, disk: Disk, t: Tables, knot: set<Path>, path: Path)
    requires Tied(mc, disk, t, knot, path)
    ensures Judge(mc, disk, t, path).Duplicate? && Step(mc, disk, t, path) == t
  {
    hide RowsOf;
    var other :| other in knot && other != path && HoldsRow(t, other, DocAt(mc, disk, path).value.id);
    assert HeldElsewhere(t, DocAt(mc, disk, path).value.id, path);
  }

  lemma StepKeepsKnot(mc: Machinery, disk: Disk, start: Tables, t: Tables, knot: set<Path>, path: Path)
    requires forall p | p in knot :: Tied(mc, disk, start, knot, p)
    requires Keyed(t) && SameOn(t, start, knot)
    ensures Keyed(Step(mc, disk, t, path)) && SameOn(Step(mc, disk, t, path), start, knot)
    ensures path in knot ==> Judge(mc, disk, t, path).Duplicate?
  {
    hide Step, Judge, Tied, Keyed, RowsAt;
    StepIsKeyed(mc, disk, t, path);
    if path in knot {
      SameTied(mc, disk, t, start, knot, path);
      TiedIsRefused(mc, disk, t, knot, path);
    } else {
      forall p | p in knot ensures SameAt(Step(mc, disk, t, path), start, p) {
        StepElsewhere(mc, disk, t, path, p);
        assert SameAt(t, start, p);
      }
    }
  }

  /** The files of a run leave a knot as it was and report all of it. */
  lemma {:induction false} StepsKeepKnot(mc: Machinery, disk: Disk, listing: seq<Path>, start: Tables, knot: set<Path>)
    requires Keyed(start) && forall p | p in knot :: Tied(mc, disk, start, knot, p)
    ensures var s := Steps(mc, disk, listing, start);
            && Keyed(s) && SameOn(s, start, knot)
            && forall p | p in knot && p in listing :: p in ReportOf(mc, disk, listing, start).problems
  {
    hide Step, Judge, Tied, Keyed;
    if listing == [] {
      assert SameOn(start, start, knot);
    } else {
      var init, last := listing[..|listing| - 1], listing[|listing| - 1];
      StepsKeepKnot(mc, disk, init, start, knot);
      StepKeepsKnot(mc, disk, start, Steps(mc, disk, init, start), knot, last);
      assert listing == init + [last];
    }
  }

  lemma ForgottenSame(t: Tables, listing: seq<Path>, paths: set<Path>)
    requires forall path | path in paths :: path in listing
    ensures SameOn(Forgotten(t, listing), t, paths)
  {
  }

  lemma RunKeepsKnot(mc: Machinery, disk: Disk, listing: seq<Path>, t: Tables, knot: set<Path>)
    requires Keyed(t) && Knot(mc, disk, listing, t, knot)
    ensures var s := Reindexed(mc, disk, listing, t);
            && Keyed(s) && SameOn(s, t, knot) && Knot(mc, disk, listing, s, knot)
            && forall p | p in knot :: p in ReportOf(mc, disk, listing, Forgotten(t, listing)).problems
  {
    hide Steps, Forgotten, Keyed, ReportOf, Tied, RowsAt;
    var f, s := Forgotten(t, listing), Reindexed(mc, disk, listing, t);
    ForgottenSame(t, listing, knot);
    ForgottenIsKeyed(t, listing);
    forall p | p in knot ensures Tied(mc, disk, f, knot, p) { SameTied(mc, disk, f, t, knot, p); }
    StepsKeepKnot(mc, disk, listing, f, knot);
    forall p | p in knot ensures SameAt(s, t, p) && Tied(mc, disk, s, knot, p) {
      assert SameAt(s, f, p) && SameAt(f, t, p);
      SameTied(mc, disk, s, f, knot, p);
    }
  }

  /** However often the index runs, it leaves a knot as it was, and reports every file of it every time. */
  lemma {:induction false} KnotStays(mc: Machinery, disk: Disk, listing: seq<Path>, t: Tables, knot: set<Path>,
                                     times: nat)
    requires Keyed(t) && Knot(mc, disk, listing, t, knot)
    ensures var s := Again(mc, disk, listing, t, times);
            && Keyed(s) && SameOn(s, t, knot) && Knot(mc, disk, listing, s, knot)
            && forall p | p in knot :: p in ReportOf(mc, disk, listing, Forgotten(s, listing)).problems
  {
    hide Reindexed, Forgotten, Keyed, ReportOf, Knot, RowsAt;
    if times > 0 {
      KnotStays(mc, disk, listing, t, knot, times - 1);
      RunKeepsKnot(mc, disk, listing, Again(mc, disk, listing, t, times - 1), knot);
    } else {
      assert SameOn(t, t, knot);
    }
    RunKeepsKnot(mc, disk, listing, Again(mc, disk, listing, t, times), knot);
    var before := Again(mc, disk, listing, t, if times > 0 then times - 1 else 0);
    forall p | p in knot ensures SameAt(Again(mc, disk, listing, t, times), t, p) {
      assert SameAt(before, t, p);
    }
  }

  lemma TwoMakeAKnot(mc: Machinery, disk: Disk, listing: seq<Path>, t: Tables, p: Path, q: Path)
    requires p in listing && q in listing && p != q
    requires DocAt(mc, disk, p).Some? && !UpToDate(mc, disk, t, p) && HoldsRow(t, q, DocAt(mc, disk, p).value.id)
    requires DocAt(mc, disk, q).Some? && !UpToDate(mc, disk, t, q) && HoldsRow(t, p, DocAt(mc, disk, q).value.id)
    ensures Knot(mc, disk, listing, t, {p, q})
  {
    hide HoldsRow;
  }

  /** Two files that swapped ids are refused by every run, whatever else is listed, and their rows never change. */
  lemma SwappedIdsStick(mc: Machinery, disk: Disk, listing: seq<Path>, t: Tables, p: Path, q: Path, times: nat)
    requires Keyed(t) && p in listing && q in listing && p != q
    requires DocAt(mc, disk, p).Some? && !UpToDate(mc, disk, t, p) && HoldsRow(t, q, DocAt(mc, disk, p).value.id)
    requires DocAt(mc, disk, q).Some? && !UpToDate(mc, disk, t, q) && HoldsRow(t, p, DocAt(mc, disk, q).value.id)
    ensures var s := Again(mc, disk, listing, t, times);
            var problems := ReportOf(mc, disk, listing, Forgotten(s, listing)).problems;
            SameAt(s, t, p) && SameAt(s, t, q) && p in problems && q in problems
  {
    hide SameAt, HoldsRow, Keyed, Forgotten, ReportOf, Again, Knot;
    TwoMakeAKnot(mc, disk, listing, t, p, q);
    KnotStays(mc, disk, listing, t, {p, q}, times);
  }

  // ----- without a knot every run gets something done

  /** What a run may start from and still come to the full index. */
  ghost predicate Sound(mc: Machinery, disk: Disk, listing: seq<Path>, t: Tables)
    requires CleanListing(mc, disk, listing)
  {
    Keyed(t) && Within(listing, t) && RecordedRowsStand(mc, disk, listing, t)
  }

  /** The listed files that are not up to date. */
  ghost function StaleOf(mc: Machinery, disk: Disk, listing: seq<Path>, t: Tables): set<Path>
    requires CleanListing(mc, disk, listing)
  {
    set k | 0 <= k < |listing| && !UpToDate(mc, disk, t, listing[k]) :: listing[k]
  }

  lemma SoundStep(mc: Machinery, disk: Disk, listing: seq<Path>, t: Tables, k: nat)
    requires CleanListing(mc, disk, listing) && k < |listing| && Sound(mc, disk, listing, t)
    ensures var s := Step(mc, disk, t, listing[k]);
            && Sound(mc, disk, listing, s)
            && (forall i | 0 <= i < |listing| && i != k :: SameAt(s, t, listing[i]))
            && (if HeldElsewhere(t, DocAt(mc, disk, listing[k]).value.id, listing[k]) then s == t
                else UpToDate(mc, disk, s, listing[k]))
  {
    hide RowsOf, Keyed, RowsAt, Within, HeldElsewhere;
    var s := Step(mc, disk, t, listing[k]);
    StepIsKeyed(mc, disk, t, listing[k]);
    StepStaysWithin(mc, disk, listing, t, listing[k]);
    forall i | 0 <= i < |listing| && i != k ensures SameAt(s, t, listing[i]) {
      StepElsewhere(mc, disk, t, listing[k], listing[i]);
    }
    if !HeldElsewhere(t, DocAt(mc, disk, listing[k]).value.id, listing[k]) {
      StepFinishes(mc, disk, t, listing[k]);
    }
    forall i | 0 <= i < |listing| && UpToDate(mc, disk, s, listing[i]) ensures RowsStand(mc, disk, s, listing[i]) {
      if i != k {
        assert SameAt(s, t, listing[i]);
        assert UpToDate(mc, disk, t, listing[i]);
      }
    }
  }

  /** A file up to date, and one whose id no other listed path holds. */
  ghost predicate Free(mc: Machinery, disk: Disk, listing: seq<Path>, t: Tables, i: nat)
    requires CleanListing(mc, disk, listing) && i < |listing|
  {
    forall j | 0 <= j < |listing| && j != i :: !HoldsRow(t, listing[j], DocAt(mc, disk, listing[i]).value.id)
  }

  lemma FreeIsNotHeld(mc: Machinery, disk: Disk, listing: seq<Path>, t: Tables, i: nat)
    requires CleanListing(mc, disk, listing) && i < |listing| && Within(listing, t) && Free(mc, disk, listing, t, i)
    ensures !HeldElsewhere(t, DocAt(mc, disk, listing[i]).value.id, listing[i])
  {
    hide DocAt;
    var id := DocAt(mc, disk, listing[i]).value.id;
    forall c | c in t.chunks && t.chunks[c].path != listing[i] ensures t.chunks[c].memoryId != id {
      var j :| 0 <= j < |listing| && listing[j] == t.chunks[c].path;
      assert !HoldsRow(t, listing[j], id);
    }
  }

  /** The rows of a file that has them are its own. */
  lemma OwnRowsOnly(mc: Machinery, disk: Disk, t: Tables, path: Path, id: Id)
    requires DocAt(mc, disk, path).Some? && RowsStand(mc, disk, t, path) && HoldsRow(t, path, id)
    ensures id == DocAt(mc, disk, path).value.id
  {
    hide RowsOf;
    var c :| c in t.chunks && t.chunks[c].path == path && t.chunks[c].memoryId == id;
    RowHasId(t, c, mc, DocAt(mc, disk, path).value, path);
  }

  lemma FreeStays(mc: Machinery, disk: Disk, listing: seq<Path>, t: Tables, i: nat, k: nat)
    requires CleanListing(mc, disk, listing) && i < |listing| && k < |listing| && Sound(mc, disk, listing, t)
    requires Free(mc, disk, listing, t, i)
    ensures Free(mc, disk, listing, Step(mc, disk, t, listing[k]), i)
  {
    hide Step, HoldsRow, RowsAt, Keyed, Within, HeldElsewhere;
    var s := Step(mc, disk, t, listing[k]);
    var id := DocAt(mc, disk, listing[i]).value.id;
    SoundStep(mc, disk, listing, t, k);
    forall j | 0 <= j < |listing| && j != i ensures !HoldsRow(s, listing[j], id) {
      if j != k {
        SameRow(s, t, listing[j], id);
      } else if HoldsRow(s, listing[j], id) && s != t {
        OwnRowsOnly(mc, disk, s, listing[j], id);
      }
    }
  }

  /** Midway through a run: what was up to date is, what was not touched is the same, and a free file passed is done. */
  ghost predicate Along(mc: Machinery, disk: Disk, listing: seq<Path>, start: Tables, t: Tables, n: nat, i: nat)
    requires CleanListing(mc, disk, listing) && n <= |listing| && i < |listing|
  {
    && Sound(mc, disk, listing, t) && Free(mc, disk, listing, t, i)
    && (i < n ==> UpToDate(mc, disk, t, listing[i]))
    && (forall k | 0 <= k < |listing| :: UpToDate(mc, disk, t, listing[k]) || SameAt(t, start, listing[k]))
    && (forall k | 0 <= k < |listing| && UpToDate(mc, disk, start, listing[k]) :: UpToDate(mc, disk, t, listing[k]))
  }

  lemma AlongStep(mc: Machinery, disk: Disk, listing: seq<Path>, start: Tables, t: Tables, n: nat, i: nat)
    requires CleanListing(mc, disk, listing) && n < |listing| && i < |listing|
    requires Along(mc, disk, listing, start, t, n, i)
    ensures Along(mc, disk, listing, start, Step(mc, disk, t, listing[n]), n + 1, i)
  {
    hide Step, RowsAt, Sound, Free, HeldElsewhere, Within;
    var s := Step(mc, disk, t, listing[n]);
    SoundParts(mc, disk, listing, t);
    SoundStep(mc, disk, listing, t, n);
    FreeStays(mc, disk, listing, t, i, n);
    if i == n {
      FreeIsNotHeld(mc, disk, listing, t, i);
    }
    forall k | 0 <= k < |listing|
      ensures UpToDate(mc, disk, s, listing[k]) || SameAt(s, start, listing[k])
      ensures UpToDate(mc, disk, t, listing[k]) ==> UpToDate(mc, disk, s, listing[k])
    {
      assert UpToDate(mc, disk, t, listing[k]) || SameAt(t, start, listing[k]);
      if k != n {
        assert SameAt(s, t, listing[k]);
      }
    }
  }

  lemma SoundParts(mc: Machinery, disk: Disk, listing: seq<Path>, t: Tables)
    requires CleanListing(mc, disk, listing) && Sound(mc, disk, listing, t)
    ensures Keyed(t) && Within(listing, t) && RecordedRowsStand(mc, disk, listing, t)
  {
  }

  lemma {:induction false} RunsAlong(mc: Machinery, disk: Disk, listing: seq<Path>, start: Tables, n: nat, i: nat)
    requires CleanListing(mc, disk, listing) && n <= |listing| && i < |listing|
    requires Sound(mc, disk, listing, start) && Free(mc, disk, listing, start, i)
    ensures Along(mc, disk, listing, start, Steps(mc, disk, listing[..n], start), n, i)
  {
    hide Step, Sound, Free, RowsAt;
    if n > 0 {
      RunsAlong(mc, disk, listing, start, n - 1, i);
      StepsOn(mc, disk, listing, start, n);
      AlongStep(mc, disk, listing, start, Steps(mc, disk, listing[..n - 1], start), n - 1, i);
    } else {
      assert listing[..0] == [];
    }
  }

  /** Every run over sound tables with a free stale file leaves fewer stale files, and no knot that was not there. */
  lemma RunAdvances(mc: Machinery, disk: Disk, listing: seq<Path>, start: Tables, i: nat)
    requires CleanListing(mc, disk, listing) && i < |listing| && Sound(mc, disk, listing, start)
    requires Free(mc, disk, listing, start, i) && !UpToDate(mc, disk, start, listing[i])
    ensures var s := Steps(mc, disk, listing, start);
            && Sound(mc, disk, listing, s)
            && StaleOf(mc, disk, listing, s) < StaleOf(mc, disk, listing, start)
            && (Knotted(mc, disk, listing, s) ==> Knotted(mc, disk, listing, start))
  {
    hide Steps, Sound, Free, RowsAt, Knotted, SameAt;
    RunsAlong(mc, disk, listing, start, |listing|, i);
    assert listing[..|listing|] == listing;
    var s := Steps(mc, disk, listing, start);
    assert listing[i] in StaleOf(mc, disk, listing, start);
    assert UpToDate(mc, disk, s, listing[i]);
    if Knotted(mc, disk, listing, s) {
      NoNewKnot(mc, disk, listing, start, s);
    }
  }

  lemma TiedIsStale(mc: Machinery, disk: Disk, t: Tables, knot: set<Path>, path: Path)
    requires DocAt(mc, disk, path).Some? && Tied(mc, disk, t, knot, path)
    ensures !UpToDate(mc, disk, t, path)
  {
  }

  lemma NoNewKnot(mc: Machinery, disk: Disk, listing: seq<Path>, start: Tables, s: Tables)
    requires CleanListing(mc, disk, listing) && Knotted(mc, disk, listing, s)
    requires forall k | 0 <= k < |listing| :: UpToDate(mc, disk, s, listing[k]) || SameAt(s, start, listing[k])
    ensures Knotted(mc, disk, listing, start)
  {
    hide SameAt, Tied, UpToDate;
    var knot :| Knot(mc, disk, listing, s, knot);
    forall p | p in knot ensures SameAt(start, s, p) {
      var k :| 0 <= k < |listing| && listing[k] == p;
      TiedIsStale(mc, disk, s, knot, listing[k]);
      SameBack(s, start, listing[k]);
    }
    forall p | p in knot ensures p in listing && Tied(mc, disk, start, knot, p) {
      assert Tied(mc, disk, s, knot, p);
      SameTied(mc, disk, start, s, knot, p);
    }
    assert Knot(mc, disk, listing, start, knot);
  }

  lemma SameBack(s: Tables, t: Tables, path: Path)
    requires SameAt(s, t, path)
    ensures SameAt(t, s, path)
  {
    hide RowsAt;
  }

  /** Where no files keep each other out, some stale file is free. */
  lemma SomeFileIsFree(mc: Machinery, disk: Disk, listing: seq<Path>, t: Tables) returns (i: nat)
    requires CleanListing(mc, disk, listing) && Sound(mc, disk, listing, t)
    requires !Knotted(mc, disk, listing, t) && StaleOf(mc, disk, listing, t) != {}
    ensures i < |listing| && Free(mc, disk, listing, t, i) && !UpToDate(mc, disk, t, listing[i])
  {
    hide HoldsRow, RowsOf, Keyed, Within;
    var stale := StaleOf(mc, disk, listing, t);
    assert !Knot(mc, disk, listing, t, stale);
    var path :| path in stale && !(path in listing && Tied(mc, disk, t, stale, path));
    i :| 0 <= i < |listing| && listing[i] == path && !UpToDate(mc, disk, t, listing[i]);
    forall j | 0 <= j < |listing| && j != i ensures !HoldsRow(t, listing[j], DocAt(mc, disk, path).value.id) {
      if !UpToDate(mc, disk, t, listing[j]) {
        assert listing[j] in stale;
      } else if HoldsRow(t, listing[j], DocAt(mc, disk, path).value.id) {
        OwnRowsOnly(mc, disk, t, listing[j], DocAt(mc, disk, path).value.id);
      }
    }
  }

  // ----- when running again comes to the full index

  /** Tables that some run may still bring to the full index. */
  ghost predicate Mendable(mc: Machinery, disk: Disk, listing: seq<Path>, t: Tables)
    requires CleanListing(mc, disk, listing)
  {
    RecordedRowsStand(mc, disk, listing, t) && NoOrphans(listing, t) && !Knotted(mc, disk, listing, t)
  }

  lemma ForgottenIsSound(mc: Machinery, disk: Disk, listing: seq<Path>, t: Tables)
    requires CleanListing(mc, disk, listing) && Keyed(t) && Mendable(mc, disk, listing, t)
    ensures var f := Forgotten(t, listing);
            && Sound(mc, disk, listing, f) && !Knotted(mc, disk, listing, f)
            && StaleOf(mc, disk, listing, f) == StaleOf(mc, disk, listing, t)
  {
    hide Forgotten, SameAt, Keyed, NoOrphans, Within, RecordedRowsStand, NoLaterHolder, Knotted, StaleOf, UpToDate;
    var f := Forgotten(t, listing);
    ForgottenWithin(mc, disk, listing, t);
    forall path | path in listing ensures SameAt(t, f, path) {
      SameBack(f, t, path);
    }
    SameHolders(mc, disk, listing, t, f);
    forall k | 0 <= k < |listing| ensures SameAt(f, t, listing[k]) {
      assert listing[k] in listing;
    }
    SameStale(mc, disk, listing, f, t);
    if Knotted(mc, disk, listing, f) {
      NoNewKnot(mc, disk, listing, t, f);
    }
  }

  lemma SameStale(mc: Machinery, disk: Disk, listing: seq<Path>, s: Tables, t: Tables)
    requires CleanListing(mc, disk, listing)
    requires forall k | 0 <= k < |listing| :: SameAt(s, t, listing[k])
    ensures StaleOf(mc, disk, listing, s) == StaleOf(mc, disk, listing, t)
  {
    hide RowsAt;
    forall k | 0 <= k < |listing| ensures UpToDate(mc, disk, s, listing[k]) <==> UpToDate(mc, disk, t, listing[k]) {
      assert SameAt(s, t, listing[k]);
    }
  }

  lemma RunMends(mc: Machinery, disk: Disk, listing: seq<Path>, t: Tables)
    requires CleanListing(mc, disk, listing) && Keyed(t) && Mendable(mc, disk, listing, t)
    ensures var s := Reindexed(mc, disk, listing, t);
            && Sound(mc, disk, listing, s) && !Knotted(mc, disk, listing, s)
            && (StaleOf(mc, disk, listing, s) == {} || StaleOf(mc, disk, listing, s) < StaleOf(mc, disk, listing, t))
  {
    hide Forgotten, Steps, Knotted, Sound, NoOrphans, RecordedRowsStand;
    var f := Forgotten(t, listing);
    ForgottenIsSound(mc, disk, listing, t);
    if StaleOf(mc, disk, listing, f) == {} {
      NothingStale(mc, disk, listing, f);
    } else {
      var i := SomeFileIsFree(mc, disk, listing, f);
      RunAdvances(mc, disk, listing, f, i);
    }
  }

  lemma NothingStale(mc: Machinery, disk: Disk, listing: seq<Path>, t: Tables)
    requires CleanListing(mc, disk, listing) && StaleOf(mc, disk, listing, t) == {}
    ensures forall k | 0 <= k < |listing| :: UpToDate(mc, disk, t, listing[k])
    ensures Steps(mc, disk, listing, t) == t
  {
    hide Steps;
    forall k | 0 <= k < |listing| ensures UpToDate(mc, disk, t, listing[k]) {
      assert listing[k] !in StaleOf(mc, disk, listing, t);
    }
    UpToDateStays(mc, disk, listing, t);
  }

  lemma {:induction false} RunsMend(mc: Machinery, disk: Disk, listing: seq<Path>, t: Tables, times: nat)
    requires CleanListing(mc, disk, listing) && Keyed(t) && Mendable(mc, disk, listing, t) && times > 0
    ensures var s := Again(mc, disk, listing, t, times);
            && Sound(mc, disk, listing, s) && !Knotted(mc, disk, listing, s)
            && (StaleOf(mc, disk, listing, s) == {}
                || |StaleOf(mc, disk, listing, s)| + times <= |StaleOf(mc, disk, listing, t)|)
    decreases times
  {
    hide Reindexed, Knotted, Keyed, Within, RecordedRowsStand, StaleOf;
    AgainSteps(mc, disk, listing, t, times);
    var before := Again(mc, disk, listing, t, times - 1);
    if times > 1 {
      RunsMend(mc, disk, listing, t, times - 1);
      WithinHasNoOrphans(listing, before);
    } else {
      AgainStarts(mc, disk, listing, t);
    }
    RunMends(mc, disk, listing, before);
    Smaller(StaleOf(mc, disk, listing, Reindexed(mc, disk, listing, before)), StaleOf(mc, disk, listing, before));
  }

  lemma WithinHasNoOrphans(listing: seq<Path>, t: Tables)
    requires Within(listing, t)
    ensures NoOrphans(listing, t)
  {
  }

  lemma Smaller(a: set<Path>, b: set<Path>)
    ensures a < b ==> |a| < |b|
  {
    if a < b {
      var rest := b - a;
      assert b == a + rest && a !! rest && rest != {};
    }
  }

  lemma {:induction false} FewStale(mc: Machinery, disk: Disk, listing: seq<Path>, t: Tables, n: nat)
    requires CleanListing(mc, disk, listing) && n <= |listing|
    ensures |set k | 0 <= k < n && !UpToDate(mc, disk, t, listing[k]) :: listing[k]| <= n
  {
    var some := set k | 0 <= k < n && !UpToDate(mc, disk, t, listing[k]) :: listing[k];
    if n > 0 {
      FewStale(mc, disk, listing, t, n - 1);
      var fewer := set k | 0 <= k < n - 1 && !UpToDate(mc, disk, t, listing[k]) :: listing[k];
      assert some <= fewer + {listing[n - 1]};
      AtMostOneMore(some, fewer, listing[n - 1]);
    } else {
      assert some == {};
    }
  }

  lemma AtMostOneMore(a: set<Path>, b: set<Path>, x: Path)
    requires a <= b + {x}
    ensures |a| <= |b| + 1
  {
    var rest := b + {x} - a;
    assert a + rest == b + {x} && a !! rest;
  }

  /**
   * When running again, as often as need be, comes to the full index: exactly when every listed file whose hash is
   * recorded has its rows, no row belongs to a path neither recorded nor listed, and no files keep each other out.
   * One run more than there are files is then enough.
   */
  lemma ComesToFull(mc: Machinery, disk: Disk, listing: seq<Path>, t: Tables)
    requires mc.Valid() && CleanListing(mc, disk, listing) && Keyed(t)
    ensures (exists times :: Again(mc, disk, listing, t, times) == FullIndex(mc, disk, listing))
       <==> RecordedRowsStand(mc, disk, listing, t) && NoOrphans(listing, t) && !Knotted(mc, disk, listing, t)
    ensures RecordedRowsStand(mc, disk, listing, t) && NoOrphans(listing, t) && !Knotted(mc, disk, listing, t) ==>
              Again(mc, disk, listing, t, |listing| + 1) == FullIndex(mc, disk, listing)
  {
    hide *;
    if times: nat :| Again(mc, disk, listing, t, times) == FullIndex(mc, disk, listing) {
      FullNeedsMendable(mc, disk, listing, t, times);
    }
    if RecordedRowsStand(mc, disk, listing, t) && NoOrphans(listing, t) && !Knotted(mc, disk, listing, t) {
      EnoughRuns(mc, disk, listing, t);
    }
  }

  lemma FullNeedsMendable(mc: Machinery, disk: Disk, listing: seq<Path>, t: Tables, times: nat)
    requires mc.Valid() && CleanListing(mc, disk, listing) && Keyed(t)
    requires Again(mc, disk, listing, t, times) == FullIndex(mc, disk, listing)
    ensures RecordedRowsStand(mc, disk, listing, t) && NoOrphans(listing, t) && !Knotted(mc, disk, listing, t)
  {
    hide Again, FullIndex, RecordedRowsStand, NoOrphans, RowsStand, SameOn, ReportOf, Forgotten;
    if !RecordedRowsStand(mc, disk, listing, t) || !NoOrphans(listing, t) {
      DamageIsForGood(mc, disk, listing, t, times);
    }
    if knot :| Knot(mc, disk, listing, t, knot) {
      KnotStays(mc, disk, listing, t, knot, times);
      FullHasNoKnot(mc, disk, listing, knot);
    }
  }

  lemma FullHasNoKnot(mc: Machinery, disk: Disk, listing: seq<Path>, knot: set<Path>)
    requires CleanListing(mc, disk, listing)
    ensures !Knot(mc, disk, listing, FullIndex(mc, disk, listing), knot)
  {
    hide FullIndex, RowsStand, HoldsRow;
    FullIsComplete(mc, disk, listing);
    if p :| p in knot && p in listing {
      var k :| 0 <= k < |listing| && listing[k] == p;
      assert UpToDate(mc, disk, FullIndex(mc, disk, listing), listing[k]);
    }
  }

  lemma EnoughRuns(mc: Machinery, disk: Disk, listing: seq<Path>, t: Tables)
    requires CleanListing(mc, disk, listing) && Keyed(t)
    requires RecordedRowsStand(mc, disk, listing, t) && NoOrphans(listing, t) && !Knotted(mc, disk, listing, t)
    ensures Again(mc, disk, listing, t, |listing| + 1) == FullIndex(mc, disk, listing)
  {
    hide Again, FullIndex, Knotted, RowsStand, Keyed, Within, NoOrphans;
    var s := Again(mc, disk, listing, t, |listing| + 1);
    RunsMend(mc, disk, listing, t, |listing| + 1);
    FewStale(mc, disk, listing, t, |listing|);
    NothingStale(mc, disk, listing, s);
    FullIsComplete(mc, disk, listing);
    CompleteIsUnique(mc, disk, listing, s, FullIndex(mc, disk, listing));
  }
}
