/** What the weekly proposal and the compiler make of each other. */
module ForgetPlans {
  import opened Changeset
  import opened Document
  import opened Forget
  import opened Layout
  import opened Manifests
  import opened Patch
  import opened Retention
  import opened Text

  // ----- the corpus a run reads

  /** The memories of an exact manifest, each once. */
  ghost predicate IsCorpus(corpus: Corpus, m: Ids, tree: Tree) {
    && (forall at | at in corpus :: IsEntry(at, m, tree))
    && (forall id | id in m :: exists at :: at in corpus && at.doc.id == id)
    && Distinct(corpus)
  }

  ghost predicate IsEntry(at: Loaded, m: Ids, tree: Tree) {
    at.doc.id in m && m[at.doc.id].path == at.path && at.path in tree && tree[at.path] == Memory(at.doc)
  }

  ghost predicate Distinct(s: Corpus) {
    forall i, j | 0 <= i < j < |s| :: s[i].doc.id != s[j].doc.id
  }

  lemma {:induction false} ReadInOrder(tree: Tree, m: Ids, order: seq<Id>)
    requires Describes(m, tree)
    requires forall i | 0 <= i < |order| :: order[i] in m
    ensures |Read(tree, m, order)| == |order|
    ensures forall i | 0 <= i < |order| :: Read(tree, m, order)[i].doc.id == order[i]
    ensures forall at | at in Read(tree, m, order) :: IsEntry(at, m, tree)
  {
    if order != [] {
      ReadInOrder(tree, m, order[..|order| - 1]);
      assert Holds(tree, m[order[|order| - 1]].path, order[|order| - 1]);
    }
  }

  /** Reading an exact manifest, in whatever order, loses and repeats nothing. */
  lemma ReadIsCorpus(tree: Tree, m: Ids, order: seq<Id>)
    requires Describes(m, tree)
    requires forall i | 0 <= i < |order| :: order[i] in m
    requires forall i, j | 0 <= i < j < |order| :: order[i] != order[j]
    requires forall id | id in m :: id in order
    ensures IsCorpus(Read(tree, m, order), m, tree)
  {
    ReadInOrder(tree, m, order);
    var corpus := Read(tree, m, order);
    forall id | id in m ensures exists at :: at in corpus && at.doc.id == id {
      var i :| 0 <= i < |order| && order[i] == id;
      assert corpus[i] in corpus;
    }
  }

  // ----- what a proposal contains

  ghost predicate Names(s: Corpus, id: Id) {
    exists i :: 0 <= i < |s| && s[i].doc.id == id
  }

  lemma {:induction false} AllDueIsFilter(stage: Stage, settings: Settings, policy: Policy, now: int,
                                          linked: set<Id>, corpus: Corpus)
    ensures multiset(AllDue(stage, settings, policy, now, linked, corpus)) <= multiset(corpus)
    ensures forall at | at in AllDue(stage, settings, policy, now, linked, corpus) ::
      Due(stage, settings, policy, now, linked, at)
    ensures forall at | at in corpus && Due(stage, settings, policy, now, linked, at) ::
      at in AllDue(stage, settings, policy, now, linked, corpus)
  {
    if corpus != [] {
      AllDueIsFilter(stage, settings, policy, now, linked, corpus[..|corpus| - 1]);
      assert corpus == corpus[..|corpus| - 1] + [corpus[|corpus| - 1]];
    }
  }

  lemma {:induction false} DistinctCounts(s: Corpus)
    requires Distinct(s)
    ensures forall at :: multiset(s)[at] <= 1
  {
    if s != [] {
      DistinctCounts(s[..|s| - 1]);
      var last := s[|s| - 1];
      assert s == s[..|s| - 1] + [last];
      assert last !in s[..|s| - 1];
    }
  }

  lemma RepeatCounts(s: Corpus, i: nat, j: nat)
    requires i < j < |s|
    ensures s[i] == s[j] ==> multiset(s)[s[i]] >= 2
  {
    assert s == s[..i] + [s[i]] + s[i + 1..j] + [s[j]] + s[j + 1..];
  }

  /** A rearranged part of a corpus is still distinct. */
  lemma SubsetDistinct(s: Corpus, corpus: Corpus, m: Ids, tree: Tree)
    requires IsCorpus(corpus, m, tree)
    requires multiset(s) <= multiset(corpus)
    ensures Distinct(s)
    ensures forall at | at in s :: at in corpus
  {
    DistinctCounts(corpus);
    forall at | at in s ensures at in corpus { assert at in multiset(s); }
    forall i, j | 0 <= i < j < |s| ensures s[i].doc.id != s[j].doc.id {
      RepeatCounts(s, i, j);
      assert IsEntry(s[i], m, tree) && IsEntry(s[j], m, tree);
    }
  }

  lemma TakeIsPrefix(s: Corpus, count: int)
    ensures Take(s, count) <= s
    ensures multiset(Take(s, count)) <= multiset(s)
  {
    var t := Take(s, count);
    assert s == t + s[|t|..];
  }

  ghost predicate Picked(stage: Stage, settings: Settings, policy: Policy, now: int, linked: set<Id>,
                         corpus: Corpus, s: Corpus) {
    && Distinct(s)
    && forall at | at in s :: at in corpus && Due(stage, settings, policy, now, linked, at)
  }

  lemma PickFrom(stage: Stage, settings: Settings, policy: Policy, now: int, linked: set<Id>, corpus: Corpus,
                 m: Ids, tree: Tree, count: int)
    requires IsCorpus(corpus, m, tree)
    ensures Picked(stage, settings, policy, now, linked, corpus,
                   Take(ColdestFirst(AllDue(stage, settings, policy, now, linked, corpus)), count))
  {
    var due := AllDue(stage, settings, policy, now, linked, corpus);
    var s := Take(ColdestFirst(due), count);
    AllDueIsFilter(stage, settings, policy, now, linked, corpus);
    ColdestFirstPermutes(due);
    TakeIsPrefix(ColdestFirst(due), count);
    SubsetDistinct(s, corpus, m, tree);
    forall at | at in s ensures Due(stage, settings, policy, now, linked, at) {
      assert at in multiset(s) && at in multiset(due);
    }
  }

  /** What the run leaves for next week is never colder than what it archives. */
  lemma ArchivesColdestFirst(settings: Settings, policy: Policy, now: int, linked: set<Id>, corpus: Corpus,
                             kept: Loaded, taken: Loaded)
    requires kept in corpus && Due(Archiving, settings, policy, now, linked, kept)
    requires kept !in Propose(settings, policy, now, linked, corpus).archived
    requires taken in Propose(settings, policy, now, linked, corpus).archived
    ensures taken.doc.salience <= kept.doc.salience
  {
    var due := AllDue(Archiving, settings, policy, now, linked, corpus);
    var s := ColdestFirst(due);
    AllDueIsFilter(Archiving, settings, policy, now, linked, corpus);
    ColdestFirstPermutes(due);
    TakeIsPrefix(s, settings.maxPerRun);
    assert kept in multiset(due) && kept in multiset(s);
    var i :| 0 <= i < |s| && s[i] == kept;
    var j :| 0 <= j < |Take(s, settings.maxPerRun)| && s[j] == taken;
  }

  // ----- the situation: an exact manifest, its corpus, and the proposal made from it

  datatype Situation = Situation(cx: Context, m: Ids, settings: Settings, linked: set<Id>, corpus: Corpus) {
    ghost predicate Valid() {
      && cx.job == JOB
      && Describes(m, cx.tree)
      && IsCorpus(corpus, m, cx.tree)
      && Protects(corpus, m, linked)
    }

    function Proposed(): Proposal {
      Propose(settings, cx.policy, cx.now, linked, corpus)
    }

    function Out(): Compiled {
      Fold(cx, m, PlanOf(Proposed()))
    }
  }

  lemma ProposedFacts(s: Situation)
    requires s.Valid()
    ensures Picked(Archiving, s.settings, s.cx.policy, s.cx.now, s.linked, s.corpus, s.Proposed().archived)
    ensures Picked(Collecting, s.settings, s.cx.policy, s.cx.now, s.linked, s.corpus, s.Proposed().collected)
  {
    var p := s.Proposed();
    PickFrom(Archiving, s.settings, s.cx.policy, s.cx.now, s.linked, s.corpus, s.m, s.cx.tree, s.settings.maxPerRun);
    PickFrom(Collecting, s.settings, s.cx.policy, s.cx.now, s.linked, s.corpus, s.m, s.cx.tree,
             s.settings.maxPerRun - |p.archived|);
  }

  /** A collected memory has been archived and untouched for both the grace period and the floor. */
  lemma CollectedIsOld(s: Situation, at: Loaded)
    requires s.Valid() && at in s.Proposed().collected
    ensures IsArchived(at.path) && !at.doc.pinned && IsEntry(at, s.m, s.cx.tree)
    ensures s.cx.now - at.doc.updated >= s.settings.archiveGrace
    ensures s.cx.now - at.doc.updated >= s.cx.policy.retentionFloor
  {
    ProposedFacts(s);
  }

  // ----- folding the proposal

  function Archived(cx: Context, at: Loaded): Doc {
    Canonical(Touch(at.doc, cx.clock))
  }

  /** The changes of a proposal whose archives went to `dests`. */
  function MoveChanges(cx: Context, archived: Corpus, dests: seq<Path>): seq<Change>
    requires |dests| == |archived|
  {
    if archived == [] then []
    else
      var k := |archived| - 1;
      MoveChanges(cx, archived[..k], dests[..k])
      + [Write(dests[k], Memory(Archived(cx, archived[k]))), Remove(archived[k].path)]
  }

  function RemoveChanges(collected: Corpus): seq<Change> {
    seq(|collected|, i requires 0 <= i < |collected| => Remove(collected[i].path))
  }

  /** The manifest once `archived` has moved to `dests` and `collected` is gone. */
  ghost predicate Moved(m: Ids, archived: Corpus, dests: seq<Path>, collected: Corpus, projected: Ids)
    requires |dests| == |archived|
  {
    && (forall i | 0 <= i < |dests| :: IsArchived(dests[i]))
    && (forall id :: id in projected <==> id in m && !Names(collected, id))
    && (forall id | id in projected && !Names(archived, id) :: projected[id] == m[id])
    && (forall i | 0 <= i < |archived| && archived[i].doc.id in m && archived[i].doc.id in projected ::
          projected[archived[i].doc.id] == m[archived[i].doc.id].(path := dests[i]))
  }

  lemma NamesInit(s: Corpus, id: Id)
    requires s != []
    ensures Names(s, id) <==> Names(s[..|s| - 1], id) || s[|s| - 1].doc.id == id
  {
    if Names(s, id) {
      var i :| 0 <= i < |s| && s[i].doc.id == id;
      assert i < |s| - 1 ==> s[..|s| - 1][i].doc.id == id;
    }
    if Names(s[..|s| - 1], id) {
      var i :| 0 <= i < |s| - 1 && s[..|s| - 1][i].doc.id == id;
      assert s[i].doc.id == id;
    }
  }

  ghost predicate MayBeArchived(m: Ids, tree: Tree, at: Loaded) {
    IsEntry(at, m, tree) && !IsArchived(at.path)
  }

  ghost predicate MayBeDeleted(cx: Context, m: Ids, at: Loaded) {
    && IsEntry(at, m, cx.tree) && IsArchived(at.path) && !at.doc.pinned
    && cx.now - at.doc.updated >= cx.policy.retentionFloor
  }

  lemma MovedOn(m: Ids, init: Corpus, dests: seq<Path>, projected: Ids, last: Loaded, to: Path)
    requires |dests| == |init| && Moved(m, init, dests, [], projected)
    requires last.doc.id in m && !Names(init, last.doc.id) && IsArchived(to)
    ensures Moved(m, init + [last], dests + [to], [], projected[last.doc.id := m[last.doc.id].(path := to)])
  {
    forall id ensures Names(init + [last], id) <==> Names(init, id) || id == last.doc.id {
      NamesInit(init + [last], id);
      assert (init + [last])[..|init + [last]| - 1] == init;
    }
    assert forall i | 0 <= i < |init| :: Names(init, init[i].doc.id);
  }

  lemma MovedOff(m: Ids, archived: Corpus, dests: seq<Path>, init: Corpus, projected: Ids, last: Loaded)
    requires |dests| == |archived| && Moved(m, archived, dests, init, projected)
    requires !Names(archived, last.doc.id)
    ensures Moved(m, archived, dests, init + [last], projected - {last.doc.id})
  {
    forall id ensures Names(init + [last], id) <==> Names(init, id) || id == last.doc.id {
      NamesInit(init + [last], id);
      assert (init + [last])[..|init + [last]| - 1] == init;
    }
  }

  lemma DistinctNames(init: Corpus, last: Loaded)
    requires Distinct(init + [last])
    ensures !Names(init, last.doc.id) && Distinct(init)
  {
    forall i, j | 0 <= i < j < |init| ensures init[i].doc.id != init[j].doc.id {
      assert (init + [last])[i] == init[i] && (init + [last])[j] == init[j];
    }
    forall i | 0 <= i < |init| ensures init[i].doc.id != last.doc.id {
      assert (init + [last])[i] == init[i] && (init + [last])[|init|] == last;
    }
  }

  /** What folding a proposal comes to. */
  ghost predicate FoldsTo(cx: Context, m: Ids, out: Compiled, archived: Corpus, dests: seq<Path>, collected: Corpus) {
    && |dests| == |archived|
    && out.rejections == []
    && Moved(m, archived, dests, collected, out.projected)
    && out.changes == MoveChanges(cx, archived, dests) + RemoveChanges(collected)
  }

  lemma MovedChanges(cx: Context, m: Ids, before: Compiled, init: Corpus, dests: seq<Path>, last: Loaded, to: Path)
    requires FoldsTo(cx, m, before, init, dests, [])
    requires last.doc.id in m && !Names(init, last.doc.id) && IsArchived(to)
    ensures FoldsTo(cx, m, Compiled(before.projected[last.doc.id := m[last.doc.id].(path := to)],
                                    before.changes + [Write(to, Memory(Archived(cx, last))), Remove(last.path)], []),
                    init + [last], dests + [to], [])
  {
    MovedOn(m, init, dests, before.projected, last, to);
    assert (init + [last])[..|init|] == init && (dests + [to])[..|init|] == dests;
  }

  lemma RemovedChanges(cx: Context, m: Ids, before: Compiled, archived: Corpus, dests: seq<Path>, init: Corpus,
                       last: Loaded)
    requires FoldsTo(cx, m, before, archived, dests, init)
    requires !Names(archived, last.doc.id)
    ensures FoldsTo(cx, m, Compiled(before.projected - {last.doc.id}, before.changes + [Remove(last.path)], []),
                    archived, dests, init + [last])
  {
    MovedOff(m, archived, dests, init, before.projected, last);
    assert RemoveChanges(init + [last]) == RemoveChanges(init) + [Remove(last.path)];
  }

  /** Archiving a memory the plan has not touched yet. */
  lemma ArchiveStep(cx: Context, m: Ids, projected: Ids, at: Loaded) returns (to: Path)
    requires MayBeArchived(m, cx.tree, at) && m[at.doc.id] == EntryFor(at.path, at.doc)
    requires at.doc.id in projected && projected[at.doc.id] == m[at.doc.id]
    ensures IsArchived(to) && to == ArchivePath(cx, projected, at.doc)
    ensures PatchOutcome(cx, projected, Archive(at.doc.id))
         == Outcome(projected[at.doc.id := m[at.doc.id].(path := to)],
                    [Write(to, Memory(Archived(cx, at))), Remove(at.path)], [])
  {
    to := ArchivePath(cx, projected, at.doc);
  }

  /** Deleting a memory the plan has not touched yet. */
  lemma DeleteStep(cx: Context, m: Ids, projected: Ids, at: Loaded)
    requires cx.job == JOB && MayBeDeleted(cx, m, at)
    requires at.doc.id in projected && projected[at.doc.id] == m[at.doc.id]
    ensures PatchOutcome(cx, projected, Delete(at.doc.id)) == Outcome(projected - {at.doc.id}, [Remove(at.path)], [])
  {
    assert DeleteReasons(cx, at.doc.id, at) == [];
  }

  /** One more patch that compiles. */
  lemma FoldOn(cx: Context, m: Ids, init: Plan, patch: MemoryPatch)
    ensures var before := Fold(cx, m, init);
      var step := PatchOutcome(cx, before.projected, patch);
      before.rejections == [] && step.reasons == [] ==>
        Fold(cx, m, init + [patch]) == Compiled(step.projected, before.changes + step.changes, [])
  {
    hide PatchOutcome;
    assert (init + [patch])[..|init|] == init;
  }

  lemma ArchivesOfOn(init: Corpus, last: Loaded)
    ensures ArchivesOf(init + [last]) == ArchivesOf(init) + [Archive(last.doc.id)]
  {
  }

  lemma DeletesOfOn(archived: Corpus, init: Corpus, last: Loaded)
    ensures PlanOf(Proposal(archived, init + [last])) == PlanOf(Proposal(archived, init)) + [Delete(last.doc.id)]
  {
    assert DeletesOf(init + [last]) == DeletesOf(init) + [Delete(last.doc.id)];
  }

  lemma FoldNothing(cx: Context, m: Ids)
    ensures FoldsTo(cx, m, Fold(cx, m, []), [], [], []) && FirstNames(cx, [], [])
  {
  }

  /** The name an archived memory gets unless it is in use: the slug of its title. */
  function ArchiveName(cx: Context, doc: Doc): Path {
    ARCHIVE_PREFIX + cx.policy.slug(doc.title) + ".md"
  }

  /** No two archived memories ask for one name, and the names are not on disk. */
  ghost predicate NamesFree(cx: Context, archived: Corpus) {
    && (forall i | 0 <= i < |archived| :: ArchiveName(cx, archived[i].doc) !in cx.tree)
    && (forall i, j | 0 <= i < j < |archived| :: ArchiveName(cx, archived[i].doc) != ArchiveName(cx, archived[j].doc))
  }

  ghost predicate FirstNames(cx: Context, archived: Corpus, dests: seq<Path>) {
    |dests| == |archived| && forall i | 0 <= i < |dests| :: dests[i] == ArchiveName(cx, archived[i].doc)
  }

  lemma FreeNameIsTaken(cx: Context, m: Ids, init: Corpus, dests: seq<Path>, projected: Ids, last: Loaded)
    requires Describes(m, cx.tree) && FirstNames(cx, init, dests) && Moved(m, init, dests, [], projected)
    requires NamesFree(cx, init + [last]) && forall at | at in init :: at.doc.id in m
    ensures ArchivePath(cx, projected, last.doc) == ArchiveName(cx, last.doc)
  {
    hide IsArchived;
    hide NamesFree;
    var name := ArchiveName(cx, last.doc);
    NameApart(cx, init, last);
    forall id | id in projected ensures projected[id].path != name {
      if i :| 0 <= i < |init| && init[i].doc.id == id {
        assert init[i] in init;
      } else {
        assert Holds(cx.tree, m[id].path, id);
      }
    }
  }

  lemma OneMoreName(cx: Context, init: Corpus, dests: seq<Path>, last: Loaded)
    requires FirstNames(cx, init, dests)
    ensures FirstNames(cx, init + [last], dests + [ArchiveName(cx, last.doc)])
  {
    hide ArchiveName;
  }

  lemma NameApart(cx: Context, init: Corpus, last: Loaded)
    requires NamesFree(cx, init + [last])
    ensures NamesFree(cx, init) && ArchiveName(cx, last.doc) !in cx.tree
    ensures forall i | 0 <= i < |init| :: ArchiveName(cx, init[i].doc) != ArchiveName(cx, last.doc)
  {
    hide ArchiveName;
    var all := init + [last];
    assert all[|init|] == last && forall i | 0 <= i < |init| :: all[i] == init[i];
  }

  /** What the fold has not come to is where it was. */
  lemma NotYetMoved(cx: Context, m: Ids, before: Compiled, init: Corpus, dests: seq<Path>, last: Loaded)
    requires FoldsTo(cx, m, before, init, dests, []) && last.doc.id in m && !Names(init, last.doc.id)
    ensures before.rejections == [] && last.doc.id in before.projected
    ensures before.projected[last.doc.id] == m[last.doc.id] && Moved(m, init, dests, [], before.projected)
  {
  }

  lemma {:induction false} FoldArchives(cx: Context, m: Ids, archived: Corpus) returns (dests: seq<Path>)
    requires Describes(m, cx.tree) && Distinct(archived)
    requires forall at | at in archived :: MayBeArchived(m, cx.tree, at)
    ensures FoldsTo(cx, m, Fold(cx, m, ArchivesOf(archived)), archived, dests, [])
    ensures NamesFree(cx, archived) ==> FirstNames(cx, archived, dests)
  {
    hide PatchOutcome, NamesFree, ArchivePath, ArchiveName, FoldsTo, Moved, FirstNames, Fold, IsArchived, Names;
    if archived == [] {
      dests := [];
      FoldNothing(cx, m);
      assert ArchivesOf(archived) == [];
    } else {
      var init, last := archived[..|archived| - 1], archived[|archived| - 1];
      assert archived == init + [last] && last in archived;
      DistinctNames(init, last);
      dests := FoldArchives(cx, m, init);
      var before := Fold(cx, m, ArchivesOf(init));
      NotYetMoved(cx, m, before, init, dests, last);
      var to := ArchiveStep(cx, m, before.projected, last);
      if NamesFree(cx, archived) {
        NameApart(cx, init, last);
        forall at | at in init ensures at.doc.id in m { assert at in archived; }
        FreeNameIsTaken(cx, m, init, dests, before.projected, last);
        OneMoreName(cx, init, dests, last);
      }
      FoldOn(cx, m, ArchivesOf(init), Archive(last.doc.id));
      MovedChanges(cx, m, before, init, dests, last, to);
      dests := dests + [to];
      ArchivesOfOn(init, last);
    }
  }

  lemma {:induction false} FoldProposal(cx: Context, m: Ids, archived: Corpus, collected: Corpus)
    returns (dests: seq<Path>)
    requires Describes(m, cx.tree) && cx.job == JOB && Distinct(archived) && Distinct(collected)
    requires forall at | at in archived :: MayBeArchived(m, cx.tree, at)
    requires forall at | at in collected :: MayBeDeleted(cx, m, at)
    ensures FoldsTo(cx, m, Fold(cx, m, PlanOf(Proposal(archived, collected))), archived, dests, collected)
    ensures NamesFree(cx, archived) ==> FirstNames(cx, archived, dests)
  {
    hide PatchOutcome;
    hide NamesFree;
    hide FirstNames;
    if collected == [] {
      dests := FoldArchives(cx, m, archived);
      assert PlanOf(Proposal(archived, [])) == ArchivesOf(archived);
    } else {
      var init, last := collected[..|collected| - 1], collected[|collected| - 1];
      assert collected == init + [last] && last in collected;
      DistinctNames(init, last);
      NotBoth(cx, m, archived, last);
      dests := FoldProposal(cx, m, archived, init);
      var before := Fold(cx, m, PlanOf(Proposal(archived, init)));
      DeleteStep(cx, m, before.projected, last);
      FoldOn(cx, m, PlanOf(Proposal(archived, init)), Delete(last.doc.id));
      RemovedChanges(cx, m, before, archived, dests, init, last);
      DeletesOfOn(archived, init, last);
    }
  }

  lemma NotBoth(cx: Context, m: Ids, archived: Corpus, at: Loaded)
    requires forall a | a in archived :: MayBeArchived(m, cx.tree, a)
    requires MayBeDeleted(cx, m, at)
    ensures !Names(archived, at.doc.id)
  {
    forall i | 0 <= i < |archived| ensures archived[i].doc.id != at.doc.id {
      assert MayBeArchived(m, cx.tree, archived[i]);
    }
  }

  // ----- what the fold's changes are

  lemma {:induction false} MoveChangesMembers(cx: Context, archived: Corpus, dests: seq<Path>, c: Change)
    requires |dests| == |archived|
    ensures c in MoveChanges(cx, archived, dests) <==>
            exists i :: 0 <= i < |archived|
                        && (c == Write(dests[i], Memory(Archived(cx, archived[i]))) || c == Remove(archived[i].path))
  {
    if archived != [] {
      var k := |archived| - 1;
      MoveChangesMembers(cx, archived[..k], dests[..k], c);
      if c in MoveChanges(cx, archived[..k], dests[..k]) {
        var i :| 0 <= i < k && (|| c == Write(dests[..k][i], Memory(Archived(cx, archived[..k][i])))
                                || c == Remove(archived[..k][i].path));
        assert dests[i] == dests[..k][i] && archived[i] == archived[..k][i];
      }
      if i :| 0 <= i < k && (|| c == Write(dests[i], Memory(Archived(cx, archived[i])))
                             || c == Remove(archived[i].path)) {
        assert dests[i] == dests[..k][i] && archived[i] == archived[..k][i];
      }
    }
  }

  lemma RemoveChangesMembers(collected: Corpus, c: Change)
    ensures c in RemoveChanges(collected) <==> exists i :: 0 <= i < |collected| && c == Remove(collected[i].path)
  {
    if i :| 0 <= i < |collected| && c == Remove(collected[i].path) {
      assert RemoveChanges(collected)[i] == c;
    }
  }

  ghost function PathSet(s: Corpus): set<Path> {
    set at | at in s :: at.path
  }

  ghost function DestSet(dests: seq<Path>): set<Path> {
    set p | p in dests
  }

  lemma TouchedPaths(cx: Context, m: Ids, out: Compiled, archived: Corpus, dests: seq<Path>, collected: Corpus)
    requires FoldsTo(cx, m, out, archived, dests, collected)
    ensures Touched(out.changes) == DestSet(dests) + PathSet(archived) + PathSet(collected)
  {
    hide Moved, Archived;
    forall c | c in out.changes ensures c.path in DestSet(dests) + PathSet(archived) + PathSet(collected) {
      MoveChangesMembers(cx, archived, dests, c);
      RemoveChangesMembers(collected, c);
    }
    forall i | 0 <= i < |dests| ensures dests[i] in Touched(out.changes) && archived[i].path in Touched(out.changes) {
      var write, remove := Write(dests[i], Memory(Archived(cx, archived[i]))), Remove(archived[i].path);
      MoveChangesMembers(cx, archived, dests, write);
      MoveChangesMembers(cx, archived, dests, remove);
      assert write in out.changes && remove in out.changes;
    }
    forall i | 0 <= i < |collected| ensures collected[i].path in Touched(out.changes) {
      RemoveChangesMembers(collected, Remove(collected[i].path));
      assert Remove(collected[i].path) in out.changes;
    }
  }

  lemma {:induction false} PathSetSize(s: Corpus)
    ensures |PathSet(s)| <= |s|
    ensures (forall i, j | 0 <= i < j < |s| :: s[i].path != s[j].path) ==> |PathSet(s)| == |s|
  {
    if s != [] {
      var init, last := s[..|s| - 1], s[|s| - 1];
      PathSetSize(init);
      assert s == init + [last];
      assert PathSet(s) == PathSet(init) + {last.path};
      if forall i, j | 0 <= i < j < |s| :: s[i].path != s[j].path {
        assert last.path !in PathSet(init);
      }
    }
  }

  lemma {:induction false} DestSetSize(s: seq<Path>)
    ensures |DestSet(s)| <= |s|
    ensures (forall i, j | 0 <= i < j < |s| :: s[i] != s[j]) ==> |DestSet(s)| == |s|
  {
    if s != [] {
      var init, last := s[..|s| - 1], s[|s| - 1];
      DestSetSize(init);
      assert s == init + [last];
      assert DestSet(s) == DestSet(init) + {last};
      if forall i, j | 0 <= i < j < |s| :: s[i] != s[j] {
        assert last !in DestSet(init);
      }
    }
  }

  // ----- the main results

  lemma ProposalFolds(s: Situation) returns (dests: seq<Path>)
    requires s.Valid()
    ensures FoldsTo(s.cx, s.m, s.Out(), s.Proposed().archived, dests, s.Proposed().collected)
    ensures NamesFree(s.cx, s.Proposed().archived) ==> FirstNames(s.cx, s.Proposed().archived, dests)
  {
    ProposedFacts(s);
    dests := FoldProposal(s.cx, s.m, s.Proposed().archived, s.Proposed().collected);
  }

  /** When the archived memories' titles give names that are free, the plan keeps its written paths apart. */
  lemma FreeNamesKeepApart(s: Situation)
    requires s.Valid() && NamesFree(s.cx, s.Proposed().archived)
    ensures PathsApart(s.cx.tree, s.Out().changes)
  {
    hide NamesFree;
    var dests := ProposalFolds(s);
    WrittenAtFreeNames(s.cx, s.m, s.Out(), s.Proposed().archived, dests, s.Proposed().collected);
  }

  lemma WrittenAtFreeNames(cx: Context, m: Ids, out: Compiled, archived: Corpus, dests: seq<Path>, collected: Corpus)
    requires FoldsTo(cx, m, out, archived, dests, collected)
    requires NamesFree(cx, archived) && FirstNames(cx, archived, dests)
    ensures PathsApart(cx.tree, out.changes)
  {
    hide ArchiveName;
    forall p, d | Write(p, Memory(d)) in out.changes ensures WrittenOnce(cx, archived, p, d) {
      MoveChangesMembers(cx, archived, dests, Write(p, Memory(d)));
      RemoveChangesMembers(collected, Write(p, Memory(d)));
    }
    forall p, d, e | Write(p, Memory(d)) in out.changes && Write(p, Memory(e)) in out.changes ensures d.id == e.id {
      assert WrittenOnce(cx, archived, p, d) && WrittenOnce(cx, archived, p, e);
    }
    forall p, d | Write(p, Memory(d)) in out.changes ensures p !in cx.tree {
      assert WrittenOnce(cx, archived, p, d);
    }
  }

  ghost predicate WrittenOnce(cx: Context, archived: Corpus, p: Path, d: Doc) {
    exists i :: 0 <= i < |archived| && p == ArchiveName(cx, archived[i].doc) && d == Archived(cx, archived[i])
  }

  /** Every patch the run proposes compiles; the files of the plan are at most two per archive and one per delete. */
  lemma ProposalCompiles(s: Situation)
    requires s.Valid()
    ensures s.Out().rejections == []
    ensures |Touched(s.Out().changes)| <= 2 * |s.Proposed().archived| + |s.Proposed().collected|
  {
    var p := s.Proposed();
    var dests := ProposalFolds(s);
    TouchedPaths(s.cx, s.m, s.Out(), p.archived, dests, p.collected);
    DestSetSize(dests);
    PathSetSize(p.archived);
    PathSetSize(p.collected);
  }

  /** Destinations nobody else claims: distinct from each other and from every path the plan removes. */
  lemma DestsApart(cx: Context, m: Ids, out: Compiled, archived: Corpus, dests: seq<Path>, collected: Corpus)
    requires FoldsTo(cx, m, out, archived, dests, collected) && PathsApart(cx.tree, out.changes)
    requires Distinct(archived)
    requires forall at | at in archived :: MayBeArchived(m, cx.tree, at)
    requires forall at | at in collected :: MayBeDeleted(cx, m, at)
    ensures forall i, j | 0 <= i < j < |dests| :: dests[i] != dests[j]
    ensures DestSet(dests) !! PathSet(collected) && DestSet(dests) !! PathSet(archived)
    ensures PathSet(archived) !! PathSet(collected)
  {
    forall i | 0 <= i < |dests| ensures Write(dests[i], Memory(Archived(cx, archived[i]))) in out.changes {
      MoveChangesMembers(cx, archived, dests, Write(dests[i], Memory(Archived(cx, archived[i]))));
    }
    forall i, j | 0 <= i < j < |dests| ensures dests[i] != dests[j] {
      assert archived[i].doc.id != archived[j].doc.id;
      assert Archived(cx, archived[i]).id == archived[i].doc.id && Archived(cx, archived[j]).id == archived[j].doc.id;
    }
    forall i, c | 0 <= i < |dests| && c in collected ensures dests[i] != c.path {
      assert MayBeDeleted(cx, m, c) && MayBeArchived(m, cx.tree, archived[i]);
    }
  }

  lemma CountApart(cx: Context, m: Ids, out: Compiled, archived: Corpus, dests: seq<Path>, collected: Corpus)
    requires FoldsTo(cx, m, out, archived, dests, collected) && PathsApart(cx.tree, out.changes)
    requires Distinct(archived) && Distinct(collected)
    requires forall at | at in archived :: MayBeArchived(m, cx.tree, at)
    requires forall at | at in collected :: MayBeDeleted(cx, m, at)
    ensures |Touched(out.changes)| == 2 * |archived| + |collected|
  {
    DestsApart(cx, m, out, archived, dests, collected);
    TouchedPaths(cx, m, out, archived, dests, collected);
    EntryPathsDiffer(archived, m, cx.tree);
    EntryPathsDiffer(collected, m, cx.tree);
    DestSetSize(dests);
    PathSetSize(archived);
    PathSetSize(collected);
  }

  /** When the written paths are apart the count is exact, so a plan of 13 archives cannot fit a cap of 25. */
  lemma TouchesExactly(s: Situation)
    requires s.Valid() && PathsApart(s.cx.tree, s.Out().changes)
    ensures |Touched(s.Out().changes)| == 2 * |s.Proposed().archived| + |s.Proposed().collected|
  {
    hide PatchOutcome;
    hide Fold;
    hide Touched;
    hide FoldsTo;
    hide PathsApart;
    var dests := ProposalFolds(s);
    ProposedFacts(s);
    CountApart(s.cx, s.m, s.Out(), s.Proposed().archived, dests, s.Proposed().collected);
  }

  lemma EntryPathsDiffer(s: Corpus, m: Ids, tree: Tree)
    requires Distinct(s) && forall at | at in s :: IsEntry(at, m, tree)
    ensures forall i, j | 0 <= i < j < |s| :: s[i].path != s[j].path
  {
    forall i, j | 0 <= i < j < |s| ensures s[i].path != s[j].path {
      assert IsEntry(s[i], m, tree) && IsEntry(s[j], m, tree);
    }
  }

  /** A link that resolved to a memory the plan leaves alone, or by id to the linking memory itself, still resolves. */
  lemma LinkStillResolves(m: Ids, archived: Corpus, dests: seq<Path>, collected: Corpus, after: Ids, target: string,
                          id: Id)
    requires |dests| == |archived| && Moved(m, archived, dests, collected, after)
    requires Answers(m, target, id) && !Names(collected, id)
    requires Names(archived, id) ==> IsMemoryId(Strip(target))
    ensures Resolves(after, target)
  {
    if !Names(archived, id) {
      StillResolves(m, after, target, id);
    } else {
      var i :| 0 <= i < |archived| && archived[i].doc.id == id;
      assert after[id].supersedes == m[id].supersedes;
      if Strip(target) in after {
        assert Answers(after, target, Strip(target));
      } else {
        assert Answers(after, target, id);
      }
    }
  }

  lemma LinkedUntouched(s: Situation, id: Id)
    requires s.Valid() && id in s.linked
    ensures !Names(s.Proposed().archived, id) && !Names(s.Proposed().collected, id)
  {
    ProposedFacts(s);
    var p := s.Proposed();
    forall i | 0 <= i < |p.archived| ensures p.archived[i].doc.id != id { assert p.archived[i] in p.archived; }
    forall i | 0 <= i < |p.collected| ensures p.collected[i].doc.id != id { assert p.collected[i] in p.collected; }
  }

  lemma NotCollected(s: Situation, at: Loaded)
    requires s.Valid() && at in s.corpus && !IsArchived(at.path)
    ensures !Names(s.Proposed().collected, at.doc.id)
  {
    ProposedFacts(s);
    var p := s.Proposed();
    forall i | 0 <= i < |p.collected| ensures p.collected[i].doc.id != at.doc.id {
      assert IsEntry(p.collected[i], s.m, s.cx.tree) && IsEntry(at, s.m, s.cx.tree);
    }
  }

  lemma ResolvedByLink(s: Situation, from: Loaded, target: string) returns (id: Id)
    requires s.Valid() && from in s.corpus && !IsArchived(from.path) && target in from.doc.body.links
    requires Resolves(s.m, target)
    ensures Answers(s.m, target, id) && (id in s.linked || id == from.doc.id)
  {
    assert LinkProtects(s.m, from.doc, target, s.linked);
    DescribedIsInjective(s.m, s.cx.tree);
    id :| ResolvesVia(s.m, target, id) && (id in s.linked || id == from.doc.id);
    var k :| Answers(s.m, target, k) && IsIdAt(s.m, s.m[k].path, id);
    assert k == id;
  }

  /** A path link that may lead back to the memory it is written in. */
  ghost predicate LeadsBack(m: Ids, from: Doc, target: string) {
    !IsMemoryId(Strip(target)) && Answers(m, target, from.id)
  }

  /**
   * Links survive forgetting: a target written in a live memory that resolved before still
   * resolves after the plan, unless the memory itself is being archived and the link is a path
   * that leads back to it.
   */
  lemma LinksSurvive(s: Situation, from: Loaded, target: string)
    requires s.Valid() && from in s.corpus && !IsArchived(from.path) && target in from.doc.body.links
    requires Resolves(s.m, target)
    requires Names(s.Proposed().archived, from.doc.id) ==> !LeadsBack(s.m, from.doc, target)
    ensures Resolves(s.Out().projected, target)
  {
    var dests := ProposalFolds(s);
    var id := ResolvedByLink(s, from, target);
    NotCollected(s, from);
    if id in s.linked {
      LinkedUntouched(s, id);
    }
    LinkStillResolves(s.m, s.Proposed().archived, dests, s.Proposed().collected, s.Out().projected, target, id);
  }

  // ----- when the compiler accepts the proposal

  ghost predicate ArchivedLinksResolve(s: Situation) {
    forall at, t | at in s.Proposed().archived && t in at.doc.body.links :: Resolves(s.Out().projected, t)
  }

  ghost predicate ArchivedHoldNoSecret(s: Situation) {
    forall at | at in s.Proposed().archived :: !s.cx.policy.secret(Archived(s.cx, at))
  }

  /** No memory that stays in the archive links by id to a collected one. */
  ghost predicate ArchiveLetsGo(s: Situation) {
    var collected := s.Proposed().collected;
    forall c, k | c in collected && k in s.corpus && IsArchived(k.path) && !Names(collected, k.doc.id) ::
      c.doc.id !in k.doc.body.links
  }

  lemma WritesAreArchives(cx: Context, m: Ids, out: Compiled, archived: Corpus, dests: seq<Path>, collected: Corpus)
    requires FoldsTo(cx, m, out, archived, dests, collected)
    ensures WritesExactly(cx, out.changes, archived)
  {
    forall c | c in out.changes && c.Write? ensures exists at :: at in archived && c.file == Memory(Archived(cx, at)) {
      MoveChangesMembers(cx, archived, dests, c);
      RemoveChangesMembers(collected, c);
      var i :| 0 <= i < |archived| && c == Write(dests[i], Memory(Archived(cx, archived[i])));
      assert archived[i] in archived;
    }
    forall at | at in archived ensures exists p :: Write(p, Memory(Archived(cx, at))) in out.changes {
      var i :| 0 <= i < |archived| && archived[i] == at;
      MoveChangesMembers(cx, archived, dests, Write(dests[i], Memory(Archived(cx, at))));
      assert Write(dests[i], Memory(Archived(cx, at))) in out.changes;
    }
  }

  /** The changes write each archived memory's copy and nothing else. */
  ghost predicate WritesExactly(cx: Context, changes: seq<Change>, archived: Corpus) {
    && (forall c | c in changes && c.Write? :: exists at :: at in archived && c.file == Memory(Archived(cx, at)))
    && (forall at | at in archived :: exists p :: Write(p, Memory(Archived(cx, at))) in changes)
  }

  lemma WriteRules(s: Situation)
    requires s.Valid()
    ensures WritesResolve(s.Out().projected, s.Out().changes) <==> ArchivedLinksResolve(s)
    ensures NoSecrets(s.cx, s.Out().changes) <==> ArchivedHoldNoSecret(s)
  {
    hide PatchOutcome;
    hide Fold;
    hide WritesResolve;
    hide NoSecrets;
    hide Archived;
    var dests := ProposalFolds(s);
    var p, out := s.Proposed(), s.Out();
    WritesAreArchives(s.cx, s.m, out, p.archived, dests, p.collected);
    LinksRule(s.cx, out.projected, out.changes, p.archived);
    SecretsRule(s.cx, out.changes, p.archived);
  }

  lemma LinksRule(cx: Context, projected: Ids, changes: seq<Change>, archived: Corpus)
    requires WritesExactly(cx, changes, archived)
    ensures WritesResolve(projected, changes)
       <==> forall at, t | at in archived && t in at.doc.body.links :: Resolves(projected, t)
  {
    hide Resolves;
    assert forall at :: Archived(cx, at).body.links == at.doc.body.links;
    if WritesResolve(projected, changes) {
      forall at, t | at in archived && t in at.doc.body.links ensures Resolves(projected, t) {
        var path :| Write(path, Memory(Archived(cx, at))) in changes;
        assert t in Archived(cx, at).body.links;
      }
    }
    if forall at, t | at in archived && t in at.doc.body.links :: Resolves(projected, t) {
      forall c, t | c in changes && c.Write? && c.file.Memory? && t in c.file.doc.body.links
        ensures Resolves(projected, t)
      {
        var at :| at in archived && c.file == Memory(Archived(cx, at));
        assert t in at.doc.body.links;
      }
    }
  }

  lemma SecretsRule(cx: Context, changes: seq<Change>, archived: Corpus)
    requires WritesExactly(cx, changes, archived)
    ensures NoSecrets(cx, changes) <==> forall at | at in archived :: !cx.policy.secret(Archived(cx, at))
  {
    hide Archived;
    if NoSecrets(cx, changes) {
      forall at | at in archived ensures !cx.policy.secret(Archived(cx, at)) {
        var path :| Write(path, Memory(Archived(cx, at))) in changes;
      }
    }
  }

  lemma DeletesInPlan(p: Proposal, id: Id)
    ensures Delete(id) in PlanOf(p) <==> Names(p.collected, id)
  {
    if Delete(id) in PlanOf(p) {
      var i :| 0 <= i < |PlanOf(p)| && PlanOf(p)[i] == Delete(id);
      assert p.collected[i - |p.archived|].doc.id == id;
    }
    if i :| 0 <= i < |p.collected| && p.collected[i].doc.id == id {
      assert PlanOf(p)[|p.archived| + i] == Delete(id);
    }
  }

  /** A live memory never links by id to a collected one: the link would have protected it. */
  lemma LiveLetsGo(s: Situation, k: Loaded, id: Id)
    requires s.Valid() && k in s.corpus && !IsArchived(k.path) && Names(s.Proposed().collected, id)
    ensures id !in k.doc.body.links
  {
    NotCollected(s, k);
    ProposedFacts(s);
    var i :| 0 <= i < |s.Proposed().collected| && s.Proposed().collected[i].doc.id == id;
    assert s.Proposed().collected[i] in s.corpus && IsEntry(s.Proposed().collected[i], s.m, s.cx.tree);
    if id in k.doc.body.links {
      assert LinkProtects(s.m, k.doc, id, s.linked);
      LinkedUntouched(s, id);
    }
  }

  /** A file on the old disk at a projected path is a memory the plan left in place. */
  lemma OnDiskMeansUntouched(cx: Context, m: Ids, out: Compiled, archived: Corpus, dests: seq<Path>, collected: Corpus,
                             k: Loaded)
    requires Describes(m, cx.tree) && IsEntry(k, m, cx.tree)
    requires PathsApart(cx.tree, out.changes) && FoldsTo(cx, m, out, archived, dests, collected)
    requires k.doc.id in out.projected && out.projected[k.doc.id].path in cx.tree
    requires cx.tree[out.projected[k.doc.id].path].Memory?
    ensures !Names(collected, k.doc.id)
    ensures Memory(k.doc) == cx.tree[out.projected[k.doc.id].path]
  {
    if Names(archived, k.doc.id) {
      var i :| 0 <= i < |archived| && archived[i].doc.id == k.doc.id;
      MoveChangesMembers(cx, archived, dests, Write(dests[i], Memory(Archived(cx, archived[i]))));
      assert Write(dests[i], Memory(Archived(cx, archived[i]))) in out.changes;
    }
  }

  lemma LetGoMeansUnlinked(s: Situation, out: Compiled, dests: seq<Path>, id: Id)
    requires s.Valid() && PathsApart(s.cx.tree, out.changes) && ArchiveLetsGo(s)
    requires FoldsTo(s.cx, s.m, out, s.Proposed().archived, dests, s.Proposed().collected)
    requires Names(s.Proposed().collected, id)
    ensures NoInbound(s.cx, out.projected, id)
  {
    var p := s.Proposed();
    ProposedFacts(s);
    forall k | k in out.projected && out.projected[k].path in s.cx.tree && s.cx.tree[out.projected[k].path].Memory?
      ensures id !in s.cx.tree[out.projected[k].path].doc.body.links
    {
      var at :| at in s.corpus && at.doc.id == k;
      assert IsEntry(at, s.m, s.cx.tree);
      OnDiskMeansUntouched(s.cx, s.m, out, p.archived, dests, p.collected, at);
      if IsArchived(at.path) {
        var i :| 0 <= i < |p.collected| && p.collected[i].doc.id == id;
        assert p.collected[i] in p.collected;
      } else {
        LiveLetsGo(s, at, id);
      }
    }
  }

  lemma UnlinkedMeansLetGo(s: Situation, out: Compiled, dests: seq<Path>, c: Loaded, k: Loaded)
    requires s.Valid() && c in s.Proposed().collected && NoInbound(s.cx, out.projected, c.doc.id)
    requires FoldsTo(s.cx, s.m, out, s.Proposed().archived, dests, s.Proposed().collected)
    requires k in s.corpus && IsArchived(k.path) && !Names(s.Proposed().collected, k.doc.id)
    ensures c.doc.id !in k.doc.body.links
  {
    ProposedFacts(s);
    KeptArchive(s.cx, s.m, out, s.Proposed().archived, dests, s.Proposed().collected, k);
  }

  lemma LetGoRule(s: Situation, out: Compiled, dests: seq<Path>)
    requires s.Valid() && PathsApart(s.cx.tree, out.changes)
    requires FoldsTo(s.cx, s.m, out, s.Proposed().archived, dests, s.Proposed().collected)
    ensures ArchiveLetsGo(s) <==> forall id | Names(s.Proposed().collected, id) :: NoInbound(s.cx, out.projected, id)
  {
    var p := s.Proposed();
    if ArchiveLetsGo(s) {
      forall id | Names(p.collected, id) ensures NoInbound(s.cx, out.projected, id) {
        LetGoMeansUnlinked(s, out, dests, id);
      }
    }
    if forall id | Names(p.collected, id) :: NoInbound(s.cx, out.projected, id) {
      forall c, k | c in p.collected && k in s.corpus && IsArchived(k.path) && !Names(p.collected, k.doc.id)
        ensures c.doc.id !in k.doc.body.links
      {
        NamedIfIn(p.collected, c);
        UnlinkedMeansLetGo(s, out, dests, c, k);
      }
    }
  }

  lemma NamedIfIn(s: Corpus, at: Loaded)
    requires at in s
    ensures Names(s, at.doc.id)
  {
    var i :| 0 <= i < |s| && s[i] == at;
  }

  lemma DeleteRule(s: Situation)
    requires s.Valid() && PathsApart(s.cx.tree, s.Out().changes)
    ensures DeletesUnlinked(s.cx, s.Out().projected, PlanOf(s.Proposed())) <==> ArchiveLetsGo(s)
  {
    var dests := ProposalFolds(s);
    LetGoRule(s, s.Out(), dests);
    DeletesAre(s.cx, s.Out().projected, s.Proposed());
  }

  lemma DeletesAre(cx: Context, projected: Ids, p: Proposal)
    ensures DeletesUnlinked(cx, projected, PlanOf(p))
       <==> forall id | Names(p.collected, id) :: NoInbound(cx, projected, id)
  {
    forall id ensures Delete(id) in PlanOf(p) <==> Names(p.collected, id) { DeletesInPlan(p, id); }
  }

  lemma KeptArchive(cx: Context, m: Ids, out: Compiled, archived: Corpus, dests: seq<Path>, collected: Corpus,
                    k: Loaded)
    requires FoldsTo(cx, m, out, archived, dests, collected) && IsEntry(k, m, cx.tree)
    requires IsArchived(k.path) && !Names(collected, k.doc.id)
    requires forall at | at in archived :: IsEntry(at, m, cx.tree) && !IsArchived(at.path)
    ensures k.doc.id in out.projected && out.projected[k.doc.id] == m[k.doc.id]
  {
    forall i | 0 <= i < |archived| ensures archived[i].doc.id != k.doc.id {
      assert archived[i] in archived;
    }
  }

  /**
   * When the compiler accepts the plan `forget` proposes, exactly: the plan fits the cap, every
   * link of a newly archived memory still resolves, no newly archived memory holds a secret, and
   * no memory staying in the archive links by id to a collected one.
   */
  lemma ProposalAccepted(s: Situation)
    requires s.Valid() && PathsApart(s.cx.tree, s.Out().changes)
    ensures Accepts(s.cx, s.m, PlanOf(s.Proposed())) <==>
            && 2 * |s.Proposed().archived| + |s.Proposed().collected| <= s.cx.policy.maxFilesPerCommit
            && ArchivedLinksResolve(s) && ArchivedHoldNoSecret(s) && ArchiveLetsGo(s)
  {
    ProposalCompiles(s);
    TouchesExactly(s);
    WriteRules(s);
    DeleteRule(s);
  }

  // ----- the same, in terms of what is there before the plan

  ghost predicate Reaches(t: string, path: Path) {
    path in Candidates(t) || Stem(path) == RemoveSuffix(Name(t), ".md")
  }

  lemma PathResolves(m: Ids, target: string)
    requires !IsMemoryId(Strip(target))
    ensures Resolves(m, target) <==> Strip(target) != "" && exists k :: k in m && Reaches(Strip(target), m[k].path)
  {
    hide Candidates, Stem, Name;
    var t := Strip(target);
    if k :| k in m && Reaches(t, m[k].path) && t != "" {
      if j :| j in m && m[j].path in Candidates(t) {
        assert Answers(m, target, j);
      } else {
        assert Answers(m, target, k);
      }
    }
    if k :| Answers(m, target, k) {
      assert Reaches(t, m[k].path);
    }
  }

  /** A memory the plan leaves where it is. */
  ghost predicate Stays(s: Situation, at: Loaded) {
    at in s.corpus && !Names(s.Proposed().archived, at.doc.id) && !Names(s.Proposed().collected, at.doc.id)
  }

  /**
   * Where a link out of a live memory will lead: by id wherever it led before; by path to a memory that stays
   * where it is, or to one of the names the archived memories take.
   */
  ghost predicate WillResolve(s: Situation, target: string) {
    var t := Strip(target);
    if IsMemoryId(t) then Resolves(s.m, target)
    else (
      && t != ""
      && (|| (exists at :: Stays(s, at) && Reaches(t, at.path))
          || (exists at :: at in s.Proposed().archived && Reaches(t, ArchiveName(s.cx, at.doc)))))
  }

  /** Nothing is gained by forgetting: an id link that resolves afterwards resolved before. */
  lemma IdLinkBefore(m: Ids, archived: Corpus, dests: seq<Path>, collected: Corpus, after: Ids, target: string)
    requires |dests| == |archived| && Moved(m, archived, dests, collected, after)
    requires IsMemoryId(Strip(target)) && Resolves(after, target)
    ensures Resolves(m, target)
  {
    var id :| Answers(after, target, id);
    assert after[id].supersedes == m[id].supersedes by { SupersedesKept(m, archived, dests, collected, after, id); }
    if Strip(target) in m {
      assert Answers(m, target, Strip(target));
    } else {
      assert Answers(m, target, id);
    }
  }

  lemma SupersedesKept(m: Ids, archived: Corpus, dests: seq<Path>, collected: Corpus, after: Ids, id: Id)
    requires |dests| == |archived| && Moved(m, archived, dests, collected, after) && id in after
    ensures after[id].supersedes == m[id].supersedes
  {
    if i :| 0 <= i < |archived| && archived[i].doc.id == id {
      assert archived[i].doc.id in m;
    }
  }

  /** Where every memory of the projection lives. */
  lemma PathsAfter(s: Situation, out: Compiled, dests: seq<Path>, k: Id)
    requires IsCorpus(s.corpus, s.m, s.cx.tree) && FirstNames(s.cx, s.Proposed().archived, dests)
    requires FoldsTo(s.cx, s.m, out, s.Proposed().archived, dests, s.Proposed().collected)
    requires k in out.projected
    ensures || (exists at :: Stays(s, at) && at.path == out.projected[k].path)
            || (exists at :: at in s.Proposed().archived && ArchiveName(s.cx, at.doc) == out.projected[k].path)
  {
    hide Situation.Proposed, ArchiveName;
    var archived := s.Proposed().archived;
    if i :| 0 <= i < |archived| && archived[i].doc.id == k {
      assert archived[i] in archived;
    } else {
      var at :| at in s.corpus && at.doc.id == k;
      assert IsEntry(at, s.m, s.cx.tree) && Stays(s, at);
    }
  }

  lemma StayingPath(s: Situation, out: Compiled, dests: seq<Path>, at: Loaded)
    requires IsCorpus(s.corpus, s.m, s.cx.tree) && Stays(s, at)
    requires FoldsTo(s.cx, s.m, out, s.Proposed().archived, dests, s.Proposed().collected)
    ensures at.doc.id in out.projected && out.projected[at.doc.id].path == at.path
  {
    hide Situation.Proposed;
    assert IsEntry(at, s.m, s.cx.tree);
  }

  lemma ArchivedPath(cx: Context, m: Ids, out: Compiled, archived: Corpus, dests: seq<Path>, collected: Corpus,
                     at: Loaded)
    requires FirstNames(cx, archived, dests) && FoldsTo(cx, m, out, archived, dests, collected)
    requires at in archived && at.doc.id in m && !Names(collected, at.doc.id)
    ensures at.doc.id in out.projected && out.projected[at.doc.id].path == ArchiveName(cx, at.doc)
  {
    hide ArchiveName;
    var i :| 0 <= i < |archived| && archived[i] == at;
  }

  lemma ValidCorpus(s: Situation)
    requires s.Valid()
    ensures IsCorpus(s.corpus, s.m, s.cx.tree)
  {
    hide IsCorpus, Describes, Protects;
  }

  lemma ArchivedStays(s: Situation, at: Loaded)
    requires s.Valid() && at in s.Proposed().archived
    ensures at.doc.id in s.m && !Names(s.Proposed().collected, at.doc.id)
  {
    hide Situation.Proposed;
    ProposedFacts(s);
    NotCollected(s, at);
    assert IsEntry(at, s.m, s.cx.tree);
  }

  /** A live memory's link, archived or not, resolves after the plan exactly when it leads somewhere that lasts. */
  lemma ResolvesAfter(s: Situation, from: Loaded, target: string)
    requires s.Valid() && NamesFree(s.cx, s.Proposed().archived)
    requires from in s.corpus && !IsArchived(from.path) && target in from.doc.body.links
    ensures Resolves(s.Out().projected, target) <==> WillResolve(s, target)
  {
    hide Situation.Out, Situation.Valid, Situation.Proposed;
    hide Resolves, NamesFree, ArchiveName, Reaches, FirstNames, Stays;
    var dests := ProposalFolds(s);
    var p, after := s.Proposed(), s.Out().projected;
    assert IsCorpus(s.corpus, s.m, s.cx.tree) by { ValidCorpus(s); }
    var t := Strip(target);
    if IsMemoryId(t) {
      if Resolves(s.m, target) {
        LinksSurvive(s, from, target);
      }
      if Resolves(after, target) {
        IdLinkBefore(s.m, p.archived, dests, p.collected, after, target);
      }
    } else {
      PathResolves(after, target);
      if t != "" && exists k :: k in after && Reaches(t, after[k].path) {
        var k :| k in after && Reaches(t, after[k].path);
        PathsAfter(s, s.Out(), dests, k);
      }
      if at :| Stays(s, at) && Reaches(t, at.path) {
        StayingPath(s, s.Out(), dests, at);
      }
      if at :| at in p.archived && Reaches(t, ArchiveName(s.cx, at.doc)) {
        ArchivedStays(s, at);
        ArchivedPath(s.cx, s.m, s.Out(), p.archived, dests, p.collected, at);
      }
    }
  }

  /**
   * When the compiler accepts the proposal, told from what is there before: the archived titles' names being
   * free, it is accepted exactly when it fits the cap, every link of a newly archived memory leads somewhere
   * that lasts, none of them holds a secret, and the archive lets go of what is collected.
   */
  lemma AcceptedBeforehand(s: Situation)
    requires s.Valid() && NamesFree(s.cx, s.Proposed().archived)
    ensures Accepts(s.cx, s.m, PlanOf(s.Proposed())) <==>
            && 2 * |s.Proposed().archived| + |s.Proposed().collected| <= s.cx.policy.maxFilesPerCommit
            && (forall at, t | at in s.Proposed().archived && t in at.doc.body.links :: WillResolve(s, t))
            && ArchivedHoldNoSecret(s) && ArchiveLetsGo(s)
  {
    hide Situation.Out, Situation.Valid, Situation.Proposed;
    hide NamesFree, Accepts, WillResolve, ArchivedHoldNoSecret, ArchiveLetsGo, PathsApart;
    FreeNamesKeepApart(s);
    ProposalAccepted(s);
    ProposedFacts(s);
    forall at, t | at in s.Proposed().archived && t in at.doc.body.links
      ensures Resolves(s.Out().projected, t) <==> WillResolve(s, t)
    {
      ResolvesAfter(s, at, t);
    }
  }

  /** The projection those results speak of is the manifest of the tree with the changes on it. */
  lemma ProjectionIsOnDisk(s: Situation)
    requires s.Valid() && PathsApart(s.cx.tree, s.Out().changes)
    ensures Describes(s.Out().projected, Replay(s.cx.tree, s.Out().changes))
  {
    hide PathsApart, Describes, Replay;
    ProposalCompiles(s);
    PlanKeeps(s.cx, s.m, PlanOf(s.Proposed()));
  }

  /** The links of a newly archived memory resolve afterwards if they did before and are not paths back to itself. */
  lemma ArchivedLinksKeepResolving(s: Situation)
    requires s.Valid()
    requires forall at, t | at in s.Proposed().archived && t in at.doc.body.links ::
      Resolves(s.m, t) && !LeadsBack(s.m, at.doc, t)
    ensures ArchivedLinksResolve(s)
  {
    ProposedFacts(s);
    forall at, t | at in s.Proposed().archived && t in at.doc.body.links ensures Resolves(s.Out().projected, t) {
      LinksSurvive(s, at, t);
    }
  }

  /** What the weekly plan takes, it takes after the grace period as well as the floor. */
  lemma TakenAfterGrace(policy: Policy, state: State, a: Attempt, s: Situation, id: Id, since: int)
    requires s.Valid() && s.cx == ContextOf(policy, state, a) && s.m == state.manifest && a.plan == PlanOf(s.Proposed())
    requires TakenBy(policy, state, a, id, since)
    ensures a.now >= since + policy.retentionFloor && a.now >= since + s.settings.archiveGrace
  {
    DeletesInPlan(s.Proposed(), id);
    var i :| 0 <= i < |s.Proposed().collected| && s.Proposed().collected[i].doc.id == id;
    CollectedIsOld(s, s.Proposed().collected[i]);
  }
}
