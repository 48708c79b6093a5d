/**
 * Three accounts of the manifest a plan leaves behind: the projection the compiler kept,
 * `changeset.project` of the changes, and a rebuild of the tree the changes produce.
 */
module PatchAgreement {
  import opened Changeset
  import opened Document
  import opened Layout
  import opened Manifests
  import opened Patch
  import opened Wrappers

  /** The changes remove only files that are there, and all three accounts agree. */
  ghost predicate Agree(m: Ids, tree: Tree, changes: seq<Change>, projected: Ids) {
    && AppliesCleanly(tree, changes)
    && (forall after | ProjectsTo(m, changes, after) :: after == projected)
    && Describes(projected, Replay(tree, changes))
  }

  ghost predicate AgreeAfter(cx: Context, m: Ids, plan: Plan) {
    Agree(m, cx.tree, Fold(cx, m, plan).changes, Fold(cx, m, plan).projected)
  }

  /** Replayed in order, no write lands on a file that then belongs to another memory. */
  predicate NoOverwrite(tree: Tree, changes: seq<Change>) {
    changes == [] ||
    (&& NoOverwrite(tree, changes[..|changes| - 1])
     && NoClash(Replay(tree, changes[..|changes| - 1]), changes[|changes| - 1]))
  }

  predicate NoClash(tree: Tree, change: Change) {
    change.Write? && change.file.Memory? && change.path in tree && tree[change.path].Memory?
    ==> tree[change.path].doc.id == change.file.doc.id
  }

  lemma {:induction false} NoOverwriteConcat(tree: Tree, a: seq<Change>, b: seq<Change>)
    ensures NoOverwrite(tree, a + b) <==> NoOverwrite(tree, a) && NoOverwrite(Replay(tree, a), b)
  {
    if b == [] {
      assert a + b == a;
    } else {
      assert (a + b)[..|a + b| - 1] == a + b[..|b| - 1];
      NoOverwriteConcat(tree, a, b[..|b| - 1]);
      ReplayConcat(tree, a, b[..|b| - 1]);
    }
  }

  lemma {:induction false} AgreeConcat(m: Ids, tree: Tree, a: seq<Change>, mid: Ids, b: seq<Change>, after: Ids)
    requires Agree(m, tree, a, mid)
    requires Agree(mid, Replay(tree, a), b, after)
    ensures Agree(m, tree, a + b, after)
  {
    ReplayConcat(tree, a, b);
    forall r | ProjectsTo(m, a + b, r) ensures r == after {
      var between := SplitProjection(m, a, b, r);
    }
  }

  /** Two memories at one path, both in the archive or both off the old disk: the rest of the patch leaves them so. */
  ghost predicate Clashing(m: Ids, a: Id, b: Id) {
    a != b && a in m && b in m && m[a].path == m[b].path
  }

  lemma ClashingIsNotDescribed(m: Ids, tree: Tree, a: Id, b: Id)
    requires Clashing(m, a, b)
    ensures !Describes(m, tree)
  {
    if Describes(m, tree) {
      DescribedIsInjective(m, tree);
    }
  }

  /** A path outside the archive that is on the old disk still names the memory it named there. */
  ghost predicate LivePathsAreOwn(cx: Context, m: Ids) {
    forall id | id in m && !IsArchived(m[id].path) && m[id].path in cx.tree && cx.tree[m[id].path].Memory? ::
      cx.tree[m[id].path].doc.id == id
  }

  // ----- one and two changes at a time

  lemma AgreeOne(m: Ids, tree: Tree, change: Change, after: Ids)
    requires change.Remove? ==> change.path in tree
    requires forall r | ProjectsOne(m, change, r) :: r == after
    requires Describes(after, ReplayOne(tree, change))
    ensures Agree(m, tree, [change], after)
  {
    ReplaySingle(tree, change);
    assert [] + [change] == [change];
    forall r | ProjectsTo(m, [change], r) ensures r == after {
      var mid := LastProjection(m, [], change, r);
    }
  }

  lemma AgreeTwo(m: Ids, tree: Tree, first: Change, second: Change, mid: Ids, after: Ids)
    requires first.Remove? ==> first.path in tree
    requires second.Remove? ==> second.path in ReplayOne(tree, first)
    requires forall r | ProjectsOne(m, first, r) :: r == mid
    requires forall r | ProjectsOne(mid, second, r) :: r == after
    requires Describes(after, ReplayOne(ReplayOne(tree, first), second))
    ensures Agree(m, tree, [first, second], after)
  {
    var cs := [first, second];
    assert cs == [first] + [second] && [first] == [] + [first];
    ReplaySingle(tree, first);
    ReplaySingle(ReplayOne(tree, first), second);
    ReplayConcat(tree, [first], [second]);
    forall r | ProjectsTo(m, cs, r) ensures r == after {
      var x := LastProjection(m, [first], second, r);
      var y := LastProjection(m, [], first, x);
    }
  }

  /** Writing a memory where it lives, or where nothing parseable lives, keeps the three accounts in step. */
  lemma AgreeWrite(m: Ids, tree: Tree, path: Path, doc: Doc)
    requires Describes(m, tree)
    requires doc.id in m ==> m[doc.id].path == path
    requires NoClash(tree, Write(path, Memory(doc)))
    ensures Agree(m, tree, [Write(path, Memory(doc))], m[doc.id := EntryFor(path, doc)])
  {
    var after, t := m[doc.id := EntryFor(path, doc)], tree[path := Memory(doc)];
    forall id | id in after
      ensures Holds(t, after[id].path, id) && after[id] == EntryFor(after[id].path, t[after[id].path].doc)
    {
      if id != doc.id {
        assert Holds(tree, m[id].path, id);
      }
    }
    AgreeOne(m, tree, Write(path, Memory(doc)), after);
  }

  /** Moving a memory to a path where nothing parseable lives. */
  lemma AgreeMove(m: Ids, tree: Tree, id: Id, to: Path, doc: Doc)
    requires Describes(m, tree) && id in m && m[id].path != to && doc.id == id
    requires NoClash(tree, Write(to, Memory(doc)))
    ensures Agree(m, tree, [Write(to, Memory(doc)), Remove(m[id].path)], m[id := EntryFor(to, doc)])
  {
    var from := m[id].path;
    var after, t := m[id := EntryFor(to, doc)], tree[to := Memory(doc)] - {from};
    assert Holds(tree, from, id);
    DescribedIsInjective(m, tree);
    forall k | k in after
      ensures Holds(t, after[k].path, k) && after[k] == EntryFor(after[k].path, t[after[k].path].doc)
    {
      if k != id {
        assert Holds(tree, m[k].path, k);
      }
    }
    assert forall k :: !IsIdAt(after, from, k);
    AgreeTwo(m, tree, Write(to, Memory(doc)), Remove(from), after, after);
  }

  lemma AgreeDelete(m: Ids, tree: Tree, id: Id)
    requires Describes(m, tree) && id in m
    ensures Agree(m, tree, [Remove(m[id].path)], m - {id})
  {
    var path := m[id].path;
    assert Holds(tree, path, id) && IsIdAt(m, path, id);
    DescribedIsInjective(m, tree);
    forall k | k in m - {id} ensures Holds(tree - {path}, m[k].path, k) {
      assert Holds(tree, m[k].path, k);
    }
    AgreeOne(m, tree, Remove(path), m - {id});
  }

  // ----- one patch at a time

  /** Two memories at one path that no archiving step can move apart. */
  ghost predicate Stuck(cx: Context, m: Ids) {
    exists a, b :: Clashing(m, a, b) && (IsArchived(m[a].path) || m[a].path !in cx.tree)
  }

  /** What a patch does to a described tree: agreement without an overwrite, a lasting clash with one. */
  ghost predicate Settled(cx: Context, m: Ids, tree: Tree, out: Outcome) {
    && LivePathsAreOwn(cx, out.projected)
    && if NoOverwrite(tree, out.changes) then Agree(m, tree, out.changes, out.projected) else Stuck(cx, out.projected)
  }

  lemma NoOverwriteSingle(tree: Tree, change: Change)
    ensures NoOverwrite(tree, [change]) <==> NoClash(tree, change)
  {
    var one := [change];
    assert one[..|one| - 1] == [];
    assert NoOverwrite(tree, one[..|one| - 1]) && Replay(tree, one[..|one| - 1]) == tree;
  }

  lemma WriteSettles(cx: Context, m: Ids, tree: Tree, path: Path, doc: Doc, entryDoc: Doc)
    requires Describes(m, tree) && LivePathsAreOwn(cx, m)
    requires entryDoc.id == doc.id && EntryFor(path, entryDoc) == EntryFor(path, doc)
    requires doc.id in m ==> m[doc.id].path == path || exists id :: id in m && m[id].path == path && id != doc.id
    requires !IsArchived(path) && path in cx.tree && cx.tree[path].Memory? ==> cx.tree[path].doc.id == doc.id
    requires IsArchived(path) || path !in cx.tree || (doc.id in m && m[doc.id].path == path)
    ensures Settled(cx, m, tree, Outcome(m[doc.id := EntryFor(path, entryDoc)], [Write(path, Memory(doc))], []))
  {
    var change := Write(path, Memory(doc));
    var after := m[doc.id := EntryFor(path, entryDoc)];
    NoOverwriteSingle(tree, change);
    if NoClash(tree, change) {
      AgreeWrite(m, tree, path, doc);
    } else {
      var other := tree[path].doc.id;
      assert other in m && m[other].path == path;
      assert Clashing(after, other, doc.id);
    }
  }

  lemma CreateSettles(cx: Context, m: Ids, tree: Tree, doc: Doc, wanted: Option<Path>)
    requires Describes(m, tree) && LivePathsAreOwn(cx, m)
    requires CreateOutcome(cx, m, doc, wanted).Accepted()
    ensures Settled(cx, m, tree, CreateOutcome(cx, m, doc, wanted))
  {
    var path := if wanted.Some? then wanted.value else cx.policy.home(doc);
    var stamped := Touch(doc, cx.clock);
    WriteSettles(cx, m, tree, path, Canonical(stamped), stamped);
  }

  /** Rewriting the document loaded for `id` at the path the projection gives it. */
  lemma RewriteSettles(cx: Context, m: Ids, tree: Tree, id: Id, doc: Doc)
    requires Describes(m, tree) && LivePathsAreOwn(cx, m)
    requires Load(cx, m, id).Ok? && doc.id == Load(cx, m, id).value.doc.id
    ensures Settled(cx, m, tree, Outcome(m[doc.id := EntryFor(m[id].path, doc)], [WriteOf(m[id].path, doc)], []))
  {
    assert !IsArchived(m[id].path) ==> doc.id == id;
    WriteSettles(cx, m, tree, m[id].path, Canonical(doc), doc);
  }

  lemma ArchiveSettles(cx: Context, m: Ids, tree: Tree, id: Id)
    requires Describes(m, tree) && LivePathsAreOwn(cx, m)
    requires ArchiveOutcome(cx, m, id).Accepted()
    ensures Settled(cx, m, tree, ArchiveOutcome(cx, m, id))
  {
    var at := Load(cx, m, id).value;
    if !IsArchived(at.path) {
      var to := ArchivePath(cx, m, at.doc);
      var doc := Canonical(Touch(at.doc, cx.clock));
      var first, second := Write(to, Memory(doc)), Remove(at.path);
      assert at.doc.id == id;
      var after := m[id := m[id].(path := to)][id := EntryFor(to, Touch(at.doc, cx.clock))];
      assert after == m[id := EntryFor(to, doc)];
      assert [first, second] == [first] + [second];
      NoOverwriteConcat(tree, [first], [second]);
      NoOverwriteSingle(tree, first);
      NoOverwriteSingle(Replay(tree, [first]), second);
      if NoClash(tree, first) {
        AgreeMove(m, tree, id, to, doc);
      } else {
        var other := tree[to].doc.id;
        assert other in m && m[other].path == to;
        assert Clashing(after, other, id);
      }
    }
  }

  /** An archive never touches two memories that already share an archived or newly written path. */
  lemma ArchiveKeepsStuck(cx: Context, m: Ids, id: Id)
    requires LivePathsAreOwn(cx, m) && Stuck(cx, m)
    requires ArchiveOutcome(cx, m, id).Accepted()
    ensures Stuck(cx, ArchiveOutcome(cx, m, id).projected)
  {
    var a, b :| Clashing(m, a, b) && (IsArchived(m[a].path) || m[a].path !in cx.tree);
    assert Clashing(ArchiveOutcome(cx, m, id).projected, a, b);
  }

  lemma ArchiveKeepsOwn(cx: Context, m: Ids, id: Id)
    requires LivePathsAreOwn(cx, m)
    ensures LivePathsAreOwn(cx, ArchiveOutcome(cx, m, id).projected)
  {
  }

  lemma SettledThen(cx: Context, m: Ids, tree: Tree, first: Outcome, second: Outcome)
    requires Settled(cx, m, tree, first) && first.Accepted() && second.Accepted()
    requires NoOverwrite(tree, first.changes) ==> Settled(cx, first.projected, Replay(tree, first.changes), second)
    requires Stuck(cx, first.projected) ==> Stuck(cx, second.projected)
    requires LivePathsAreOwn(cx, second.projected)
    ensures Settled(cx, m, tree, Then(first, second))
  {
    NoOverwriteConcat(tree, first.changes, second.changes);
    if NoOverwrite(tree, first.changes + second.changes) {
      AgreeConcat(m, tree, first.changes, first.projected, second.changes, second.projected);
    }
  }

  lemma {:induction false} ArchiveAllSettles(cx: Context, m: Ids, tree: Tree, ids: seq<Id>)
    requires LivePathsAreOwn(cx, m)
    requires ArchiveAllOutcome(cx, m, ids).Accepted()
    ensures Describes(m, tree) ==> Settled(cx, m, tree, ArchiveAllOutcome(cx, m, ids))
    ensures LivePathsAreOwn(cx, ArchiveAllOutcome(cx, m, ids).projected)
    ensures Stuck(cx, m) ==> Stuck(cx, ArchiveAllOutcome(cx, m, ids).projected)
  {
    if ids != [] {
      var init, last := ids[..|ids| - 1], ids[|ids| - 1];
      var before := ArchiveAllOutcome(cx, m, init);
      ArchiveAllSettles(cx, m, tree, init);
      var step := ArchiveOutcome(cx, before.projected, last);
      ArchiveKeepsOwn(cx, before.projected, last);
      if Stuck(cx, before.projected) {
        ArchiveKeepsStuck(cx, before.projected, last);
      }
      if Describes(m, tree) {
        if NoOverwrite(tree, before.changes) {
          ArchiveSettles(cx, before.projected, Replay(tree, before.changes), last);
        }
        SettledThen(cx, m, tree, before, step);
      }
    }
  }

  lemma PatchSettles(cx: Context, m: Ids, tree: Tree, patch: MemoryPatch)
    requires Describes(m, tree) && LivePathsAreOwn(cx, m)
    requires PatchOutcome(cx, m, patch).Accepted()
    ensures Settled(cx, m, tree, PatchOutcome(cx, m, patch))
  {
    hide CreateOutcome;
    hide ArchiveOutcome;
    hide ArchiveAllOutcome;
    match patch
    case Create(doc, path) => CreateSettles(cx, m, tree, doc, path);
    case Update(id, body, fields) =>
      RewriteSettles(cx, m, tree, id, Updated(cx, Load(cx, m, id).value.doc, body, fields));
    case Merge(into, fromIds, prose) =>
      var at := Load(cx, m, into).value;
      var merged := Merged(cx, at.doc, fromIds, prose);
      RewriteSettles(cx, m, tree, into, merged);
      var first := Outcome(m[merged.id := EntryFor(at.path, merged)], [WriteOf(at.path, merged)], []);
      ArchiveAllSettles(cx, first.projected, Replay(tree, first.changes), fromIds);
      SettledThen(cx, m, tree, first, ArchiveAllOutcome(cx, first.projected, fromIds));
    case Supersede(oldId, successor) =>
      var doc := successor.(supersedes := Dedupe(successor.supersedes + [oldId]));
      var first := CreateOutcome(cx, m, doc, None);
      CreateSettles(cx, m, tree, doc, None);
      ArchiveKeepsOwn(cx, first.projected, oldId);
      if Stuck(cx, first.projected) {
        ArchiveKeepsStuck(cx, first.projected, oldId);
      }
      if NoOverwrite(tree, first.changes) {
        ArchiveSettles(cx, first.projected, Replay(tree, first.changes), oldId);
      }
      SettledThen(cx, m, tree, first, ArchiveOutcome(cx, first.projected, oldId));
    case Archive(id) => ArchiveSettles(cx, m, tree, id);
    case Delete(id) =>
      AgreeDelete(m, tree, id);
      NoOverwriteSingle(tree, Remove(m[id].path));
  }

  // ----- whole plans

  /**
   * If every patch compiles and nothing is overwritten, the three accounts agree after the plan;
   * if the three accounts agree after every prefix of the plan, nothing is overwritten.
   */
  lemma {:induction false} PlanSettles(cx: Context, m: Ids, plan: Plan)
    requires Describes(m, cx.tree)
    requires Fold(cx, m, plan).rejections == []
    ensures LivePathsAreOwn(cx, Fold(cx, m, plan).projected) || !NoOverwrite(cx.tree, Fold(cx, m, plan).changes)
    ensures NoOverwrite(cx.tree, Fold(cx, m, plan).changes) ==> AgreeAfter(cx, m, plan)
    ensures (forall k | 0 <= k <= |plan| :: AgreeAfter(cx, m, plan[..k]))
        ==> NoOverwrite(cx.tree, Fold(cx, m, plan).changes)
  {
    hide PatchOutcome;
    if plan == [] {
      forall id | id in m ensures Holds(cx.tree, m[id].path, id) {}
    } else {
      var init, last := plan[..|plan| - 1], plan[|plan| - 1];
      FoldPrefix(cx, m, plan, |plan| - 1);
      PlanSettles(cx, m, init);
      var before := Fold(cx, m, init);
      var step := PatchOutcome(cx, before.projected, last);
      NoOverwriteConcat(cx.tree, before.changes, step.changes);
      if NoOverwrite(cx.tree, before.changes) {
        var tree := Replay(cx.tree, before.changes);
        PatchSettles(cx, before.projected, tree, last);
        if NoOverwrite(tree, step.changes) {
          AgreeConcat(m, cx.tree, before.changes, before.projected, step.changes, step.projected);
        } else {
          var a, b :| Clashing(step.projected, a, b);
          ClashingIsNotDescribed(step.projected, Replay(cx.tree, Fold(cx, m, plan).changes), a, b);
          assert plan[..|plan|] == plan;
        }
      } else {
        assert exists k | 0 <= k <= |init| :: !AgreeAfter(cx, m, init[..k]);
        var k :| 0 <= k <= |init| && !AgreeAfter(cx, m, init[..k]);
        assert plan[..k] == init[..k];
      }
    }
  }

  /** The exact condition under which the three accounts agree after every patch of a plan. */
  lemma AgreementExact(cx: Context, m: Ids, plan: Plan)
    requires Describes(m, cx.tree)
    requires Fold(cx, m, plan).rejections == []
    ensures NoOverwrite(cx.tree, Fold(cx, m, plan).changes)
       <==> forall k | 0 <= k <= |plan| :: AgreeAfter(cx, m, plan[..k])
  {
    PlanSettles(cx, m, plan);
    if NoOverwrite(cx.tree, Fold(cx, m, plan).changes) {
      forall k | 0 <= k <= |plan| ensures AgreeAfter(cx, m, plan[..k]) {
        FoldPrefix(cx, m, plan, k);
        PrefixNoOverwrite(cx, m, plan, k);
        PlanSettles(cx, m, plan[..k]);
      }
    }
  }

  lemma {:induction false} PrefixNoOverwrite(cx: Context, m: Ids, plan: Plan, k: nat)
    requires k <= |plan|
    requires NoOverwrite(cx.tree, Fold(cx, m, plan).changes)
    ensures NoOverwrite(cx.tree, Fold(cx, m, plan[..k]).changes)
  {
    if k == |plan| {
      assert plan[..k] == plan;
    } else {
      var init := plan[..|plan| - 1];
      var before := Fold(cx, m, init);
      NoOverwriteConcat(cx.tree, before.changes, PatchOutcome(cx, before.projected, plan[|plan| - 1]).changes);
      PrefixNoOverwrite(cx, m, init, k);
      assert init[..k] == plan[..k];
    }
  }
}
