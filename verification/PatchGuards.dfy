/** The check that `compile` does not make, and that would keep its accounts of the manifest together. */
module PatchGuards {
  import opened Changeset
  import opened Document
  import opened Layout
  import opened Manifests
  import opened Patch
  import opened PatchAgreement
  import opened Retention
  import opened Wrappers

  // ----- what a patch would have to look at besides the disk: the projection

  /** Nobody in the projection lives where `create` writes. */
  ghost predicate CreateFree(cx: Context, m: Ids, doc: Doc, wanted: Option<Path>) {
    !Taken(m, if wanted.Some? then wanted.value else cx.policy.home(doc))
  }

  /** Nobody in the projection lives where `archive` moves a memory to. */
  ghost predicate ArchiveFree(cx: Context, m: Ids, id: Id) {
    Load(cx, m, id).Ok? && !IsArchived(m[id].path) ==> !Taken(m, ArchivePath(cx, m, Load(cx, m, id).value.doc))
  }

  ghost predicate ArchivesFree(cx: Context, m: Ids, ids: seq<Id>) {
    if ids == [] then true
    else
      && ArchivesFree(cx, m, ids[..|ids| - 1])
      && ArchiveFree(cx, ArchiveAllOutcome(cx, m, ids[..|ids| - 1]).projected, ids[|ids| - 1])
  }

  /** The file that is read to be rewritten is the memory's own. */
  predicate LoadsOwn(cx: Context, m: Ids, id: Id) {
    Load(cx, m, id).Ok? ==> Load(cx, m, id).value.doc.id == id
  }

  ghost predicate Guard(cx: Context, m: Ids, patch: MemoryPatch) {
    match patch
    case Create(doc, path) => CreateFree(cx, m, doc, path)
    case Update(id, _, _) => LoadsOwn(cx, m, id)
    case Merge(into, fromIds, prose) =>
      && LoadsOwn(cx, m, into)
      && (Load(cx, m, into).Ok? ==>
            var merged := Merged(cx, Load(cx, m, into).value.doc, fromIds, prose);
            ArchivesFree(cx, m[merged.id := EntryFor(m[into].path, merged)], fromIds))
    case Supersede(oldId, successor) =>
      var doc := successor.(supersedes := Dedupe(successor.supersedes + [oldId]));
      CreateFree(cx, m, doc, None) && ArchiveFree(cx, CreateOutcome(cx, m, doc, None).projected, oldId)
    case Archive(id) => ArchiveFree(cx, m, id)
    case Delete(_) => true
  }

  // ----- one write

  lemma ClashIsTaken(m: Ids, tree: Tree, path: Path, doc: Doc)
    requires Describes(m, tree) && (doc.id in m ==> m[doc.id].path != path)
    ensures NoClash(tree, Write(path, Memory(doc))) <==> !Taken(m, path)
  {
    if id :| id in m && m[id].path == path {
      assert Holds(tree, path, id);
    }
  }

  lemma CreateGuard(cx: Context, m: Ids, tree: Tree, doc: Doc, wanted: Option<Path>)
    requires Describes(m, tree) && CreateOutcome(cx, m, doc, wanted).Accepted()
    ensures NoOverwrite(tree, CreateOutcome(cx, m, doc, wanted).changes) <==> CreateFree(cx, m, doc, wanted)
  {
    var path := if wanted.Some? then wanted.value else cx.policy.home(doc);
    var stamped := Canonical(Touch(doc, cx.clock));
    ClashIsTaken(m, tree, path, stamped);
    NoOverwriteSingle(tree, Write(path, Memory(stamped)));
  }

  lemma RewriteGuard(cx: Context, m: Ids, tree: Tree, id: Id, doc: Doc)
    requires Describes(m, tree) && Load(cx, m, id).Ok? && doc.id == Load(cx, m, id).value.doc.id
    ensures NoOverwrite(tree, [WriteOf(m[id].path, doc)]) <==> LoadsOwn(cx, m, id)
  {
    assert Holds(tree, m[id].path, id);
    NoOverwriteSingle(tree, WriteOf(m[id].path, doc));
  }

  lemma ArchiveGuard(cx: Context, m: Ids, tree: Tree, id: Id)
    requires Describes(m, tree) && LivePathsAreOwn(cx, m) && ArchiveOutcome(cx, m, id).Accepted()
    ensures NoOverwrite(tree, ArchiveOutcome(cx, m, id).changes) <==> ArchiveFree(cx, m, id)
  {
    var at := Load(cx, m, id).value;
    if !IsArchived(at.path) {
      var to, doc := ArchivePath(cx, m, at.doc), Canonical(Touch(at.doc, cx.clock));
      var first, second := Write(to, Memory(doc)), Remove(at.path);
      assert at.doc.id == id;
      ClashIsTaken(m, tree, to, doc);
      assert [first, second] == [first] + [second];
      NoOverwriteConcat(tree, [first], [second]);
      NoOverwriteSingle(tree, first);
      NoOverwriteSingle(Replay(tree, [first]), second);
    }
  }

  // ----- one patch

  /** Two outcomes in sequence are guarded when each is, the second against the tree the first leaves. */
  lemma ThenGuard(cx: Context, m: Ids, tree: Tree, first: Outcome, second: Outcome)
    requires first.Accepted() && second.Accepted() && Settled(cx, m, tree, first)
    ensures NoOverwrite(tree, Then(first, second).changes)
       <==> NoOverwrite(tree, first.changes) && NoOverwrite(Replay(tree, first.changes), second.changes)
    ensures NoOverwrite(tree, first.changes) ==> Describes(first.projected, Replay(tree, first.changes))
    ensures LivePathsAreOwn(cx, first.projected)
  {
    NoOverwriteConcat(tree, first.changes, second.changes);
  }

  lemma {:induction false} ArchivesGuard(cx: Context, m: Ids, tree: Tree, ids: seq<Id>)
    requires Describes(m, tree) && LivePathsAreOwn(cx, m) && ArchiveAllOutcome(cx, m, ids).Accepted()
    ensures NoOverwrite(tree, ArchiveAllOutcome(cx, m, ids).changes) <==> ArchivesFree(cx, m, ids)
  {
    hide ArchiveOutcome, ArchiveFree, Describes, LivePathsAreOwn;
    if ids != [] {
      var init, last := ids[..|ids| - 1], ids[|ids| - 1];
      var before := ArchiveAllOutcome(cx, m, init);
      ArchivesGuard(cx, m, tree, init);
      ArchiveAllSettles(cx, m, tree, init);
      ThenGuard(cx, m, tree, before, ArchiveOutcome(cx, before.projected, last));
      if NoOverwrite(tree, before.changes) {
        ArchiveGuard(cx, before.projected, Replay(tree, before.changes), last);
      }
    }
  }

  lemma MergeGuard(cx: Context, m: Ids, tree: Tree, into: Id, fromIds: seq<Id>, prose: Body)
    requires Describes(m, tree) && LivePathsAreOwn(cx, m) && MergeOutcome(cx, m, into, fromIds, prose).Accepted()
    ensures NoOverwrite(tree, MergeOutcome(cx, m, into, fromIds, prose).changes)
       <==> Guard(cx, m, Merge(into, fromIds, prose))
  {
    hide ArchiveAllOutcome, ArchivesFree, Describes, LivePathsAreOwn, NoOverwrite;
    var at := Load(cx, m, into).value;
    var merged := Merged(cx, at.doc, fromIds, prose);
    var first := Outcome(m[merged.id := EntryFor(at.path, merged)], [WriteOf(at.path, merged)], []);
    RewriteGuard(cx, m, tree, into, merged);
    RewriteSettles(cx, m, tree, into, merged);
    ThenGuard(cx, m, tree, first, ArchiveAllOutcome(cx, first.projected, fromIds));
    if NoOverwrite(tree, first.changes) {
      ArchivesGuard(cx, first.projected, Replay(tree, first.changes), fromIds);
    }
  }

  lemma SupersedeGuard(cx: Context, m: Ids, tree: Tree, oldId: Id, successor: Doc)
    requires Describes(m, tree) && LivePathsAreOwn(cx, m) && SupersedeOutcome(cx, m, oldId, successor).Accepted()
    ensures NoOverwrite(tree, SupersedeOutcome(cx, m, oldId, successor).changes)
       <==> Guard(cx, m, Supersede(oldId, successor))
  {
    hide CreateOutcome, ArchiveOutcome, CreateFree, ArchiveFree, Describes, LivePathsAreOwn, NoOverwrite;
    var doc := successor.(supersedes := Dedupe(successor.supersedes + [oldId]));
    var first := CreateOutcome(cx, m, doc, None);
    CreateGuard(cx, m, tree, doc, None);
    CreateSettles(cx, m, tree, doc, None);
    ThenGuard(cx, m, tree, first, ArchiveOutcome(cx, first.projected, oldId));
    if NoOverwrite(tree, first.changes) {
      ArchiveGuard(cx, first.projected, Replay(tree, first.changes), oldId);
    }
  }

  /** An accepted patch on a described tree overwrites nothing if and only if the guard holds. */
  lemma PatchGuard(cx: Context, m: Ids, tree: Tree, patch: MemoryPatch)
    requires Describes(m, tree) && LivePathsAreOwn(cx, m) && PatchOutcome(cx, m, patch).Accepted()
    ensures NoOverwrite(tree, PatchOutcome(cx, m, patch).changes) <==> Guard(cx, m, patch)
  {
    hide CreateOutcome, ArchiveOutcome, MergeOutcome, SupersedeOutcome, Describes, LivePathsAreOwn, NoOverwrite;
    match patch
    case Create(doc, path) => CreateGuard(cx, m, tree, doc, path);
    case Update(id, body, fields) =>
      RewriteGuard(cx, m, tree, id, Updated(cx, Load(cx, m, id).value.doc, body, fields));
    case Merge(into, fromIds, prose) => MergeGuard(cx, m, tree, into, fromIds, prose);
    case Supersede(oldId, successor) => SupersedeGuard(cx, m, tree, oldId, successor);
    case Archive(id) => ArchiveGuard(cx, m, tree, id);
    case Delete(id) => RemovesOnly(tree, m[id].path);
  }

  lemma RemovesOnly(tree: Tree, path: Path)
    ensures NoOverwrite(tree, [Remove(path)])
  {
    NoOverwriteSingle(tree, Remove(path));
  }

  // ----- the plan

  /** Every patch is guarded against what the ones before it project. */
  ghost predicate Guarded(cx: Context, m: Ids, plan: Plan) {
    forall k | 0 <= k < |plan| :: Guard(cx, Fold(cx, m, plan[..k]).projected, plan[k])
  }

  lemma GuardedInit(cx: Context, m: Ids, plan: Plan)
    requires plan != []
    ensures Guarded(cx, m, plan)
       <==> && Guarded(cx, m, plan[..|plan| - 1])
            && Guard(cx, Fold(cx, m, plan[..|plan| - 1]).projected, plan[|plan| - 1])
  {
    hide Guard, Fold;
    var init := plan[..|plan| - 1];
    assert forall k | 0 <= k < |init| :: init[..k] == plan[..k] && init[k] == plan[k];
  }

  lemma {:induction false} PlanGuarded(cx: Context, m: Ids, plan: Plan)
    requires Describes(m, cx.tree) && Fold(cx, m, plan).rejections == []
    ensures NoOverwrite(cx.tree, Fold(cx, m, plan).changes) <==> Guarded(cx, m, plan)
  {
    hide PatchOutcome, Guard, Guarded, Describes, LivePathsAreOwn;
    if plan == [] {
      NoPatches(cx, m);
    } else {
      var init, last := plan[..|plan| - 1], plan[|plan| - 1];
      GuardedInit(cx, m, plan);
      FoldPrefix(cx, m, plan, |plan| - 1);
      PlanGuarded(cx, m, init);
      var before := Fold(cx, m, init);
      var step := PatchOutcome(cx, before.projected, last);
      NoOverwriteConcat(cx.tree, before.changes, step.changes);
      if NoOverwrite(cx.tree, before.changes) {
        PlanSettles(cx, m, init);
        PatchGuard(cx, before.projected, Replay(cx.tree, before.changes), last);
      }
    }
  }

  lemma NoPatches(cx: Context, m: Ids)
    ensures Guarded(cx, m, [])
  {
  }

  /**
   * The check that is missing: the compiler's accounts agree after every patch if and only if every patch finds
   * its new paths untaken in the projection and rewrites only the memory it was asked to.
   */
  lemma GuardIsExact(cx: Context, m: Ids, plan: Plan)
    requires Describes(m, cx.tree) && Fold(cx, m, plan).rejections == []
    ensures Guarded(cx, m, plan) <==> forall k | 0 <= k <= |plan| :: AgreeAfter(cx, m, plan[..k])
  {
    hide Guarded, Fold, AgreeAfter, NoOverwrite;
    PlanGuarded(cx, m, plan);
    AgreementExact(cx, m, plan);
  }

  // ----- and then runs of plans need nothing else

  /** The states a run of attempts goes through, each plan that lands being guarded. */
  ghost predicate GuardedRuns(policy: Policy, states: seq<State>, run: seq<Attempt>) {
    && |states| == |run| + 1
    && Describes(states[0].manifest, states[0].tree)
    && forall i | 0 <= i < |run| ::
         && states[i + 1] == After(policy, states[i], run[i])
         && (Lands(policy, states[i], run[i]) ==>
               Guarded(ContextOf(policy, states[i], run[i]), states[i].manifest, run[i].plan))
  }

  lemma GuardedStep(policy: Policy, s: State, a: Attempt)
    requires Describes(s.manifest, s.tree)
    requires Lands(policy, s, a) ==> Guarded(ContextOf(policy, s, a), s.manifest, a.plan)
    ensures Describes(After(policy, s, a).manifest, After(policy, s, a).tree)
  {
    hide Guarded, Describes, Fold;
    if Lands(policy, s, a) {
      var cx := ContextOf(policy, s, a);
      PlanGuarded(cx, s.manifest, a.plan);
      PlanSettles(cx, s.manifest, a.plan);
    }
  }

  /** Over any run of guarded plans the manifest stays an exact description of the tree. */
  lemma {:induction false} GuardedStaysDescribed(policy: Policy, states: seq<State>, run: seq<Attempt>, k: nat)
    requires GuardedRuns(policy, states, run) && k < |states|
    ensures Describes(states[k].manifest, states[k].tree)
  {
    hide Describes, After, Lands;
    if k > 0 {
      GuardedStaysDescribed(policy, states, run, k - 1);
      GuardedStep(policy, states[k - 1], run[k - 1]);
    }
  }
}
