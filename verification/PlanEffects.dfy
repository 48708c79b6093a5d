/** What an accepted plan leaves on disk, told from the plan and the disk before it (siatt/memory/patch.py). */
module PlanEffects {
  import opened Changeset
  import opened Document
  import opened Layout
  import opened Manifests
  import opened ManifestLaws
  import opened Patch
  import opened PatchAgreement
  import opened PatchEffects
  import opened Retention
  import opened Wrappers

  // ----- the patches of a plan, one by one

  /** The `k`-th patch, compiled against what the ones before it project. */
  ghost function StepAt(cx: Context, m: Ids, plan: Plan, k: nat): Outcome
    requires k < |plan|
  {
    PatchOutcome(cx, Fold(cx, m, plan[..k]).projected, plan[k])
  }

  /** The changes of a plan are those of its patches, in order, and the reasons those of its patches, indexed. */
  lemma {:induction false} FoldIsThePatches(cx: Context, m: Ids, plan: Plan, k: nat)
    requires k < |plan|
    ensures var out, step := Fold(cx, m, plan), StepAt(cx, m, plan, k);
            && Fold(cx, m, plan[..k]).changes + step.changes <= out.changes
            && (forall reason :: reason in step.reasons <==> Rejection(reason, Some(k)) in out.rejections)
  {
    hide PatchOutcome;
    var init, last := plan[..|plan| - 1], plan[|plan| - 1];
    var before, out := Fold(cx, m, init), Fold(cx, m, plan);
    var step := StepAt(cx, m, plan, |plan| - 1);
    assert out.changes == before.changes + step.changes;
    IndexesBelow(cx, m, init);
    if k == |init| {
      assert plan[..k] == init;
      IndexedAt(step.reasons, k);
    } else {
      FoldIsThePatches(cx, m, init, k);
      assert init[..k] == plan[..k];
      assert before.changes <= out.changes;
      IndexedAt(step.reasons, |init|);
    }
  }

  lemma IndexedAt(reasons: seq<Reason>, index: nat)
    ensures forall reason, k ::
      Rejection(reason, Some(k)) in Indexed(reasons, index) <==> reason in reasons && k == index
  {
    forall reason | reason in reasons ensures Rejection(reason, Some(index)) in Indexed(reasons, index) {
      var i :| 0 <= i < |reasons| && reasons[i] == reason;
      assert Indexed(reasons, index)[i] == Rejection(reason, Some(index));
    }
  }

  lemma {:induction false} IndexesBelow(cx: Context, m: Ids, plan: Plan)
    ensures forall r | r in Fold(cx, m, plan).rejections :: r.index.Some? && r.index.value < |plan|
  {
    hide PatchOutcome;
    if plan != [] {
      IndexesBelow(cx, m, plan[..|plan| - 1]);
    }
  }

  /** A plan without reasons is one whose every patch is accepted. */
  lemma AllAccepted(cx: Context, m: Ids, plan: Plan)
    ensures Fold(cx, m, plan).rejections == [] <==> forall k | 0 <= k < |plan| :: StepAt(cx, m, plan, k).Accepted()
  {
    hide PatchOutcome;
    var out := Fold(cx, m, plan);
    IndexesBelow(cx, m, plan);
    forall k | 0 <= k < |plan| ensures out.rejections == [] ==> StepAt(cx, m, plan, k).Accepted() {
      FoldIsThePatches(cx, m, plan, k);
      var step := StepAt(cx, m, plan, k);
      if !step.Accepted() {
        assert step.reasons[0] in step.reasons;
      }
    }
    if out.rejections != [] {
      var r := out.rejections[0];
      assert r in out.rejections && r == Rejection(r.reason, Some(r.index.value));
      FoldIsThePatches(cx, m, plan, r.index.value);
      assert r.reason in StepAt(cx, m, plan, r.index.value).reasons;
    }
  }

  /** Every change of a plan is a change of one of its patches. */
  lemma {:induction false} ChangeHasAPatch(cx: Context, m: Ids, plan: Plan, c: Change) returns (k: nat)
    requires c in Fold(cx, m, plan).changes
    ensures k < |plan| && c in StepAt(cx, m, plan, k).changes
  {
    hide PatchOutcome;
    var init := plan[..|plan| - 1];
    if c in Fold(cx, m, init).changes {
      k := ChangeHasAPatch(cx, m, init, c);
      assert init[..k] == plan[..k];
    } else {
      k := |plan| - 1;
    }
  }

  // ----- when a plan is accepted, and what that says of the tree

  lemma WrittenDocs(cx: Context, projected: Ids, changes: seq<Change>)
    ensures NoSecrets(cx, changes) <==> forall p, d | Write(p, Memory(d)) in changes :: !cx.policy.secret(d)
    ensures WritesResolve(projected, changes)
       <==> forall p, d, t | Write(p, Memory(d)) in changes && t in d.body.links :: Resolves(projected, t)
  {
    hide Resolves;
    forall c | c in changes && c.Write? && c.file.Memory? ensures c == Write(c.path, Memory(c.file.doc)) {}
  }

  lemma InboundOnDisk(cx: Context, projected: Ids, id: Id)
    ensures NoInbound(cx, projected, id)
       <==> forall k | Readable(cx, projected, k) :: id !in OnDisk(cx, projected, k).body.links
  {
    if NoInbound(cx, projected, id) {
      forall k | Readable(cx, projected, k) ensures id !in OnDisk(cx, projected, k).body.links {}
    }
    if forall k | Readable(cx, projected, k) :: id !in OnDisk(cx, projected, k).body.links {
      forall k | k in projected && projected[k].path in cx.tree && cx.tree[projected[k].path].Memory?
        ensures id !in cx.tree[projected[k].path].doc.body.links
      {
        assert Readable(cx, projected, k);
      }
    }
  }

  /**
   * A plan is accepted when every patch is, it touches no more files than the cap, no file it writes holds a secret
   * or a link without an answer, and no file that stays links to an id it deletes.
   */
  lemma AcceptsExactly(cx: Context, m: Ids, plan: Plan)
    ensures var out := Fold(cx, m, plan);
            Accepts(cx, m, plan)
            <==> && (forall k | 0 <= k < |plan| :: StepAt(cx, m, plan, k).Accepted())
                 && |set c | c in out.changes :: c.path| <= cx.policy.maxFilesPerCommit
                 && (forall p, d | Write(p, Memory(d)) in out.changes :: !cx.policy.secret(d))
                 && (forall p, d, t | Write(p, Memory(d)) in out.changes && t in d.body.links ::
                       Resolves(out.projected, t))
                 && (forall id, k | Delete(id) in plan && Readable(cx, out.projected, k) ::
                       id !in OnDisk(cx, out.projected, k).body.links)
  {
    hide PatchOutcome, Fold;
    AllAccepted(cx, m, plan);
    var out := Fold(cx, m, plan);
    assert Touched(out.changes) == set c | c in out.changes :: c.path;
    WrittenDocs(cx, out.projected, out.changes);
    forall id ensures NoInbound(cx, out.projected, id)
                 <==> forall k | Readable(cx, out.projected, k) :: id !in OnDisk(cx, out.projected, k).body.links
    {
      InboundOnDisk(cx, out.projected, id);
    }
  }

  /**
   * After an accepted plan that overwrites nothing, a file is as it was and no link in it names a deleted id, or it
   * was written, holds no secret, and every link in it has an answer in the manifest that describes the tree.
   */
  lemma AcceptedLeaves(cx: Context, m: Ids, plan: Plan, path: Path)
    requires Describes(m, cx.tree) && Accepts(cx, m, plan)
    requires NoOverwrite(cx.tree, Fold(cx, m, plan).changes)
    requires path in Replay(cx.tree, Fold(cx, m, plan).changes)
    ensures var out := Fold(cx, m, plan); var after := Replay(cx.tree, out.changes);
            && Describes(out.projected, after)
            && after[path].Memory? ==>
                 var d := after[path].doc;
                 || (path in cx.tree && cx.tree[path] == after[path]
                     && forall id | Delete(id) in plan :: id !in d.body.links)
                 || (Write(path, Memory(d)) in out.changes && !cx.policy.secret(d)
                     && forall t | t in d.body.links :: Resolves(out.projected, t))
  {
    hide PatchOutcome, Fold;
    var out := Fold(cx, m, plan);
    var after := Replay(cx.tree, out.changes);
    PlanSettles(cx, m, plan);
    ReplayOrigin(cx.tree, out.changes, path);
    AcceptsExactly(cx, m, plan);
    if after[path].Memory? && Write(path, after[path]) !in out.changes {
      assert Readable(cx, out.projected, after[path].doc.id);
    }
  }

  // ----- who has the last word on a file

  predicate Spares(changes: seq<Change>, path: Path) {
    forall c | c in changes :: c.path != path
  }

  lemma {:induction false} SparedPath(tree: Tree, changes: seq<Change>, path: Path)
    requires Spares(changes, path)
    ensures path in Replay(tree, changes) <==> path in tree
    ensures path in tree ==> Replay(tree, changes)[path] == tree[path]
  {
    if changes != [] {
      SparedPath(tree, changes[..|changes| - 1], path);
      assert changes[|changes| - 1] in changes;
    }
  }

  /** A file holds what was written to it last. */
  lemma LastWriteStands(tree: Tree, a: seq<Change>, path: Path, file: File, b: seq<Change>)
    requires Spares(b, path)
    ensures path in Replay(tree, a + [Write(path, file)] + b)
    ensures Replay(tree, a + [Write(path, file)] + b)[path] == file
  {
    ReplayConcat(tree, a + [Write(path, file)], b);
    ReplayConcat(tree, a, [Write(path, file)]);
    ReplaySingle(Replay(tree, a), Write(path, file));
    SparedPath(Replay(tree, a + [Write(path, file)]), b, path);
  }

  /** An update is on disk after the plan, if no later patch touches the file. */
  lemma UpdateStands(cx: Context, m: Ids, plan: Plan, k: nat, id: Id, body: Option<Body>, fields: Fields)
    requires k < |plan| && plan[k] == Update(id, body, fields)
    requires Fold(cx, m, plan).rejections == []
    requires var n := Fold(cx, m, plan[..k]).projected;
             id in n ==> forall j | k < j < |plan| :: Spares(StepAt(cx, m, plan, j).changes, n[id].path)
    ensures var n, after := Fold(cx, m, plan[..k]).projected, Replay(cx.tree, Fold(cx, m, plan).changes);
            && Readable(cx, n, id) && n[id].path in after && after[n[id].path].Memory?
            && IsUpdated(cx, OnDisk(cx, n, id), after[n[id].path].doc, body, fields)
  {
    hide UpdateOutcome, IsUpdated;
    var n := Fold(cx, m, plan[..k]).projected;
    AllAccepted(cx, m, plan);
    assert StepAt(cx, m, plan, k).Accepted();
    UpdateWrites(cx, n, id, body, fields);
    var step := StepAt(cx, m, plan, k);
    var file := step.changes[0].file;
    assert step.changes == [Write(n[id].path, file)];
    var b := LaterChanges(cx, m, plan, k, n[id].path);
    LastWriteStands(cx.tree, Fold(cx, m, plan[..k]).changes, n[id].path, file, b);
  }

  lemma {:induction false} LaterChanges(cx: Context, m: Ids, plan: Plan, k: nat, path: Path) returns (b: seq<Change>)
    requires k < |plan|
    requires forall j | k < j < |plan| :: Spares(StepAt(cx, m, plan, j).changes, path)
    ensures Fold(cx, m, plan).changes == Fold(cx, m, plan[..k]).changes + StepAt(cx, m, plan, k).changes + b
    ensures Spares(b, path)
  {
    hide PatchOutcome;
    var init := plan[..|plan| - 1];
    if k == |init| {
      assert plan[..k] == init;
      b := [];
    } else {
      forall j | k < j < |init| ensures Spares(StepAt(cx, m, init, j).changes, path) {
        assert init[..j] == plan[..j];
        assert Spares(StepAt(cx, m, plan, j).changes, path);
      }
      assert init[..k] == plan[..k];
      var before := LaterChanges(cx, m, init, k, path);
      var step := StepAt(cx, m, plan, |init|);
      b := before + step.changes;
      assert Fold(cx, m, plan).changes == Fold(cx, m, init).changes + step.changes;
      assert Spares(step.changes, path);
    }
  }

  /**
   * Two updates of one memory, one after the other in a plan: both are worked out from the file as it was before
   * the plan, and the tree and the manifest come out as if only the second had been there.
   */
  lemma SecondUpdateErasesFirst(cx: Context, m: Ids, init: Plan, first: MemoryPatch, second: MemoryPatch)
    requires first.Update? && second.Update? && first.id == second.id
    requires Fold(cx, m, init + [first] + [second]).rejections == []
    ensures var both, one := Fold(cx, m, init + [first] + [second]), Fold(cx, m, init + [second]);
            && one.rejections == [] && both.projected == one.projected
            && Replay(cx.tree, both.changes) == Replay(cx.tree, one.changes)
  {
    hide PatchOutcome, IsUpdated, Replay;
    var before := Fold(cx, m, init);
    var n := before.projected;
    FoldSnoc(cx, m, init, first);
    FoldSnoc(cx, m, init + [first], second);
    FoldSnoc(cx, m, init, second);
    SameFileAgain(cx, n, first, second);
    OneWrite(cx, n, first);
    OneWrite(cx, n, second);
    var one, two := PatchOutcome(cx, n, first).changes, PatchOutcome(cx, n, second).changes;
    assert one == [one[0]] && two == [two[0]];
    WrittenOver(cx.tree, before.changes, one[0], two[0]);
  }

  lemma FoldSnoc(cx: Context, m: Ids, init: Plan, last: MemoryPatch)
    ensures var before, out := Fold(cx, m, init), Fold(cx, m, init + [last]);
            var step := PatchOutcome(cx, before.projected, last);
            && out.projected == step.projected && out.changes == before.changes + step.changes
            && (out.rejections == [] <==> before.rejections == [] && step.Accepted())
  {
    hide PatchOutcome;
    assert (init + [last])[..|init|] == init;
  }

  lemma OneWrite(cx: Context, n: Ids, patch: MemoryPatch)
    requires patch.Update? && PatchOutcome(cx, n, patch).Accepted()
    ensures var out := PatchOutcome(cx, n, patch);
            patch.id in n && |out.changes| == 1 && out.changes[0].Write? && out.changes[0].path == n[patch.id].path
  {
    hide UpdateOutcome, IsUpdated;
    UpdateWrites(cx, n, patch.id, patch.body, patch.fields);
  }

  lemma WrittenOver(tree: Tree, a: seq<Change>, first: Change, second: Change)
    requires first.Write? && second.Write? && first.path == second.path
    ensures Replay(tree, a + [first] + [second]) == Replay(tree, a + [second])
  {
    ReplayConcat(tree, a + [first], [second]);
    ReplayConcat(tree, a, [first]);
    ReplayConcat(tree, a, [second]);
    ReplaySingle(Replay(tree, a), first);
    ReplaySingle(ReplayOne(Replay(tree, a), first), second);
    ReplaySingle(Replay(tree, a), second);
  }

  lemma SameFileAgain(cx: Context, n: Ids, first: MemoryPatch, second: MemoryPatch)
    requires first.Update? && second.Update? && first.id == second.id
    requires PatchOutcome(cx, n, first).Accepted()
    requires PatchOutcome(cx, PatchOutcome(cx, n, first).projected, second).Accepted()
    ensures var step := PatchOutcome(cx, PatchOutcome(cx, n, first).projected, second);
            && PatchOutcome(cx, n, second).Accepted()
            && step.changes == PatchOutcome(cx, n, second).changes
            && step.projected == PatchOutcome(cx, n, second).projected
  {
    hide ValidFields, Updated, IsUpdated;
    LoadsReadable(cx, n, first.id);
    var middle := PatchOutcome(cx, n, first).projected;
    UpdateWrites(cx, n, first.id, first.body, first.fields);
    UpdateWrites(cx, n, second.id, second.body, second.fields);
    UpdateWrites(cx, middle, second.id, second.body, second.fields);
  }

  // ----- only valid headers are written

  /** A header that the schema accepts. */
  ghost predicate ValidHeader(policy: Policy, d: Doc) {
    IsMemoryId(d.id) && forall key | key in EDITABLE :: MayHold(policy, key, FieldOf(d, key))
  }

  /** Every memory on disk, every one a plan brings, and every id in the manifest is valid. */
  ghost predicate ValidTree(policy: Policy, tree: Tree) {
    forall p | p in tree && tree[p].Memory? :: ValidHeader(policy, tree[p].doc)
  }

  ghost predicate ValidIds(m: Ids) {
    forall id | id in m :: IsMemoryId(id)
  }

  ghost predicate BringsValid(policy: Policy, patch: MemoryPatch) {
    match patch
    case Create(doc, _) => ValidHeader(policy, doc)
    case Supersede(_, successor) => ValidHeader(policy, successor)
    case _ => true
  }

  ghost predicate WritesValid(policy: Policy, changes: seq<Change>) {
    forall p, d | Write(p, Memory(d)) in changes :: ValidHeader(policy, d)
  }

  lemma ValidWith(policy: Policy, before: Doc, after: Doc, given: Fields)
    requires ValidHeader(policy, before) && HeaderWith(before, after, given)
    requires forall key | key in given && key in EDITABLE :: MayHold(policy, key, given[key])
    ensures ValidHeader(policy, after)
  {
    hide MayHold, FieldOf;
  }

  lemma CreateValid(cx: Context, m: Ids, doc: Doc, wanted: Option<Path>)
    requires ValidIds(m) && ValidHeader(cx.policy, doc) && CreateOutcome(cx, m, doc, wanted).Accepted()
    ensures var out := CreateOutcome(cx, m, doc, wanted); WritesValid(cx.policy, out.changes) && ValidIds(out.projected)
  {
    hide CreateOutcome, ValidHeader;
    assert IsMemoryId(doc.id) by { IdOfValid(cx.policy, doc); }
    CreateWrites(cx, m, doc, wanted);
    ValidWith(cx.policy, doc, CreateOutcome(cx, m, doc, wanted).changes[0].file.doc, map[]);
  }

  lemma IdOfValid(policy: Policy, d: Doc)
    requires ValidHeader(policy, d)
    ensures IsMemoryId(d.id)
  {}

  lemma UpdateValid(cx: Context, m: Ids, id: Id, body: Option<Body>, fields: Fields)
    requires ValidTree(cx.policy, cx.tree) && ValidIds(m) && UpdateOutcome(cx, m, id, body, fields).Accepted()
    ensures var out := UpdateOutcome(cx, m, id, body, fields);
            WritesValid(cx.policy, out.changes) && ValidIds(out.projected)
  {
    hide UpdateOutcome, ValidHeader, MayHold;
    UpdateWrites(cx, m, id, body, fields);
    UpdateAccepted(cx, m, id, body, fields);
    IdOfValid(cx.policy, OnDisk(cx, m, id));
    ValidWith(cx.policy, OnDisk(cx, m, id), UpdateOutcome(cx, m, id, body, fields).changes[0].file.doc, fields);
  }

  lemma ArchiveValid(cx: Context, m: Ids, id: Id)
    requires ValidTree(cx.policy, cx.tree) && ValidIds(m) && ArchiveOutcome(cx, m, id).Accepted()
    ensures var out := ArchiveOutcome(cx, m, id); WritesValid(cx.policy, out.changes) && ValidIds(out.projected)
  {
    hide ValidHeader, IsArchived, ArchivePath;
    LoadsReadable(cx, m, id);
    IdOfValid(cx.policy, OnDisk(cx, m, id));
    if !IsArchived(m[id].path) {
      StampedReadsBack(cx, OnDisk(cx, m, id));
      ValidWith(cx.policy, OnDisk(cx, m, id), Canonical(Touch(OnDisk(cx, m, id), cx.clock)), map[]);
    }
  }

  lemma ThenValid(policy: Policy, first: Outcome, second: Outcome)
    requires WritesValid(policy, first.changes) && WritesValid(policy, second.changes)
    ensures WritesValid(policy, Then(first, second).changes)
  {
    hide ValidHeader;
  }

  lemma {:induction false} ArchivesValid(cx: Context, m: Ids, ids: seq<Id>)
    requires ValidTree(cx.policy, cx.tree) && ValidIds(m) && ArchiveAllOutcome(cx, m, ids).Accepted()
    ensures var out := ArchiveAllOutcome(cx, m, ids); WritesValid(cx.policy, out.changes) && ValidIds(out.projected)
  {
    hide ArchiveOutcome, ValidHeader, WritesValid, ValidIds, ValidTree;
    if ids != [] {
      var before := ArchiveAllOutcome(cx, m, ids[..|ids| - 1]);
      ArchivesValid(cx, m, ids[..|ids| - 1]);
      ArchiveValid(cx, before.projected, ids[|ids| - 1]);
      ThenValid(cx.policy, before, ArchiveOutcome(cx, before.projected, ids[|ids| - 1]));
    } else {
      NothingWritten(cx.policy);
    }
  }

  lemma NothingWritten(policy: Policy)
    ensures WritesValid(policy, [])
  {}

  lemma MergedValid(cx: Context, before: Doc, after: Doc, fromIds: seq<Id>, prose: Body)
    requires ValidHeader(cx.policy, before) && IsMerged(cx, before, after, fromIds, prose)
    requires forall i | 0 <= i < |fromIds| :: IsMemoryId(fromIds[i])
    ensures ValidHeader(cx.policy, after)
  {
    hide IsProse, IsMemoryId;
    var given: Fields := map[SupersedesKey := Strings(after.supersedes)];
    assert MayHold(cx.policy, SupersedesKey, FieldOf(before, SupersedesKey));
    forall i | 0 <= i < |after.supersedes| ensures IsMemoryId(after.supersedes[i]) {
      assert after.supersedes[i] in before.supersedes + fromIds;
    }
    ValidWith(cx.policy, before, after, given);
  }

  lemma MergeValid(cx: Context, m: Ids, into: Id, fromIds: seq<Id>, prose: Body)
    requires ValidTree(cx.policy, cx.tree) && ValidIds(m) && MergeOutcome(cx, m, into, fromIds, prose).Accepted()
    ensures var out := MergeOutcome(cx, m, into, fromIds, prose);
            WritesValid(cx.policy, out.changes) && ValidIds(out.projected)
  {
    hide ArchiveAllOutcome, ValidHeader, IsMemoryId;
    LoadsReadable(cx, m, into);
    AllLoad(cx, m, fromIds);
    var before := OnDisk(cx, m, into);
    var merged := Merged(cx, before, fromIds, prose);
    MergedReadsBack(cx, before, fromIds, prose);
    forall i | 0 <= i < |fromIds| ensures IsMemoryId(fromIds[i]) {
      assert Readable(cx, m, fromIds[i]);
    }
    MergedValid(cx, before, Canonical(merged), fromIds, prose);
    IdOfValid(cx.policy, before);
    var first := Outcome(m[merged.id := EntryFor(m[into].path, merged)], [WriteOf(m[into].path, merged)], []);
    ArchivesValid(cx, first.projected, fromIds);
    ThenValid(cx.policy, first, ArchiveAllOutcome(cx, first.projected, fromIds));
  }

  lemma SupersedeValid(cx: Context, m: Ids, oldId: Id, successor: Doc)
    requires ValidTree(cx.policy, cx.tree) && ValidIds(m) && ValidHeader(cx.policy, successor)
    requires SupersedeOutcome(cx, m, oldId, successor).Accepted()
    ensures var out := SupersedeOutcome(cx, m, oldId, successor);
            WritesValid(cx.policy, out.changes) && ValidIds(out.projected)
  {
    hide CreateOutcome, ArchiveOutcome, ValidHeader, IsMemoryId;
    LoadsReadable(cx, m, oldId);
    var made := successor.(supersedes := Dedupe(successor.supersedes + [oldId]));
    DedupeIsOnceEach(successor.supersedes + [oldId]);
    SuccessorValid(cx.policy, oldId, successor, made);
    CreateValid(cx, m, made, None);
    var created := CreateOutcome(cx, m, made, None);
    ArchiveValid(cx, created.projected, oldId);
    ThenValid(cx.policy, created, ArchiveOutcome(cx, created.projected, oldId));
  }

  lemma SuccessorValid(policy: Policy, oldId: Id, successor: Doc, made: Doc)
    requires ValidHeader(policy, successor) && IsMemoryId(oldId) && IsSuccessor(successor, oldId, made)
    ensures ValidHeader(policy, made)
  {
    hide IsMemoryId;
    assert MayHold(policy, SupersedesKey, FieldOf(successor, SupersedesKey));
    forall i | 0 <= i < |made.supersedes| ensures IsMemoryId(made.supersedes[i]) {
      assert made.supersedes[i] in successor.supersedes + [oldId];
    }
    forall key | key in EDITABLE ensures MayHold(policy, key, FieldOf(made, key)) {
      assert MayHold(policy, key, FieldOf(successor, key));
    }
  }

  lemma PatchValid(cx: Context, m: Ids, patch: MemoryPatch)
    requires ValidTree(cx.policy, cx.tree) && ValidIds(m) && BringsValid(cx.policy, patch)
    requires PatchOutcome(cx, m, patch).Accepted()
    ensures var out := PatchOutcome(cx, m, patch); WritesValid(cx.policy, out.changes) && ValidIds(out.projected)
  {
    hide CreateOutcome, UpdateOutcome, MergeOutcome, SupersedeOutcome, ArchiveOutcome, ValidTree, ValidHeader;
    match patch
    case Create(doc, wanted) => CreateValid(cx, m, doc, wanted);
    case Update(id, body, fields) => UpdateValid(cx, m, id, body, fields);
    case Merge(into, fromIds, prose) => MergeValid(cx, m, into, fromIds, prose);
    case Supersede(oldId, successor) => SupersedeValid(cx, m, oldId, successor);
    case Archive(id) => ArchiveValid(cx, m, id);
    case Delete(id) => DeleteRemoves(cx, m, id);
  }

  /** A plan over valid files writes valid files: kinds, fractions, scopes and memory ids, whatever it was given. */
  lemma {:induction false} PlanWritesValid(cx: Context, m: Ids, plan: Plan)
    requires ValidTree(cx.policy, cx.tree) && ValidIds(m)
    requires forall k | 0 <= k < |plan| :: BringsValid(cx.policy, plan[k])
    requires Fold(cx, m, plan).rejections == []
    ensures WritesValid(cx.policy, Fold(cx, m, plan).changes) && ValidIds(Fold(cx, m, plan).projected)
    ensures ValidTree(cx.policy, Replay(cx.tree, Fold(cx, m, plan).changes))
  {
    hide PatchOutcome, ValidHeader, BringsValid, ValidIds;
    var out := Fold(cx, m, plan);
    if plan != [] {
      var init := plan[..|plan| - 1];
      FoldPrefix(cx, m, plan, |plan| - 1);
      PlanWritesValid(cx, m, init);
      PatchValid(cx, Fold(cx, m, init).projected, plan[|plan| - 1]);
    }
    forall p | p in Replay(cx.tree, out.changes) && Replay(cx.tree, out.changes)[p].Memory?
      ensures ValidHeader(cx.policy, Replay(cx.tree, out.changes)[p].doc)
    {
      ReplayOrigin(cx.tree, out.changes, p);
    }
  }

  // ----- links to what was merged or superseded

  /** Once a merge is through, a link to one of its sources resolves, even when that source has been deleted. */
  lemma MergedLinksSurvive(cx: Context, m: Ids, into: Id, fromIds: seq<Id>, prose: Body, id: Id)
    requires LivePathsAreOwn(cx, m) && (Readable(cx, m, into) ==> OnDisk(cx, m, into).id == into)
    requires MergeOutcome(cx, m, into, fromIds, prose).Accepted()
    requires id in fromIds && IsMemoryId(id)
    ensures var after := MergeOutcome(cx, m, into, fromIds, prose).projected;
            Resolves(after, id) && Resolves(after - {id}, id)
  {
    hide IsMerged, IsStamped, ArchiveAllOutcome, LivePathsAreOwn, IsArchived, IsMemoryId, Answers, OnceEach;
    LoadsReadable(cx, m, into);
    var merged := Merged(cx, OnDisk(cx, m, into), fromIds, prose);
    TargetRecorded(cx, m, into, merged, fromIds);
    var recorded := m[into := EntryFor(m[into].path, merged)];
    ArchivesMove(cx, recorded, fromIds);
    var after := MergeOutcome(cx, m, into, fromIds, prose).projected;
    assert after == ArchiveAllOutcome(cx, recorded, fromIds).projected;
    assert after[into] == recorded[into];
    DedupeHasAll(OnDisk(cx, m, into).supersedes + fromIds, id);
    StillNamed(after, into, id);
  }

  lemma DedupeHasAll(all: seq<Id>, id: Id)
    requires id in all
    ensures id in Dedupe(all)
  {
    DedupeIsOnceEach(all);
  }

  /** A memory that names an id among what it supersedes answers links to it. */
  lemma StillNamed(m: Ids, k: Id, id: Id)
    requires IsMemoryId(id) && k in m && k != id && id in m[k].supersedes
    ensures Resolves(m, id) && Resolves(m - {id}, id)
  {
    IdLinks(m, id, k);
    IdLinks(m - {id}, id, k);
  }

  /** The same of a memory that was superseded. */
  lemma SupersededLinksSurvive(cx: Context, m: Ids, oldId: Id, successor: Doc)
    requires LivePathsAreOwn(cx, m) && SupersedeOutcome(cx, m, oldId, successor).Accepted() && IsMemoryId(oldId)
    ensures var after := SupersedeOutcome(cx, m, oldId, successor).projected;
            Resolves(after, oldId) && Resolves(after - {oldId}, oldId)
  {
    hide ArchiveOutcome, IsArchived, IsMemoryId, Answers, IsStamped;
    LoadsReadable(cx, m, oldId);
    var made := successor.(supersedes := Dedupe(successor.supersedes + [oldId]));
    CreateWrites(cx, m, made, None);
    CreateKeepsOwn(cx, m, made, None);
    var created := CreateOutcome(cx, m, made, None);
    ArchiveKeepsOthers(cx, created.projected, oldId);
    DedupeHasAll(successor.supersedes + [oldId], oldId);
    var after := SupersedeOutcome(cx, m, oldId, successor).projected;
    assert after[successor.id] == created.projected[successor.id];
    assert FieldOf(created.changes[0].file.doc, SupersedesKey) == FieldOf(made, SupersedesKey);
    StillNamed(after, successor.id, oldId);
  }
}
