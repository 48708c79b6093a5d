/** The compiler as the source runs it: it edits a copy of the manifest and appends to its lists as it goes. */
module PatchCompiler {
  import opened Changeset
  import opened Document
  import opened Layout
  import opened Manifests
  import opened Patch
  import opened Wrappers

  type Compiling = Result<seq<Change>, seq<Reason>>

  function ResultOf(out: Outcome): Compiling {
    if out.Accepted() then Ok(out.changes) else Err(out.reasons)
  }

  class Compiler {
    const cx: Context
    const manifest: Ids

    constructor (cx: Context, manifest: Ids)
      ensures this.cx == cx && this.manifest == manifest
    {
      this.cx, this.manifest := cx, manifest;
    }

    method CompileCreate(doc: Doc, wanted: Option<Path>, projected: Manifest) returns (r: Compiling)
      modifies projected
      ensures projected.memories == CreateOutcome(cx, old(projected.memories), doc, wanted).projected
      ensures r == ResultOf(CreateOutcome(cx, old(projected.memories), doc, wanted))
    {
      if doc.id in projected.memories {
        return Err([IdExists(doc.id)]);
      }
      var path := if wanted.Some? then wanted.value else cx.policy.home(doc);
      if !cx.policy.writable(path) {
        return Err([NotWritable(path)]);
      }
      if path in cx.tree {
        return Err([PathExists(path)]);
      }
      var stamped := Touch(doc, cx.clock);
      if cx.policy.bytes(Canonical(stamped)) > cx.policy.maxFileBytes {
        return Err([TooLarge(path)]);
      }
      projected.Record(path, stamped);
      r := Ok([WriteOf(path, stamped)]);
    }

    method CompileUpdate(id: Id, body: Option<Body>, fields: Fields, projected: Manifest) returns (r: Compiling)
      modifies projected
      ensures projected.memories == UpdateOutcome(cx, old(projected.memories), id, body, fields).projected
      ensures r == ResultOf(UpdateOutcome(cx, old(projected.memories), id, body, fields))
    {
      var loaded := Load(cx, projected.memories, id);
      if loaded.Err? {
        return Err([loaded.error]);
      }
      if fields.Keys * IMMUTABLE != {} {
        return Err([ImmutableField]);
      }
      if !ValidFields(cx.policy, fields) {
        return Err([InvalidField]);
      }
      var path, updated := loaded.value.path, Updated(cx, loaded.value.doc, body, fields);
      if cx.policy.bytes(Canonical(updated)) > cx.policy.maxFileBytes {
        return Err([TooLarge(path)]);
      }
      projected.Record(path, updated);
      r := Ok([WriteOf(path, updated)]);
    }

    method CompileArchive(id: Id, projected: Manifest) returns (r: Compiling)
      modifies projected
      ensures projected.memories == ArchiveOutcome(cx, old(projected.memories), id).projected
      ensures r == ResultOf(ArchiveOutcome(cx, old(projected.memories), id))
    {
      var loaded := Load(cx, projected.memories, id);
      if loaded.Err? {
        return Err([loaded.error]);
      }
      var path, doc := loaded.value.path, loaded.value.doc;
      if IsArchived(path) {
        return Ok([]);
      }
      var destination := ArchivePath(cx, projected.memories, doc);
      var archived := Touch(doc, cx.clock);
      var _ := projected.Move(id, destination);
      projected.Record(destination, archived);
      r := Ok([WriteOf(destination, archived), Remove(path)]);
    }

    /** The loop over a merge's sources: the first refusal stops it, with the earlier moves already projected. */
    method ArchiveAll(ids: seq<Id>, projected: Manifest) returns (r: Compiling)
      modifies projected
      ensures projected.memories == ArchiveAllOutcome(cx, old(projected.memories), ids).projected
      ensures r == ResultOf(ArchiveAllOutcome(cx, old(projected.memories), ids))
    {
      var changes := [];
      for i := 0 to |ids|
        invariant ArchiveAllOutcome(cx, old(projected.memories), ids[..i]) == Outcome(projected.memories, changes, [])
      {
        assert ids[..i + 1][..i] == ids[..i];
        var step := CompileArchive(ids[i], projected);
        if step.Err? {
          RefusalSticks(cx, old(projected.memories), ids, i + 1);
          return step;
        }
        changes := changes + step.value;
      }
      assert ids[..|ids|] == ids;
      r := Ok(changes);
    }

    method CompileMerge(into: Id, fromIds: seq<Id>, prose: Body, projected: Manifest) returns (r: Compiling)
      modifies projected
      ensures projected.memories == MergeOutcome(cx, old(projected.memories), into, fromIds, prose).projected
      ensures r == ResultOf(MergeOutcome(cx, old(projected.memories), into, fromIds, prose))
    {
      if fromIds == [] {
        return Err([EmptyMerge]);
      }
      if into in fromIds {
        return Err([SelfMerge(into)]);
      }
      var loaded := Load(cx, projected.memories, into);
      if loaded.Err? {
        return Err([loaded.error]);
      }
      var missing := FirstUnloadable(cx, projected.memories, fromIds);
      if missing.Some? {
        return Err([missing.value]);
      }
      var path, merged := loaded.value.path, Merged(cx, loaded.value.doc, fromIds, prose);
      if cx.policy.bytes(Canonical(merged)) > cx.policy.maxFileBytes {
        return Err([TooLarge(path)]);
      }
      projected.Record(path, merged);
      var rest := ArchiveAll(fromIds, projected);
      if rest.Err? {
        return rest;
      }
      r := Ok([WriteOf(path, merged)] + rest.value);
    }

    method CompileSupersede(oldId: Id, successor: Doc, projected: Manifest) returns (r: Compiling)
      modifies projected
      ensures projected.memories == SupersedeOutcome(cx, old(projected.memories), oldId, successor).projected
      ensures r == ResultOf(SupersedeOutcome(cx, old(projected.memories), oldId, successor))
    {
      var loaded := Load(cx, projected.memories, oldId);
      if loaded.Err? {
        return Err([loaded.error]);
      }
      var doc := successor.(supersedes := Dedupe(successor.supersedes + [oldId]));
      var created := CompileCreate(doc, None, projected);
      if created.Err? {
        return created;
      }
      var archived := CompileArchive(oldId, projected);
      if archived.Err? {
        return archived;
      }
      r := Ok(created.value + archived.value);
    }

    method CompileDelete(id: Id, projected: Manifest) returns (r: Compiling)
      modifies projected
      ensures projected.memories == DeleteOutcome(cx, old(projected.memories), id).projected
      ensures r == ResultOf(DeleteOutcome(cx, old(projected.memories), id))
    {
      if cx.job !in DELETING_JOBS {
        return Err([MayNotDelete(cx.job)]);
      }
      var loaded := Load(cx, projected.memories, id);
      if loaded.Err? {
        return Err([loaded.error]);
      }
      var path, doc := loaded.value.path, loaded.value.doc;
      var problems := [];
      if doc.pinned {
        problems := problems + [IsPinned(id)];
      }
      if !IsArchived(path) {
        problems := problems + [NotArchived(id)];
      }
      if cx.now - doc.updated < cx.policy.retentionFloor {
        problems := problems + [TooRecent(id)];
      }
      assert problems == DeleteReasons(cx, id, loaded.value);
      if problems != [] {
        return Err(problems);
      }
      var _ := projected.Forget(id);
      r := Ok([Remove(path)]);
    }

    method CompileOne(patch: MemoryPatch, projected: Manifest) returns (r: Compiling)
      modifies projected
      ensures projected.memories == PatchOutcome(cx, old(projected.memories), patch).projected
      ensures r == ResultOf(PatchOutcome(cx, old(projected.memories), patch))
    {
      match patch {
        case Create(doc, path) => r := CompileCreate(doc, path, projected);
        case Update(id, body, fields) => r := CompileUpdate(id, body, fields, projected);
        case Merge(into, fromIds, prose) => r := CompileMerge(into, fromIds, prose, projected);
        case Supersede(oldId, successor) => r := CompileSupersede(oldId, successor, projected);
        case Archive(id) => r := CompileArchive(id, projected);
        case Delete(id) => r := CompileDelete(id, projected);
      }
    }

    /** The whole-plan link rule: written links that dangle, then surviving links to what is deleted. */
    method CheckLinks(plan: Plan, changes: seq<Change>, projected: Ids) returns (rejections: seq<Rejection>)
      ensures rejections == [] <==> WritesResolve(projected, changes) && DeletesUnlinked(cx, projected, plan)
    {
      rejections := [];
      for i := 0 to |changes|
        invariant rejections == [] <==> WritesResolve(projected, changes[..i])
      {
        assert changes[..i + 1] == changes[..i] + [changes[i]];
        var found := DanglingIn(changes[i], projected);
        rejections := rejections + found;
      }
      assert changes[..|changes|] == changes;
      for i := 0 to |plan|
        invariant rejections == [] <==> WritesResolve(projected, changes) && DeletesUnlinked(cx, projected, plan[..i])
      {
        assert plan[..i + 1] == plan[..i] + [plan[i]];
        if plan[i].Delete? {
          var found := InboundLinksTo(plan[i].id, projected);
          rejections := rejections + found;
        }
      }
      assert plan[..|plan|] == plan;
    }

    method DanglingIn(change: Change, projected: Ids) returns (rejections: seq<Rejection>)
      ensures rejections == [] <==>
              (change.Write? && change.file.Memory? ==>
                 forall t | t in change.file.doc.body.links :: Resolves(projected, t))
    {
      rejections := [];
      if change.Write? && change.file.Memory? {
        var links := change.file.doc.body.links;
        for j := 0 to |links|
          invariant rejections == [] <==> forall k | 0 <= k < j :: Resolves(projected, links[k])
        {
          var entry := Resolve(projected, links[j]);
          if entry.None? {
            rejections := rejections + [Rejection(Dangling(change.path, links[j]), None)];
          } else {
            assert Resolves(projected, links[j]);
          }
        }
      }
    }

    method InboundLinksTo(id: Id, projected: Ids) returns (rejections: seq<Rejection>)
      ensures rejections == [] <==> NoInbound(cx, projected, id)
    {
      rejections := [];
      var todo := projected.Keys;
      while todo != {}
        invariant todo <= projected.Keys
        invariant rejections == [] <==>
                  forall k | && k in projected && k !in todo
                             && projected[k].path in cx.tree && cx.tree[projected[k].path].Memory? ::
                    id !in cx.tree[projected[k].path].doc.body.links
      {
        var k :| k in todo;
        todo := todo - {k};
        var path := projected[k].path;
        if path in cx.tree && cx.tree[path].Memory? && id in cx.tree[path].doc.body.links {
          rejections := rejections + [Rejection(StillLinked(path, id), None)];
        }
      }
    }

    method CheckSecrets(changes: seq<Change>) returns (rejections: seq<Rejection>)
      ensures rejections == [] <==> NoSecrets(cx, changes)
    {
      rejections := [];
      for i := 0 to |changes|
        invariant rejections == [] <==> NoSecrets(cx, changes[..i])
      {
        assert changes[..i + 1] == changes[..i] + [changes[i]];
        var c := changes[i];
        if c.Write? && c.file.Memory? && cx.policy.secret(c.file.doc) {
          rejections := rejections + [Rejection(SecretMaterial(c.path), None)];
        }
      }
      assert changes[..|changes|] == changes;
    }

    /** The rules about the plan as a whole. */
    method CheckPlan(plan: Plan, changes: seq<Change>, projected: Ids) returns (rejections: seq<Rejection>)
      ensures rejections == [] <==>
              && WithinLimits(cx, changes) && WritesResolve(projected, changes)
              && DeletesUnlinked(cx, projected, plan) && NoSecrets(cx, changes)
    {
      rejections := [];
      var touched := Touched(changes);
      if |touched| > cx.policy.maxFilesPerCommit {
        rejections := rejections + [Rejection(TooManyFiles(|touched|), None)];
      }
      var links := CheckLinks(plan, changes, projected);
      var secrets := CheckSecrets(changes);
      rejections := rejections + links + secrets;
    }

    /** Patch after patch: a refused one adds its reasons and no changes, and the rest still run. */
    method CompileEach(plan: Plan, projected: Manifest) returns (changes: seq<Change>, rejections: seq<Rejection>)
      requires projected.memories == manifest
      modifies projected
      ensures Fold(cx, manifest, plan) == Compiled(projected.memories, changes, rejections)
    {
      hide PatchOutcome;
      changes, rejections := [], [];
      for i := 0 to |plan|
        invariant Fold(cx, manifest, plan[..i]) == Compiled(projected.memories, changes, rejections)
      {
        assert plan[..i + 1][..i] == plan[..i];
        RefusedWritesNothing(cx, projected.memories, plan[i]);
        var step := CompileOne(plan[i], projected);
        if step.Ok? {
          changes := changes + step.value;
        } else {
          rejections := rejections + Indexed(step.error, i);
        }
      }
      assert plan[..|plan|] == plan;
    }

    /** The changes a plan means, or every reason it was rejected, with nothing written either way. */
    method Compile(plan: Plan) returns (r: Result<seq<Change>, seq<Rejection>>)
      ensures r.Ok? <==> Accepts(cx, manifest, plan)
      ensures r.Ok? ==> r.value == Fold(cx, manifest, plan).changes
      ensures r.Err? ==> r.error != [] && Fold(cx, manifest, plan).rejections <= r.error
    {
      var projected := new Manifest(manifest);
      var changes, rejections := CompileEach(plan, projected);
      var rules := CheckPlan(plan, changes, projected.memories);
      if rejections + rules != [] {
        r := Err(rejections + rules);
      } else {
        r := Ok(changes);
      }
    }
  }

  /** A refused patch adds nothing to the changes. */
  lemma RefusedWritesNothing(cx: Context, m: Ids, patch: MemoryPatch)
    ensures PatchOutcome(cx, m, patch).Accepted() || PatchOutcome(cx, m, patch).changes == []
  {}

  /** Once a source is refused, the rest of the merge changes nothing. */
  lemma {:induction false} RefusalSticks(cx: Context, m: Ids, ids: seq<Id>, k: nat)
    requires k <= |ids| && !ArchiveAllOutcome(cx, m, ids[..k]).Accepted()
    ensures ArchiveAllOutcome(cx, m, ids) == ArchiveAllOutcome(cx, m, ids[..k])
  {
    if k == |ids| {
      assert ids[..k] == ids;
    } else {
      var init := ids[..|ids| - 1];
      assert init[..k] == ids[..k];
      RefusalSticks(cx, m, init, k);
    }
  }
}
