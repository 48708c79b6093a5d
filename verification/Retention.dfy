/**
 * Nothing is forgotten early: over any run of plans, an id leaves the tree only through `forget`,
 * and not before the retention floor has passed since it was last seen outside the archive.
 */
module Retention {
  import opened Changeset
  import opened Document
  import opened Layout
  import opened Manifests
  import opened Patch
  import opened PatchAgreement
  import opened Wrappers

  // ----- what one plan writes

  /** Every written path is claimed by one id, and it is the id of the memory the disk has there, if any. */
  ghost predicate PathsApart(tree: Tree, changes: seq<Change>) {
    && (forall p, d | Write(p, Memory(d)) in changes && p in tree && tree[p].Memory? :: tree[p].doc.id == d.id)
    && (forall p, d, e | Write(p, Memory(d)) in changes && Write(p, Memory(e)) in changes :: d.id == e.id)
  }

  /** A file of the replayed tree is the file that was there or one the changes wrote there. */
  lemma {:induction false} ReplayOrigin(tree: Tree, changes: seq<Change>, path: Path)
    requires path in Replay(tree, changes)
    ensures var file := Replay(tree, changes)[path];
            (path in tree && tree[path] == file) || Write(path, file) in changes
  {
    if changes != [] {
      var init, last := changes[..|changes| - 1], changes[|changes| - 1];
      if last != Write(path, Replay(tree, changes)[path]) {
        ReplayOrigin(tree, init, path);
      }
    }
  }

  lemma {:induction false} ApartMeansNoOverwrite(tree: Tree, changes: seq<Change>)
    requires PathsApart(tree, changes)
    ensures NoOverwrite(tree, changes)
  {
    if changes != [] {
      var init, last := changes[..|changes| - 1], changes[|changes| - 1];
      ApartMeansNoOverwrite(tree, init);
      if last.path in Replay(tree, init) {
        ReplayOrigin(tree, init, last.path);
      }
    }
  }

  /** Every write of a plan is stamped with the clock, unless it rewrites derived fields of a document on disk. */
  ghost predicate Stamped(cx: Context, p: Path, d: Doc) {
    || d.updated == ToSecond(cx.clock)
    || (&& p in cx.tree && cx.tree[p].Memory? && cx.tree[p].doc.id == d.id
        && d.updated == ToSecond(cx.tree[p].doc.updated))
  }

  ghost predicate AllStamped(cx: Context, changes: seq<Change>) {
    forall p, d | Write(p, Memory(d)) in changes :: Stamped(cx, p, d)
  }

  /** An entry of the projection is the one the plan started from or belongs to a file it wrote. */
  ghost predicate HasOrigin(m: Ids, projected: Ids, changes: seq<Change>) {
    forall id | id in projected :: (id in m && projected[id] == m[id]) || WrittenFor(projected[id].path, id, changes)
  }

  ghost predicate WrittenFor(path: Path, id: Id, changes: seq<Change>) {
    exists d :: Write(path, Memory(d)) in changes && d.id == id
  }

  lemma WriteOfFacts(cx: Context, path: Path, doc: Doc, changes: seq<Change>)
    requires WriteOf(path, doc) in changes
    ensures WrittenFor(path, doc.id, changes)
    ensures Canonical(Touch(doc, cx.clock)).updated == ToSecond(cx.clock)
  {
    assert Canonical(doc).id == doc.id;
  }

  lemma {:induction false} ArchiveAllWrites(cx: Context, m: Ids, ids: seq<Id>)
    requires LivePathsAreOwn(cx, m)
    requires ArchiveAllOutcome(cx, m, ids).Accepted()
    ensures var out := ArchiveAllOutcome(cx, m, ids);
            && AllStamped(cx, out.changes) && HasOrigin(m, out.projected, out.changes)
            && LivePathsAreOwn(cx, out.projected) && m.Keys == out.projected.Keys
  {
    if ids != [] {
      var init, last := ids[..|ids| - 1], ids[|ids| - 1];
      ArchiveAllWrites(cx, m, init);
      var before := ArchiveAllOutcome(cx, m, init);
      ArchiveWrites(cx, before.projected, last);
      var step := ArchiveOutcome(cx, before.projected, last);
      OriginThen(m, before.projected, before.changes, step.projected, step.changes);
    }
  }

  lemma ArchiveWrites(cx: Context, m: Ids, id: Id)
    requires LivePathsAreOwn(cx, m)
    requires ArchiveOutcome(cx, m, id).Accepted()
    ensures var out := ArchiveOutcome(cx, m, id);
            && AllStamped(cx, out.changes) && HasOrigin(m, out.projected, out.changes)
            && LivePathsAreOwn(cx, out.projected) && m.Keys == out.projected.Keys
  {
    var at := Load(cx, m, id).value;
    var out := ArchiveOutcome(cx, m, id);
    if !IsArchived(at.path) {
      WriteOfFacts(cx, ArchivePath(cx, m, at.doc), Touch(at.doc, cx.clock), out.changes);
    }
  }

  lemma OriginThen(m: Ids, mid: Ids, a: seq<Change>, after: Ids, b: seq<Change>)
    requires HasOrigin(m, mid, a) && HasOrigin(mid, after, b)
    ensures HasOrigin(m, after, a + b)
  {
    forall id | id in after ensures (id in m && after[id] == m[id]) || WrittenFor(after[id].path, id, a + b) {
      if WrittenFor(after[id].path, id, b) {
        var d :| Write(after[id].path, Memory(d)) in b && d.id == id;
        assert Write(after[id].path, Memory(d)) in a + b;
      } else if WrittenFor(mid[id].path, id, a) {
        var d :| Write(mid[id].path, Memory(d)) in a && d.id == id;
        assert Write(after[id].path, Memory(d)) in a + b;
      }
    }
  }

  /** The memory a delete is allowed to take: archived, unpinned, and untouched for the retention floor. */
  ghost predicate MayGo(cx: Context, m: Ids, id: Id) {
    && cx.job in DELETING_JOBS
    && id in m && IsArchived(m[id].path)
    && m[id].path in cx.tree && cx.tree[m[id].path].Memory?
    && !cx.tree[m[id].path].doc.pinned
    && cx.now - cx.tree[m[id].path].doc.updated >= cx.policy.retentionFloor
  }

  /** Stamped writes, entries with an origin, and no id lost except to an allowed delete. */
  ghost predicate Traced(cx: Context, m: Ids, patch: MemoryPatch, out: Outcome) {
    && AllStamped(cx, out.changes)
    && HasOrigin(m, out.projected, out.changes)
    && forall id | id in m && id !in out.projected :: patch == Delete(id) && MayGo(cx, m, id)
  }

  lemma CreateTraced(cx: Context, m: Ids, patch: MemoryPatch, doc: Doc, wanted: Option<Path>)
    requires CreateOutcome(cx, m, doc, wanted).Accepted()
    ensures Traced(cx, m, patch, CreateOutcome(cx, m, doc, wanted))
  {
    var path := if wanted.Some? then wanted.value else cx.policy.home(doc);
    WriteOfFacts(cx, path, Touch(doc, cx.clock), CreateOutcome(cx, m, doc, wanted).changes);
  }

  lemma UpdateTraced(cx: Context, m: Ids, patch: MemoryPatch, id: Id, body: Option<Body>, fields: Fields)
    requires UpdateOutcome(cx, m, id, body, fields).Accepted()
    ensures Traced(cx, m, patch, UpdateOutcome(cx, m, id, body, fields))
  {
    var at := Load(cx, m, id).value;
    WriteOfFacts(cx, at.path, Updated(cx, at.doc, body, fields), UpdateOutcome(cx, m, id, body, fields).changes);
  }

  lemma ThenTraced(cx: Context, m: Ids, patch: MemoryPatch, first: Outcome, second: Outcome)
    requires Traced(cx, m, patch, first) && first.Accepted() && second.Accepted()
    requires AllStamped(cx, second.changes)
    requires HasOrigin(first.projected, second.projected, second.changes)
    requires first.projected.Keys == second.projected.Keys
    ensures Traced(cx, m, patch, Then(first, second))
  {
    OriginThen(m, first.projected, first.changes, second.projected, second.changes);
    forall p, d | Write(p, Memory(d)) in first.changes + second.changes ensures Stamped(cx, p, d) {
      assert Write(p, Memory(d)) in first.changes || Write(p, Memory(d)) in second.changes;
    }
  }

  lemma MergeTraced(cx: Context, m: Ids, patch: MemoryPatch, into: Id, fromIds: seq<Id>, prose: Body)
    requires LivePathsAreOwn(cx, m)
    requires MergeOutcome(cx, m, into, fromIds, prose).Accepted()
    ensures Traced(cx, m, patch, MergeOutcome(cx, m, into, fromIds, prose))
  {
    var at := Load(cx, m, into).value;
    var merged := Merged(cx, at.doc, fromIds, prose);
    var first := Outcome(m[merged.id := EntryFor(at.path, merged)], [WriteOf(at.path, merged)], []);
    WriteOfFacts(cx, at.path, merged, first.changes);
    ArchiveAllWrites(cx, first.projected, fromIds);
    ThenTraced(cx, m, patch, first, ArchiveAllOutcome(cx, first.projected, fromIds));
  }

  lemma PatchTraced(cx: Context, m: Ids, patch: MemoryPatch)
    requires LivePathsAreOwn(cx, m)
    requires PatchOutcome(cx, m, patch).Accepted()
    ensures Traced(cx, m, patch, PatchOutcome(cx, m, patch))
  {
    hide CreateOutcome, UpdateOutcome, MergeOutcome, SupersedeOutcome, ArchiveOutcome, DeleteOutcome, Traced;
    match patch
    case Create(doc, wanted) => CreateTraced(cx, m, patch, doc, wanted);
    case Update(id, body, fields) => UpdateTraced(cx, m, patch, id, body, fields);
    case Merge(into, fromIds, prose) => MergeTraced(cx, m, patch, into, fromIds, prose);
    case Supersede(oldId, successor) => SupersedeTraced(cx, m, patch, oldId, successor);
    case Archive(id) => ArchiveTraced(cx, m, patch, id);
    case Delete(id) => DeleteTraced(cx, m, patch, id);
  }

  lemma CreateKeepsOwn(cx: Context, m: Ids, doc: Doc, wanted: Option<Path>)
    requires LivePathsAreOwn(cx, m) && CreateOutcome(cx, m, doc, wanted).Accepted()
    ensures LivePathsAreOwn(cx, CreateOutcome(cx, m, doc, wanted).projected)
  {
  }

  lemma SupersedeTraced(cx: Context, m: Ids, patch: MemoryPatch, oldId: Id, successor: Doc)
    requires LivePathsAreOwn(cx, m) && SupersedeOutcome(cx, m, oldId, successor).Accepted()
    ensures Traced(cx, m, patch, SupersedeOutcome(cx, m, oldId, successor))
  {
    hide CreateOutcome, ArchiveOutcome;
    var doc := successor.(supersedes := Dedupe(successor.supersedes + [oldId]));
    var first := CreateOutcome(cx, m, doc, None);
    CreateTraced(cx, m, patch, doc, None);
    CreateKeepsOwn(cx, m, doc, None);
    ArchiveWrites(cx, first.projected, oldId);
    ThenTraced(cx, m, patch, first, ArchiveOutcome(cx, first.projected, oldId));
  }

  lemma ArchiveTraced(cx: Context, m: Ids, patch: MemoryPatch, id: Id)
    requires LivePathsAreOwn(cx, m) && ArchiveOutcome(cx, m, id).Accepted()
    ensures Traced(cx, m, patch, ArchiveOutcome(cx, m, id))
  {
    hide ArchiveOutcome;
    ArchiveWrites(cx, m, id);
  }

  lemma DeleteTraced(cx: Context, m: Ids, patch: MemoryPatch, id: Id)
    requires LivePathsAreOwn(cx, m) && patch == Delete(id) && DeleteOutcome(cx, m, id).Accepted()
    ensures Traced(cx, m, patch, DeleteOutcome(cx, m, id))
  {
  }

  // ----- what one plan keeps

  /**
   * A plan that keeps paths apart stamps what it writes, and takes only ids the disk already had
   * in the archive, old enough, before the plan began: archiving and deleting in one plan is impossible.
   */
  lemma {:induction false} PlanKeeps(cx: Context, m: Ids, plan: Plan)
    requires Describes(m, cx.tree)
    requires Fold(cx, m, plan).rejections == []
    requires PathsApart(cx.tree, Fold(cx, m, plan).changes)
    ensures var out := Fold(cx, m, plan);
            && AllStamped(cx, out.changes)
            && HasOrigin(m, out.projected, out.changes)
            && Describes(out.projected, Replay(cx.tree, out.changes))
            && AppliesCleanly(cx.tree, out.changes)
            && forall id | id in m && id !in out.projected :: Delete(id) in plan && MayGo(cx, m, id)
  {
    hide PatchOutcome;
    var out := Fold(cx, m, plan);
    ApartMeansNoOverwrite(cx.tree, out.changes);
    PlanSettles(cx, m, plan);
    if plan != [] {
      var init, last := plan[..|plan| - 1], plan[|plan| - 1];
      FoldPrefix(cx, m, plan, |plan| - 1);
      var before := Fold(cx, m, init);
      var step := PatchOutcome(cx, before.projected, last);
      assert out.changes == before.changes + step.changes;
      PlanKeeps(cx, m, init);
      ApartMeansNoOverwrite(cx.tree, before.changes);
      PlanSettles(cx, m, init);
      PatchTraced(cx, before.projected, last);
      OriginThen(m, before.projected, before.changes, step.projected, step.changes);
      forall id | id in m && id !in out.projected ensures Delete(id) in plan && MayGo(cx, m, id) {
        if id in before.projected {
          OwnOnDisk(cx, m, before, id);
        }
      }
    }
  }

  /** Under the plan's projection, an id whose path has a parseable file on the old disk is still where it was. */
  lemma OwnOnDisk(cx: Context, m: Ids, out: Compiled, id: Id)
    requires Describes(m, cx.tree)
    requires PathsApart(cx.tree, out.changes)
    requires HasOrigin(m, out.projected, out.changes)
    requires id in out.projected && out.projected[id].path in cx.tree && cx.tree[out.projected[id].path].Memory?
    ensures id in m && m[id].path == out.projected[id].path
  {
    if !(id in m && out.projected[id] == m[id]) {
      var d :| Write(out.projected[id].path, Memory(d)) in out.changes && d.id == id;
    }
  }

  // ----- runs of plans

  datatype State = State(tree: Tree, manifest: Ids)

  /** One job's attempt: its plan, the time it judges ages by, and the clock its writes are stamped with. */
  datatype Attempt = Attempt(job: Job, plan: Plan, now: int, clock: int)

  function ContextOf(policy: Policy, s: State, a: Attempt): Context {
    Context(s.tree, policy, a.job, a.now, a.clock)
  }

  ghost predicate Lands(policy: Policy, s: State, a: Attempt) {
    Accepts(ContextOf(policy, s, a), s.manifest, a.plan)
  }

  /** A rejected plan writes nothing; an accepted one is applied, and the manifest rebuilt from the tree. */
  ghost function After(policy: Policy, s: State, a: Attempt): State {
    var out := Fold(ContextOf(policy, s, a), s.manifest, a.plan);
    if Lands(policy, s, a) then State(Replay(s.tree, out.changes), out.projected) else s
  }

  ghost predicate KeepsPathsApart(policy: Policy, s: State, a: Attempt) {
    Lands(policy, s, a) ==> PathsApart(s.tree, Fold(ContextOf(policy, s, a), s.manifest, a.plan).changes)
  }

  /** The states a run of attempts goes through: the manifest starts exact, and written paths stay apart. */
  ghost predicate Runs(policy: Policy, states: seq<State>, run: seq<Attempt>) {
    && |states| == |run| + 1
    && Describes(states[0].manifest, states[0].tree)
    && (forall i | 0 <= i < |run| :: KeepsPathsApart(policy, states[i], run[i]))
    && (forall i | 0 <= i < |run| :: states[i + 1] == After(policy, states[i], run[i]))
  }

  lemma StepDescribed(policy: Policy, s: State, a: Attempt)
    requires Describes(s.manifest, s.tree) && KeepsPathsApart(policy, s, a)
    ensures var t := After(policy, s, a); Describes(t.manifest, t.tree)
  {
    if Lands(policy, s, a) {
      PlanKeeps(ContextOf(policy, s, a), s.manifest, a.plan);
    }
  }

  lemma {:induction false} AlwaysDescribed(policy: Policy, states: seq<State>, run: seq<Attempt>, k: nat)
    requires Runs(policy, states, run) && k < |states|
    ensures Describes(states[k].manifest, states[k].tree)
  {
    if k > 0 {
      AlwaysDescribed(policy, states, run, k - 1);
      StepDescribed(policy, states[k - 1], run[k - 1]);
    }
  }

  /** Only `forget` loses an id. */
  lemma OnlyForgetLoses(policy: Policy, states: seq<State>, run: seq<Attempt>, k: nat, id: Id)
    requires Runs(policy, states, run) && k < |run|
    requires id in states[k].manifest && id !in states[k + 1].manifest
    ensures run[k].job == "forget" && Delete(id) in run[k].plan
  {
    AlwaysDescribed(policy, states, run, k);
    PlanKeeps(ContextOf(policy, states[k], run[k]), states[k].manifest, run[k].plan);
  }

  ghost predicate IsLive(s: State, id: Id) {
    id in s.manifest && !IsArchived(s.manifest[id].path)
  }

  /** Outside the archive, or last written at `since` or later. */
  ghost predicate Recent(s: State, id: Id, since: int) {
    id in s.manifest ==>
      || !IsArchived(s.manifest[id].path)
      || (Holds(s.tree, s.manifest[id].path, id) && s.tree[s.manifest[id].path].doc.updated >= since)
  }

  /** The attempt that took `id`: a `forget` naming it, judging its archived file old enough. */
  ghost predicate TakenBy(policy: Policy, s: State, a: Attempt, id: Id, since: int) {
    && Lands(policy, s, a)
    && Delete(id) in a.plan
    && MayGo(ContextOf(policy, s, a), s.manifest, id)
    && s.tree[s.manifest[id].path].doc.updated >= since
  }

  lemma StepKeepsRecent(policy: Policy, s: State, a: Attempt, id: Id, since: int)
    requires Describes(s.manifest, s.tree) && KeepsPathsApart(policy, s, a)
    requires since % SECOND == 0 && since <= a.clock
    requires Recent(s, id, since)
    ensures Recent(After(policy, s, a), id, since)
    ensures id in s.manifest && id !in After(policy, s, a).manifest ==> TakenBy(policy, s, a, id, since)
  {
    hide PatchOutcome;
    if Lands(policy, s, a) {
      var cx := ContextOf(policy, s, a);
      PlanKeeps(cx, s.manifest, a.plan);
      var out := Fold(cx, s.manifest, a.plan);
      ToSecondMonotone(since, a.clock);
      if id in out.projected && IsArchived(out.projected[id].path) {
        var path := out.projected[id].path;
        assert Holds(Replay(s.tree, out.changes), path, id);
        ReplayOrigin(s.tree, out.changes, path);
        var file := Replay(s.tree, out.changes)[path];
        if Write(path, file) in out.changes {
          assert Stamped(cx, path, file.doc);
          if path in s.tree && s.tree[path].Memory? && s.tree[path].doc.id == id {
            ToSecondMonotone(since, s.tree[path].doc.updated);
          }
        }
      }
    }
  }

  /** Every clock from `j` on reads at least `s`. */
  ghost predicate ClocksFrom(run: seq<Attempt>, j: nat, s: int) {
    forall i | j <= i < |run| :: s <= run[i].clock
  }

  lemma {:induction false} StaysRecent(policy: Policy, states: seq<State>, run: seq<Attempt>, j: nat, k: nat,
                                       id: Id, s: int)
    requires Runs(policy, states, run) && j <= k < |states|
    requires IsLive(states[j], id) && ClocksFrom(run, j, s)
    ensures Recent(states[k], id, ToSecond(s))
  {
    if j < k {
      StaysRecent(policy, states, run, j, k - 1, id, s);
      AlwaysDescribed(policy, states, run, k - 1);
      ToSecondMonotone(s, run[k - 1].clock);
      StepKeepsRecent(policy, states[k - 1], run[k - 1], id, ToSecond(s));
    }
  }

  /** An id there at `j` and gone at `k` is lost by one attempt in between. */
  lemma {:induction false} LostInBetween(states: seq<State>, j: nat, k: nat, id: Id) returns (i: nat)
    requires j <= k < |states|
    requires id in states[j].manifest && id !in states[k].manifest
    ensures j <= i < k && id in states[i].manifest && id !in states[i + 1].manifest
  {
    if id in states[k - 1].manifest {
      i := k - 1;
    } else {
      i := LostInBetween(states, j, k - 1, id);
    }
  }

  /**
   * The retention floor over whole runs. An id seen outside the archive at time `s`, with every
   * later clock reading at least `s`, and gone at `k`, was taken in between by a `forget` that
   * named it, whose `now` is at least `s`, to the second, plus the floor.
   */
  lemma RetentionFloor(policy: Policy, states: seq<State>, run: seq<Attempt>, j: nat, k: nat, id: Id, s: int)
    returns (i: nat)
    requires Runs(policy, states, run) && j <= k < |states|
    requires IsLive(states[j], id) && ClocksFrom(run, j, s)
    requires id !in states[k].manifest
    ensures j <= i < k
    ensures TakenBy(policy, states[i], run[i], id, ToSecond(s))
    ensures run[i].job == "forget" && run[i].now >= ToSecond(s) + policy.retentionFloor
  {
    i := LostInBetween(states, j, k, id);
    StaysRecent(policy, states, run, j, i, id, s);
    AlwaysDescribed(policy, states, run, i);
    ToSecondMonotone(s, run[i].clock);
    StepKeepsRecent(policy, states[i], run[i], id, ToSecond(s));
  }
}
