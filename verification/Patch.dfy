/** The typed plan, its validator, and the compiler that turns it into changes (siatt/memory/patch.py). */
module Patch {
  import opened Changeset
  import opened Document
  import opened Layout
  import opened Manifests
  import opened Wrappers

  // ----- the plan

  datatype Key =
    | IdKey | CreatedKey | UpdatedKey | KindKey | TitleKey | TagsKey | VisibilityKey | ConfidenceKey
    | SalienceKey | PinnedKey | SourceRefsKey | SupersedesKey | UnknownKey

  datatype Value = Words(text: string) | Strings(items: seq<string>) | Number(number: real) | Flag(flag: bool)

  type Fields = map<Key, Value>

  datatype MemoryPatch =
    | Create(memory: Doc, path: Option<Path>)
    | Update(id: Id, body: Option<Body>, fields: Fields)
    | Merge(into: Id, fromIds: seq<Id>, prose: Body)
    | Supersede(oldId: Id, successor: Doc)
    | Archive(id: Id)
    | Delete(id: Id)

  type Plan = seq<MemoryPatch>
  type Job = string

  const DELETING_JOBS: set<Job> := {"forget"}
  const IMMUTABLE: set<Key> := {IdKey, CreatedKey, UpdatedKey}
  const DERIVED: set<Key> := {SalienceKey, VisibilityKey}
  const MEMORY_TYPES: set<string> := {"person", "project", "topic", "fact", "journal"}

  datatype Reason =
    | IdExists(id: Id) | PathExists(path: Path) | NotWritable(path: Path) | TooLarge(path: Path)
    | UnknownId(id: Id) | FileMissing(id: Id) | FileBroken(path: Path)
    | ImmutableField | InvalidField | EmptyMerge | SelfMerge(id: Id)
    | MayNotDelete(job: Job) | IsPinned(id: Id) | NotArchived(id: Id) | TooRecent(id: Id)
    | TooManyFiles(count: nat) | Dangling(path: Path, target: string) | StillLinked(path: Path, id: Id)
    | SecretMaterial(path: Path)

  datatype Rejection = Rejection(reason: Reason, index: Option<nat>)

  /**
   * The settings, and the text machinery a plan's meaning depends on: the file name a title gives,
   * the conventional path of a document, what a writable path is, a rendered document's size in
   * bytes, and whether the redactor would change it. Nothing below assumes anything about them.
   */
  datatype Policy = Policy(
    maxFileBytes: nat, maxFilesPerCommit: nat, retentionFloor: int,
    slug: string -> string, idTail: Id -> string, home: Doc -> Path, visible: string -> bool,
    writable: Path -> bool, bytes: Doc -> nat, secret: Doc -> bool)

  /** What a compile reads besides the manifest: the disk, the policy, the job, `now`, and the stamping clock. */
  datatype Context = Context(tree: Tree, policy: Policy, job: Job, now: int, clock: int)

  // ----- per-patch rules, on values

  /** The manifest after a patch, and the changes it means or the reasons it was refused. */
  datatype Outcome = Outcome(projected: Ids, changes: seq<Change>, reasons: seq<Reason>) {
    predicate Accepted() { reasons == [] }
  }

  function Refuse(m: Ids, reason: Reason): Outcome {
    Outcome(m, [], [reason])
  }

  datatype Loaded = Loaded(path: Path, doc: Doc)

  /** `_load` reads the disk as it was before the plan, at the path the projection gives the id. */
  function Load(cx: Context, m: Ids, id: Id): Result<Loaded, Reason> {
    if id !in m then Err(UnknownId(id))
    else if m[id].path !in cx.tree then Err(FileMissing(id))
    else
      match cx.tree[m[id].path]
      case Broken => Err(FileBroken(m[id].path))
      case Memory(doc) => Ok(Loaded(m[id].path, doc))
  }

  function WriteOf(path: Path, doc: Doc): Change {
    Write(path, Memory(Canonical(doc)))
  }

  function CreateOutcome(cx: Context, m: Ids, doc: Doc, wanted: Option<Path>): Outcome {
    var path := if wanted.Some? then wanted.value else cx.policy.home(doc);
    var stamped := Touch(doc, cx.clock);
    if doc.id in m then Refuse(m, IdExists(doc.id))
    else if !cx.policy.writable(path) then Refuse(m, NotWritable(path))
    else if path in cx.tree then Refuse(m, PathExists(path))
    else if cx.policy.bytes(Canonical(stamped)) > cx.policy.maxFileBytes then Refuse(m, TooLarge(path))
    else Outcome(m[doc.id := EntryFor(path, stamped)], [WriteOf(path, stamped)], [])
  }

  /** An update that only rewrites derived fields does not count as a change to the memory. */
  predicate IsBookkeeping(body: Option<Body>, fields: Fields) {
    body.None? && fields != map[] && fields.Keys <= DERIVED
  }

  predicate ValidField(policy: Policy, key: Key, value: Value) {
    match key
    case KindKey => value.Words? && value.text in MEMORY_TYPES
    case TitleKey => value.Words?
    case TagsKey => value.Strings?
    case VisibilityKey => value.Words? && policy.visible(value.text)
    case ConfidenceKey => value.Number? && 0.0 <= value.number <= 1.0
    case SalienceKey => value.Number? && 0.0 <= value.number <= 1.0
    case PinnedKey => value.Flag?
    case SourceRefsKey => value.Strings?
    case SupersedesKey => value.Strings? && forall s | s in value.items :: IsMemoryId(s)
    case _ => false
  }

  predicate ValidFields(policy: Policy, fields: Fields) {
    forall key | key in fields :: ValidField(policy, key, fields[key])
  }

  function WithFields(policy: Policy, doc: Doc, fields: Fields): Doc
    requires ValidFields(policy, fields)
  {
    doc.(
      kind := if KindKey in fields then fields[KindKey].text else doc.kind,
      title := if TitleKey in fields then fields[TitleKey].text else doc.title,
      tags := if TagsKey in fields then fields[TagsKey].items else doc.tags,
      visibility := if VisibilityKey in fields then fields[VisibilityKey].text else doc.visibility,
      confidence := if ConfidenceKey in fields then fields[ConfidenceKey].number else doc.confidence,
      salience := if SalienceKey in fields then fields[SalienceKey].number else doc.salience,
      pinned := if PinnedKey in fields then fields[PinnedKey].flag else doc.pinned,
      sourceRefs := if SourceRefsKey in fields then fields[SourceRefsKey].items else doc.sourceRefs,
      supersedes := if SupersedesKey in fields then fields[SupersedesKey].items else doc.supersedes)
  }

  /** `_as_body`: prose given by a plan opens with a newline. */
  function AsBody(body: Body): Body {
    if body.text != "" && body.text[0] == '\n' then body else body.(text := "\n" + body.text)
  }

  function Updated(cx: Context, doc: Doc, body: Option<Body>, fields: Fields): Doc
    requires ValidFields(cx.policy, fields)
  {
    var edited := WithFields(cx.policy, doc, fields);
    var stamped := if IsBookkeeping(body, fields) then edited else Touch(edited, cx.clock);
    stamped.(body := if body.None? then doc.body else AsBody(body.value))
  }

  function UpdateOutcome(cx: Context, m: Ids, id: Id, body: Option<Body>, fields: Fields): Outcome {
    match Load(cx, m, id)
    case Err(reason) => Refuse(m, reason)
    case Ok(Loaded(path, doc)) =>
      if fields.Keys * IMMUTABLE != {} then Refuse(m, ImmutableField)
      else if !ValidFields(cx.policy, fields) then Refuse(m, InvalidField)
      else
        var updated := Updated(cx, doc, body, fields);
        if cx.policy.bytes(Canonical(updated)) > cx.policy.maxFileBytes then Refuse(m, TooLarge(path))
        else Outcome(m[updated.id := EntryFor(path, updated)], [WriteOf(path, updated)], [])
  }

  ghost predicate Taken(m: Ids, path: Path) {
    exists id :: id in m && m[id].path == path
  }

  predicate TakenIn(m: Ids, path: Path)
    ensures TakenIn(m, path) <==> Taken(m, path)
  {
    exists id | id in m :: m[id].path == path
  }

  /** `_archive_path`: the title's slug, or the slug with the id's tail when that name is in use. */
  function ArchivePath(cx: Context, m: Ids, doc: Doc): (path: Path)
    ensures IsArchived(path)
  {
    var stem := cx.policy.slug(doc.title);
    var candidate := ARCHIVE_PREFIX + stem + ".md";
    if TakenIn(m, candidate) || candidate in cx.tree
    then ARCHIVE_PREFIX + stem + "-" + cx.policy.idTail(doc.id) + ".md"
    else candidate
  }

  function ArchiveOutcome(cx: Context, m: Ids, id: Id): Outcome {
    match Load(cx, m, id)
    case Err(reason) => Refuse(m, reason)
    case Ok(Loaded(path, doc)) =>
      if IsArchived(path) then Outcome(m, [], [])
      else
        var destination := ArchivePath(cx, m, doc);
        var archived := Touch(doc, cx.clock);
        var moved := m[id := m[id].(path := destination)];
        Outcome(moved[doc.id := EntryFor(destination, archived)], [WriteOf(destination, archived), Remove(path)], [])
  }

  /** Archives in turn until one is refused; what was projected before that stays projected. */
  function ArchiveAllOutcome(cx: Context, m: Ids, ids: seq<Id>): Outcome {
    if ids == [] then Outcome(m, [], [])
    else
      var before := ArchiveAllOutcome(cx, m, ids[..|ids| - 1]);
      if !before.Accepted() then before else Then(before, ArchiveOutcome(cx, before.projected, ids[|ids| - 1]))
  }

  /** Two outcomes in sequence; a refusal keeps its manifest but means no changes. */
  function Then(first: Outcome, second: Outcome): Outcome {
    Outcome(second.projected, if second.Accepted() then first.changes + second.changes else [], second.reasons)
  }

  function FirstUnloadable(cx: Context, m: Ids, ids: seq<Id>): Option<Reason> {
    if ids == [] then None
    else match Load(cx, m, ids[0])
      case Err(reason) => Some(reason)
      case Ok(_) => FirstUnloadable(cx, m, ids[1..])
  }

  /** `_dedupe`: first occurrences, in order. */
  function Dedupe(ids: seq<Id>): seq<Id> {
    if ids == [] then []
    else
      var init, last := Dedupe(ids[..|ids| - 1]), ids[|ids| - 1];
      if last in init then init else init + [last]
  }

  function MergeOutcome(cx: Context, m: Ids, into: Id, fromIds: seq<Id>, prose: Body): Outcome {
    if fromIds == [] then Refuse(m, EmptyMerge)
    else if into in fromIds then Refuse(m, SelfMerge(into))
    else
      match Load(cx, m, into)
      case Err(reason) => Refuse(m, reason)
      case Ok(Loaded(path, target)) =>
        match FirstUnloadable(cx, m, fromIds)
        case Some(reason) => Refuse(m, reason)
        case None =>
          var merged := Merged(cx, target, fromIds, prose);
          if cx.policy.bytes(Canonical(merged)) > cx.policy.maxFileBytes then Refuse(m, TooLarge(path))
          else
            var recorded := Outcome(m[merged.id := EntryFor(path, merged)], [WriteOf(path, merged)], []);
            Then(recorded, ArchiveAllOutcome(cx, recorded.projected, fromIds))
  }

  function Merged(cx: Context, target: Doc, fromIds: seq<Id>, prose: Body): Doc {
    Touch(target.(supersedes := Dedupe(target.supersedes + fromIds)), cx.clock).(body := AsBody(prose))
  }

  function SupersedeOutcome(cx: Context, m: Ids, oldId: Id, successor: Doc): Outcome {
    match Load(cx, m, oldId)
    case Err(reason) => Refuse(m, reason)
    case Ok(_) =>
      var created := CreateOutcome(cx, m, successor.(supersedes := Dedupe(successor.supersedes + [oldId])), None);
      if !created.Accepted() then created
      else Then(created, ArchiveOutcome(cx, created.projected, oldId))
  }

  function DeleteReasons(cx: Context, id: Id, at: Loaded): seq<Reason> {
    (if at.doc.pinned then [IsPinned(id)] else []) +
    (if !IsArchived(at.path) then [NotArchived(id)] else []) +
    (if cx.now - at.doc.updated < cx.policy.retentionFloor then [TooRecent(id)] else [])
  }

  function DeleteOutcome(cx: Context, m: Ids, id: Id): Outcome {
    if cx.job !in DELETING_JOBS then Refuse(m, MayNotDelete(cx.job))
    else
      match Load(cx, m, id)
      case Err(reason) => Refuse(m, reason)
      case Ok(at) =>
        var reasons := DeleteReasons(cx, id, at);
        if reasons != [] then Outcome(m, [], reasons) else Outcome(m - {id}, [Remove(at.path)], [])
  }

  function PatchOutcome(cx: Context, m: Ids, patch: MemoryPatch): Outcome {
    match patch
    case Create(doc, path) => CreateOutcome(cx, m, doc, path)
    case Update(id, body, fields) => UpdateOutcome(cx, m, id, body, fields)
    case Merge(into, fromIds, prose) => MergeOutcome(cx, m, into, fromIds, prose)
    case Supersede(oldId, successor) => SupersedeOutcome(cx, m, oldId, successor)
    case Archive(id) => ArchiveOutcome(cx, m, id)
    case Delete(id) => DeleteOutcome(cx, m, id)
  }

  // ----- the whole plan

  datatype Compiled = Compiled(projected: Ids, changes: seq<Change>, rejections: seq<Rejection>)

  function Indexed(reasons: seq<Reason>, index: nat): (r: seq<Rejection>)
    ensures |r| == |reasons|
  {
    seq(|reasons|, i requires 0 <= i < |reasons| => Rejection(reasons[i], Some(index)))
  }

  function Fold(cx: Context, m: Ids, plan: Plan): Compiled {
    if plan == [] then Compiled(m, [], [])
    else
      var before := Fold(cx, m, plan[..|plan| - 1]);
      var step := PatchOutcome(cx, before.projected, plan[|plan| - 1]);
      Compiled(step.projected, before.changes + step.changes, before.rejections + Indexed(step.reasons, |plan| - 1))
  }

  function Touched(changes: seq<Change>): set<Path> {
    set change | change in changes :: change.path
  }

  ghost predicate WithinLimits(cx: Context, changes: seq<Change>) {
    |Touched(changes)| <= cx.policy.maxFilesPerCommit
  }

  /** Every link of every written memory resolves in the projection. */
  ghost predicate WritesResolve(projected: Ids, changes: seq<Change>) {
    forall c, target | c in changes && c.Write? && c.file.Memory? && target in c.file.doc.body.links ::
      Resolves(projected, target)
  }

  /** No memory that stays, at a path with a file on it, links by id to `id`. */
  ghost predicate NoInbound(cx: Context, projected: Ids, id: Id) {
    forall k | k in projected && projected[k].path in cx.tree && cx.tree[projected[k].path].Memory? ::
      id !in cx.tree[projected[k].path].doc.body.links
  }

  ghost predicate DeletesUnlinked(cx: Context, projected: Ids, plan: Plan) {
    forall id | Delete(id) in plan :: NoInbound(cx, projected, id)
  }

  ghost predicate NoSecrets(cx: Context, changes: seq<Change>) {
    forall c | c in changes && c.Write? && c.file.Memory? :: !cx.policy.secret(c.file.doc)
  }

  /** When `compile` returns changes instead of raising. */
  ghost predicate Accepts(cx: Context, m: Ids, plan: Plan) {
    var out := Fold(cx, m, plan);
    && out.rejections == []
    && WithinLimits(cx, out.changes)
    && WritesResolve(out.projected, out.changes)
    && DeletesUnlinked(cx, out.projected, plan)
    && NoSecrets(cx, out.changes)
  }

  /** A prefix of a plan whose every patch compiles compiles too. */
  lemma FoldPrefix(cx: Context, m: Ids, plan: Plan, k: nat)
    requires k <= |plan|
    requires Fold(cx, m, plan).rejections == []
    ensures Fold(cx, m, plan[..k]).rejections == []
  {
    if k < |plan| {
      assert Fold(cx, m, plan[..|plan| - 1]).rejections == [];
      assert plan[..|plan| - 1][..k] == plan[..k];
      FoldPrefix(cx, m, plan[..|plan| - 1], k);
    } else {
      assert plan[..k] == plan;
    }
  }
}
