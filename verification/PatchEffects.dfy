/**
 * What an accepted patch writes, told from the plan and the files on disk, and which patches are accepted
 * (siatt/memory/patch.py).
 */
module PatchEffects {
  import opened Changeset
  import opened Document
  import opened Layout
  import opened Manifests
  import opened Patch
  import opened PatchAgreement
  import opened Wrappers

  // ----- how a document reads back from its file

  /** What a file gives back of a text: a last line is closed. */
  ghost predicate ReadsBack(text: string, read: string) {
    && (read == text || read == text + "\n")
    && (read == text <==> text == "" || text[|text| - 1] == '\n')
  }

  /** Prose from a plan starts on a line of its own. */
  ghost predicate Opened(prose: string, text: string) {
    && (text == prose || text == "\n" + prose)
    && (text == prose <==> prose != "" && prose[0] == '\n')
  }

  ghost predicate IsProse(prose: Body, body: Body) {
    body.links == prose.links && exists text :: Opened(prose.text, text) && ReadsBack(text, body.text)
  }

  ghost predicate IsSameBody(before: Body, body: Body) {
    body.links == before.links && ReadsBack(before.text, body.text)
  }

  const EDITABLE: set<Key> :=
    {KindKey, TitleKey, TagsKey, VisibilityKey, ConfidenceKey, SalienceKey, PinnedKey, SourceRefsKey, SupersedesKey}

  /** A header field, as a plan would give it. */
  function FieldOf(d: Doc, key: Key): Value
    requires key in EDITABLE
  {
    match key
    case KindKey => Words(d.kind)
    case TitleKey => Words(d.title)
    case TagsKey => Strings(d.tags)
    case VisibilityKey => Words(d.visibility)
    case ConfidenceKey => Number(d.confidence)
    case SalienceKey => Number(d.salience)
    case PinnedKey => Flag(d.pinned)
    case SourceRefsKey => Strings(d.sourceRefs)
    case SupersedesKey => Strings(d.supersedes)
  }

  /** The same memory: its id, and when it was made, to the second. */
  ghost predicate SameOrigin(before: Doc, after: Doc) {
    after.id == before.id && after.created == ToSecond(before.created)
  }

  /** The header is `before`'s but for the given fields, which are as given. */
  ghost predicate HeaderWith(before: Doc, after: Doc, given: Fields) {
    && SameOrigin(before, after)
    && forall key | key in EDITABLE :: FieldOf(after, key) == if key in given then given[key] else FieldOf(before, key)
  }

  /** The values in the order they first come, each once. */
  ghost predicate OnceEach(all: seq<Id>, once: seq<Id>) {
    && (forall x :: x in once <==> x in all)
    && (forall i, j | 0 <= i < j < |once| :: once[i] != once[j])
    && (forall i, j | 0 <= i < j < |once| :: ComesBefore(all, once[i], once[j]))
  }

  ghost predicate ComesBefore(all: seq<Id>, x: Id, y: Id) {
    exists p :: ComesFirst(all, x, y, p)
  }

  /** At `p` there is `x`, and no `y` before. */
  ghost predicate ComesFirst(all: seq<Id>, x: Id, y: Id, p: int) {
    0 <= p < |all| && all[p] == x && y !in all[..p]
  }

  // ----- what each patch writes

  /** A memory written as it is, but stamped. */
  ghost predicate IsStamped(cx: Context, before: Doc, after: Doc) {
    HeaderWith(before, after, map[]) && IsSameBody(before.body, after.body) && after.updated == ToSecond(cx.clock)
  }

  ghost predicate IsUpdated(cx: Context, before: Doc, after: Doc, body: Option<Body>, fields: Fields) {
    && HeaderWith(before, after, fields)
    && (if body.None? then IsSameBody(before.body, after.body) else IsProse(body.value, after.body))
    && after.updated == ToSecond(if OnlyDerived(body, fields) then before.updated else cx.clock)
  }

  /** Nothing but the salience or the visibility is given, and one of them is. */
  ghost predicate OnlyDerived(body: Option<Body>, fields: Fields) {
    body.None? && (exists key :: key in fields) && forall key | key in fields :: key in {SalienceKey, VisibilityKey}
  }

  ghost predicate IsMerged(cx: Context, before: Doc, after: Doc, fromIds: seq<Id>, prose: Body) {
    && HeaderWith(before, after, map[SupersedesKey := Strings(after.supersedes)])
    && OnceEach(before.supersedes + fromIds, after.supersedes)
    && IsProse(prose, after.body)
    && after.updated == ToSecond(cx.clock)
  }

  /** `successor`, and that it supersedes the old id. */
  ghost predicate IsSuccessor(successor: Doc, oldId: Id, made: Doc) {
    made == successor.(supersedes := made.supersedes) && OnceEach(successor.supersedes + [oldId], made.supersedes)
  }

  /** The file that the projection gives an id can be read. */
  ghost predicate Readable(cx: Context, m: Ids, id: Id) {
    id in m && m[id].path in cx.tree && cx.tree[m[id].path].Memory?
  }

  ghost function OnDisk(cx: Context, m: Ids, id: Id): Doc
    requires Readable(cx, m, id)
  {
    cx.tree[m[id].path].doc
  }

  lemma LoadsReadable(cx: Context, m: Ids, id: Id)
    ensures Load(cx, m, id).Ok? <==> Readable(cx, m, id)
    ensures Readable(cx, m, id) ==> Load(cx, m, id).value == Loaded(m[id].path, OnDisk(cx, m, id))
  {}

  lemma ReadBack(text: string)
    ensures ReadsBack(text, WithNewline(text))
  {}

  lemma ProseReadBack(prose: Body)
    ensures IsProse(prose, AsBody(prose).(text := WithNewline(AsBody(prose).text)))
  {
    ReadBack(AsBody(prose).text);
    assert Opened(prose.text, AsBody(prose).text);
  }

  lemma StampedReadsBack(cx: Context, doc: Doc)
    ensures IsStamped(cx, doc, Canonical(Touch(doc, cx.clock)))
  {
    ReadBack(doc.body.text);
  }

  /** Bodies that a file can hold are told apart by what they say. */
  lemma OnlyOneProse(prose: Body, a: Body, b: Body)
    requires IsProse(prose, a) && IsProse(prose, b)
    ensures a == b
  {}

  // ----- create

  lemma CreateWrites(cx: Context, m: Ids, doc: Doc, wanted: Option<Path>)
    requires CreateOutcome(cx, m, doc, wanted).Accepted()
    ensures var out := CreateOutcome(cx, m, doc, wanted);
            var path := if wanted.Some? then wanted.value else cx.policy.home(doc);
            && |out.changes| == 1 && out.changes[0].Write? && out.changes[0].file.Memory?
            && out.changes[0].path == path && IsStamped(cx, doc, out.changes[0].file.doc)
            && out.projected == m[doc.id := EntryFor(path, out.changes[0].file.doc)]
  {
    StampedReadsBack(cx, doc);
  }

  /** A create is taken for an unknown id, at a writable path with no file on it, and within the size. */
  lemma CreateAccepted(cx: Context, m: Ids, doc: Doc, wanted: Option<Path>)
    ensures var path := if wanted.Some? then wanted.value else cx.policy.home(doc);
            CreateOutcome(cx, m, doc, wanted).Accepted()
            <==> && doc.id !in m && cx.policy.writable(path) && path !in cx.tree
                 && exists after :: IsStamped(cx, doc, after) && cx.policy.bytes(after) <= cx.policy.maxFileBytes
  {
    StampedReadsBack(cx, doc);
    forall after | IsStamped(cx, doc, after) ensures after == Canonical(Touch(doc, cx.clock)) {
      SameFields(after, Canonical(Touch(doc, cx.clock)));
    }
  }

  /** Headers that agree field by field, with the same origin, stamp and body, are the same. */
  lemma SameFields(a: Doc, b: Doc)
    requires a.id == b.id && a.created == b.created && a.updated == b.updated && a.body == b.body
    requires forall key | key in EDITABLE :: FieldOf(a, key) == FieldOf(b, key)
    ensures a == b
  {
    assert FieldOf(a, KindKey) == FieldOf(b, KindKey);
    assert FieldOf(a, TitleKey) == FieldOf(b, TitleKey);
    assert FieldOf(a, TagsKey) == FieldOf(b, TagsKey);
    assert FieldOf(a, VisibilityKey) == FieldOf(b, VisibilityKey);
    assert FieldOf(a, ConfidenceKey) == FieldOf(b, ConfidenceKey);
    assert FieldOf(a, SalienceKey) == FieldOf(b, SalienceKey);
    assert FieldOf(a, PinnedKey) == FieldOf(b, PinnedKey);
    assert FieldOf(a, SourceRefsKey) == FieldOf(b, SourceRefsKey);
    assert FieldOf(a, SupersedesKey) == FieldOf(b, SupersedesKey);
  }

  // ----- update

  /** Setting the given fields sets those and no others. */
  lemma FieldsSet(policy: Policy, doc: Doc, fields: Fields, key: Key)
    requires ValidFields(policy, fields) && key in EDITABLE
    ensures FieldOf(WithFields(policy, doc, fields), key) == if key in fields then fields[key] else FieldOf(doc, key)
  {
    if key in fields { assert ValidField(policy, key, fields[key]); }
  }

  lemma StampAndBodyAside(d: Doc, stamp: int, body: Body, key: Key)
    requires key in EDITABLE
    ensures FieldOf(Canonical(d.(updated := stamp, body := body)), key) == FieldOf(d, key)
  {}

  lemma DerivedIsBookkeeping(body: Option<Body>, fields: Fields)
    ensures OnlyDerived(body, fields) <==> IsBookkeeping(body, fields)
  {
    if body.None? && fields != map[] {
      assert exists key :: key in fields;
    }
  }

  lemma UpdatedReadsBack(cx: Context, doc: Doc, body: Option<Body>, fields: Fields)
    requires ValidFields(cx.policy, fields)
    ensures IsUpdated(cx, doc, Canonical(Updated(cx, doc, body, fields)), body, fields)
  {
    hide ValidFields, FieldOf, ReadsBack, IsBookkeeping, OnlyDerived, IsProse;
    var edited, after := WithFields(cx.policy, doc, fields), Canonical(Updated(cx, doc, body, fields));
    var given := if body.None? then doc.body else AsBody(body.value);
    if body.Some? {
      ProseReadBack(body.value);
    } else {
      ReadBack(doc.body.text);
    }
    DerivedIsBookkeeping(body, fields);
    forall key | key in EDITABLE
      ensures FieldOf(after, key) == if key in fields then fields[key] else FieldOf(doc, key)
    {
      FieldsSet(cx.policy, doc, fields, key);
      StampAndBodyAside(edited, if IsBookkeeping(body, fields) then edited.updated else ToSecond(cx.clock), given, key);
    }
  }

  /**
   * An accepted update rewrites the memory's file where it is: the given fields as given and the others as on
   * disk, the given prose or else the prose on disk, the same id and creation, and a new stamp unless nothing but
   * derived fields is given.
   */
  lemma UpdateWrites(cx: Context, m: Ids, id: Id, body: Option<Body>, fields: Fields)
    requires UpdateOutcome(cx, m, id, body, fields).Accepted()
    ensures var out := UpdateOutcome(cx, m, id, body, fields);
            && Readable(cx, m, id)
            && |out.changes| == 1 && out.changes[0].Write? && out.changes[0].file.Memory?
            && out.changes[0].path == m[id].path
            && IsUpdated(cx, OnDisk(cx, m, id), out.changes[0].file.doc, body, fields)
            && out.projected == m[OnDisk(cx, m, id).id := EntryFor(m[id].path, out.changes[0].file.doc)]
  {
    LoadsReadable(cx, m, id);
    UpdatedReadsBack(cx, OnDisk(cx, m, id), body, fields);
  }

  /** An update is taken for a memory that can be read, if every given field may be set to what is given. */
  lemma UpdateAccepted(cx: Context, m: Ids, id: Id, body: Option<Body>, fields: Fields)
    ensures UpdateOutcome(cx, m, id, body, fields).Accepted()
       <==> && Readable(cx, m, id)
            && (forall key | key in fields :: key in EDITABLE && MayHold(cx.policy, key, fields[key]))
            && exists after :: && IsUpdated(cx, OnDisk(cx, m, id), after, body, fields)
                               && cx.policy.bytes(after) <= cx.policy.maxFileBytes
  {
    LoadsReadable(cx, m, id);
    FieldsMayHold(cx.policy, fields);
    if Readable(cx, m, id) && ValidFields(cx.policy, fields) {
      var before := OnDisk(cx, m, id);
      UpdatedReadsBack(cx, before, body, fields);
      forall after | IsUpdated(cx, before, after, body, fields)
        ensures after == Canonical(Updated(cx, before, body, fields))
      {
        OneUpdate(cx, before, after, Canonical(Updated(cx, before, body, fields)), body, fields);
      }
    }
  }

  lemma OneUpdate(cx: Context, before: Doc, a: Doc, b: Doc, body: Option<Body>, fields: Fields)
    requires IsUpdated(cx, before, a, body, fields) && IsUpdated(cx, before, b, body, fields)
    ensures a == b
  {
    hide FieldOf;
    if body.Some? {
      OnlyOneProse(body.value, a.body, b.body);
    }
    SameFields(a, b);
  }

  /** What a header field can hold: one of the kinds of memory, a fraction, memory ids. */
  ghost predicate MayHold(policy: Policy, key: Key, value: Value)
    requires key in EDITABLE
  {
    match key
    case KindKey => value in {Words("person"), Words("project"), Words("topic"), Words("fact"), Words("journal")}
    case TitleKey => value.Words?
    case TagsKey => value.Strings?
    case VisibilityKey => value.Words? && policy.visible(value.text)
    case ConfidenceKey => value.Number? && 0.0 <= value.number <= 1.0
    case SalienceKey => value.Number? && 0.0 <= value.number <= 1.0
    case PinnedKey => value.Flag?
    case SourceRefsKey => value.Strings?
    case SupersedesKey => value.Strings? && forall i | 0 <= i < |value.items| :: IsMemoryId(value.items[i])
  }

  lemma FieldsMayHold(policy: Policy, fields: Fields)
    ensures fields.Keys * IMMUTABLE == {} && ValidFields(policy, fields)
       <==> forall key | key in fields :: key in EDITABLE && MayHold(policy, key, fields[key])
  {
    forall key: Key ensures key in EDITABLE || key in IMMUTABLE || key == UnknownKey {}
    forall key | key in fields
      ensures ValidField(policy, key, fields[key]) <==> key in EDITABLE && MayHold(policy, key, fields[key])
    {}
    if key :| key in fields && key in IMMUTABLE {
      assert key in fields.Keys * IMMUTABLE;
    }
  }

  // ----- archive

  /** The name an archive has on its own title, and the one with the end of the id in it. */
  function PlainName(cx: Context, doc: Doc): Path {
    "memory/archive/" + cx.policy.slug(doc.title) + ".md"
  }

  function LongerName(cx: Context, doc: Doc): Path {
    "memory/archive/" + cx.policy.slug(doc.title) + "-" + cx.policy.idTail(doc.id) + ".md"
  }

  /** A name in the archive: the plain one only where there is no file, or else the longer. */
  ghost predicate IsArchiveName(cx: Context, doc: Doc, to: Path) {
    (to == PlainName(cx, doc) && to !in cx.tree) || to == LongerName(cx, doc)
  }

  /** The two changes that move a memory into the archive, stamped. */
  ghost predicate IsMove(cx: Context, from: Path, before: Doc, to: Path, changes: seq<Change>) {
    && IsArchived(to) && IsArchiveName(cx, before, to) && |changes| == 2
    && changes[0].Write? && changes[0].file.Memory? && changes[0].path == to
    && IsStamped(cx, before, changes[0].file.doc)
    && changes[1] == Remove(from)
  }

  /** The name an archive gets: the longer one when somebody has, or had, the plain one. */
  lemma ArchiveNames(cx: Context, m: Ids, doc: Doc)
    ensures ArchivePath(cx, m, doc)
         == if PlainName(cx, doc) in cx.tree || exists id :: id in m && m[id].path == PlainName(cx, doc)
            then LongerName(cx, doc) else PlainName(cx, doc)
  {}

  /** Archiving a memory that can be read moves its file, stamped; one in the archive already is left alone. */
  lemma ArchiveMoves(cx: Context, m: Ids, id: Id)
    ensures ArchiveOutcome(cx, m, id).Accepted() <==> Readable(cx, m, id)
    ensures Readable(cx, m, id) ==>
              var out := ArchiveOutcome(cx, m, id);
              if IsArchived(m[id].path) then out.changes == [] && out.projected == m
              else
                && IsMove(cx, m[id].path, OnDisk(cx, m, id), ArchivePath(cx, m, OnDisk(cx, m, id)), out.changes)
                && id in out.projected && IsArchived(out.projected[id].path)
  {
    LoadsReadable(cx, m, id);
    if Readable(cx, m, id) {
      StampedReadsBack(cx, OnDisk(cx, m, id));
      ArchiveNames(cx, m, OnDisk(cx, m, id));
    }
  }

  // ----- merge

  lemma OneMoreOnce(init: seq<Id>, before: seq<Id>, last: Id)
    requires OnceEach(init, before)
    ensures OnceEach(init + [last], if last in before then before else before + [last])
  {
    var all, once := init + [last], if last in before then before else before + [last];
    forall x ensures x in once <==> x in all {
      assert x in before <==> x in init;
    }
    forall i, j | 0 <= i < j < |once| ensures ComesBefore(all, once[i], once[j]) {
      if j < |before| {
        assert ComesBefore(init, before[i], before[j]);
        var p :| ComesFirst(init, before[i], before[j], p);
        assert all[..p] == init[..p];
        assert ComesFirst(all, once[i], once[j], p);
      } else {
        assert once[i] == before[i] && before[i] in before && before[i] in init && last !in init;
        var p :| 0 <= p < |init| && init[p] == before[i];
        assert all[..p] == init[..p];
        assert ComesFirst(all, once[i], once[j], p);
      }
    }
  }

  lemma NothingOnce()
    ensures OnceEach([], [])
  {}

  lemma {:induction false} DedupeIsOnceEach(all: seq<Id>)
    ensures OnceEach(all, Dedupe(all))
  {
    hide OnceEach;
    if all == [] {
      NothingOnce();
    } else {
      var init, last := all[..|all| - 1], all[|all| - 1];
      DedupeIsOnceEach(init);
      OneMoreOnce(init, Dedupe(init), last);
      assert all == init + [last];
    }
  }

  lemma MergedReadsBack(cx: Context, doc: Doc, fromIds: seq<Id>, prose: Body)
    ensures IsMerged(cx, doc, Canonical(Merged(cx, doc, fromIds, prose)), fromIds, prose)
  {
    hide OnceEach, IsProse, Dedupe;
    DedupeIsOnceEach(doc.supersedes + fromIds);
    ProseReadBack(prose);
  }

  /** `id` has been moved into the archive by the changes. */
  ghost predicate MovedBy(cx: Context, m: Ids, id: Id, to: Path, changes: seq<Change>)
    requires Readable(cx, m, id)
  {
    && IsArchived(to) && IsArchiveName(cx, OnDisk(cx, m, id), to) && Remove(m[id].path) in changes
    && exists after :: Write(to, Memory(after)) in changes && IsStamped(cx, OnDisk(cx, m, id), after)
  }

  /** After the archives of a merge every source is in the archive, and was moved there unless it was there before. */
  ghost predicate AllArchived(cx: Context, m: Ids, ids: seq<Id>, out: Outcome) {
    forall id | id in ids ::
      && Readable(cx, m, id) && id in out.projected && IsArchived(out.projected[id].path)
      && (!IsArchived(m[id].path) ==> MovedBy(cx, m, id, out.projected[id].path, out.changes))
  }

  /** Nothing else is written or removed. */
  ghost predicate OnlyMoves(cx: Context, m: Ids, ids: seq<Id>, out: Outcome) {
    forall c | c in out.changes :: exists id :: id in ids && MovesOne(cx, m, id, c)
  }

  /** One of the two changes that move a memory into the archive. */
  ghost predicate MovesOne(cx: Context, m: Ids, id: Id, c: Change) {
    && Readable(cx, m, id) && !IsArchived(m[id].path)
    && (c == Remove(m[id].path)
        || (c.Write? && IsArchived(c.path) && c.file.Memory? && IsStamped(cx, OnDisk(cx, m, id), c.file.doc)))
  }

  /** Entries outside the moved ids stay. */
  ghost predicate OthersStay(m: Ids, ids: seq<Id>, projected: Ids) {
    && projected.Keys == m.Keys
    && forall id | id in m && (id !in ids || IsArchived(m[id].path)) :: projected[id] == m[id]
  }

  lemma ArchiveKeepsOthers(cx: Context, m: Ids, id: Id)
    requires LivePathsAreOwn(cx, m) && ArchiveOutcome(cx, m, id).Accepted()
    ensures OthersStay(m, [id], ArchiveOutcome(cx, m, id).projected)
    ensures LivePathsAreOwn(cx, ArchiveOutcome(cx, m, id).projected)
  {
    LoadsReadable(cx, m, id);
  }

  /** One more archive: nothing if the memory is in the archive by then, or else its two changes. */
  lemma MoveOne(cx: Context, m: Ids, init: seq<Id>, last: Id, before: Outcome)
    requires OthersStay(m, init, before.projected) && AllArchived(cx, m, init, before)
    requires LivePathsAreOwn(cx, before.projected) && ArchiveOutcome(cx, before.projected, last).Accepted()
    ensures var step := ArchiveOutcome(cx, before.projected, last);
            && Readable(cx, m, last) && last in step.projected && IsArchived(step.projected[last].path)
            && (step.changes == []
                || (!IsArchived(m[last].path) && MovedBy(cx, m, last, step.projected[last].path, step.changes)
                    && OnlyMoves(cx, m, [last], step)))
            && (last !in init && !IsArchived(m[last].path) ==> step.changes != [])
            && OthersStay(before.projected, [last], step.projected)
  {
    hide ArchiveOutcome, ArchivePath, IsStamped, LivePathsAreOwn, IsArchived;
    var n := before.projected;
    var step := ArchiveOutcome(cx, n, last);
    ArchiveMoves(cx, n, last);
    ArchiveKeepsOthers(cx, n, last);
    if !IsArchived(n[last].path) {
      assert n[last] == m[last];
      ArchiveLands(cx, n, last);
      MoveHasBoth(cx, m, last, step);
    } else if last in init {
      assert Readable(cx, m, last);
    } else {
      assert n[last] == m[last];
    }
  }

  lemma MoveHasBoth(cx: Context, m: Ids, id: Id, step: Outcome)
    requires Readable(cx, m, id) && !IsArchived(m[id].path) && |step.changes| == 2
    requires IsMove(cx, m[id].path, OnDisk(cx, m, id), step.changes[0].path, step.changes)
    ensures MovedBy(cx, m, id, step.changes[0].path, step.changes) && OnlyMoves(cx, m, [id], step)
  {
    hide IsStamped, IsArchived;
    var to, after := step.changes[0].path, step.changes[0].file.doc;
    assert step.changes[0] == Write(to, Memory(after));
    assert Write(to, Memory(after)) in step.changes && step.changes[1] in step.changes;
    forall c | c in step.changes ensures c == step.changes[0] || c == step.changes[1] {}
    assert id in [id];
  }

  lemma ArchiveLands(cx: Context, m: Ids, id: Id)
    requires ArchiveOutcome(cx, m, id).Accepted() && !IsArchived(m[id].path)
    requires LivePathsAreOwn(cx, m)
    ensures id in ArchiveOutcome(cx, m, id).projected
    ensures ArchiveOutcome(cx, m, id).projected[id].path == ArchiveOutcome(cx, m, id).changes[0].path
  {
    LoadsReadable(cx, m, id);
  }

  lemma NothingMoved(cx: Context, m: Ids)
    ensures var out := Outcome(m, [], []); AllArchived(cx, m, [], out) && OnlyMoves(cx, m, [], out)
    ensures OthersStay(m, [], m)
  {}

  lemma {:induction false} ArchivesMove(cx: Context, m: Ids, ids: seq<Id>)
    requires LivePathsAreOwn(cx, m) && ArchiveAllOutcome(cx, m, ids).Accepted()
    ensures var out := ArchiveAllOutcome(cx, m, ids);
            && LivePathsAreOwn(cx, out.projected) && OthersStay(m, ids, out.projected)
            && AllArchived(cx, m, ids, out) && OnlyMoves(cx, m, ids, out)
  {
    hide ArchiveOutcome, IsStamped, LivePathsAreOwn, OthersStay, AllArchived, OnlyMoves, MovedBy, Readable, IsArchived;
    if ids != [] {
      var init, last := ids[..|ids| - 1], ids[|ids| - 1];
      var before := ArchiveAllOutcome(cx, m, init);
      ArchivesMove(cx, m, init);
      ArchiveKeepsOthers(cx, before.projected, last);
      MoveOne(cx, m, init, last, before);
      assert ids == init + [last];
      ArchivedOn(cx, m, init, last, before, ArchiveOutcome(cx, before.projected, last));
      OnlyMovesOn(cx, m, init, last, before, ArchiveOutcome(cx, before.projected, last));
    } else {
      NothingMoved(cx, m);
    }
  }

  lemma ArchivedOn(cx: Context, m: Ids, init: seq<Id>, last: Id, before: Outcome, step: Outcome)
    requires before.Accepted() && step.Accepted()
    requires AllArchived(cx, m, init, before) && OthersStay(m, init, before.projected)
    requires Readable(cx, m, last) && last in step.projected && IsArchived(step.projected[last].path)
    requires step.changes == []
             || (!IsArchived(m[last].path) && MovedBy(cx, m, last, step.projected[last].path, step.changes))
    requires last !in init && !IsArchived(m[last].path) ==> step.changes != []
    requires OthersStay(before.projected, [last], step.projected)
    ensures AllArchived(cx, m, init + [last], Then(before, step)) && OthersStay(m, init + [last], step.projected)
  {
    hide IsStamped, IsArchived, MovedBy;
    var out := Then(before, step);
    forall id | id in init + [last]
      ensures Readable(cx, m, id) && id in out.projected && IsArchived(out.projected[id].path)
      ensures !IsArchived(m[id].path) ==> MovedBy(cx, m, id, out.projected[id].path, out.changes)
    {
      if id in init {
        assert out.projected[id] == before.projected[id];
        if !IsArchived(m[id].path) {
          MovedStill(cx, m, id, out.projected[id].path, before.changes, before.changes + step.changes);
        }
      } else if !IsArchived(m[last].path) {
        MovedStill(cx, m, last, out.projected[last].path, step.changes, before.changes + step.changes);
      }
    }
  }

  lemma OnlyMovesOn(cx: Context, m: Ids, init: seq<Id>, last: Id, before: Outcome, step: Outcome)
    requires before.Accepted() && step.Accepted() && OnlyMoves(cx, m, init, before)
    requires step.changes == [] || OnlyMoves(cx, m, [last], step)
    ensures OnlyMoves(cx, m, init + [last], Then(before, step))
  {
    hide IsStamped, IsArchived;
    var out := Then(before, step);
    forall c | c in out.changes ensures exists id :: id in init + [last] && MovesOne(cx, m, id, c) {
      if c in before.changes {
        var id :| id in init && MovesOne(cx, m, id, c);
        assert id in init + [last];
      } else {
        var id :| id in [last] && MovesOne(cx, m, id, c);
        assert id in init + [last];
      }
    }
  }

  lemma MovedStill(cx: Context, m: Ids, id: Id, to: Path, some: seq<Change>, all: seq<Change>)
    requires Readable(cx, m, id) && MovedBy(cx, m, id, to, some)
    requires forall c | c in some :: c in all
    ensures MovedBy(cx, m, id, to, all)
  {
    hide IsStamped;
    var after :| Write(to, Memory(after)) in some && IsStamped(cx, OnDisk(cx, m, id), after);
    assert Write(to, Memory(after)) in all;
  }

  /** Nowhere in `ids` is a memory outside the archive named twice. */
  ghost predicate NoLiveTwice(m: Ids, ids: seq<Id>) {
    forall i, j | 0 <= i < j < |ids| && ids[i] == ids[j] :: ids[i] in m ==> IsArchived(m[ids[i]].path)
  }

  /** No file stands where a source would go if its plain name were taken. */
  ghost predicate LongerNamesFree(cx: Context, m: Ids, ids: seq<Id>) {
    forall id | id in ids && Readable(cx, m, id) :: LongerName(cx, OnDisk(cx, m, id)) !in cx.tree
  }

  ghost predicate AllReadable(cx: Context, m: Ids, ids: seq<Id>) {
    forall id | id in ids :: Readable(cx, m, id)
  }

  /** A second archive of the same memory looks for it in the archive, on the disk as it was, and does not find it. */
  lemma {:induction false} ArchivesAccepted(cx: Context, m: Ids, ids: seq<Id>)
    requires LivePathsAreOwn(cx, m) && LongerNamesFree(cx, m, ids)
    ensures ArchiveAllOutcome(cx, m, ids).Accepted() <==> AllReadable(cx, m, ids) && NoLiveTwice(m, ids)
  {
    hide ArchiveOutcome, LivePathsAreOwn, Readable, OnlyMoves, IsStamped, IsArchived;
    if ids != [] {
      var init, last := ids[..|ids| - 1], ids[|ids| - 1];
      assert ids == init + [last];
      assert LongerNamesFree(cx, m, init);
      ArchivesAccepted(cx, m, init);
      assert NoLiveTwice(m, ids) ==> NoLiveTwice(m, init);
      if ArchiveAllOutcome(cx, m, init).Accepted() {
        ArchivesMove(cx, m, init);
        ArchiveMoves(cx, ArchiveAllOutcome(cx, m, init).projected, last);
        LastReadable(cx, m, init, last, ArchiveAllOutcome(cx, m, init));
        assert AllReadable(cx, m, ids) <==> Readable(cx, m, last);
        LiveTwiceAtLast(m, init, last);
      }
    }
  }

  lemma LiveTwiceAtLast(m: Ids, init: seq<Id>, last: Id)
    requires NoLiveTwice(m, init)
    ensures NoLiveTwice(m, init + [last]) <==> last !in init || last !in m || IsArchived(m[last].path)
  {
    var ids := init + [last];
    if last in init {
      var i :| 0 <= i < |init| && init[i] == last;
      assert ids[i] == ids[|init|];
    }
    forall i, j | 0 <= i < j < |ids| && ids[i] == ids[j] && j < |init|
      ensures ids[i] in m ==> IsArchived(m[ids[i]].path)
    {
      assert init[i] == init[j];
    }
  }

  lemma LastReadable(cx: Context, m: Ids, init: seq<Id>, last: Id, before: Outcome)
    requires LongerNamesFree(cx, m, init + [last])
    requires OthersStay(m, init, before.projected) && AllArchived(cx, m, init, before)
    ensures Readable(cx, before.projected, last)
       <==> Readable(cx, m, last) && (last !in init || IsArchived(m[last].path))
  {
    hide IsStamped, IsArchived;
    if last in init && !IsArchived(m[last].path) {
      assert last in init + [last];
      assert MovedBy(cx, m, last, before.projected[last].path, before.changes);
    }
  }

  lemma {:induction false} AllLoad(cx: Context, m: Ids, ids: seq<Id>)
    ensures FirstUnloadable(cx, m, ids).None? <==> AllReadable(cx, m, ids)
  {
    if ids != [] {
      LoadsReadable(cx, m, ids[0]);
      AllLoad(cx, m, ids[1..]);
      assert ids == [ids[0]] + ids[1..];
    }
  }

  /** The target's entry changes and its path does not: the sources are where they were. */
  lemma TargetRecorded(cx: Context, m: Ids, into: Id, merged: Doc, ids: seq<Id>)
    requires LivePathsAreOwn(cx, m) && Readable(cx, m, into) && OnDisk(cx, m, into).id == into && merged.id == into
    requires into !in ids
    ensures var after := m[into := EntryFor(m[into].path, merged)];
            && LivePathsAreOwn(cx, after)
            && (forall id :: Readable(cx, after, id) <==> Readable(cx, m, id))
            && (forall id | Readable(cx, m, id) :: after[id].path == m[id].path)
            && (AllReadable(cx, after, ids) <==> AllReadable(cx, m, ids))
            && (NoLiveTwice(after, ids) <==> NoLiveTwice(m, ids))
            && (LongerNamesFree(cx, after, ids) <==> LongerNamesFree(cx, m, ids))
  {}

  /** The target of a merge: the prose given, and every source among what it supersedes. */
  ghost predicate WritesTarget(cx: Context, m: Ids, into: Id, fromIds: seq<Id>, prose: Body, c: Change) {
    && Readable(cx, m, into) && c.Write? && c.path == m[into].path && c.file.Memory?
    && IsMerged(cx, OnDisk(cx, m, into), c.file.doc, fromIds, prose)
  }

  /** An accepted merge records its target and goes on to archive its sources. */
  lemma MergeShape(cx: Context, m: Ids, into: Id, fromIds: seq<Id>, prose: Body) returns (merged: Doc)
    requires Readable(cx, m, into) ==> OnDisk(cx, m, into).id == into
    requires MergeOutcome(cx, m, into, fromIds, prose).Accepted()
    ensures into in m && Readable(cx, m, into) && into !in fromIds
    ensures merged == Merged(cx, OnDisk(cx, m, into), fromIds, prose)
    ensures merged.id == into
    ensures var moves := ArchiveAllOutcome(cx, m[into := EntryFor(m[into].path, merged)], fromIds);
            && moves.Accepted()
            && MergeOutcome(cx, m, into, fromIds, prose)
               == Outcome(moves.projected, [WriteOf(m[into].path, merged)] + moves.changes, [])
  {
    hide ArchiveAllOutcome, Canonical, Dedupe, AsBody;
    LoadsReadable(cx, m, into);
    merged := Merged(cx, OnDisk(cx, m, into), fromIds, prose);
  }

  /** An accepted merge writes its target and then moves every source that is not in the archive yet, and no more. */
  lemma MergeWrites(cx: Context, m: Ids, into: Id, fromIds: seq<Id>, prose: Body)
    requires LivePathsAreOwn(cx, m) && (Readable(cx, m, into) ==> OnDisk(cx, m, into).id == into)
    requires MergeOutcome(cx, m, into, fromIds, prose).Accepted()
    ensures var out := MergeOutcome(cx, m, into, fromIds, prose);
            && out.changes != [] && WritesTarget(cx, m, into, fromIds, prose, out.changes[0])
            && var moves := Outcome(out.projected, out.changes[1..], []);
               AllArchived(cx, m, fromIds, moves) && OnlyMoves(cx, m, fromIds, moves)
  {
    hide MergeOutcome, Merged, Canonical, IsMerged, IsStamped, ArchiveAllOutcome, LivePathsAreOwn, IsArchived, Readable,
         AllArchived, OnlyMoves, EntryFor;
    var merged := MergeShape(cx, m, into, fromIds, prose);
    MergedReadsBack(cx, OnDisk(cx, m, into), fromIds, prose);
    TargetRecorded(cx, m, into, merged, fromIds);
    var recorded := m[into := EntryFor(m[into].path, merged)];
    ArchivesMove(cx, recorded, fromIds);
    var moves := ArchiveAllOutcome(cx, recorded, fromIds);
    assert ([WriteOf(m[into].path, merged)] + moves.changes)[1..] == moves.changes;
    SameMoves(cx, m, recorded, fromIds, moves);
  }

  lemma SameMoves(cx: Context, m: Ids, n: Ids, ids: seq<Id>, moves: Outcome)
    requires forall id :: Readable(cx, n, id) <==> Readable(cx, m, id)
    requires forall id | Readable(cx, m, id) && Readable(cx, n, id) :: n[id].path == m[id].path
    requires AllArchived(cx, n, ids, moves) && OnlyMoves(cx, n, ids, moves)
    ensures AllArchived(cx, m, ids, moves) && OnlyMoves(cx, m, ids, moves)
  {
    hide IsStamped, IsArchived, IsArchiveName;
  }

  /** When a merge is taken; one that names a memory outside the archive twice is not. */
  lemma MergeAccepted(cx: Context, m: Ids, into: Id, fromIds: seq<Id>, prose: Body)
    requires LivePathsAreOwn(cx, m) && (Readable(cx, m, into) ==> OnDisk(cx, m, into).id == into)
    requires LongerNamesFree(cx, m, fromIds)
    ensures MergeOutcome(cx, m, into, fromIds, prose).Accepted()
       <==> && fromIds != [] && into !in fromIds && Readable(cx, m, into) && AllReadable(cx, m, fromIds)
            && NoLiveTwice(m, fromIds)
            && exists after :: && IsMerged(cx, OnDisk(cx, m, into), after, fromIds, prose)
                               && cx.policy.bytes(after) <= cx.policy.maxFileBytes
  {
    hide IsMerged, ArchiveAllOutcome, LivePathsAreOwn, NoLiveTwice, AllReadable, LongerNamesFree;
    LoadsReadable(cx, m, into);
    AllLoad(cx, m, fromIds);
    if fromIds != [] && into !in fromIds && Readable(cx, m, into) {
      var before := OnDisk(cx, m, into);
      var merged := Merged(cx, before, fromIds, prose);
      MergedReadsBack(cx, before, fromIds, prose);
      TargetRecorded(cx, m, into, merged, fromIds);
      ArchivesAccepted(cx, m[into := EntryFor(m[into].path, merged)], fromIds);
      forall after | IsMerged(cx, before, after, fromIds, prose) ensures after == Canonical(merged) {
        OneMerge(cx, before, after, Canonical(merged), fromIds, prose);
      }
    }
  }

  lemma OneMerge(cx: Context, before: Doc, a: Doc, b: Doc, fromIds: seq<Id>, prose: Body)
    requires IsMerged(cx, before, a, fromIds, prose) && IsMerged(cx, before, b, fromIds, prose)
    ensures a == b
  {
    OnlyOneProse(prose, a.body, b.body);
    OneOrder(before.supersedes + fromIds, a.supersedes, b.supersedes);
    forall key | key in EDITABLE ensures FieldOf(a, key) == FieldOf(b, key) {}
    SameFields(a, b);
  }

  function Agreeing(a: seq<Id>, b: seq<Id>): (k: nat)
    ensures k <= |a| && k <= |b| && a[..k] == b[..k]
    ensures k < |a| && k < |b| ==> a[k] != b[k]
  {
    if a == [] || b == [] || a[0] != b[0] then 0
    else
      var k := Agreeing(a[1..], b[1..]);
      assert a == [a[0]] + a[1..] && b == [b[0]] + b[1..];
      k + 1
  }

  lemma NotBothFirst(all: seq<Id>, x: Id, y: Id)
    requires x != y && ComesBefore(all, x, y)
    ensures !ComesBefore(all, y, x)
  {
    var p :| ComesFirst(all, x, y, p);
    forall q ensures !ComesFirst(all, y, x, q) {
      if 0 <= q < p {
        assert all[..p][q] == all[q];
      } else if p < q <= |all| {
        assert all[..q][p] == x;
      }
    }
  }

  /** What comes at `k` in `a` comes later in `b`, if they agree up to there and not there. */
  lemma ComesLater(all: seq<Id>, a: seq<Id>, b: seq<Id>, k: nat)
    requires OnceEach(all, a) && OnceEach(all, b) && k < |a| && k <= |b| && a[..k] == b[..k]
    requires k < |b| ==> a[k] != b[k]
    ensures k < |b| && ComesBefore(all, b[k], a[k])
  {
    assert a[k] in a && a[k] in all && a[k] in b;
    var j :| 0 <= j < |b| && b[j] == a[k];
    forall i | 0 <= i < k ensures a[i] == b[i] {
      assert b[..k][i] == a[..k][i];
    }
  }

  /** The values, each once, in the order they first come, are one sequence. */
  lemma OneOrder(all: seq<Id>, a: seq<Id>, b: seq<Id>)
    requires OnceEach(all, a) && OnceEach(all, b)
    ensures a == b
  {
    hide OnceEach, ComesBefore;
    var k := Agreeing(a, b);
    if k < |a| {
      ComesLater(all, a, b, k);
    }
    if k < |b| {
      ComesLater(all, b, a, k);
      NotBothFirst(all, a[k], b[k]);
    }
  }

  // ----- supersede

  /** A supersede writes the successor, naming the old id, and moves the old memory into the archive. */
  lemma SupersedeWrites(cx: Context, m: Ids, oldId: Id, successor: Doc)
    requires SupersedeOutcome(cx, m, oldId, successor).Accepted()
    ensures var out := SupersedeOutcome(cx, m, oldId, successor);
            && Readable(cx, m, oldId) && out.changes != []
            && WritesSuccessor(cx, oldId, successor, out.changes[0])
            && (if IsArchived(m[oldId].path) then |out.changes| == 1
                else exists to :: IsMove(cx, m[oldId].path, OnDisk(cx, m, oldId), to, out.changes[1..]))
  {
    hide CreateOutcome, ArchiveOutcome, IsStamped, IsArchived;
    LoadsReadable(cx, m, oldId);
    var made := successor.(supersedes := Dedupe(successor.supersedes + [oldId]));
    DedupeIsOnceEach(successor.supersedes + [oldId]);
    var created := CreateOutcome(cx, m, made, None);
    CreateWrites(cx, m, made, None);
    CreateAccepted(cx, m, made, None);
    assert IsSuccessor(successor, oldId, made);
    ArchiveMoves(cx, created.projected, oldId);
    assert created.projected[oldId] == m[oldId];
    var out := SupersedeOutcome(cx, m, oldId, successor);
    assert out.changes[1..] == ArchiveOutcome(cx, created.projected, oldId).changes;
  }

  ghost predicate WritesSuccessor(cx: Context, oldId: Id, successor: Doc, c: Change) {
    exists made :: && IsSuccessor(successor, oldId, made) && c.Write? && c.file.Memory?
                   && c.path == cx.policy.home(made) && IsStamped(cx, made, c.file.doc)
  }

  /** A supersede is taken if its old memory can be read and its successor may be created where it belongs. */
  lemma SupersedeAccepted(cx: Context, m: Ids, oldId: Id, successor: Doc, made: Doc)
    requires IsSuccessor(successor, oldId, made)
    ensures SupersedeOutcome(cx, m, oldId, successor).Accepted()
       <==> && Readable(cx, m, oldId) && successor.id !in m
            && cx.policy.writable(cx.policy.home(made)) && cx.policy.home(made) !in cx.tree
            && exists after :: IsStamped(cx, made, after) && cx.policy.bytes(after) <= cx.policy.maxFileBytes
  {
    hide CreateOutcome, ArchiveOutcome, IsStamped, IsArchived;
    LoadsReadable(cx, m, oldId);
    DedupeIsOnceEach(successor.supersedes + [oldId]);
    OneOrder(successor.supersedes + [oldId], made.supersedes, Dedupe(successor.supersedes + [oldId]));
    assert made == successor.(supersedes := Dedupe(successor.supersedes + [oldId]));
    CreateAccepted(cx, m, made, None);
    var created := CreateOutcome(cx, m, made, None);
    if created.Accepted() && Readable(cx, m, oldId) {
      CreateWrites(cx, m, made, None);
      assert created.projected[oldId] == m[oldId];
      ArchiveMoves(cx, created.projected, oldId);
    }
  }

  // ----- delete

  /** When a delete is taken, what it does, and otherwise every reason that holds. */
  lemma DeleteRemoves(cx: Context, m: Ids, id: Id)
    ensures var out := DeleteOutcome(cx, m, id);
            && (out.Accepted()
                <==> && cx.job == "forget" && Readable(cx, m, id) && IsArchived(m[id].path)
                     && !OnDisk(cx, m, id).pinned
                     && cx.now - OnDisk(cx, m, id).updated >= cx.policy.retentionFloor)
            && (out.Accepted() ==> out.changes == [Remove(m[id].path)] && out.projected == m - {id})
            && (cx.job == "forget" && Readable(cx, m, id) ==>
                  && (IsPinned(id) in out.reasons <==> OnDisk(cx, m, id).pinned)
                  && (NotArchived(id) in out.reasons <==> !IsArchived(m[id].path))
                  && (TooRecent(id) in out.reasons
                      <==> cx.now - OnDisk(cx, m, id).updated < cx.policy.retentionFloor))
  {
    LoadsReadable(cx, m, id);
  }

  // ----- why a patch is refused

  /** Why a file cannot be loaded: no such id, no such file, or a file that does not parse. */
  function WhyUnread(cx: Context, m: Ids, id: Id): Reason {
    if id !in m then UnknownId(id) else if m[id].path !in cx.tree then FileMissing(id) else FileBroken(m[id].path)
  }

  /** The first reason there is, in the order of the checks. */
  lemma RefusedUpdate(cx: Context, m: Ids, id: Id, body: Option<Body>, fields: Fields)
    ensures var out := UpdateOutcome(cx, m, id, body, fields);
            && (!Readable(cx, m, id) ==> out.reasons == [WhyUnread(cx, m, id)])
            && (Readable(cx, m, id) && (IdKey in fields || CreatedKey in fields || UpdatedKey in fields) ==>
                  out.reasons == [ImmutableField])
            && (Readable(cx, m, id) && fields.Keys !! {IdKey, CreatedKey, UpdatedKey}
                && (exists key :: key in fields && !(key in EDITABLE && MayHold(cx.policy, key, fields[key]))) ==>
                  out.reasons == [InvalidField])
            && (out.reasons == [] || out.reasons[0] in {WhyUnread(cx, m, id), ImmutableField, InvalidField}
                || (id in m && out.reasons == [TooLarge(m[id].path)]))
  {
    hide MayHold, Updated, ValidFields;
    FieldsMayHold(cx.policy, fields);
    assert IMMUTABLE == {IdKey, CreatedKey, UpdatedKey};
    if IdKey in fields || CreatedKey in fields || UpdatedKey in fields {
      assert fields.Keys * IMMUTABLE != {} by {
        assert IdKey in fields.Keys * IMMUTABLE || CreatedKey in fields.Keys * IMMUTABLE
               || UpdatedKey in fields.Keys * IMMUTABLE;
      }
    }
  }

  lemma RefusedCreate(cx: Context, m: Ids, doc: Doc, wanted: Option<Path>)
    ensures var path := if wanted.Some? then wanted.value else cx.policy.home(doc);
            var out := CreateOutcome(cx, m, doc, wanted);
            && (doc.id in m ==> out.reasons == [IdExists(doc.id)])
            && (doc.id !in m && !cx.policy.writable(path) ==> out.reasons == [NotWritable(path)])
            && (doc.id !in m && cx.policy.writable(path) && path in cx.tree ==> out.reasons == [PathExists(path)])
            && (doc.id !in m && cx.policy.writable(path) && path !in cx.tree ==> out.reasons in {[], [TooLarge(path)]})
  {}

  lemma {:induction false} FirstUnread(cx: Context, m: Ids, ids: seq<Id>, k: nat)
    requires k < |ids| && !Readable(cx, m, ids[k]) && forall j | 0 <= j < k :: Readable(cx, m, ids[j])
    ensures FirstUnloadable(cx, m, ids) == Some(WhyUnread(cx, m, ids[k]))
  {
    LoadsReadable(cx, m, ids[0]);
    if k > 0 {
      assert forall j | 0 <= j < k - 1 :: ids[1..][j] == ids[j + 1];
      FirstUnread(cx, m, ids[1..], k - 1);
    }
  }

  lemma RefusedMerge(cx: Context, m: Ids, into: Id, fromIds: seq<Id>, prose: Body)
    ensures var out := MergeOutcome(cx, m, into, fromIds, prose);
            && (fromIds == [] ==> out.reasons == [EmptyMerge])
            && (into in fromIds ==> out.reasons == [SelfMerge(into)])
            && (fromIds != [] && into !in fromIds && !Readable(cx, m, into) ==> out.reasons == [WhyUnread(cx, m, into)])
            && (forall k | && 0 <= k < |fromIds| && into !in fromIds && Readable(cx, m, into)
                           && !Readable(cx, m, fromIds[k]) && forall j | 0 <= j < k :: Readable(cx, m, fromIds[j]) ::
                  out.reasons == [WhyUnread(cx, m, fromIds[k])])
  {
    hide ArchiveAllOutcome, Merged;
    LoadsReadable(cx, m, into);
    forall k | && 0 <= k < |fromIds| && into !in fromIds && Readable(cx, m, into)
               && !Readable(cx, m, fromIds[k]) && forall j | 0 <= j < k :: Readable(cx, m, fromIds[j])
      ensures MergeOutcome(cx, m, into, fromIds, prose).reasons == [WhyUnread(cx, m, fromIds[k])]
    {
      FirstUnread(cx, m, fromIds, k);
    }
  }
}
