/** The hypotheses of the planning results are needed: each is shown with a concrete tree and plan. */
module ForgetLimits {
  import opened Changeset
  import opened Document
  import opened Forget
  import opened ForgetPlans
  import opened Layout
  import opened Manifests
  import opened Patch
  import opened PatchAgreement
  import opened Retention
  import opened Text
  import opened Wrappers

  const DAY := 86_400 * SECOND

  function Plain(id: Id, title: string, links: seq<string>, pinned: bool): Doc {
    Doc(id, "fact", title, [], "workspace", 0, 0, 0.8, 0.0, pinned, [], [], Body("\n", links))
  }

  /** The shipped limits, with a slug that is the title itself and nothing too big or secret. */
  function Defaults(): Policy {
    Policy(65_536, 25, 30 * DAY, t => t, i => i, d => "memory/facts/new.md", v => true, p => true, d => 0, d => false)
  }

  // ----- two creates at one path

  const ID_A := "mem_00000000000000000000000000"
  const ID_B := "mem_00000000000000000000000001"

  /**
   * `create` looks for its path on disk only, so one plan can create two memories at one path.
   * The compiler accepts it; one of the two is lost, and the projection still names both.
   */
  lemma TwoCreatesShareAPath()
    ensures var cx := Context(map[], Defaults(), "promote", 0, 0);
            var plan := [Create(Plain(ID_A, "a", [], false), None), Create(Plain(ID_B, "b", [], false), None)];
            Accepts(cx, map[], plan) && !AgreeAfter(cx, map[], plan)
  {
    var cx := Context(map[], Defaults(), "promote", 0, 0);
    var a, b := Plain(ID_A, "a", [], false), Plain(ID_B, "b", [], false);
    var path := "memory/facts/new.md";
    var plan := [Create(a, None), Create(b, None)];
    var first := Fold(cx, map[], [Create(a, None)]);
    assert ID_A != ID_B by { assert ID_A[29] != ID_B[29]; }
    assert [Create(a, None)][..0] == [] && plan[..1] == [Create(a, None)];
    assert Fold(cx, map[], []) == Compiled(map[], [], []);
    assert first == Compiled(map[ID_A := EntryFor(path, a)], [WriteOf(path, Touch(a, 0))], []);
    var out := Fold(cx, map[], plan);
    assert out == Compiled(map[ID_A := EntryFor(path, a), ID_B := EntryFor(path, b)],
                           [WriteOf(path, Touch(a, 0)), WriteOf(path, Touch(b, 0))], []);
    assert Touched(out.changes) == {path};
    assert forall id :: Delete(id) !in plan;
    assert Clashing(out.projected, ID_A, ID_B);
    ClashingIsNotDescribed(out.projected, Replay(cx.tree, out.changes), ID_A, ID_B);
  }

  // ----- a link out of the archive

  /** An old archived memory, and a pinned one that stays in the archive and links to it by id. */
  function LinkedArchive(): Situation {
    var a, b := Plain(ID_A, "a", [], false), Plain(ID_B, "b", [ID_A], true);
    var pa, pb := ARCHIVE_PREFIX + "a.md", ARCHIVE_PREFIX + "b.md";
    Situation(Context(map[pa := Memory(a), pb := Memory(b)], Defaults(), JOB, 100 * DAY, 100 * DAY),
              map[ID_A := EntryFor(pa, a), ID_B := EntryFor(pb, b)],
              Settings(0.12, 60 * DAY, 20), {}, [Loaded(pa, a), Loaded(pb, b)])
  }

  lemma IdsDiffer()
    ensures ID_A != ID_B
  {
    assert ID_A[29] != ID_B[29];
  }

  lemma LinkedArchiveProposal(s: Situation)
    requires s == LinkedArchive()
    ensures s.Proposed() == Proposal([], [s.corpus[0]])
  {
    var a, b := s.corpus[0], s.corpus[1];
    var one := [a];
    assert one[..0] == [] && s.corpus[..1] == one && ([a] + [b])[..1] == one;
    assert AllDue(Archiving, s.settings, s.cx.policy, s.cx.now, {}, []) == [];
    assert AllDue(Archiving, s.settings, s.cx.policy, s.cx.now, {}, one) == [];
    assert AllDue(Archiving, s.settings, s.cx.policy, s.cx.now, {}, s.corpus) == [];
    assert AllDue(Collecting, s.settings, s.cx.policy, s.cx.now, {}, []) == [];
    assert AllDue(Collecting, s.settings, s.cx.policy, s.cx.now, {}, one) == [a];
    assert AllDue(Collecting, s.settings, s.cx.policy, s.cx.now, {}, s.corpus) == [a];
    assert ColdestFirst([]) == [] && ColdestFirst(one) == one;
  }

  lemma LinkedArchiveIsValid(s: Situation)
    requires s == LinkedArchive()
    ensures s.Valid()
  {
    IdsDiffer();
    var a, b := s.corpus[0], s.corpus[1];
    assert a.path != b.path by { assert a.path[15] != b.path[15]; }
    assert IsEntry(a, s.m, s.cx.tree) && IsEntry(b, s.m, s.cx.tree);
    assert a in s.corpus && b in s.corpus;
    assert Holds(s.cx.tree, a.path, ID_A) && Holds(s.cx.tree, b.path, ID_B);
  }

  lemma OnlyRemoves(s: Situation)
    requires s.Valid() && s.Proposed().archived == []
    ensures PathsApart(s.cx.tree, s.Out().changes)
  {
    var dests := ProposalFolds(s);
    forall c | c in s.Out().changes ensures c.Remove? {
      RemoveChangesMembers(s.Proposed().collected, c);
    }
  }

  lemma KeptLinkRefused(s: Situation, c: Loaded, k: Loaded)
    requires s.Valid() && PathsApart(s.cx.tree, s.Out().changes)
    requires c in s.Proposed().collected
    requires k in s.corpus && IsArchived(k.path) && !Names(s.Proposed().collected, k.doc.id)
    requires c.doc.id in k.doc.body.links
    ensures !Accepts(s.cx, s.m, PlanOf(s.Proposed()))
  {
    ProposalAccepted(s);
  }

  /** `forget` ignores links out of the archive when it proposes; the compiler counts them when it refuses. */
  lemma ArchiveLinkRefused(s: Situation)
    requires s == LinkedArchive()
    ensures s.Valid() && s.Proposed().collected != [] && !Accepts(s.cx, s.m, PlanOf(s.Proposed()))
  {
    LinkedArchiveIsValid(s);
    LinkedArchiveProposal(s);
    OnlyRemoves(s);
    IdsDiffer();
    assert !Names([s.corpus[0]], ID_B);
    KeptLinkRefused(s, s.corpus[0], s.corpus[1]);
  }

  /** The default caps disagree: twenty memories a run, twenty-five files a commit, and an archive touches two. */
  lemma ThirteenArchivesRefused(s: Situation)
    requires s.Valid() && PathsApart(s.cx.tree, s.Out().changes)
    requires s.cx.policy.maxFilesPerCommit == 25 && |s.Proposed().archived| >= 13
    ensures !Accepts(s.cx, s.m, PlanOf(s.Proposed()))
  {
    ProposalAccepted(s);
  }

  // ----- so many cold memories, titled a to t

  function Letter(k: nat): char
    requires k < 20
  {
    ('a' as int + k) as char
  }

  function Digit(k: nat): char
    requires k < 10
  {
    ('0' as int + k) as char
  }

  function ColdPath(k: nat): Path
    requires k < 20
  {
    "memory/facts/" + [Letter(k)] + ".md"
  }

  function ColdDoc(k: nat): Doc
    requires k < 20
  {
    Plain("mem_000000000000000000000000" + [Digit(k / 10), Digit(k % 10)], [Letter(k)], [], false)
  }

  lemma ColdApart(j: nat, k: nat)
    requires j < 20 && k < 20 && j != k
    ensures ColdPath(j) != ColdPath(k) && ColdDoc(j).id != ColdDoc(k).id
  {
    assert ColdPath(j)[13] == Letter(j) && ColdPath(k)[13] == Letter(k);
    assert ColdDoc(j).id[28] == Digit(j / 10) && ColdDoc(k).id[28] == Digit(k / 10);
    assert ColdDoc(j).id[29] == Digit(j % 10) && ColdDoc(k).id[29] == Digit(k % 10);
  }

  lemma AllColdApart()
    ensures forall j: nat, k: nat | j < 20 && k < 20 && ColdPath(j) == ColdPath(k) :: j == k
    ensures forall j: nat, k: nat | j < 20 && k < 20 && ColdDoc(j).id == ColdDoc(k).id :: j == k
  {
    hide ColdPath, ColdDoc;
    forall j: nat, k: nat | j < 20 && k < 20 && j != k
      ensures ColdPath(j) != ColdPath(k) && ColdDoc(j).id != ColdDoc(k).id
    {
      ColdApart(j, k);
    }
  }

  function ColdTree(n: nat): (tree: Tree)
    requires n <= 20
    ensures forall k: nat | k < n :: ColdPath(k) in tree && tree[ColdPath(k)] == Memory(ColdDoc(k))
    ensures forall p | p in tree :: exists k: nat :: k < n && p == ColdPath(k)
  {
    hide ColdPath, ColdDoc;
    AllColdApart();
    if n == 0 then map[] else ColdTree(n - 1)[ColdPath(n - 1) := Memory(ColdDoc(n - 1))]
  }

  function ColdIds(n: nat): (m: Ids)
    requires n <= 20
    ensures forall k: nat | k < n :: ColdDoc(k).id in m && m[ColdDoc(k).id] == EntryFor(ColdPath(k), ColdDoc(k))
    ensures forall id | id in m :: exists k: nat :: k < n && id == ColdDoc(k).id
  {
    hide ColdPath, ColdDoc;
    AllColdApart();
    if n == 0 then map[] else ColdIds(n - 1)[ColdDoc(n - 1).id := EntryFor(ColdPath(n - 1), ColdDoc(n - 1))]
  }

  function ColdCorpus(n: nat): (corpus: Corpus)
    requires n <= 20
    ensures |corpus| == n && forall k: nat | k < n :: corpus[k] == Loaded(ColdPath(k), ColdDoc(k))
  {
    hide ColdPath, ColdDoc;
    seq(n, k requires 0 <= k < n => Loaded(ColdPath(k), ColdDoc(k)))
  }

  /** Memories each cold, old, unpinned and linked from nowhere, under the shipped limits. */
  function ColdMemories(n: nat): Situation
    requires n <= 20
  {
    Situation(Context(ColdTree(n), Defaults(), JOB, 100 * DAY, 100 * DAY), ColdIds(n),
              Settings(0.12, 60 * DAY, 20), {}, ColdCorpus(n))
  }

  lemma ColdFacts(k: nat)
    requires k < 20
    ensures ColdDoc(k).body.links == [] && |ColdPath(k)| > 7 && ColdPath(k)[7] == 'f'
    ensures Due(Archiving, Settings(0.12, 60 * DAY, 20), Defaults(), 100 * DAY, {}, Loaded(ColdPath(k), ColdDoc(k)))
    ensures !Due(Collecting, Settings(0.12, 60 * DAY, 20), Defaults(), 100 * DAY, {}, Loaded(ColdPath(k), ColdDoc(k)))
  {
    assert ColdPath(k)[7] == 'f' && ARCHIVE_PREFIX[7] == 'a';
  }

  lemma ColdIsDescribed(n: nat)
    requires n <= 20
    ensures Describes(ColdIds(n), ColdTree(n))
  {
    hide ColdPath, ColdDoc, ColdTree, ColdIds;
    var m, tree := ColdIds(n), ColdTree(n);
    AllColdApart();
    forall id | id in m ensures Holds(tree, m[id].path, id) && m[id] == EntryFor(m[id].path, tree[m[id].path].doc) {
      var k: nat :| k < n && id == ColdDoc(k).id;
    }
    forall path | path in tree && tree[path].Memory?
      ensures tree[path].doc.id in m && m[tree[path].doc.id].path == path
    {
      var k: nat :| k < n && path == ColdPath(k);
    }
  }

  lemma ColdIsEntry(n: nat, k: nat)
    requires k < n <= 20
    ensures IsEntry(Loaded(ColdPath(k), ColdDoc(k)), ColdIds(n), ColdTree(n))
  {
    hide ColdPath, ColdDoc, ColdTree, ColdIds;
    assert ColdPath(k) in ColdTree(n) && ColdDoc(k).id in ColdIds(n);
  }

  lemma ColdIsCorpus(n: nat)
    requires n <= 20
    ensures IsCorpus(ColdCorpus(n), ColdIds(n), ColdTree(n))
  {
    hide ColdPath, ColdDoc, ColdTree, ColdIds, ColdCorpus, IsEntry;
    var m, tree, corpus := ColdIds(n), ColdTree(n), ColdCorpus(n);
    forall at | at in corpus ensures IsEntry(at, m, tree) {
      var k: nat :| k < n && corpus[k] == at;
      ColdIsEntry(n, k);
    }
    forall id | id in m ensures exists at :: at in corpus && at.doc.id == id {
      var k: nat :| k < n && id == ColdDoc(k).id;
      assert corpus[k] in corpus;
    }
    ColdIsDistinct(n);
  }

  lemma ColdIsDistinct(n: nat)
    requires n <= 20
    ensures Distinct(ColdCorpus(n))
  {
    hide ColdPath, ColdDoc, ColdCorpus;
    AllColdApart();
  }

  lemma ColdMemoriesAreValid(n: nat)
    requires n <= 20
    ensures ColdMemories(n).Valid()
    ensures forall at | at in ColdCorpus(n) :: at.doc.body.links == []
  {
    hide ColdPath, ColdDoc, ColdTree, ColdIds, ColdCorpus, LinkProtects, Describes, IsCorpus, Defaults, Due, IsArchived;
    ColdIsDescribed(n);
    ColdIsCorpus(n);
    forall at | at in ColdCorpus(n) ensures at.doc.body.links == [] {
      var k: nat :| k < n && ColdCorpus(n)[k] == at;
      ColdFacts(k);
    }
  }

  lemma {:induction false} AllOrNoneDue(stage: Stage, settings: Settings, policy: Policy, now: int, corpus: Corpus)
    ensures (forall at | at in corpus :: Due(stage, settings, policy, now, {}, at)) ==>
              AllDue(stage, settings, policy, now, {}, corpus) == corpus
    ensures (forall at | at in corpus :: !Due(stage, settings, policy, now, {}, at)) ==>
              AllDue(stage, settings, policy, now, {}, corpus) == []
  {
    hide Due;
    if corpus != [] {
      var init, last := corpus[..|corpus| - 1], corpus[|corpus| - 1];
      assert corpus == init + [last] && last in corpus;
      AllOrNoneDue(stage, settings, policy, now, init);
    }
  }

  lemma AllArchived(settings: Settings, policy: Policy, now: int, corpus: Corpus)
    requires AllDue(Archiving, settings, policy, now, {}, corpus) == corpus && |corpus| <= settings.maxPerRun
    requires AllDue(Collecting, settings, policy, now, {}, corpus) == []
    ensures var p := Propose(settings, policy, now, {}, corpus); |p.archived| == |corpus| && p.collected == []
  {
    hide AllDue;
    ColdestFirstPermutes(corpus);
  }

  lemma EachColdIsDue(n: nat, at: Loaded)
    requires n <= 20 && at in ColdCorpus(n)
    ensures Due(Archiving, Settings(0.12, 60 * DAY, 20), Defaults(), 100 * DAY, {}, at)
    ensures !Due(Collecting, Settings(0.12, 60 * DAY, 20), Defaults(), 100 * DAY, {}, at)
  {
    hide ColdPath, ColdDoc, ColdCorpus, Due, Defaults;
    var k: nat :| k < n && ColdCorpus(n)[k] == at;
    ColdFacts(k);
  }

  lemma ColdProposed(n: nat)
    requires n <= 20
    ensures |ColdMemories(n).Proposed().archived| == n && ColdMemories(n).Proposed().collected == []
  {
    hide ColdPath, ColdDoc, ColdTree, ColdIds, ColdCorpus, Due, Defaults, ColdestFirst, AllDue, Propose;
    var corpus, settings := ColdCorpus(n), Settings(0.12, 60 * DAY, 20);
    forall at | at in corpus
      ensures Due(Archiving, settings, Defaults(), 100 * DAY, {}, at)
      ensures !Due(Collecting, settings, Defaults(), 100 * DAY, {}, at)
    {
      EachColdIsDue(n, at);
    }
    AllOrNoneDue(Archiving, settings, Defaults(), 100 * DAY, corpus);
    AllOrNoneDue(Collecting, settings, Defaults(), 100 * DAY, corpus);
    AllArchived(settings, Defaults(), 100 * DAY, corpus);
  }

  lemma ColdName(cx: Context, k: nat)
    requires k < 20 && cx.policy == Defaults()
    ensures var name := ArchiveName(cx, ColdDoc(k)); |name| == 19 && name[7] == 'a' && name[15] == Letter(k)
  {
  }

  lemma ColdNamesDiffer(cx: Context, j: nat, k: nat)
    requires j < 20 && k < 20 && j != k && cx.policy == Defaults()
    ensures ArchiveName(cx, ColdDoc(j)) != ArchiveName(cx, ColdDoc(k))
  {
    ColdName(cx, j);
    ColdName(cx, k);
  }

  lemma ColdNameIsFree(cx: Context, n: nat, k: nat)
    requires n <= 20 && k < 20 && cx.policy == Defaults()
    ensures ArchiveName(cx, ColdDoc(k)) !in ColdTree(n)
  {
    hide ColdPath, ColdDoc, ColdTree, ArchiveName, Due;
    ColdName(cx, k);
    forall j: nat | j < 20 ensures ColdPath(j) != ArchiveName(cx, ColdDoc(k)) { ColdFacts(j); }
  }

  /** Each asks for a name of its own in the archive. */
  lemma ColdNamesFree(n: nat)
    requires n <= 20
    ensures NamesFree(ColdMemories(n).cx, ColdMemories(n).Proposed().archived)
  {
    hide ColdPath, ColdDoc, ColdTree, ColdIds, Due, Defaults, ArchiveName, IsCorpus;
    var s := ColdMemories(n);
    ColdMemoriesAreValid(n);
    var archived := s.Proposed().archived;
    ProposedFacts(s);
    forall i | 0 <= i < |archived|
      ensures exists k: nat :: k < n && archived[i].doc == ColdDoc(k)
      ensures ArchiveName(s.cx, archived[i].doc) !in s.cx.tree
    {
      assert archived[i] in s.corpus;
      var k: nat :| k < n && s.corpus[k] == archived[i];
      ColdNameIsFree(s.cx, n, k);
    }
    forall i, j | 0 <= i < j < |archived|
      ensures ArchiveName(s.cx, archived[i].doc) != ArchiveName(s.cx, archived[j].doc)
    {
      var a: nat :| a < n && archived[i].doc == ColdDoc(a);
      var b: nat :| b < n && archived[j].doc == ColdDoc(b);
      assert archived[i].doc.id != archived[j].doc.id;
      ColdNamesDiffer(s.cx, a, b);
    }
  }

  /** Under the shipped limits a week with so many distinctly titled cold memories is refused from the thirteenth on. */
  lemma ThirteenColdRefused(n: nat)
    requires n <= 20
    ensures var s := ColdMemories(n);
            && s.Valid() && PathsApart(s.cx.tree, s.Out().changes) && |s.Proposed().archived| == n
            && (Accepts(s.cx, s.m, PlanOf(s.Proposed())) <==> n <= 12)
  {
    hide ColdPath, ColdDoc, ColdTree, ColdIds, Due, Situation.Out, Situation.Valid, PathsApart, NamesFree, Accepts;
    var s := ColdMemories(n);
    ColdMemoriesAreValid(n);
    ColdProposed(n);
    ColdNamesFree(n);
    FreeNamesKeepApart(s);
    ProposedFacts(s);
    ProposalAccepted(s);
  }

  // ----- a file the run cannot read

  /** Every live memory of the manifest whose file can be read has its links protected. */
  lemma ReadMeansProtected(tree: Tree, m: Ids, order: seq<Id>, linked: set<Id>, id: Id, target: string)
    requires Protects(Read(tree, m, order), m, linked)
    requires id in order && id in m && m[id].path in tree && tree[m[id].path].Memory? && !IsArchived(m[id].path)
    requires target in tree[m[id].path].doc.body.links
    ensures LinkProtects(m, tree[m[id].path].doc, target, linked)
  {
    hide LinkProtects, IsArchived;
    ReadHas(tree, m, order, id);
    var at := Loaded(m[id].path, tree[m[id].path].doc);
    assert at in Read(tree, m, order);
  }

  lemma {:induction false} ReadHas(tree: Tree, m: Ids, order: seq<Id>, id: Id)
    requires id in order && id in m && m[id].path in tree && tree[m[id].path].Memory?
    ensures Loaded(m[id].path, tree[m[id].path].doc) in Read(tree, m, order)
  {
    if id != order[|order| - 1] {
      ReadHas(tree, m, order[..|order| - 1], id);
    }
  }

  /** Two memories, and the manifest of both. */
  ghost predicate TwoMemories(m: Ids, a: Loaded, b: Loaded) {
    && a.doc.id != b.doc.id && a.path != b.path
    && m == map[a.doc.id := EntryFor(a.path, a.doc), b.doc.id := EntryFor(b.path, b.doc)]
  }

  lemma ReadTwo(tree: Tree, m: Ids, a: Loaded, b: Loaded)
    requires TwoMemories(m, a, b) && a.path in tree && tree[a.path] == Memory(a.doc)
    requires b.path in tree && (tree[b.path].Broken? || tree[b.path] == Memory(b.doc))
    ensures Read(tree, m, [a.doc.id, b.doc.id]) == [a] + if tree[b.path].Memory? then [b] else []
  {
    var order := [a.doc.id, b.doc.id];
    assert order[..1] == [a.doc.id] && [a.doc.id][..0] == [];
    assert Read(tree, m, []) == [];
    assert Read(tree, m, [a.doc.id]) == [a];
  }

  lemma OneCollected(cx: Context, m: Ids, settings: Settings, at: Loaded)
    requires Due(Collecting, settings, cx.policy, cx.now, {}, at) && settings.maxPerRun > 0
    ensures Propose(settings, cx.policy, cx.now, {}, [at]) == Proposal([], [at])
  {
    var one := [at];
    assert one[..0] == [];
    assert AllDue(Archiving, settings, cx.policy, cx.now, {}, []) == [];
    assert AllDue(Archiving, settings, cx.policy, cx.now, {}, one) == [];
    assert AllDue(Collecting, settings, cx.policy, cx.now, {}, []) == [];
    assert AllDue(Collecting, settings, cx.policy, cx.now, {}, one) == one;
    assert ColdestFirst([]) == [] && ColdestFirst(one) == one;
  }

  lemma OneDeleted(cx: Context, m: Ids, at: Loaded)
    requires cx.job == JOB && MayBeDeleted(cx, m, at) && cx.policy.maxFilesPerCommit > 0
    requires NoInbound(cx, m - {at.doc.id}, at.doc.id)
    ensures Accepts(cx, m, [Delete(at.doc.id)])
  {
    var plan := [Delete(at.doc.id)];
    assert plan[..0] == [] && Fold(cx, m, []) == Compiled(m, [], []);
    DeleteStep(cx, m, m, at);
    var out := Fold(cx, m, plan);
    assert out == Compiled(m - {at.doc.id}, [Remove(at.path)], []);
    assert Touched(out.changes) == {at.path};
  }

  /** What a live memory links to by id is not collected while the file can be read. */
  lemma KeptWhileRead(tree: Tree, m: Ids, order: seq<Id>, linked: set<Id>, settings: Settings, policy: Policy, now: int,
                      from: Id, id: Id)
    requires Protects(Read(tree, m, order), m, linked)
    requires from in order && from in m && m[from].path in tree && tree[m[from].path].Memory?
    requires !IsArchived(m[from].path) && id in tree[m[from].path].doc.body.links
    requires id in m && id != tree[m[from].path].doc.id
    ensures !Names(Propose(settings, policy, now, linked, Read(tree, m, order)).collected, id)
  {
    hide IsArchived, Read;
    ReadMeansProtected(tree, m, order, linked, from, id);
    LinkedNotCollected(settings, policy, now, linked, Read(tree, m, order), id);
  }

  /** A run that reads no live memory protects nothing by a link. */
  lemma NothingLive(corpus: Corpus, m: Ids, linked: set<Id>)
    requires forall at | at in corpus :: IsArchived(at.path)
    requires forall id | id in linked :: PointedAt(corpus, m, id)
    ensures linked == {} && Protects(corpus, m, linked)
  {
    hide IsArchived, PointedFrom, LinkProtects;
  }

  /** An old archived memory, and a live one that links to it by id. */
  ghost predicate KeptByALink(cx: Context, m: Ids, settings: Settings, a: Loaded, b: Loaded) {
    && cx.job == JOB && cx.policy.maxFilesPerCommit > 0 && settings.maxPerRun > 0
    && TwoMemories(m, a, b) && cx.tree == map[a.path := Memory(a.doc), b.path := Memory(b.doc)]
    && Due(Collecting, settings, cx.policy, cx.now, {}, a) && cx.now - a.doc.updated >= cx.policy.retentionFloor
    && !IsArchived(b.path) && a.doc.id in b.doc.body.links
  }

  /** While the live file can be read, no protected set the run may come to lets the archived memory be collected. */
  lemma ReadableFileProtects(cx: Context, m: Ids, settings: Settings, a: Loaded, b: Loaded, linked: set<Id>)
    requires KeptByALink(cx, m, settings, a, b)
    requires Protects(Read(cx.tree, m, [a.doc.id, b.doc.id]), m, linked)
    ensures var corpus := Read(cx.tree, m, [a.doc.id, b.doc.id]);
            !Names(Propose(settings, cx.policy, cx.now, linked, corpus).collected, a.doc.id)
  {
    hide Protects, Due, Propose;
    assert b.doc.id == [a.doc.id, b.doc.id][1];
    KeptWhileRead(cx.tree, m, [a.doc.id, b.doc.id], linked, settings, cx.policy, cx.now, b.doc.id, a.doc.id);
  }

  /**
   * Once the same file no longer parses, its link is out of what the run protects: whatever protected set the run
   * comes to, the archived memory is the whole plan, and its deletion is accepted.
   */
  lemma BrokenFileUnprotects(cx: Context, m: Ids, settings: Settings, a: Loaded, b: Loaded, linked: set<Id>)
    requires KeptByALink(cx, m, settings, a, b)
    requires forall id | id in linked :: PointedAt(Read(cx.tree[b.path := Broken], m, [a.doc.id, b.doc.id]), m, id)
    ensures var broken := cx.(tree := cx.tree[b.path := Broken]);
            var corpus := Read(broken.tree, m, [a.doc.id, b.doc.id]);
            && PlanOf(Propose(settings, cx.policy, cx.now, linked, corpus)) == [Delete(a.doc.id)]
            && Accepts(broken, m, [Delete(a.doc.id)])
  {
    hide Protects, PointedAt, Accepts, Due, Propose;
    var broken := cx.(tree := cx.tree[b.path := Broken]);
    ReadTwo(broken.tree, m, a, b);
    assert Read(broken.tree, m, [a.doc.id, b.doc.id]) == [a];
    DueIsArchived(settings, cx.policy, cx.now, a);
    NothingLive([a], m, linked);
    OneCollected(broken, m, settings, a);
    OneDeleted(broken, m, a);
  }

  lemma DueIsArchived(settings: Settings, policy: Policy, now: int, a: Loaded)
    requires Due(Collecting, settings, policy, now, {}, a)
    ensures IsArchived(a.path) && !a.doc.pinned
  {
    hide IsArchived;
  }

  lemma LinkedNotCollected(settings: Settings, policy: Policy, now: int, linked: set<Id>, corpus: Corpus, id: Id)
    requires id in linked
    ensures !Names(Propose(settings, policy, now, linked, corpus).collected, id)
  {
    hide Due, AllDue, ColdestFirst, Take;
    var p := Propose(settings, policy, now, linked, corpus);
    var due := AllDue(Collecting, settings, policy, now, linked, corpus);
    AllDueIsFilter(Collecting, settings, policy, now, linked, corpus);
    ColdestFirstPermutes(due);
    TakeIsPrefix(ColdestFirst(due), settings.maxPerRun - |p.archived|);
    forall i | 0 <= i < |p.collected| ensures p.collected[i].doc.id != id {
      assert p.collected[i] in multiset(p.collected) && p.collected[i] in multiset(due);
      DueIsNotLinked(settings, policy, now, linked, p.collected[i]);
    }
  }

  lemma DueIsNotLinked(settings: Settings, policy: Policy, now: int, linked: set<Id>, at: Loaded)
    requires Due(Collecting, settings, policy, now, linked, at)
    ensures at.doc.id !in linked
  {
  }

  // ----- a path link back to the memory it is written in

  lemma {:induction false} SplitLast(head: string, last: string, sep: char)
    requires sep !in last
    ensures var pieces := SplitOn(head + [sep] + last, sep);
            |pieces| >= 2 && pieces[|pieces| - 1] == last
  {
    if head == "" {
      SplitNone(last, sep);
      assert head + [sep] + last == [sep] + last;
      assert ([sep] + last)[1..] == last;
    } else {
      assert (head + [sep] + last)[1..] == head[1..] + [sep] + last;
      SplitLast(head[1..], last, sep);
    }
  }

  lemma {:induction false} SplitNone(s: string, sep: char)
    requires sep !in s
    ensures SplitOn(s, sep) == [s]
  {
    if s != "" {
      SplitNone(s[1..], sep);
      assert [s[0]] + s[1..] == s;
    }
  }

  lemma {:induction false} NonTrivialLast(parts: seq<string>)
    requires parts != [] && parts[|parts| - 1] !in {"", "."}
    ensures var kept := NonTrivial(parts); kept != [] && kept[|kept| - 1] == parts[|parts| - 1]
  {
    if |parts| > 1 {
      NonTrivialLast(parts[1..]);
    }
  }

  lemma NameOf(dir: string, name: string)
    requires '/' !in name && name !in {"", "."}
    ensures Name(dir + "/" + name) == name
  {
    SplitLast(dir, name, '/');
    NonTrivialLast(SplitOn(dir + "/" + name, '/'));
  }

  lemma StemOf(dir: string, stem: string)
    requires '/' !in stem && stem != ""
    ensures Stem(dir + "/" + stem + ".md") == stem
  {
    var name := stem + ".md";
    assert dir + "/" + stem + ".md" == dir + "/" + name;
    NameOf(dir, name);
    assert stem + ['.'] + "md" == name;
    SplitLast(stem, "md", '.');
  }

  /** A cold memory that links to itself by its path, which is not the slug of its title. */
  function SelfLinked(): Situation {
    var doc := Plain(ID_A, "jane-doe", ["people/jane"], false);
    var path := "memory/people/jane.md";
    Situation(Context(map[path := Memory(doc)], Defaults(), JOB, 100 * DAY, 100 * DAY),
              map[ID_A := EntryFor(path, doc)], Settings(0.12, 60 * DAY, 20), {}, [Loaded(path, doc)])
  }

  lemma JaneIsAPath()
    ensures Strip("people/jane") == "people/jane" && !IsMemoryId("people/jane")
    ensures "memory/people/jane.md" in Candidates("people/jane")
  {
    assert MEMORY_DIR + "/" + "people/jane" + ".md" == "memory/people/jane.md";
  }

  lemma JaneDoeIsElsewhere()
    ensures "memory/archive/jane-doe.md" !in Candidates("people/jane")
  {
    assert |MEMORY_DIR + "/" + "people/jane" + ".md"| == 21;
  }

  lemma JaneDoeIsNotJane()
    ensures Stem("memory/archive/jane-doe.md") != RemoveSuffix(Name("people/jane"), ".md")
  {
    assert "memory/archive" + "/" + "jane-doe" + ".md" == "memory/archive/jane-doe.md";
    StemOf("memory/archive", "jane-doe");
    NameOf("people", "jane");
    assert "people" + "/" + "jane" == "people/jane";
    assert |RemoveSuffix("jane", ".md")| <= 4;
  }

  lemma OneArchived(s: Situation, at: Loaded)
    requires s.corpus == [at]
    requires Due(Archiving, s.settings, s.cx.policy, s.cx.now, s.linked, at) && s.settings.maxPerRun == 20
    ensures s.Proposed() == Proposal([at], [])
  {
    var one := [at];
    assert one[..0] == [];
    assert AllDue(Archiving, s.settings, s.cx.policy, s.cx.now, s.linked, []) == [];
    assert AllDue(Archiving, s.settings, s.cx.policy, s.cx.now, s.linked, one) == one;
    assert AllDue(Collecting, s.settings, s.cx.policy, s.cx.now, s.linked, []) == [];
    assert AllDue(Collecting, s.settings, s.cx.policy, s.cx.now, s.linked, one) == [];
    assert ColdestFirst([]) == [] && ColdestFirst(one) == one;
  }

  lemma OneMoved(cx: Context, m: Ids, at: Loaded, to: Path)
    requires m == map[at.doc.id := EntryFor(at.path, at.doc)]
    requires MayBeArchived(m, cx.tree, at)
    requires to == ARCHIVE_PREFIX + cx.policy.slug(at.doc.title) + ".md" && to !in cx.tree && to != at.path
    ensures Fold(cx, m, [Archive(at.doc.id)]).projected == map[at.doc.id := m[at.doc.id].(path := to)]
  {
    var plan := [Archive(at.doc.id)];
    assert plan[..0] == [];
    assert Fold(cx, m, []) == Compiled(m, [], []);
  }

  lemma SelfLinkedIsValid(s: Situation)
    requires s == SelfLinked()
    ensures s.Valid() && Answers(s.m, "people/jane", ID_A)
  {
    JaneIsAPath();
    var at := s.corpus[0];
    assert Answers(s.m, "people/jane", ID_A);
    assert IsIdAt(s.m, at.path, ID_A);
    assert ResolvesVia(s.m, "people/jane", ID_A);
    assert LinkProtects(s.m, at.doc, "people/jane", {});
  }

  lemma Unanswered(m: Ids, id: Id)
    requires m.Keys == {id} && m[id].path == "memory/archive/jane-doe.md"
    ensures !Resolves(m, "people/jane")
  {
    JaneIsAPath();
    JaneDoeIsElsewhere();
    JaneDoeIsNotJane();
  }

  lemma SelfLinkedOutcome(s: Situation)
    requires s == SelfLinked() && s.Valid()
    ensures s.Proposed() == Proposal(s.corpus, [])
    ensures !Resolves(s.Out().projected, "people/jane")
  {
    var at := s.corpus[0];
    var to := "memory/archive/jane-doe.md";
    assert !IsArchived(at.path) by { assert ARCHIVE_PREFIX[7] != at.path[7]; }
    OneArchived(s, at);
    assert ARCHIVE_PREFIX + "jane-doe" + ".md" == to;
    assert to != at.path by { assert to[7] != at.path[7]; }
    assert PlanOf(s.Proposed()) == [Archive(ID_A)];
    OneMoved(s.cx, s.m, at, to);
    Unanswered(s.Out().projected, ID_A);
  }

  lemma UnresolvedRefused(s: Situation, at: Loaded, target: string)
    requires s.Valid() && at in s.Proposed().archived && target in at.doc.body.links
    requires !Resolves(s.Out().projected, target)
    ensures !Accepts(s.cx, s.m, PlanOf(s.Proposed()))
  {
    WriteRules(s);
  }

  /** Archiving renames the file after the title, so the memory's own path link dangles and the plan is refused. */
  lemma SelfLinkRefused(s: Situation)
    requires s == SelfLinked()
    ensures s.Valid() && s.Proposed().archived == s.corpus
    ensures forall t | t in s.corpus[0].doc.body.links :: Resolves(s.m, t)
    ensures !Accepts(s.cx, s.m, PlanOf(s.Proposed()))
  {
    SelfLinkedIsValid(s);
    SelfLinkedOutcome(s);
    UnresolvedRefused(s, s.corpus[0], "people/jane");
  }
}
