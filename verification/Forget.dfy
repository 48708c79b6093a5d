/** Bounded, conservative forgetting: what one weekly pass proposes (siatt/runner/forget.py). */
module Forget {
  import opened Document
  import opened Layout
  import opened Manifests
  import opened Patch
  import opened Wrappers

  const JOB: Job := "forget"

  datatype Settings = Settings(archiveBelow: real, archiveGrace: int, maxPerRun: nat)

  datatype Protection = Pinned | Young | LinkedFromLive | OverBudget

  /** One memory the run read, and the path it read it from. */
  type Corpus = seq<Loaded>

  /** `_read`: the manifest's memories that have a readable file, in the order of their paths. */
  function Read(tree: Tree, m: Ids, order: seq<Id>): Corpus {
    if order == [] then []
    else
      var rest := Read(tree, m, order[..|order| - 1]);
      var id := order[|order| - 1];
      if id in m && m[id].path in tree && tree[m[id].path].Memory?
      then rest + [Loaded(m[id].path, tree[m[id].path].doc)] else rest
  }

  // ----- links out of live memories

  /** `id` is what a link of a live memory other than itself names or resolves to. */
  ghost predicate PointedAt(corpus: Corpus, m: Ids, id: Id) {
    exists at :: at in corpus && !IsArchived(at.path) && at.doc.id != id && PointedFrom(at.doc, m, id)
  }

  ghost predicate PointedFrom(doc: Doc, m: Ids, id: Id) {
    exists t :: t in doc.body.links && Points(m, t, id)
  }

  ghost predicate Points(m: Ids, target: string, id: Id) {
    (target == id && id in m) || ResolvesVia(m, target, id)
  }

  /** `id_at(resolve(target).path)` may be `id`. */
  ghost predicate ResolvesVia(m: Ids, target: string, id: Id) {
    exists k :: Answers(m, target, k) && IsIdAt(m, m[k].path, id)
  }

  /** The id a link names is protected, and so is the id at the path it resolves to, unless it is the linking memory. */
  ghost predicate LinkProtects(m: Ids, from: Doc, target: string, linked: set<Id>) {
    && (target in m && target != from.id ==> target in linked)
    && (Resolves(m, target) ==>
          exists id :: ResolvesVia(m, target, id) && (id in linked || id == from.id))
  }

  ghost predicate Protects(corpus: Corpus, m: Ids, linked: set<Id>) {
    forall at, t | at in corpus && !IsArchived(at.path) && t in at.doc.body.links :: LinkProtects(m, at.doc, t, linked)
  }

  /** What one link of a memory protects. */
  method Found(target: string, manifest: Manifest) returns (found: set<Id>)
    ensures target in manifest.memories ==> target in found
    ensures Resolves(manifest.memories, target) ==>
              exists id :: ResolvesVia(manifest.memories, target, id) && id in found
    ensures forall id | id in found :: Points(manifest.memories, target, id)
  {
    var m := manifest.memories;
    found := if target in m then {target} else {};
    var entry := Resolve(m, target);
    if entry.Some? {
      var resolved := manifest.IdAt(m[entry.value].path);
      assert IsIdAt(m, m[entry.value].path, entry.value);
      found := found + {resolved.value};
      assert ResolvesVia(m, target, resolved.value);
    }
  }

  method LinkedFrom(doc: Doc, manifest: Manifest, linked: set<Id>) returns (grown: set<Id>)
    ensures linked <= grown
    ensures forall t | t in doc.body.links :: LinkProtects(manifest.memories, doc, t, grown)
    ensures forall id | id in grown && id !in linked :: id != doc.id && PointedFrom(doc, manifest.memories, id)
  {
    grown := linked;
    for j := 0 to |doc.body.links|
      invariant linked <= grown
      invariant forall k | 0 <= k < j :: LinkProtects(manifest.memories, doc, doc.body.links[k], grown)
      invariant forall id | id in grown && id !in linked :: id != doc.id && PointedFrom(doc, manifest.memories, id)
    {
      var target := doc.body.links[j];
      var found := Found(target, manifest);
      forall k | 0 <= k < j
        ensures LinkProtects(manifest.memories, doc, doc.body.links[k], grown + (found - {doc.id}))
      {
        LinkProtectsMore(manifest.memories, doc, doc.body.links[k], grown, grown + (found - {doc.id}));
      }
      grown := grown + (found - {doc.id});
      if Resolves(manifest.memories, target) {
        ghost var m := manifest.memories;
        ghost var id :| ResolvesVia(m, target, id) && id in found;
        assert id in grown || id == doc.id;
      }
      assert LinkProtects(manifest.memories, doc, target, grown);
    }
  }

  lemma LinkProtectsMore(m: Ids, from: Doc, target: string, linked: set<Id>, more: set<Id>)
    requires linked <= more && LinkProtects(m, from, target, linked)
    ensures LinkProtects(m, from, target, more)
  {
    if Resolves(m, target) {
      var id :| ResolvesVia(m, target, id) && (id in linked || id == from.id);
    }
  }

  /** `_linked_from_live` */
  method LinkedFromLiveIds(corpus: Corpus, manifest: Manifest) returns (linked: set<Id>)
    ensures Protects(corpus, manifest.memories, linked)
    ensures forall id | id in linked :: PointedAt(corpus, manifest.memories, id)
  {
    linked := {};
    for i := 0 to |corpus|
      invariant Protects(corpus[..i], manifest.memories, linked)
      invariant forall id | id in linked :: PointedAt(corpus, manifest.memories, id)
    {
      var at := corpus[i];
      assert corpus[..i + 1] == corpus[..i] + [at];
      if !IsArchived(at.path) {
        ghost var before := linked;
        linked := LinkedFrom(at.doc, manifest, linked);
        assert at in corpus;
        forall b, t | b in corpus[..i] && !IsArchived(b.path) && t in b.doc.body.links
          ensures LinkProtects(manifest.memories, b.doc, t, linked)
        {
          LinkProtectsMore(manifest.memories, b.doc, t, before, linked);
        }
      }
    }
    assert corpus[..|corpus|] == corpus;
  }

  // ----- the two transitions

  /** Why `_protected` leaves a memory alone, first rule first. */
  function WhyProtected(policy: Policy, now: int, linked: set<Id>, doc: Doc): Option<Protection> {
    var youngest := if doc.created > doc.updated then doc.created else doc.updated;
    if doc.pinned then Some(Pinned)
    else if now - youngest < policy.retentionFloor then Some(Young)
    else if doc.id in linked then Some(LinkedFromLive)
    else None
  }

  datatype Stage = Archiving | Collecting

  /** Whether a memory is far enough gone for the stage, before any protection. */
  predicate Eligible(stage: Stage, settings: Settings, now: int, at: Loaded) {
    match stage
    case Archiving => !IsArchived(at.path) && at.doc.salience < settings.archiveBelow
    case Collecting => IsArchived(at.path) && now - at.doc.updated >= settings.archiveGrace
  }

  predicate Due(stage: Stage, settings: Settings, policy: Policy, now: int, linked: set<Id>, at: Loaded) {
    Eligible(stage, settings, now, at) && WhyProtected(policy, now, linked, at.doc).None?
  }

  function AllDue(stage: Stage, settings: Settings, policy: Policy, now: int, linked: set<Id>, corpus: Corpus): Corpus {
    if corpus == [] then []
    else
      var rest := AllDue(stage, settings, policy, now, linked, corpus[..|corpus| - 1]);
      var last := corpus[|corpus| - 1];
      if Due(stage, settings, policy, now, linked, last) then rest + [last] else rest
  }

  /** How many eligible memories each reason held back. */
  function HeldBack(stage: Stage, settings: Settings, policy: Policy, now: int, linked: set<Id>, corpus: Corpus,
                    why: Protection): nat {
    if corpus == [] then 0
    else
      var last := corpus[|corpus| - 1];
      HeldBack(stage, settings, policy, now, linked, corpus[..|corpus| - 1], why) +
      if Eligible(stage, settings, now, last) && WhyProtected(policy, now, linked, last.doc) == Some(why) then 1 else 0
  }

  /** Coldest first; equally cold memories keep their order. */
  function Insert(sorted: Corpus, at: Loaded): Corpus {
    if sorted != [] && at.doc.salience < sorted[|sorted| - 1].doc.salience
    then Insert(sorted[..|sorted| - 1], at) + [sorted[|sorted| - 1]]
    else sorted + [at]
  }

  function ColdestFirst(due: Corpus): Corpus {
    if due == [] then [] else Insert(ColdestFirst(due[..|due| - 1]), due[|due| - 1])
  }

  function Take(due: Corpus, count: int): Corpus {
    if count <= 0 then [] else if count < |due| then due[..count] else due
  }

  datatype Proposal = Proposal(archived: Corpus, collected: Corpus)

  /** Archives first, on a shared budget. */
  function Propose(settings: Settings, policy: Policy, now: int, linked: set<Id>, corpus: Corpus): Proposal {
    var archive := ColdestFirst(AllDue(Archiving, settings, policy, now, linked, corpus));
    var collect := ColdestFirst(AllDue(Collecting, settings, policy, now, linked, corpus));
    var archived := Take(archive, settings.maxPerRun);
    Proposal(archived, Take(collect, settings.maxPerRun - |archived|))
  }

  function ArchivesOf(archived: Corpus): Plan {
    seq(|archived|, i requires 0 <= i < |archived| => Archive(archived[i].doc.id))
  }

  function DeletesOf(collected: Corpus): Plan {
    seq(|collected|, i requires 0 <= i < |collected| => Delete(collected[i].doc.id))
  }

  function PlanOf(p: Proposal): Plan {
    ArchivesOf(p.archived) + DeletesOf(p.collected)
  }

  // ----- the run

  class Collector {
    const settings: Settings
    const policy: Policy
    const now: int
    var archived: Corpus
    var collected: Corpus
    var held: map<Protection, nat>

    constructor (settings: Settings, policy: Policy, now: int)
      ensures this.settings == settings && this.policy == policy && this.now == now
      ensures archived == [] && collected == [] && held == map[]
    {
      this.settings, this.policy, this.now := settings, policy, now;
      archived, collected, held := [], [], map[];
    }

    function Held(why: Protection): nat
      reads this
    {
      if why in held then held[why] else 0
    }

    method Protect(why: Protection, count: nat)
      modifies this`held
      ensures Held(why) == old(Held(why)) + count
      ensures forall other | other != why :: Held(other) == old(Held(other))
    {
      held := held[why := Held(why) + count];
    }

    method DueFor(stage: Stage, corpus: Corpus, linked: set<Id>) returns (due: Corpus)
      modifies this`held
      ensures due == ColdestFirst(AllDue(stage, settings, policy, now, linked, corpus))
      ensures forall why :: Held(why) == old(Held(why)) + HeldBack(stage, settings, policy, now, linked, corpus, why)
    {
      due := [];
      for i := 0 to |corpus|
        invariant due == AllDue(stage, settings, policy, now, linked, corpus[..i])
        invariant forall why ::
          Held(why) == old(Held(why)) + HeldBack(stage, settings, policy, now, linked, corpus[..i], why)
      {
        assert corpus[..i + 1][..i] == corpus[..i];
        if Eligible(stage, settings, now, corpus[i]) {
          var why := WhyProtected(policy, now, linked, corpus[i].doc);
          if why.Some? {
            Protect(why.value, 1);
          } else {
            due := due + [corpus[i]];
          }
        }
      }
      assert corpus[..|corpus|] == corpus;
      due := ColdestFirst(due);
    }

    /** The deciding half of `run`: what this week's plan is, and what it leaves alone. */
    method Decide(corpus: Corpus, manifest: Manifest) returns (plan: Plan, ghost linked: set<Id>)
      requires held == map[]
      modifies this
      ensures Protects(corpus, manifest.memories, linked)
      ensures forall id | id in linked :: PointedAt(corpus, manifest.memories, id)
      ensures Proposal(archived, collected) == Propose(settings, policy, now, linked, corpus)
      ensures plan == PlanOf(Proposal(archived, collected))
      ensures |archived| + |collected| + Held(OverBudget)
           == |AllDue(Archiving, settings, policy, now, linked, corpus)|
              + |AllDue(Collecting, settings, policy, now, linked, corpus)|
    {
      var pointed := LinkedFromLiveIds(corpus, manifest);
      linked := pointed;
      var archive := DueFor(Archiving, corpus, pointed);
      var collect := DueFor(Collecting, corpus, pointed);
      ghost var before := Held(OverBudget);
      assert before == 0 by {
        HeldBackBudget(Archiving, settings, policy, now, pointed, corpus);
        HeldBackBudget(Collecting, settings, policy, now, pointed, corpus);
      }
      assert |archive| == |AllDue(Archiving, settings, policy, now, linked, corpus)| by {
        ColdestFirstPermutes(AllDue(Archiving, settings, policy, now, linked, corpus));
      }
      assert |collect| == |AllDue(Collecting, settings, policy, now, linked, corpus)| by {
        ColdestFirstPermutes(AllDue(Collecting, settings, policy, now, linked, corpus));
      }
      archived := Take(archive, settings.maxPerRun);
      collected := Take(collect, settings.maxPerRun - |archived|);
      var dropped := |archive| - |archived| + (|collect| - |collected|);
      if dropped > 0 {
        Protect(OverBudget, dropped);
      }
      plan := PlanOf(Proposal(archived, collected));
    }
  }

  lemma {:induction false} HeldBackBudget(stage: Stage, settings: Settings, policy: Policy, now: int,
                                          linked: set<Id>, corpus: Corpus)
    ensures HeldBack(stage, settings, policy, now, linked, corpus, OverBudget) == 0
  {
    if corpus != [] {
      HeldBackBudget(stage, settings, policy, now, linked, corpus[..|corpus| - 1]);
    }
  }

  // ----- the order

  ghost predicate Sorted(s: Corpus) {
    forall i, j | 0 <= i < j < |s| :: s[i].doc.salience <= s[j].doc.salience
  }

  lemma {:induction false} InsertPermutes(sorted: Corpus, at: Loaded)
    ensures multiset(Insert(sorted, at)) == multiset(sorted) + multiset{at}
  {
    if sorted != [] && at.doc.salience < sorted[|sorted| - 1].doc.salience {
      var init, last := sorted[..|sorted| - 1], sorted[|sorted| - 1];
      InsertPermutes(init, at);
      assert sorted == init + [last];
    }
  }

  lemma {:induction false} InsertSorts(sorted: Corpus, at: Loaded)
    requires Sorted(sorted)
    ensures Sorted(Insert(sorted, at))
  {
    if sorted != [] && at.doc.salience < sorted[|sorted| - 1].doc.salience {
      var init, last := sorted[..|sorted| - 1], sorted[|sorted| - 1];
      var r := Insert(init, at);
      InsertSorts(init, at);
      InsertPermutes(init, at);
      forall i | 0 <= i < |r| ensures r[i].doc.salience <= last.doc.salience {
        assert r[i] in multiset(r);
        assert r[i] == at || r[i] in init;
      }
    }
  }

  lemma NothingIsSorted()
    ensures Sorted([])
  {}

  lemma {:induction false} ColdestFirstPermutes(due: Corpus)
    ensures multiset(ColdestFirst(due)) == multiset(due)
    ensures |ColdestFirst(due)| == |due|
    ensures Sorted(ColdestFirst(due))
  {
    hide Insert;
    hide Sorted;
    if due == [] {
      NothingIsSorted();
    } else {
      ColdestFirstPermutes(due[..|due| - 1]);
      InsertPermutes(ColdestFirst(due[..|due| - 1]), due[|due| - 1]);
      InsertSorts(ColdestFirst(due[..|due| - 1]), due[|due| - 1]);
      assert due == due[..|due| - 1] + [due[|due| - 1]];
    }
    assert |multiset(ColdestFirst(due))| == |multiset(due)|;
  }
}
