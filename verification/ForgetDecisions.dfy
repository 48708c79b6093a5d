/** What one weekly pass takes and what it leaves, told from the memories themselves (siatt/runner/forget.py). */
module ForgetDecisions {
  import opened Document
  import opened Forget
  import opened ForgetPlans
  import opened Layout
  import opened Manifests
  import opened Patch
  import opened Wrappers

  /** Made and last changed at least the floor ago. */
  predicate PastFloor(policy: Policy, now: int, doc: Doc) {
    now - doc.created >= policy.retentionFloor && now - doc.updated >= policy.retentionFloor
  }

  /** Outside the archive, below the threshold, and nothing speaks for it. */
  predicate FitToArchive(settings: Settings, policy: Policy, now: int, linked: set<Id>, at: Loaded) {
    && !IsArchived(at.path) && at.doc.salience < settings.archiveBelow
    && !at.doc.pinned && PastFloor(policy, now, at.doc) && at.doc.id !in linked
  }

  /** In the archive, past the grace period, and nothing speaks for it. */
  predicate FitToCollect(settings: Settings, policy: Policy, now: int, linked: set<Id>, at: Loaded) {
    && IsArchived(at.path) && now - at.doc.updated >= settings.archiveGrace
    && !at.doc.pinned && PastFloor(policy, now, at.doc) && at.doc.id !in linked
  }

  /** What a budget takes from a corpus: only what is fit, and all that is fit unless the budget is spent. */
  ghost predicate TakesAll(corpus: Corpus, fit: Loaded -> bool, taken: Corpus, budget: int) {
    && multiset(taken) <= multiset(corpus)
    && (forall at | at in taken :: at in corpus && fit(at))
    && (|taken| <= budget || taken == [])
    && (|taken| < budget ==> forall at | at in corpus && fit(at) :: at in taken)
    && (forall at, kept | at in taken && kept in corpus && fit(kept) && kept !in taken ::
          at.doc.salience <= kept.doc.salience)
    && Sorted(taken)
  }

  lemma TakesFrom(stage: Stage, settings: Settings, policy: Policy, now: int, linked: set<Id>, corpus: Corpus,
                  fit: Loaded -> bool, budget: int)
    requires forall at | at in corpus :: fit(at) <==> Due(stage, settings, policy, now, linked, at)
    ensures var due := AllDue(stage, settings, policy, now, linked, corpus);
            TakesAll(corpus, fit, Take(ColdestFirst(due), budget), budget)
  {
    hide Due, AllDue, ColdestFirst, Take, Sorted;
    var due := AllDue(stage, settings, policy, now, linked, corpus);
    var s := ColdestFirst(due);
    AllDueIsFilter(stage, settings, policy, now, linked, corpus);
    ColdestFirstPermutes(due);
    forall at ensures at in s <==> at in corpus && fit(at) {
      assert at in s <==> at in multiset(s);
      assert at in due <==> at in multiset(due);
      assert at in corpus <==> at in multiset(corpus);
    }
    PrefixTakesAll(corpus, fit, s, budget);
  }

  lemma PrefixTakesAll(corpus: Corpus, fit: Loaded -> bool, s: Corpus, budget: int)
    requires Sorted(s) && multiset(s) <= multiset(corpus)
    requires forall at :: at in s <==> at in corpus && fit(at)
    ensures TakesAll(corpus, fit, Take(s, budget), budget)
  {
    hide IsArchived;
    var taken := Take(s, budget);
    TakeIsPrefix(s, budget);
    SortedPrefix(s, taken);
    hide Sorted, Take;
    forall at, kept | at in taken && kept in corpus && fit(kept) && kept !in taken
      ensures at.doc.salience <= kept.doc.salience
    {
      assert kept in s;
      PrefixIsColder(s, taken, at, kept);
    }
    BudgetSpent(s, budget);
  }

  lemma SortedPrefix(s: Corpus, taken: Corpus)
    requires Sorted(s) && taken <= s
    ensures Sorted(taken)
  {}

  lemma PrefixIsColder(s: Corpus, taken: Corpus, at: Loaded, kept: Loaded)
    requires Sorted(s) && taken <= s && at in taken && kept in s && kept !in taken
    ensures at.doc.salience <= kept.doc.salience
  {
    var i :| 0 <= i < |s| && s[i] == kept;
    var j :| 0 <= j < |taken| && s[j] == at;
  }

  lemma BudgetSpent(s: Corpus, budget: int)
    ensures |Take(s, budget)| <= budget || Take(s, budget) == []
    ensures |Take(s, budget)| < budget ==> Take(s, budget) == s
  {}

  /**
   * The archived half is exactly what is fit to archive, coldest first, as far as the budget goes; the collected half
   * what is fit to collect, as far as what is left of the budget goes.
   */
  lemma DecidesExactly(settings: Settings, policy: Policy, now: int, linked: set<Id>, corpus: Corpus)
    ensures var p := Propose(settings, policy, now, linked, corpus);
            && TakesAll(corpus, at => FitToArchive(settings, policy, now, linked, at), p.archived, settings.maxPerRun)
            && TakesAll(corpus, at => FitToCollect(settings, policy, now, linked, at), p.collected,
                        settings.maxPerRun - |p.archived|)
            && |p.archived| + |p.collected| <= settings.maxPerRun
  {
    hide TakesAll, Take, ColdestFirst, AllDue;
    forall at | at in corpus
      ensures FitToArchive(settings, policy, now, linked, at) <==> Due(Archiving, settings, policy, now, linked, at)
      ensures FitToCollect(settings, policy, now, linked, at) <==> Due(Collecting, settings, policy, now, linked, at)
    {}
    var p := Propose(settings, policy, now, linked, corpus);
    TakesFrom(Archiving, settings, policy, now, linked, corpus,
              at => FitToArchive(settings, policy, now, linked, at), settings.maxPerRun);
    TakesFrom(Collecting, settings, policy, now, linked, corpus,
              at => FitToCollect(settings, policy, now, linked, at), settings.maxPerRun - |p.archived|);
    WithinBudget(corpus, at => FitToArchive(settings, policy, now, linked, at), p.archived, settings.maxPerRun);
    WithinBudget(corpus, at => FitToCollect(settings, policy, now, linked, at), p.collected,
                 settings.maxPerRun - |p.archived|);
  }

  lemma WithinBudget(corpus: Corpus, fit: Loaded -> bool, taken: Corpus, budget: int)
    requires TakesAll(corpus, fit, taken, budget)
    ensures |taken| <= budget || taken == []
  {}

  // ----- equally cold memories keep their order

  function Of(s: Corpus, salience: real): Corpus {
    if s == [] then []
    else Of(s[..|s| - 1], salience) + (if s[|s| - 1].doc.salience == salience then [s[|s| - 1]] else [])
  }

  lemma OfSnoc(s: Corpus, at: Loaded, salience: real)
    ensures Of(s + [at], salience) == Of(s, salience) + if at.doc.salience == salience then [at] else []
  {
    assert (s + [at])[..|s|] == s;
  }

  lemma {:induction false} InsertIsStable(sorted: Corpus, at: Loaded, salience: real)
    requires Sorted(sorted)
    ensures Of(Insert(sorted, at), salience) == Of(sorted, salience) + if at.doc.salience == salience then [at] else []
  {
    hide Of;
    if sorted != [] && at.doc.salience < sorted[|sorted| - 1].doc.salience {
      var init, last := sorted[..|sorted| - 1], sorted[|sorted| - 1];
      InsertIsStable(init, at, salience);
      OfSnoc(Insert(init, at), last, salience);
      OfSnoc(init, last, salience);
      assert sorted == init + [last];
    } else {
      OfSnoc(sorted, at, salience);
    }
  }

  /** Sorting by salience leaves equally cold memories in the order of their paths. */
  lemma {:induction false} ColdestFirstIsStable(due: Corpus, salience: real)
    ensures Of(ColdestFirst(due), salience) == Of(due, salience)
  {
    hide Insert, Sorted;
    if due != [] {
      var init, last := due[..|due| - 1], due[|due| - 1];
      ColdestFirstIsStable(init, salience);
      ColdestFirstPermutes(init);
      InsertIsStable(ColdestFirst(init), last, salience);
    }
  }

  // ----- what is held back, and why

  function Count(corpus: Corpus, p: Loaded -> bool): nat {
    if corpus == [] then 0
    else Count(corpus[..|corpus| - 1], p) + if p(corpus[|corpus| - 1]) then 1 else 0
  }

  /** Far enough gone for the stage. */
  predicate FarGone(stage: Stage, settings: Settings, now: int, at: Loaded) {
    if stage == Archiving then !IsArchived(at.path) && at.doc.salience < settings.archiveBelow
    else IsArchived(at.path) && now - at.doc.updated >= settings.archiveGrace
  }

  /**
   * Each memory that is far enough gone and yet kept is counted once, under the first of: pinned, young, linked.
   */
  lemma {:induction false} HeldBackCounts(stage: Stage, settings: Settings, policy: Policy, now: int,
                                          linked: set<Id>, corpus: Corpus)
    ensures HeldBack(stage, settings, policy, now, linked, corpus, Pinned)
         == Count(corpus, at => FarGone(stage, settings, now, at) && at.doc.pinned)
    ensures HeldBack(stage, settings, policy, now, linked, corpus, Young)
         == Count(corpus, at => FarGone(stage, settings, now, at) && !at.doc.pinned && !PastFloor(policy, now, at.doc))
    ensures HeldBack(stage, settings, policy, now, linked, corpus, LinkedFromLive)
         == Count(corpus, at => && FarGone(stage, settings, now, at) && !at.doc.pinned && PastFloor(policy, now, at.doc)
                                && at.doc.id in linked)
    ensures |AllDue(stage, settings, policy, now, linked, corpus)|
         == Count(corpus, at => && FarGone(stage, settings, now, at) && !at.doc.pinned && PastFloor(policy, now, at.doc)
                                && at.doc.id !in linked)
  {
    if corpus != [] {
      HeldBackCounts(stage, settings, policy, now, linked, corpus[..|corpus| - 1]);
    }
  }
}
