/** What the router keeps: one turn of a session at a time, in order, each answered once. */
module SessionLaws {
  import opened Wrappers
  import opened Sessions

  /** A live mailbox: events of this session in posting order, then perhaps the request to stop. */
  ghost predicate Orderly(s: State, a: Actor) {
    && (forall k | 0 <= k < |a.mailbox| && a.mailbox[k].None? :: k == |a.mailbox| - 1 && a.closing)
    && (a.closing && !a.ended ==> a.mailbox != [] && a.mailbox[|a.mailbox| - 1].None?)
    && (forall k | 0 <= k < |a.mailbox| && a.mailbox[k].Some? ::
          a.mailbox[k].value < |s.sessionOf| && s.sessionOf[a.mailbox[k].value] == a.session)
    && (forall k, l | 0 <= k < l < |a.mailbox| && a.mailbox[k].Some? && a.mailbox[l].Some? ::
          a.mailbox[k].value < a.mailbox[l].value)
    && (a.running.Some? ==> a.running.value in s.started && a.running.value < |s.sessionOf|
                            && s.sessionOf[a.running.value] == a.session && !a.ended)
    && (a.ended && !a.killed ==> a.mailbox == [] && a.closing)
  }

  /** Whatever a live actor still has to run was posted after everything its session has started. */
  ghost predicate AheadOfStarted(s: State, a: Actor) {
    !a.ended ==>
      forall k, p | 0 <= k < |a.mailbox| && a.mailbox[k].Some? && Live(a.mailbox[k].value, s.fates)
                    && 0 <= p < |s.started| && s.started[p] < |s.sessionOf|
                    && s.sessionOf[s.started[p]] == a.session ::
        s.started[p] < a.mailbox[k].value
  }

  ghost predicate OwnersValid(s: State) {
    forall x | x in s.owner ::
      s.owner[x] < |s.actors| && s.actors[s.owner[x]].session == x && !s.actors[s.owner[x]].closing
  }

  /** At most one actor of a session has work, and while the router is open it is the one that
      the session's next event will go to. */
  ghost predicate OneWorks(s: State) {
    && (forall i, j | 0 <= i < j < |s.actors| && s.actors[i].session == s.actors[j].session ::
          NothingToRun(s.actors[i], s.fates) || NothingToRun(s.actors[j], s.fates))
    && (!s.closed ==> forall i | 0 <= i < |s.actors| && !NothingToRun(s.actors[i], s.fates) ::
          s.actors[i].session in s.owner && s.owner[s.actors[i].session] == i)
  }

  ghost predicate Inv(s: State) {
    && |s.sessionOf| == |s.fates|
    && OwnersValid(s) && OneWorks(s) && InOrder(s) && NothingDropped(s)
    && forall i | 0 <= i < |s.actors| :: Orderly(s, s.actors[i]) && AheadOfStarted(s, s.actors[i])
  }

  // --- each step keeps the invariant ---

  /** An actor the step did not touch, of a session that starts nothing new, stays as it was. */
  lemma Untouched(s: State, t: State, a: Actor)
    requires Orderly(s, a) && AheadOfStarted(s, a) && InOrder(s) && KeepsCancelled(s, t)
    requires s.sessionOf <= t.sessionOf && s.started <= t.started
    requires forall p | |s.started| <= p < |t.started| ::
      t.started[p] < |s.sessionOf| && (s.sessionOf[t.started[p]] != a.session || NothingToRun(a, s.fates))
    ensures Orderly(t, a) && AheadOfStarted(t, a)
    ensures NothingToRun(a, s.fates) ==> NothingToRun(a, t.fates)
  {}

  /** What is cancelled stays cancelled. */
  ghost predicate KeepsCancelled(s: State, t: State) {
    |s.fates| <= |t.fates| && forall e | 0 <= e < |s.fates| && s.fates[e] == Cancelled :: t.fates[e] == Cancelled
  }

  lemma ActorForKeeps(s: State, session: string)
    requires Inv(s) && !s.closed
    ensures Inv(ActorFor(s, session))
  {
    hide Orderly;
    hide AheadOfStarted;
    hide InOrder;
    var t := ActorFor(s, session);
    if session !in s.owner {
      var n := |s.actors|;
      FreshActor(s, t, session);
      forall i | 0 <= i < n ensures Orderly(t, t.actors[i]) && AheadOfStarted(t, t.actors[i]) {
        Untouched(s, t, s.actors[i]);
      }
      forall e | 0 <= e < |t.fates| && t.fates[e] == Pending ensures exists i :: Holds(t, i, e) {
        var i :| Holds(s, i, e);
        assert Holds(t, i, e);
      }
      assert InOrder(t) by { SameOrder(s, t); }
    }
  }

  lemma FreshActor(s: State, t: State, session: string)
    ensures Orderly(t, NewActor(session)) && AheadOfStarted(t, NewActor(session))
         && NothingToRun(NewActor(session), t.fates)
  {}

  lemma SameOrder(s: State, t: State)
    requires InOrder(s) && t.started == s.started && s.sessionOf <= t.sessionOf
    ensures InOrder(t)
  {}

  /** A step that replaces one actor, and at most settles futures. */
  lemma ReplaceKeeps(s: State, t: State, i: nat)
    requires Inv(s) && i < |s.actors| == |t.actors| && t.actors == s.actors[i := t.actors[i]]
    requires t.sessionOf == s.sessionOf && t.started == s.started && t.closed == s.closed && |t.fates| == |s.fates|
    requires KeepsCancelled(s, t)
    requires t.actors[i].session == s.actors[i].session && OwnersValid(t)
    requires NothingToRun(s.actors[i], s.fates) ==> NothingToRun(t.actors[i], t.fates)
    requires || t.owner == s.owner
             || (&& s.actors[i].session in s.owner && s.owner[s.actors[i].session] == i
                 && NothingToRun(t.actors[i], t.fates)
                 && t.owner == s.owner - {s.actors[i].session})
    requires Orderly(t, t.actors[i]) && AheadOfStarted(t, t.actors[i]) && NothingDropped(t)
    ensures Inv(t)
  {
    hide Orderly;
    hide AheadOfStarted;
    hide NothingToRun;
    hide NothingDropped;
    SameOrder(s, t);
    hide InOrder;
    forall j | 0 <= j < |t.actors|
      ensures Orderly(t, t.actors[j]) && AheadOfStarted(t, t.actors[j])
      ensures NothingToRun(s.actors[j], s.fates) ==> NothingToRun(t.actors[j], t.fates)
    {
      if j != i { Untouched(s, t, s.actors[j]); }
    }
    forall j, k | 0 <= j < k < |t.actors| && t.actors[j].session == t.actors[k].session
      ensures NothingToRun(t.actors[j], t.fates) || NothingToRun(t.actors[k], t.fates)
    {
      assert NothingToRun(s.actors[j], s.fates) || NothingToRun(s.actors[k], s.fates);
    }
  }

  /** Whoever held an event still holds it, when only actor `i` changed. */
  lemma StillHeld(s: State, t: State, i: nat)
    requires NothingDropped(s) && i < |s.actors| == |t.actors| && t.actors == s.actors[i := t.actors[i]]
    requires |t.fates| == |s.fates|
    requires forall e | 0 <= e < |s.fates| && t.fates[e] == Pending ::
      s.fates[e] == Pending && (Holds(s, i, e) ==> Holds(t, i, e))
    ensures NothingDropped(t)
  {
    forall e | 0 <= e < |t.fates| && t.fates[e] == Pending ensures exists j :: Holds(t, j, e) {
      var j :| Holds(s, j, e);
      assert Holds(t, j, e);
    }
  }

  lemma FinishedActor(s: State, t: State, i: nat, ok: bool, limit: nat)
    requires Inv(s) && Enabled(s, Finish(i, ok)) && t == Apply(s, Finish(i, ok), limit)
    ensures Orderly(t, t.actors[i]) && AheadOfStarted(t, t.actors[i]) && KeepsCancelled(s, t)
    ensures NothingToRun(s.actors[i], s.fates) ==> NothingToRun(t.actors[i], t.fates)
  {
    hide NothingDropped, OneWorks, InOrder;
  }

  lemma FinishKeeps(s: State, i: nat, ok: bool, limit: nat)
    requires Inv(s) && Enabled(s, Finish(i, ok))
    ensures Inv(Apply(s, Finish(i, ok), limit))
  {
    var t := Apply(s, Finish(i, ok), limit);
    FinishedActor(s, t, i, ok, limit);
    hide Orderly, AheadOfStarted, InOrder, OneWorks, NothingToRun;
    StillHeld(s, t, i);
    ReplaceKeeps(s, t, i);
  }

  lemma KillKeeps(s: State, i: nat, limit: nat)
    requires Inv(s) && Enabled(s, Kill(i))
    ensures Inv(Apply(s, Kill(i), limit))
  {
    var t := Apply(s, Kill(i), limit);
    StillHeld(s, t, i);
    ReplaceKeeps(s, t, i);
  }

  lemma CancelKeeps(s: State, e: nat, limit: nat)
    requires Inv(s) && Enabled(s, CancelCaller(e))
    ensures Inv(Apply(s, CancelCaller(e), limit))
  {
    hide Orderly;
    hide AheadOfStarted;
    hide InOrder;
    var t := Apply(s, CancelCaller(e), limit);
    SameOrder(s, t);
    forall i | 0 <= i < |t.actors| ensures Orderly(t, t.actors[i]) && AheadOfStarted(t, t.actors[i]) {
      Untouched(s, t, s.actors[i]);
    }
    forall d | 0 <= d < |t.fates| && t.fates[d] == Pending ensures exists i :: Holds(t, i, d) {
      var i :| Holds(s, i, d);
      assert Holds(t, i, d);
    }
  }

  /** Dropping an actor with nothing left to run is safe. */
  lemma PoppedKeeps(s: State, session: string, rest: seq<string>)
    requires Inv(s)
    requires session in s.owner ==> NothingToRun(s.actors[s.owner[session]], s.fates)
    ensures Inv(Popped(s, session, rest))
  {
    var t := Popped(s, session, rest);
    if session in s.owner {
      var i := s.owner[session];
      assert forall k | 0 <= k < |s.actors[i].mailbox| :: t.actors[i].mailbox[k] == s.actors[i].mailbox[k];
      StillHeld(s, t, i);
      ReplaceKeeps(s, t, i);
    } else {
      SameState(s, t);
    }
  }

  /** Nothing but the sweep's own bookkeeping, or the router closing, changed. */
  lemma SameState(s: State, t: State)
    requires Inv(s) && t == s.(stale := t.stale, awaiting := t.awaiting, closed := t.closed) && (s.closed ==> t.closed)
    ensures Inv(t)
  {
    hide Orderly;
    hide AheadOfStarted;
    hide InOrder;
    SameOrder(s, t);
    forall i | 0 <= i < |t.actors| ensures Orderly(t, t.actors[i]) && AheadOfStarted(t, t.actors[i]) {
      Untouched(s, t, s.actors[i]);
    }
    forall d | 0 <= d < |t.fates| && t.fates[d] == Pending ensures exists i :: Holds(t, i, d) {
      var i :| Holds(s, i, d);
      assert Holds(t, i, d);
    }
  }

  /** What `Get` does to its actor: the stop request or a cancelled event leaves the mailbox. */
  ghost predicate Drops(s: State, t: State, i: nat) {
    && i < |s.actors| && s.actors[i].mailbox != [] && s.actors[i].running.None? && !s.actors[i].ended
    && (s.actors[i].mailbox[0].Some? ==> !Live(s.actors[i].mailbox[0].value, s.fates))
    && t == s.(actors := s.actors[i := Rest(s.actors[i]).(ended := s.actors[i].mailbox[0].None?)])
  }

  /** Or the event at the head starts its turn. */
  ghost predicate Starts(s: State, t: State, i: nat) {
    && i < |s.actors| && s.actors[i].mailbox != [] && s.actors[i].running.None? && !s.actors[i].ended
    && s.actors[i].mailbox[0].Some? && Live(s.actors[i].mailbox[0].value, s.fates)
    && t == s.(actors := s.actors[i := Rest(s.actors[i]).(running := s.actors[i].mailbox[0])],
               started := s.started + [s.actors[i].mailbox[0].value])
  }

  function Rest(a: Actor): Actor
    requires a.mailbox != []
  {
    a.(mailbox := a.mailbox[1..])
  }

  lemma GetDropsOrStarts(s: State, i: nat, limit: nat)
    requires Enabled(s, Get(i))
    ensures Drops(s, Apply(s, Get(i), limit), i) || Starts(s, Apply(s, Get(i), limit), i)
  {}

  lemma GetKeeps(s: State, i: nat, limit: nat)
    requires Inv(s) && Enabled(s, Get(i))
    ensures Inv(Apply(s, Get(i), limit))
  {
    hide Inv;
    hide Drops;
    hide Starts;
    var t := Apply(s, Get(i), limit);
    GetDropsOrStarts(s, i, limit);
    if Starts(s, t, i) {
      StartKeeps(s, t, i);
    } else {
      DropKeeps(s, t, i);
    }
  }

  lemma DropKeeps(s: State, t: State, i: nat)
    requires Inv(s) && Drops(s, t, i)
    ensures Inv(t)
  {
    DropHeld(s, t, i);
    DropOrderly(s, t, i);
    hide Orderly;
    hide AheadOfStarted;
    hide NothingDropped;
    hide NothingToRun;
    ReplaceKeeps(s, t, i);
  }

  lemma DropHeld(s: State, t: State, i: nat)
    requires Inv(s) && Drops(s, t, i)
    ensures NothingDropped(t)
  {
    hide AheadOfStarted;
    hide InOrder;
    var a := s.actors[i];
    assert Orderly(s, a);
    assert a.mailbox == [a.mailbox[0]] + t.actors[i].mailbox;
    StillHeld(s, t, i);
  }

  /** What is left of an orderly mailbox is orderly. */
  lemma TailOrderly(s: State, t: State, a: Actor, after: Actor)
    requires Orderly(s, a) && a.mailbox != [] && a.running.None? && !a.ended && t.sessionOf == s.sessionOf
    requires after == Rest(a).(ended := a.mailbox[0].None?)
    ensures Orderly(t, after)
  {
    assert forall k | 0 <= k < |after.mailbox| :: after.mailbox[k] == a.mailbox[k + 1];
  }

  lemma DropOrderly(s: State, t: State, i: nat)
    requires Inv(s) && Drops(s, t, i)
    ensures Orderly(t, t.actors[i]) && AheadOfStarted(t, t.actors[i])
    ensures NothingToRun(s.actors[i], s.fates) ==> NothingToRun(t.actors[i], t.fates)
  {
    hide NothingDropped;
    hide InOrder;
    var a, after := s.actors[i], t.actors[i];
    assert Orderly(s, a) && AheadOfStarted(s, a);
    TailOrderly(s, t, a, after);
    hide Orderly;
    assert forall k | 0 <= k < |after.mailbox| :: after.mailbox[k] == a.mailbox[k + 1];
  }

  /** Starting a turn: the event at the head is ahead of all its session has started, and every
      other actor of the session has nothing left to run. */
  lemma StartKeeps(s: State, t: State, i: nat)
    requires Inv(s) && Starts(s, t, i)
    ensures Inv(t)
  {
    StartedInOrder(s, t, i);
    StartHeld(s, t, i);
    StartWorks(s, t, i);
    forall j | 0 <= j < |t.actors| ensures Orderly(t, t.actors[j]) && AheadOfStarted(t, t.actors[j]) {
      if j == i { HeadStarts(s, t, i); } else { OthersUntouched(s, t, i, j); }
    }
    hide OneWorks;
    hide OwnersValid;
    hide InOrder;
    hide NothingDropped;
    hide AheadOfStarted;
    hide Orderly;
  }

  lemma OthersUntouched(s: State, t: State, i: nat, j: nat)
    requires Inv(s) && Starts(s, t, i) && j < |s.actors| && j != i
    ensures Orderly(t, s.actors[j]) && AheadOfStarted(t, s.actors[j])
  {
    hide NothingDropped;
    OthersAreDrained(s, i, j);
    hide NothingToRun;
    assert Orderly(s, s.actors[i]);
    Untouched(s, t, s.actors[j]);
  }

  lemma StartWorks(s: State, t: State, i: nat)
    requires Inv(s) && Starts(s, t, i)
    ensures OneWorks(t) && OwnersValid(t)
  {
    assert !NothingToRun(s.actors[i], s.fates);
    hide InOrder;
    hide NothingDropped;
    hide AheadOfStarted;
    hide Orderly;
    hide NothingToRun;
    forall j, k | 0 <= j < k < |t.actors| && t.actors[j].session == t.actors[k].session
      ensures NothingToRun(t.actors[j], t.fates) || NothingToRun(t.actors[k], t.fates)
    {
      assert NothingToRun(s.actors[j], s.fates) || NothingToRun(s.actors[k], s.fates);
    }
  }

  lemma OthersAreDrained(s: State, i: nat, j: nat)
    requires OneWorks(s) && i < |s.actors| && j < |s.actors| && j != i && !NothingToRun(s.actors[i], s.fates)
    ensures s.actors[j].session == s.actors[i].session ==> NothingToRun(s.actors[j], s.fates)
  {
    hide NothingToRun;
    var x, y := s.actors[i], s.actors[j];
    assert x.session == y.session ==> NothingToRun(x, s.fates) || NothingToRun(y, s.fates);
  }

  lemma StartHeld(s: State, t: State, i: nat)
    requires NothingDropped(s) && Starts(s, t, i)
    ensures NothingDropped(t)
  {
    var a := s.actors[i];
    assert a.mailbox == [a.mailbox[0]] + t.actors[i].mailbox;
    StillHeld(s, t, i);
  }

  lemma StartedInOrder(s: State, t: State, i: nat)
    requires InOrder(s) && Starts(s, t, i) && Orderly(s, s.actors[i]) && AheadOfStarted(s, s.actors[i])
    ensures InOrder(t) && s.started <= t.started
  {
    assert t.started == s.started + [s.actors[i].mailbox[0].value];
  }

  lemma HeadStarts(s: State, t: State, i: nat)
    requires Starts(s, t, i) && Orderly(s, s.actors[i]) && AheadOfStarted(s, s.actors[i])
    ensures Orderly(t, t.actors[i]) && AheadOfStarted(t, t.actors[i])
  {
    var a, after := s.actors[i], t.actors[i];
    assert forall k | 0 <= k < |after.mailbox| :: after.mailbox[k] == a.mailbox[k + 1];
  }

  lemma PostedKeeps(s: State, session: string, limit: nat)
    requires Inv(s) && !s.closed
    ensures Inv(Posted(s, session, limit))
  {
    hide InOrder, NothingDropped, NothingToRun, AheadOfStarted, Orderly;
    var t := Posted(s, session, limit);
    if t != s {
      var i := s.owner[session];
      PostedOwner(s, t, session, limit);
      PostedHeld(s, t, session, limit);
      PostedShape(s, t, session, limit);
      SameOrder(s, t);
      forall j | 0 <= j < |t.actors|
        ensures Orderly(t, t.actors[j]) && AheadOfStarted(t, t.actors[j])
        ensures j != i && NothingToRun(s.actors[j], s.fates) ==> NothingToRun(t.actors[j], t.fates)
      {
        if j != i { Untouched(s, t, s.actors[j]); }
      }
      forall j | 0 <= j < |s.actors| && j != i && s.actors[j].session == session
        ensures NothingToRun(s.actors[j], s.fates)
      {}
    }
  }

  lemma PostedShape(s: State, t: State, session: string, limit: nat)
    requires OwnersValid(s) && t == Posted(s, session, limit) != s && |s.sessionOf| == |s.fates|
    ensures var i := s.owner[session];
      && t.actors == s.actors[i := t.actors[i]] && t.actors[i].session == s.actors[i].session == session
      && t.owner == s.owner && t.closed == s.closed && t.started == s.started
      && s.sessionOf <= t.sessionOf && |t.sessionOf| == |t.fates| && KeepsCancelled(s, t)
    ensures OwnersValid(t)
  {}

  lemma PostedOwner(s: State, t: State, session: string, limit: nat)
    requires Inv(s) && t == Posted(s, session, limit) != s
    ensures Orderly(t, t.actors[s.owner[session]]) && AheadOfStarted(t, t.actors[s.owner[session]])
  {
    var a := s.actors[s.owner[session]];
    assert Orderly(s, a) && AheadOfStarted(s, a);
  }

  lemma PostedHeld(s: State, t: State, session: string, limit: nat)
    requires Inv(s) && t == Posted(s, session, limit) != s
    ensures NothingDropped(t)
  {
    hide AheadOfStarted;
    var i := s.owner[session];
    assert s.actors[i].ended ==> s.actors[i].killed by { assert Orderly(s, s.actors[i]); }
    hide Orderly;
    forall e | 0 <= e < |t.fates| && t.fates[e] == Pending ensures exists j :: Holds(t, j, e) {
      if e < |s.fates| {
        var j :| Holds(s, j, e);
        assert Holds(t, j, e);
      } else {
        assert e == |s.fates|;
        assert t.actors[i].mailbox == s.actors[i].mailbox + [Some(|s.fates|)];
        assert t.actors[i].mailbox[|s.actors[i].mailbox|] == Some(e);
        assert Holds(t, i, e);
      }
    }
  }

  lemma CloseActorsKeeps(s: State, limit: nat)
    requires Inv(s) && s.closed
    ensures Inv(Apply(s, CloseActors, limit))
  {
    var t := Apply(s, CloseActors, limit);
    CloseHeld(s, t);
    hide NothingDropped;
    SameOrder(s, t);
    hide InOrder;
    forall i | 0 <= i < |t.actors|
      ensures Orderly(t, t.actors[i]) && AheadOfStarted(t, t.actors[i])
      ensures NothingToRun(s.actors[i], s.fates) ==> NothingToRun(t.actors[i], t.fates)
    {
      if t.actors[i] == s.actors[i] {
        Untouched(s, t, s.actors[i]);
      } else {
        ClosingOrderly(s, t, s.actors[i]);
      }
    }
    hide Orderly;
    hide AheadOfStarted;
    hide NothingToRun;
    forall i, j | 0 <= i < j < |t.actors| && t.actors[i].session == t.actors[j].session
      ensures NothingToRun(t.actors[i], t.fates) || NothingToRun(t.actors[j], t.fates)
    {
      assert NothingToRun(s.actors[i], s.fates) || NothingToRun(s.actors[j], s.fates);
    }
  }

  lemma ClosingOrderly(s: State, t: State, a: Actor)
    requires Orderly(s, a) && AheadOfStarted(s, a) && t.sessionOf == s.sessionOf && t.started == s.started
    requires t.fates == s.fates && Closing(a) != a
    ensures Orderly(t, Closing(a)) && AheadOfStarted(t, Closing(a))
    ensures NothingToRun(a, t.fates) ==> NothingToRun(Closing(a), t.fates)
  {}

  lemma CloseHeld(s: State, t: State)
    requires Inv(s) && s.closed && t == Apply(s, CloseActors, 0)
    ensures NothingDropped(t)
  {
    hide Orderly;
    hide AheadOfStarted;
    forall e | 0 <= e < |t.fates| && t.fates[e] == Pending ensures exists i :: Holds(t, i, e) {
      var i :| Holds(s, i, e);
      assert Holds(t, i, e);
    }
  }

  /** Every step of a router whose sweep never pops an actor with something left to run keeps the invariant. */
  lemma StepKeeps(s: State, action: Action, limit: nat)
    requires Inv(s) && Enabled(s, action) && SafePop(s, action)
    ensures Inv(Apply(s, action, limit))
  {
    hide Inv;
    match action
    case Deliver(session) =>
      if !s.closed {
        ActorForKeeps(s, session);
        PostedKeeps(ActorFor(s, session), session, limit);
      }
    case Get(i) => GetKeeps(s, i, limit);
    case Finish(i, ok) => FinishKeeps(s, i, ok, limit);
    case Kill(i) => KillKeeps(s, i, limit);
    case CancelCaller(e) => CancelKeeps(s, e, limit);
    case SweepBegin(idle) => PoppedKeeps(s, idle[0], idle[1..]);
    case SweepPop =>
      OwnersAreActors(s);
      PoppedKeeps(s, s.stale[0], s.stale[1..]);
    case CloseBegin => SameState(s, Apply(s, CloseBegin, limit));
    case CloseActors => CloseActorsKeeps(s, limit);
  }

  lemma OwnersAreActors(s: State)
    requires Inv(s)
    ensures forall x | x in s.owner :: s.owner[x] < |s.actors|
  {}

  lemma {:induction false} RunKeeps(states: seq<State>, actions: seq<Action>, limit: nat, k: nat)
    requires Run(states, actions, limit) && k < |states|
    requires forall j | 0 <= j < |actions| :: SafePop(states[j], actions[j])
    ensures Inv(states[k])
  {
    hide Enabled;
    hide SafePop;
    hide Apply;
    if k == 0 {
    } else {
      hide Inv;
      RunKeeps(states, actions, limit, k - 1);
      StepKeeps(states[k - 1], actions[k - 1], limit);
    }
  }

  /** In every interleaving whose sweep never pops an actor with something left to run, turns of one session never
      overlap, start in the order they were posted and at most once, and no event is lost. */
  lemma OneTurnAtATime(states: seq<State>, actions: seq<Action>, limit: nat, k: nat)
    requires Run(states, actions, limit) && k < |states|
    requires forall j | 0 <= j < |actions| :: SafePop(states[j], actions[j])
    ensures NoOverlap(states[k]) && InOrder(states[k]) && NothingDropped(states[k])
  {
    RunKeeps(states, actions, limit, k);
    hide Run;
    var s := states[k];
    forall i, j | 0 <= i < j < |s.actors| && s.actors[i].running.Some? && s.actors[j].running.Some?
      ensures s.actors[i].session != s.actors[j].session
    {
      assert Orderly(s, s.actors[i]) && Orderly(s, s.actors[j]);
    }
  }

  // --- each future is settled once, whatever the sweep does ---

  lemma StepSettles(s: State, action: Action, limit: nat)
    requires Enabled(s, action)
    ensures var t := Apply(s, action, limit);
      |s.fates| <= |t.fates| && forall e | 0 <= e < |s.fates| :: t.fates[e] == s.fates[e] || s.fates[e] == Pending
  {}

  /** Once a caller has been told something, it is never told anything else. */
  lemma {:induction false} SettledOnce(states: seq<State>, actions: seq<Action>, limit: nat, j: nat, k: nat, e: nat)
    requires Run(states, actions, limit) && j <= k < |states|
    requires e < |states[j].fates| && states[j].fates[e] != Pending
    ensures e < |states[k].fates| && states[k].fates[e] == states[j].fates[e]
    decreases k - j
  {
    hide Enabled;
    hide Apply;
    if j < k {
      SettledOnce(states, actions, limit, j, k - 1, e);
      StepSettles(states[k - 1], actions[k - 1], limit);
    }
  }

  /** Only an event whose turn has started is in a turn, or has been answered or failed. */
  ghost predicate ToldTruly(s: State) {
    && (forall i | 0 <= i < |s.actors| && s.actors[i].running.Some? :: s.actors[i].running.value in s.started)
    && forall e | 0 <= e < |s.fates| && (s.fates[e] == Answered || s.fates[e] == Failed) :: e in s.started
  }

  lemma StepTellsTruly(s: State, action: Action, limit: nat)
    requires ToldTruly(s) && Enabled(s, action)
    ensures ToldTruly(Apply(s, action, limit))
  {}

  /** Whatever the sweep does, nobody is told of a turn that never started. */
  lemma {:induction false} AnsweredMeansRan(states: seq<State>, actions: seq<Action>, limit: nat, k: nat)
    requires Run(states, actions, limit) && k < |states|
    ensures ToldTruly(states[k])
  {
    hide Enabled;
    hide Apply;
    if k > 0 {
      AnsweredMeansRan(states, actions, limit, k - 1);
      StepTellsTruly(states[k - 1], actions[k - 1], limit);
    }
  }

  // --- the sweep as written does not look again ---

  /** The sweep is about to pop an actor in the middle of a turn. */
  predicate BusyAtPop(s: State, session: string) {
    && Enabled(s, SweepPop) && s.stale[0] == session
    && session in s.owner && s.owner[session] < |s.actors| && s.actors[s.owner[session]].running.Some?
  }

  ghost predicate LeadsToBusyPop(states: seq<State>, actions: seq<Action>, limit: nat, session: string) {
    && Run(states, actions, limit) && BusyAtPop(states[|states| - 1], session)
    && CanOverlap(Apply(states[|states| - 1], SweepPop, limit), limit)
  }

  /** The state after a sequence of steps, if each of them can be taken. */
  function Play(s: State, actions: seq<Action>, limit: nat): Option<State>
    decreases |actions|
  {
    if actions == [] then Some(s)
    else if Enabled(s, actions[0]) then Play(Apply(s, actions[0], limit), actions[1..], limit)
    else None
  }

  ghost predicate CanOverlap(s: State, limit: nat) {
    exists actions :: Play(s, actions, limit).Some? && !NoOverlap(Play(s, actions, limit).value)
  }

  lemma StepThenOverlap(s: State, action: Action, limit: nat)
    requires Enabled(s, action) && CanOverlap(Apply(s, action, limit), limit)
    ensures CanOverlap(s, limit)
  {
    hide Enabled;
    hide Apply;
    hide NoOverlap;
    var rest :| && Play(Apply(s, action, limit), rest, limit).Some?
                && !NoOverlap(Play(Apply(s, action, limit), rest, limit).value);
    assert ([action] + rest)[1..] == rest;
    assert Play(s, [action] + rest, limit) == Play(Apply(s, action, limit), rest, limit);
  }

  /** An actor in a turn that the router no longer knows: the session's next event overlaps it. */
  lemma RunningOverlaps(s: State, i: nat, limit: nat)
    requires i < |s.actors| && s.actors[i].running.Some? && !s.closed && limit > 0
    requires s.actors[i].session !in s.owner
    ensures CanOverlap(s, limit)
  {
    var session, n := s.actors[i].session, |s.actors|;
    var posted := Apply(s, Deliver(session), limit);
    DeliverFresh(s, session, limit);
    assert posted.actors[n] == NewActor(session).(mailbox := [Some(|s.fates|)]);
    var t := Apply(posted, Get(n), limit);
    assert t.actors[i] == s.actors[i] && t.actors[n].running.Some? && t.actors[n].session == session;
    assert !NoOverlap(t);
    hide Apply;
    hide NoOverlap;
    assert Play(t, [], limit) == Some(t);
    assert CanOverlap(t, limit);
    StepThenOverlap(posted, Get(n), limit);
    StepThenOverlap(s, Deliver(session), limit);
  }

  /** The same of an actor that still has something to run: it drops what is cancelled, and starts it. */
  lemma {:induction false} LeftoverOverlaps(s: State, i: nat, limit: nat)
    requires i < |s.actors| && Orderly(s, s.actors[i]) && !NothingToRun(s.actors[i], s.fates)
    requires s.actors[i].session !in s.owner && !s.closed && limit > 0
    ensures CanOverlap(s, limit)
    decreases |s.actors[i].mailbox|
  {
    var a := s.actors[i];
    if a.running.Some? {
      RunningOverlaps(s, i, limit);
    } else {
      GetReady(s, i);
      var t := Apply(s, Get(i), limit);
      GetDropsOrStarts(s, i, limit);
      hide Apply;
      hide Enabled;
      if Starts(s, t, i) {
        RunningOverlaps(t, i, limit);
      } else {
        DropKeepsLive(s, t, i);
        LeftoverOverlaps(t, i, limit);
      }
      StepThenOverlap(s, Get(i), limit);
    }
  }

  lemma GetReady(s: State, i: nat)
    requires i < |s.actors| && Orderly(s, s.actors[i]) && !NothingToRun(s.actors[i], s.fates)
    requires s.actors[i].running.None?
    ensures Enabled(s, Get(i))
  {}

  lemma DropKeepsLive(s: State, t: State, i: nat)
    requires Drops(s, t, i) && Orderly(s, s.actors[i]) && !NothingToRun(s.actors[i], s.fates)
    ensures Orderly(t, t.actors[i]) && !NothingToRun(t.actors[i], t.fates)
  {
    HeadIsCancelled(s, s.actors[i]);
    TailOrderly(s, t, s.actors[i], t.actors[i]);
    hide Orderly;
    TailLive(s.actors[i], t.actors[i], s.fates);
  }

  lemma HeadIsCancelled(s: State, a: Actor)
    requires Orderly(s, a) && !NothingToRun(a, s.fates) && a.running.None?
    ensures a.mailbox != [] && a.mailbox[0].Some?
  {}

  lemma TailLive(a: Actor, after: Actor, fates: seq<Fate>)
    requires !NothingToRun(a, fates) && a.mailbox != [] && a.mailbox[0].Some? && a.running.None?
    requires !Live(a.mailbox[0].value, fates)
    requires after == Rest(a)
    ensures !NothingToRun(after, fates)
  {
    var k :| 0 <= k < |a.mailbox| && a.mailbox[k].Some? && Live(a.mailbox[k].value, fates);
    assert after.mailbox[k - 1] == a.mailbox[k];
  }

  // --- what every interleaving keeps, safe or not ---

  /** Every mailbox is in order and every owner is an open actor of its session. */
  ghost predicate Tidy(s: State) {
    |s.sessionOf| == |s.fates| && OwnersValid(s) && forall i | 0 <= i < |s.actors| :: Orderly(s, s.actors[i])
  }

  lemma StillOrderly(s: State, t: State, a: Actor)
    requires Orderly(s, a) && s.sessionOf <= t.sessionOf && s.started <= t.started
    ensures Orderly(t, a)
  {
    if a.running.Some? {
      assert a.running.value in t.started;
    }
  }

  /** A step that changes one actor at most. */
  lemma OneChangeTidy(s: State, t: State, i: nat)
    requires Tidy(s) && i < |s.actors| == |t.actors| && t.actors == s.actors[i := t.actors[i]]
    requires s.sessionOf <= t.sessionOf && s.started <= t.started && |t.sessionOf| == |t.fates|
    requires Orderly(t, t.actors[i]) && OwnersValid(t)
    ensures Tidy(t)
  {
    hide Orderly, OwnersValid;
    forall j | 0 <= j < |t.actors| ensures Orderly(t, t.actors[j]) {
      if j != i { StillOrderly(s, t, s.actors[j]); }
    }
  }

  lemma SameActorsTidy(s: State, t: State)
    requires Tidy(s) && t.actors == s.actors && t.sessionOf == s.sessionOf && t.started == s.started
    requires |t.fates| == |s.fates| && t.owner == s.owner
    ensures Tidy(t)
  {
    hide Orderly;
    forall j | 0 <= j < |t.actors| ensures Orderly(t, t.actors[j]) {
      StillOrderly(s, t, s.actors[j]);
    }
  }

  lemma ActorForTidy(s: State, session: string)
    requires Tidy(s)
    ensures Tidy(ActorFor(s, session))
  {
    hide Orderly;
    var t := ActorFor(s, session);
    if session !in s.owner {
      FreshActor(s, t, session);
      forall j | 0 <= j < |t.actors| ensures Orderly(t, t.actors[j]) {
        if j < |s.actors| { StillOrderly(s, t, s.actors[j]); }
      }
    }
  }

  lemma PostedTidy(s: State, session: string, limit: nat)
    requires Tidy(s)
    ensures Tidy(Posted(s, session, limit))
  {
    var t := Posted(s, session, limit);
    if t != s {
      var i := s.owner[session];
      assert Orderly(s, s.actors[i]);
      OneChangeTidy(s, t, i);
    }
  }

  lemma PoppedTidy(s: State, session: string, rest: seq<string>)
    requires Tidy(s)
    ensures Tidy(Popped(s, session, rest))
  {
    var t := Popped(s, session, rest);
    if session in s.owner {
      var i := s.owner[session];
      ClosingTidy(s, t, s.actors[i]);
      OneChangeTidy(s, t, i);
    } else {
      SameActorsTidy(s, t);
    }
  }

  lemma ClosingTidy(s: State, t: State, a: Actor)
    requires Orderly(s, a) && t.sessionOf == s.sessionOf && t.started == s.started
    ensures Orderly(t, Closing(a))
  {
    assert forall k | 0 <= k < |a.mailbox| :: Closing(a).mailbox[k] == a.mailbox[k];
  }

  lemma GetTidy(s: State, i: nat, limit: nat)
    requires Tidy(s) && Enabled(s, Get(i))
    ensures Tidy(Apply(s, Get(i), limit))
  {
    var a, t := s.actors[i], Apply(s, Get(i), limit);
    assert Orderly(s, a);
    NextOrderly(s, t, a);
    OneChangeTidy(s, t, i);
  }

  lemma NextOrderly(s: State, t: State, a: Actor)
    requires Orderly(s, a) && a.mailbox != [] && a.running.None? && !a.ended && t.sessionOf == s.sessionOf
    requires Next(a, s.fates).running.Some? ==> Next(a, s.fates).running.value in t.started
    ensures Orderly(t, Next(a, s.fates))
  {
    assert forall k | 0 <= k < |a.mailbox| - 1 :: Next(a, s.fates).mailbox[k] == a.mailbox[k + 1];
  }

  lemma CloseActorsTidy(s: State, limit: nat)
    requires Tidy(s) && s.closed
    ensures Tidy(Apply(s, CloseActors, limit))
  {
    var t := Apply(s, CloseActors, limit);
    hide Orderly;
    forall j | 0 <= j < |t.actors| ensures Orderly(t, t.actors[j]) {
      if t.actors[j] == s.actors[j] {
        StillOrderly(s, t, s.actors[j]);
      } else {
        ClosingTidy(s, t, s.actors[j]);
      }
    }
  }

  /** A turn over, or the actor's task killed. */
  lemma TurnEndsTidy(s: State, t: State, i: nat)
    requires Tidy(s) && i < |s.actors| == |t.actors| && t.actors == s.actors[i := t.actors[i]]
    requires var a := s.actors[i].(running := None); t.actors[i] in {a, a.(ended := true, killed := true)}
    requires t.sessionOf == s.sessionOf && t.started == s.started && |t.fates| == |s.fates| && t.owner == s.owner
    ensures Tidy(t)
  {
    assert Orderly(s, s.actors[i]);
    OneChangeTidy(s, t, i);
  }

  lemma StepTidy(s: State, action: Action, limit: nat)
    requires Tidy(s) && Enabled(s, action)
    ensures Tidy(Apply(s, action, limit))
  {
    hide Orderly, OwnersValid, Posted, ActorFor, Popped;
    match action
    case Deliver(session) =>
      if !s.closed {
        ActorForTidy(s, session);
        PostedTidy(ActorFor(s, session), session, limit);
      }
    case Get(i) => GetTidy(s, i, limit);
    case Finish(i, ok) => TurnEndsTidy(s, Apply(s, action, limit), i);
    case Kill(i) => TurnEndsTidy(s, Apply(s, action, limit), i);
    case CancelCaller(e) => SameActorsTidy(s, Apply(s, action, limit));
    case SweepBegin(idle) => PoppedTidy(s, idle[0], idle[1..]);
    case SweepPop => PoppedTidy(s, s.stale[0], s.stale[1..]);
    case CloseBegin => SameActorsTidy(s, Apply(s, action, limit));
    case CloseActors => CloseActorsTidy(s, limit);
  }

  lemma {:induction false} AlwaysTidy(states: seq<State>, actions: seq<Action>, limit: nat, k: nat)
    requires Run(states, actions, limit) && k < |states|
    ensures Tidy(states[k])
  {
    hide Enabled;
    hide Apply;
    if k > 0 {
      hide Tidy;
      AlwaysTidy(states, actions, limit, k - 1);
      StepTidy(states[k - 1], actions[k - 1], limit);
    }
  }

  /**
   * The condition is exact: from any state that any interleaving reaches, after unsafe pops or none, a pop that
   * takes an actor with something left to run can be followed by two turns of its session at once.
   */
  lemma UnsafePopOverlaps(states: seq<State>, actions: seq<Action>, limit: nat, k: nat)
    requires Run(states, actions, limit) && k < |states| && limit > 0
    requires Enabled(states[k], SweepPop) && !SafePop(states[k], SweepPop)
    ensures CanOverlap(Apply(states[k], SweepPop, limit), limit)
  {
    AlwaysTidy(states, actions, limit, k);
    hide Run;
    TidyPopOverlaps(states[k], limit);
  }

  lemma TidyPopOverlaps(s: State, limit: nat)
    requires Tidy(s) && Enabled(s, SweepPop) && !SafePop(s, SweepPop) && limit > 0
    ensures CanOverlap(Apply(s, SweepPop, limit), limit)
  {
    var i := s.owner[s.stale[0]];
    var t := Apply(s, SweepPop, limit);
    PoppedStillRuns(s, t, i);
    hide Apply;
    hide Tidy;
    LeftoverOverlaps(t, i, limit);
  }

  lemma PoppedStillRuns(s: State, t: State, i: nat)
    requires Tidy(s) && Enabled(s, SweepPop) && !SafePop(s, SweepPop)
    requires i == s.owner[s.stale[0]] && t == Apply(s, SweepPop, 0)
    ensures i < |t.actors| && Orderly(t, t.actors[i]) && !NothingToRun(t.actors[i], t.fates)
    ensures t.actors[i].session !in t.owner && !t.closed
  {
    var a := s.actors[i];
    ClosingTidy(s, t, a);
    assert forall k | 0 <= k < |a.mailbox| :: t.actors[i].mailbox[k] == a.mailbox[k];
  }

  /** A run of ten steps to such a pop: two idle sessions are to be swept, and while the first
      actor winds down the second gets an event. */
  function SweepTrace(a: string, b: string, k: nat): State {
    var idleA, idleB := NewActor(a), NewActor(b);
    var both, ids := map[a := 0, b := 1], [a, b];
    var closingA := idleA.(closing := true, mailbox := [None]);
    var endedA := idleA.(closing := true, ended := true);
    match k
    case 0 => INIT
    case 1 => State([idleA.(mailbox := [Some(0)])], map[a := 0], [Pending], [a], [], [], None, false)
    case 2 => State([idleA.(running := Some(0))], map[a := 0], [Pending], [a], [0], [], None, false)
    case 3 => State([idleA], map[a := 0], [Answered], [a], [0], [], None, false)
    case 4 => State([idleA, idleB.(mailbox := [Some(1)])], both, [Answered, Pending], ids, [0], [], None, false)
    case 5 => State([idleA, idleB.(running := Some(1))], both, [Answered, Pending], ids, [0, 1], [], None, false)
    case 6 => State([idleA, idleB], both, [Answered, Answered], ids, [0, 1], [], None, false)
    case 7 => State([closingA, idleB], map[b := 1], [Answered, Answered], ids, [0, 1], [b], Some(0), false)
    case 8 => State([endedA, idleB], map[b := 1], [Answered, Answered], ids, [0, 1], [b], Some(0), false)
    case 9 => State([endedA, idleB.(mailbox := [Some(2)])], map[b := 1], [Answered, Answered, Pending], [a, b, b],
                    [0, 1], [b], Some(0), false)
    case _ => State([endedA, idleB.(running := Some(2))], map[b := 1], [Answered, Answered, Pending], [a, b, b],
                    [0, 1, 2], [b], Some(0), false)
  }

  function SweepActions(a: string, b: string): seq<Action> {
    [Deliver(a), Get(0), Finish(0, true), Deliver(b), Get(1), Finish(1, true),
     SweepBegin([a, b]), Get(0), Deliver(b), Get(1)]
  }

  lemma SweepTraceStep(a: string, b: string, k: nat, limit: nat)
    requires a != b && limit > 0 && k < 10
    ensures Enabled(SweepTrace(a, b, k), SweepActions(a, b)[k])
    ensures SweepTrace(a, b, k + 1) == Apply(SweepTrace(a, b, k), SweepActions(a, b)[k], limit)
  {
    if k in {1, 4, 7, 9} {
      SweepTraceGet(a, b, k, limit);
    } else if k in {0, 3} {
      SweepTraceFresh(a, b, k, limit);
    } else if k == 8 {
      SweepTraceAgain(a, b, limit);
    } else if k == 6 {
      SweepTraceSweep(a, b, limit);
    }
  }

  lemma SweepTraceFresh(a: string, b: string, k: nat, limit: nat)
    requires a != b && limit > 0 && k in {0, 3}
    ensures SweepTrace(a, b, k + 1) == Apply(SweepTrace(a, b, k), SweepActions(a, b)[k], limit)
  {
    var s := SweepTrace(a, b, k);
    DeliverFresh(s, if k == 0 then a else b, limit);
    hide Apply;
    assert k == 0 ==> s.actors == [] && s.fates == [] && s.sessionOf == [] && s.owner == map[];
    assert k == 3 ==> s.owner[b := 1] == map[a := 0, b := 1];
  }

  lemma SweepTraceAgain(a: string, b: string, limit: nat)
    requires a != b && limit > 0
    ensures SweepTrace(a, b, 9) == Apply(SweepTrace(a, b, 8), SweepActions(a, b)[8], limit)
  {
    var s := SweepTrace(a, b, 8);
    DeliverIdle(s, b, limit);
    hide Apply;
    assert s.sessionOf + [b] == [a, b, b];
    assert s.fates + [Pending] == [Answered, Answered, Pending];
    assert SweepTrace(a, b, 9).actors == s.actors[1 := s.actors[1].(mailbox := [Some(2)])];
  }

  lemma SweepTraceSweep(a: string, b: string, limit: nat)
    requires a != b
    ensures SweepTrace(a, b, 7) == Apply(SweepTrace(a, b, 6), SweepActions(a, b)[6], limit)
  {
    var s, t := SweepTrace(a, b, 6), SweepTrace(a, b, 7);
    assert Closing(s.actors[0]) == t.actors[0];
    assert s.owner - {a} == t.owner;
    assert SweepActions(a, b)[6] == SweepBegin([a, b]) && [a, b][1..] == [b];
  }

  /** An event for a session that has no actor makes one. */
  lemma DeliverFresh(s: State, session: string, limit: nat)
    requires !s.closed && session !in s.owner && limit > 0
    ensures Apply(s, Deliver(session), limit)
      == s.(actors := s.actors + [NewActor(session).(mailbox := [Some(|s.fates|)])],
            owner := s.owner[session := |s.actors|], fates := s.fates + [Pending], sessionOf := s.sessionOf + [session])
  {
    var made := ActorFor(s, session);
    var n := |s.actors|;
    assert made.actors[n].mailbox + [Some(|s.fates|)] == [Some(|s.fates|)];
    assert made.actors[n := NewActor(session).(mailbox := [Some(|s.fates|)])]
        == s.actors + [NewActor(session).(mailbox := [Some(|s.fates|)])];
  }

  lemma DeliverIdle(s: State, session: string, limit: nat)
    requires !s.closed && session in s.owner && s.owner[session] < |s.actors| && limit > 0
    requires Idle(s.actors[s.owner[session]]) && !s.actors[s.owner[session]].closing
    ensures Apply(s, Deliver(session), limit)
      == s.(actors := s.actors[s.owner[session] := s.actors[s.owner[session]].(mailbox := [Some(|s.fates|)])],
            fates := s.fates + [Pending], sessionOf := s.sessionOf + [session])
  {
    var a := s.actors[s.owner[session]];
    assert a.mailbox + [Some(|s.fates|)] == [Some(|s.fates|)];
  }

  lemma SweepTraceGet(a: string, b: string, k: nat, limit: nat)
    requires a != b && limit > 0 && k in {1, 4, 7, 9}
    ensures Enabled(SweepTrace(a, b, k), SweepActions(a, b)[k])
    ensures SweepTrace(a, b, k + 1) == Apply(SweepTrace(a, b, k), SweepActions(a, b)[k], limit)
  {
    var s := SweepTrace(a, b, k);
    var i := SweepActions(a, b)[k].actor;
    assert s.actors[i].mailbox[1..] == [];
    assert s.actors[i := Next(s.actors[i], s.fates)] == SweepTrace(a, b, k + 1).actors;
  }

  /** The sweep as written can pop an actor in the middle of a turn, and two turns then overlap. */
  lemma SweepCanPopABusyActor(a: string, b: string, limit: nat)
    requires a != b && limit > 0
    ensures exists states: seq<State>, actions: seq<Action> :: LeadsToBusyPop(states, actions, limit, b)
  {
    var states, actions := SweepStates(a, b), SweepActions(a, b);
    forall k | 0 <= k < 10
      ensures Enabled(states[k], actions[k]) && states[k + 1] == Apply(states[k], actions[k], limit)
    {
      SweepTraceStep(a, b, k, limit);
    }
    LastIsBusy(a, b, limit);
    assert LeadsToBusyPop(states, actions, limit, b);
  }

  function SweepStates(a: string, b: string): seq<State> {
    seq(11, k requires 0 <= k < 11 => SweepTrace(a, b, k))
  }

  lemma LastIsBusy(a: string, b: string, limit: nat)
    requires a != b && limit > 0
    ensures var last := SweepStates(a, b)[|SweepStates(a, b)| - 1];
      BusyAtPop(last, b) && CanOverlap(Apply(last, SweepPop, limit), limit)
  {
    var last := SweepTrace(a, b, 10);
    assert BusyAtPop(last, b);
    var popped := Apply(last, SweepPop, limit);
    assert popped.actors[1].running.Some? && popped.actors[1].session == b && b !in popped.owner;
    RunningOverlaps(popped, 1, limit);
  }
}
