/** How far behind a session may fall, and which events are taken (siatt/core/session.py). */
module SessionLimits {
  import opened Sessions
  import opened SessionLaws
  import opened Wrappers

  /** No more events wait than the limit, and behind them at most the request to stop. */
  predicate Within(a: Actor, limit: nat) {
    |a.mailbox| <= limit + if a.closing then 1 else 0
  }

  ghost predicate AllWithin(s: State, limit: nat) {
    forall i | 0 <= i < |s.actors| :: Within(s.actors[i], limit)
  }

  lemma StepWithin(s: State, action: Action, limit: nat)
    requires AllWithin(s, limit) && Enabled(s, action)
    ensures AllWithin(Apply(s, action, limit), limit)
  {}

  /** However the router is used, no mailbox grows past the limit. */
  lemma {:induction false} MailboxesBounded(states: seq<State>, actions: seq<Action>, limit: nat, k: nat)
    requires Run(states, actions, limit) && k < |states|
    ensures AllWithin(states[k], limit)
  {
    hide Apply, Enabled;
    if k > 0 {
      hide AllWithin;
      MailboxesBounded(states, actions, limit, k - 1);
      StepWithin(states[k - 1], actions[k - 1], limit);
    }
  }

  /** The router takes an event for the session: it is open, and the session's actor, if any, is not too far behind. */
  predicate Takes(s: State, session: string, limit: nat) {
    && !s.closed && limit > 0
    && (session in s.owner && s.owner[session] < |s.actors| ==> |s.actors[s.owner[session]].mailbox| < limit)
  }

  /**
   * A delivered event is taken exactly then: it gets the next number and a pending future, and joins the end of its
   * session's mailbox. One that is not taken leaves no trace but perhaps a new actor.
   */
  lemma DeliverExactly(states: seq<State>, actions: seq<Action>, limit: nat, k: nat, session: string)
    requires Run(states, actions, limit) && k < |states|
    ensures var s, t := states[k], Apply(states[k], Deliver(session), limit);
            if Takes(s, session, limit) then
              && t.fates == s.fates + [Pending] && t.sessionOf == s.sessionOf + [session]
              && session in t.owner && t.owner[session] < |t.actors|
              && t.actors[t.owner[session]].session == session
              && t.actors[t.owner[session]].mailbox
                 == (if session in s.owner then s.actors[s.owner[session]].mailbox else []) + [Some(|s.fates|)]
            else t.fates == s.fates && t.sessionOf == s.sessionOf && t.started == s.started && s.actors <= t.actors
  {
    hide Run, Orderly;
    AlwaysTidy(states, actions, limit, k);
    var s := states[k];
    assert session in s.owner ==> s.owner[session] < |s.actors| && !s.actors[s.owner[session]].closing;
  }

  // ----- what a caller is told, and why

  /** What settles an event: its turn returning or raising, its caller giving up, or its actor killed in its turn. */
  predicate Settles(s: State, action: Action, e: nat, fate: Fate) {
    match fate
    case Pending => false
    case Answered =>
      action.Finish? && action.ok && action.actor < |s.actors| && s.actors[action.actor].running == Some(e)
    case Failed =>
      action.Finish? && !action.ok && action.actor < |s.actors| && s.actors[action.actor].running == Some(e)
    case Cancelled =>
      || action == CancelCaller(e)
      || (action.Kill? && action.actor < |s.actors| && s.actors[action.actor].running == Some(e))
  }

  lemma StepSettlesFor(s: State, action: Action, limit: nat, e: nat)
    requires Enabled(s, action) && e < |Apply(s, action, limit).fates| && Apply(s, action, limit).fates[e] != Pending
    ensures e < |s.fates|
    ensures var fate := Apply(s, action, limit).fates[e];
            s.fates[e] == fate || (s.fates[e] == Pending && Settles(s, action, e, fate))
  {}

  /** Whatever a caller was told, one step told it while it was waiting, and for that step's reason. */
  lemma {:induction false} FateHasACause(states: seq<State>, actions: seq<Action>, limit: nat, k: nat, e: nat)
      returns (j: nat)
    requires Run(states, actions, limit) && k < |states|
    requires e < |states[k].fates| && states[k].fates[e] != Pending
    ensures j < k && e < |states[j].fates| && states[j].fates[e] == Pending
    ensures Settles(states[j], actions[j], e, states[k].fates[e])
  {
    hide Apply, Enabled, Settles;
    StepSettlesFor(states[k - 1], actions[k - 1], limit, e);
    if states[k - 1].fates[e] == Pending {
      j := k - 1;
    } else {
      j := FateHasACause(states, actions, limit, k - 1, e);
    }
  }

  /** And a step that would settle an event settles it, if its caller is waiting. */
  lemma SettlingSettles(s: State, action: Action, limit: nat, e: nat, fate: Fate)
    requires Enabled(s, action) && e < |s.fates| && s.fates[e] == Pending && Settles(s, action, e, fate)
    ensures e < |Apply(s, action, limit).fates| && Apply(s, action, limit).fates[e] == fate
  {}

  // ----- closing

  /** Closing the router stops it taking events, and it stays closed. */
  lemma {:induction false} ClosedStaysClosed(states: seq<State>, actions: seq<Action>, limit: nat, j: nat, k: nat)
    requires Run(states, actions, limit) && j < k < |states| && actions[j] == CloseBegin
    ensures states[k].closed && |states[k].fates| == |states[j].fates|
    decreases k - j
  {
    if j + 1 < k {
      ClosedStaysClosed(states, actions, limit, j, k - 1);
      ClosedTakesNothing(states[k - 1], actions[k - 1], limit);
    }
  }

  lemma ClosedTakesNothing(s: State, action: Action, limit: nat)
    requires Enabled(s, action) && s.closed
    ensures var t := Apply(s, action, limit); t.closed && |t.fates| == |s.fates|
  {}

  /** Then every actor the router has is asked to stop, behind what it has queued, and the router has none. */
  lemma CloseAsksAll(s: State, limit: nat, session: string)
    requires Enabled(s, CloseActors) && OwnersValid(s) && session in s.owner
    ensures var t := Apply(s, CloseActors, limit); var i := s.owner[session];
            && t.owner == map[] && t.actors[i].closing
            && t.actors[i].mailbox == s.actors[i].mailbox + [None]
  {}

  /** The actor after `n` events have left its mailbox, each turn having ended before the next. */
  function Drained(a: Actor, fates: seq<Fate>, n: nat): Actor
    requires n <= |a.mailbox|
    decreases n
  {
    if n == 0 then a else Drained(Next(a, fates).(running := None), fates, n - 1)
  }

  /** An actor that was asked to stop ends once it has been through its mailbox, and not before. */
  lemma {:induction false} ClosingEnds(a: Actor, fates: seq<Fate>, n: nat)
    requires n <= |a.mailbox| && !a.ended
    requires forall k | 0 <= k < |a.mailbox| :: a.mailbox[k].None? <==> k == |a.mailbox| - 1
    ensures Drained(a, fates, n).ended <==> n == |a.mailbox| && a.mailbox != []
    decreases n
  {
    if n > 0 && |a.mailbox| > 1 {
      ClosingEnds(Next(a, fates).(running := None), fates, n - 1);
    }
  }

  // ----- killing

  predicate IsDead(s: State, i: nat) {
    i < |s.actors| && s.actors[i].ended && s.actors[i].killed && s.actors[i].running.None?
  }

  lemma DeadStaysDead(s: State, action: Action, limit: nat, i: nat)
    requires IsDead(s, i) && Enabled(s, action)
    ensures IsDead(Apply(s, action, limit), i)
    ensures action != Get(i) && (action.Finish? ==> action.actor != i)
  {}

  /** An actor that is killed is in no turn from then on, and starts none. */
  lemma {:induction false} KilledForGood(states: seq<State>, actions: seq<Action>, limit: nat, j: nat, k: nat, i: nat)
    requires Run(states, actions, limit) && j < k < |states| && actions[j] == Kill(i)
    ensures IsDead(states[k], i) && (k < |actions| ==> actions[k] != Get(i))
    decreases k - j
  {
    if j + 1 < k {
      KilledForGood(states, actions, limit, j, k - 1, i);
      DeadStaysDead(states[k - 1], actions[k - 1], limit, i);
    }
    if k < |actions| {
      DeadStaysDead(states[k], actions[k], limit, i);
    }
  }
}
