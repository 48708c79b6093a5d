/** One actor per session, and the router that makes and drops them (siatt/core/session.py).
    Every action below is one stretch of code that runs without awaiting. */
module Sessions {
  import opened Wrappers

  /** The future of an event: what its caller will be told. */
  datatype Fate = Pending | Cancelled | Answered | Failed

  /** A mailbox holds events by number, and `None` as the request to stop. */
  datatype Actor = Actor(session: string, mailbox: seq<Option<nat>>, running: Option<nat>,
                         closing: bool, ended: bool, killed: bool)

  datatype State = State(actors: seq<Actor>, owner: map<string, nat>, fates: seq<Fate>, sessionOf: seq<string>,
                         started: seq<nat>, stale: seq<string>, awaiting: Option<nat>, closed: bool)

  datatype Action =
    | Deliver(session: string)
    | Get(actor: nat)
    | Finish(actor: nat, ok: bool)
    | Kill(actor: nat)
    | CancelCaller(event: nat)
    | SweepBegin(idle: seq<string>)
    | SweepPop
    | CloseBegin
    | CloseActors

  const INIT := State([], map[], [], [], [], [], None, false)

  // --- one actor ---

  function NewActor(session: string): Actor {
    Actor(session, [], None, false, false, false)
  }

  /** The event would still be run: nobody has cancelled it. */
  predicate Live(e: nat, fates: seq<Fate>) {
    e < |fates| ==> fates[e] != Cancelled
  }

  /** The actor is not in a turn and nothing in its mailbox would start one. */
  predicate NothingToRun(a: Actor, fates: seq<Fate>) {
    || a.ended
    || (&& a.running.None?
        && forall k | 0 <= k < |a.mailbox| && a.mailbox[k].Some? :: !Live(a.mailbox[k].value, fates))
  }

  predicate Idle(a: Actor) {
    a.running.None? && a.mailbox == []
  }

  /** `post` takes the event, unless the actor is closing or too far behind. */
  predicate Accepts(a: Actor, limit: nat) {
    !a.closing && |a.mailbox| < limit
  }

  function Closing(a: Actor): Actor {
    if a.closing then a else a.(closing := true, mailbox := a.mailbox + [None])
  }

  /** The head of the mailbox leaves it; a cancelled one is dropped, any other starts a turn. */
  function Next(a: Actor, fates: seq<Fate>): Actor
    requires a.mailbox != []
  {
    var rest := a.(mailbox := a.mailbox[1..]);
    match a.mailbox[0]
    case None => rest.(ended := true)
    case Some(e) => if Live(e, fates) then rest.(running := Some(e)) else rest
  }

  function Settle(fates: seq<Fate>, e: nat, fate: Fate): seq<Fate> {
    if e < |fates| && fates[e] == Pending then fates[e := fate] else fates
  }

  // --- the whole router ---

  predicate Enabled(s: State, action: Action) {
    match action
    case Deliver(_) => true
    case Get(i) => i < |s.actors| && !s.actors[i].ended && s.actors[i].running.None? && s.actors[i].mailbox != []
    case Finish(i, _) => i < |s.actors| && s.actors[i].running.Some?
    case Kill(i) => i < |s.actors| && !s.actors[i].ended
    case CancelCaller(e) => e < |s.fates|
    case SweepBegin(idle) =>
      && idle != [] && s.stale == [] && !s.closed
      && (forall k | 0 <= k < |idle| ::
            idle[k] in s.owner && s.owner[idle[k]] < |s.actors| && Idle(s.actors[s.owner[idle[k]]]))
    case SweepPop =>
      && s.stale != [] && !s.closed
      && s.awaiting.Some? && s.awaiting.value < |s.actors| && s.actors[s.awaiting.value].ended
    case CloseBegin => true
    case CloseActors => s.closed
  }

  /** The actor a session has, or the new one made for it. */
  function ActorFor(s: State, session: string): State {
    if session in s.owner then s
    else s.(actors := s.actors + [NewActor(session)], owner := s.owner[session := |s.actors|])
  }

  function Posted(s: State, session: string, limit: nat): State {
    if session !in s.owner || s.owner[session] >= |s.actors| then s
    else
      var i := s.owner[session];
      if !Accepts(s.actors[i], limit) then s
      else s.(actors := s.actors[i := s.actors[i].(mailbox := s.actors[i].mailbox + [Some(|s.fates|)])],
              fates := s.fates + [Pending], sessionOf := s.sessionOf + [session])
  }

  function Popped(s: State, session: string, rest: seq<string>): State {
    if session !in s.owner || s.owner[session] >= |s.actors| then s.(stale := [])
    else
      var i := s.owner[session];
      s.(actors := s.actors[i := Closing(s.actors[i])], owner := s.owner - {session},
         stale := rest, awaiting := Some(i))
  }

  function Apply(s: State, action: Action, limit: nat): State
    requires Enabled(s, action)
  {
    match action
    case Deliver(session) => if s.closed then s else Posted(ActorFor(s, session), session, limit)
    case Get(i) =>
      var after := Next(s.actors[i], s.fates);
      s.(actors := s.actors[i := after],
         started := if after.running.Some? then s.started + [after.running.value] else s.started)
    case Finish(i, ok) =>
      s.(actors := s.actors[i := s.actors[i].(running := None)],
         fates := Settle(s.fates, s.actors[i].running.value, if ok then Answered else Failed))
    case Kill(i) =>
      s.(actors := s.actors[i := s.actors[i].(running := None, ended := true, killed := true)],
         fates := if s.actors[i].running.Some? then Settle(s.fates, s.actors[i].running.value, Cancelled) else s.fates)
    case CancelCaller(e) => s.(fates := Settle(s.fates, e, Cancelled))
    case SweepBegin(idle) => Popped(s, idle[0], idle[1..])
    case SweepPop => Popped(s, s.stale[0], s.stale[1..])
    case CloseBegin => s.(closed := true, stale := [], awaiting := None)
    case CloseActors =>
      s.(actors := seq(|s.actors|, i requires 0 <= i < |s.actors| =>
           if s.actors[i].session in s.owner && s.owner[s.actors[i].session] == i then Closing(s.actors[i])
           else s.actors[i]),
         owner := map[])
  }

  /** The actor popped by the sweep has nothing left to run. */
  predicate SafePop(s: State, action: Action) {
    if action.SweepPop? && s.stale != [] && s.stale[0] in s.owner && s.owner[s.stale[0]] < |s.actors|
    then NothingToRun(s.actors[s.owner[s.stale[0]]], s.fates) else true
  }

  ghost predicate Run(states: seq<State>, actions: seq<Action>, limit: nat) {
    && |states| == |actions| + 1 && states[0] == INIT
    && forall k | 0 <= k < |actions| ::
         Enabled(states[k], actions[k]) && states[k + 1] == Apply(states[k], actions[k], limit)
  }

  /** No two turns of one session at once. */
  ghost predicate NoOverlap(s: State) {
    forall i, j | 0 <= i < j < |s.actors| && s.actors[i].running.Some? && s.actors[j].running.Some? ::
      s.actors[i].session != s.actors[j].session
  }

  /** Turns of one session start in the order its events were posted, each at most once. */
  ghost predicate InOrder(s: State) {
    && (forall p | 0 <= p < |s.started| :: s.started[p] < |s.sessionOf|)
    && forall p, q | 0 <= p < q < |s.started| && s.sessionOf[s.started[p]] == s.sessionOf[s.started[q]] ::
         s.started[p] < s.started[q]
  }

  /** An event that nobody has been told about is running or queued, and its actor is alive
      unless its task was killed. */
  ghost predicate NothingDropped(s: State) {
    forall e | 0 <= e < |s.fates| && s.fates[e] == Pending :: exists i :: Holds(s, i, e)
  }

  ghost predicate Holds(s: State, i: int, e: nat) {
    && 0 <= i < |s.actors| && (s.actors[i].running == Some(e) || Some(e) in s.actors[i].mailbox)
    && (s.actors[i].ended ==> s.actors[i].killed)
  }
}
