/** The actor and the router as objects; each method is one stretch of code that runs without
    awaiting (siatt/core/session.py). */
module SessionActors {
  import opened Wrappers
  import opened Sessions

  datatype Overflow = RouterClosed | ShuttingDown | TooFarBehind

  /** Every future made so far, in order. */
  class Futures {
    var fates: seq<Fate>

    constructor ()
      ensures fates == []
    {
      fates := [];
    }

    /** `if not done.done(): ...` */
    method Resolve(e: nat, fate: Fate)
      modifies this
      ensures fates == Settle(old(fates), e, fate)
    {
      if e < |fates| && fates[e] == Pending {
        fates := fates[e := fate];
      }
    }
  }

  class SessionActor {
    const session: string
    const limit: nat
    const futures: Futures
    var mailbox: seq<Option<nat>>
    var running: Option<nat>
    var closing: bool
    var ended: bool
    var killed: bool

    constructor (session: string, limit: nat, futures: Futures)
      ensures this.session == session && this.limit == limit && this.futures == futures
      ensures Now() == NewActor(session)
    {
      this.session, this.limit, this.futures := session, limit, futures;
      mailbox, running, closing, ended, killed := [], None, false, false, false;
    }

    function Now(): Actor
      reads this
    {
      Actor(session, mailbox, running, closing, ended, killed)
    }

    method Post() returns (posted: Result<nat, Overflow>)
      modifies this, futures
      ensures posted.Ok? <==> Accepts(old(Now()), limit)
      ensures posted.Ok? ==>
        && posted.value == |old(futures.fates)| && futures.fates == old(futures.fates) + [Pending]
        && Now() == old(Now()).(mailbox := old(mailbox) + [Some(posted.value)])
      ensures posted.Err? ==> Now() == old(Now()) && futures.fates == old(futures.fates)
      ensures posted.Err? ==> posted.error == if closing then ShuttingDown else TooFarBehind
    {
      if closing {
        return Err(ShuttingDown);
      }
      if |mailbox| >= limit {
        return Err(TooFarBehind);
      }
      var event := |futures.fates|;
      futures.fates := futures.fates + [Pending];
      mailbox := mailbox + [Some(event)];
      posted := Ok(event);
    }

    /** The first half of `aclose`: everything before it waits for the loop to end. */
    method RequestClose()
      modifies this
      ensures Now() == Closing(old(Now()))
    {
      if closing {
        return;
      }
      closing := true;
      mailbox := mailbox + [None];
    }

    /** One turn of the loop, up to the handler: what leaves the mailbox, and the turn it starts. */
    method Get() returns (turn: Option<nat>)
      requires mailbox != [] && running.None?
      modifies this
      ensures Now() == Next(old(Now()), futures.fates) && turn == running
    {
      var envelope := mailbox[0];
      mailbox := mailbox[1..];
      match envelope {
        case None => ended := true;
        case Some(event) =>
          if !(event < |futures.fates| && futures.fates[event] == Cancelled) {
            running := Some(event);
          }
      }
      turn := running;
    }

    /** The handler returned, or raised. */
    method Finish(ok: bool)
      requires running.Some?
      modifies this, futures
      ensures Now() == old(Now()).(running := None)
      ensures futures.fates == Settle(old(futures.fates), old(running.value), if ok then Answered else Failed)
    {
      futures.Resolve(running.value, if ok then Answered else Failed);
      running := None;
    }

    /** The loop was cancelled from outside. */
    method Kill()
      requires !ended
      modifies this, futures
      ensures Now() == old(Now()).(running := None, ended := true, killed := true)
      ensures futures.fates == if old(running).Some? then Settle(old(futures.fates), old(running).value, Cancelled)
                               else old(futures.fates)
    {
      if running.Some? {
        futures.Resolve(running.value, Cancelled);
      }
      running, ended, killed := None, true, true;
    }
  }

  class SessionRouter {
    const limit: nat
    const futures: Futures
    var actors: map<string, SessionActor>
    var closed: bool

    ghost predicate Valid()
      reads this, actors.Values
    {
      forall x | x in actors ::
        actors[x].session == x && actors[x].limit == limit && actors[x].futures == futures
    }

    constructor (limit: nat)
      ensures Valid() && this.limit == limit && actors == map[] && !closed && fresh(futures) && futures.fates == []
    {
      this.limit := limit;
      this.futures := new Futures();
      actors, closed := map[], false;
    }

    method ActorFor(session: string) returns (actor: SessionActor)
      requires Valid()
      modifies this`actors
      ensures Valid() && actors == old(actors)[session := actor]
      ensures session in old(actors) ==> actor == old(actors)[session]
      ensures session !in old(actors) ==> fresh(actor) && actor.Now() == NewActor(session)
    {
      if session in actors {
        actor := actors[session];
      } else {
        actor := new SessionActor(session, limit, futures);
        actors := actors[session := actor];
      }
    }

    /** `deliver` up to the point where it waits for the turn. */
    method Deliver(session: string) returns (posted: Result<nat, Overflow>)
      requires Valid()
      modifies this`actors, futures, actors.Values
      ensures Valid()
      ensures closed ==>
        && posted == Err(RouterClosed) && actors == old(actors) && futures.fates == old(futures.fates)
        && forall x | x in actors :: actors[x].Now() == old(actors[x].Now())
      ensures !closed ==>
        && session in actors && actors == old(actors)[session := actors[session]]
        && (session in old(actors) ==> actors[session] == old(actors)[session])
        && (forall x | x in old(actors) && x != session :: actors[x].Now() == old(actors[x].Now()))
        && var before := if session in old(actors) then old(actors[session].Now()) else NewActor(session);
           && (posted.Ok? <==> Accepts(before, limit))
           && (posted.Ok? ==> posted.value == |old(futures.fates)|)
           && (posted.Ok? ==> futures.fates == old(futures.fates) + [Pending])
           && (posted.Ok? ==> actors[session].Now() == before.(mailbox := before.mailbox + [Some(posted.value)]))
           && (posted.Err? ==> actors[session].Now() == before && futures.fates == old(futures.fates))
    {
      if closed {
        return Err(RouterClosed);
      }
      assert session in actors ==> actors[session] in actors.Values;
      var actor := ActorFor(session);
      assert actors[session] == actor;
      posted := actor.Post();
    }

    /** One step of the sweep: the actor leaves the router and is asked to stop. */
    method Pop(session: string) returns (actor: SessionActor)
      requires Valid() && session in actors
      modifies this`actors, actors.Values
      ensures Valid() && actor == old(actors)[session] && actors == old(actors) - {session}
      ensures actor.Now() == Closing(old(actors[session].Now()))
      ensures forall x | x in actors :: actors[x].Now() == old(actors[x].Now())
    {
      actor := actors[session];
      actors := actors - {session};
      actor.RequestClose();
    }
  }
}
