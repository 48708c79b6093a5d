/** Choosing which recalled chunks go in the prompt (siatt/memory/retrieve.py). */
module Packing {
  import opened Candidates

  /** The token budget and what a snippet costs. */
  datatype Room = Room(budget: int, count: string -> nat)

  /** What has been packed so far. */
  datatype Progress = Progress(used: nat, seen: set<string>, chosen: map<string, string>)

  datatype Pass = Pinned | Width(reserve: bool) | Depth(reserve: bool)

  datatype Retrieval = Retrieval(kept: seq<Candidate>, pinned: seq<string>, snippets: seq<string>, used: nat)

  const EMPTY := Progress(0, {}, map[])

  function Cost(c: Candidate, room: Room): nat {
    room.count(Snippet(c))
  }

  predicate Fits(p: Progress, c: Candidate, room: Room) {
    p.used + Cost(c, room) <= room.budget
  }

  function Taking(p: Progress, c: Candidate, room: Room): Progress {
    Progress(p.used + Cost(c, room), p.seen + {c.memoryId}, p.chosen[c.chunkId := Snippet(c)])
  }

  /** Whether a pass considers a candidate at all. */
  predicate Eligible(pass: Pass, p: Progress, c: Candidate) {
    match pass
    case Pinned => c.pinned && c.memoryId !in p.seen
    case Width(reserve) => c.memoryId !in p.seen && !(reserve && c.pinned)
    case Depth(reserve) => c.chunkId !in p.chosen && c.memoryId in p.seen && !(reserve && c.pinned)
  }

  /** One pass over the ranking: how many it took, and what is packed after it. */
  function Run(pass: Pass, ranked: seq<Candidate>, limit: int, room: Room, start: Progress): (nat, Progress) {
    if ranked == [] then (0, start)
    else
      var (taken, p) := Run(pass, ranked[..|ranked| - 1], limit, room, start);
      var c := ranked[|ranked| - 1];
      if taken < limit && Eligible(pass, p, c) && Fits(p, c, room) then (taken + 1, Taking(p, c, room))
      else (taken, p)
  }

  /** What is packed after each of the three passes. */
  function AfterPinned(ranked: seq<Candidate>, limit: int, reserve: bool, room: Room): Progress {
    if reserve then Run(Pinned, ranked, limit, room, EMPTY).1 else EMPTY
  }

  function AfterWidth(ranked: seq<Candidate>, limit: int, reserve: bool, room: Room): Progress {
    Run(Width(reserve), ranked, limit, room, AfterPinned(ranked, limit, reserve, room)).1
  }

  function AfterDepth(ranked: seq<Candidate>, limit: int, reserve: bool, room: Room): Progress {
    Run(Depth(reserve), ranked, limit, room, AfterWidth(ranked, limit, reserve, room)).1
  }

  /** The candidates whose chunk was chosen, in rank order. */
  function Kept(ranked: seq<Candidate>, chosen: map<string, string>): seq<Candidate> {
    if ranked == [] then []
    else
      var c := ranked[|ranked| - 1];
      var before := Kept(ranked[..|ranked| - 1], chosen);
      if c.chunkId in chosen then before + [c] else before
  }

  /** The chosen snippets of the pinned, or of the other, candidates, in rank order. */
  function Chosen(ranked: seq<Candidate>, chosen: map<string, string>, pinned: bool): seq<string> {
    if ranked == [] then []
    else
      var c := ranked[|ranked| - 1];
      var before := Chosen(ranked[..|ranked| - 1], chosen, pinned);
      if c.chunkId in chosen && c.pinned == pinned then before + [chosen[c.chunkId]] else before
  }

  function Packed(ranked: seq<Candidate>, limit: int, reserve: bool, room: Room): Retrieval {
    var p := AfterDepth(ranked, limit, reserve, room);
    Retrieval(Kept(ranked, p.chosen), Chosen(ranked, p.chosen, true), Chosen(ranked, p.chosen, false), p.used)
  }

  /** The packer's running state. */
  class Packer {
    const room: Room
    var used: nat
    var seen: set<string>
    var chosen: map<string, string>

    constructor (room: Room)
      ensures Now() == EMPTY && this.room == room
    {
      this.room := room;
      used, seen, chosen := 0, {}, map[];
    }

    function Now(): Progress
      reads this
    {
      Progress(used, seen, chosen)
    }

    method Take(c: Candidate) returns (taken: bool)
      modifies this
      ensures taken <==> Fits(old(Now()), c, room)
      ensures Now() == if taken then Taking(old(Now()), c, room) else old(Now())
    {
      var snippet := Snippet(c);
      var cost := room.count(snippet);
      if used + cost > room.budget {
        return false;
      }
      used := used + cost;
      seen := seen + {c.memoryId};
      chosen := chosen[c.chunkId := snippet];
      return true;
    }

    method TakePinned(ranked: seq<Candidate>, limit: int)
      modifies this
      ensures Now() == Run(Pinned, ranked, limit, room, old(Now())).1
    {
      RunNothing(Pinned, ranked, limit, room, Now());
      hide Run, Fits, Taking;
      var taken, i := 0, 0;
      while i < |ranked|
        invariant 0 <= i <= |ranked|
        invariant (taken, Now()) == Run(Pinned, ranked[..i], limit, room, old(Now()))
      {
        if taken >= limit {
          break;
        }
        RunStep(Pinned, ranked, i, limit, room, old(Now()));
        var candidate := ranked[i];
        i := i + 1;
        if !candidate.pinned {
          continue;
        }
        if candidate.memoryId !in seen {
          var ok := Take(candidate);
          if ok { taken := taken + 1; }
        }
      }
      RunFull(Pinned, ranked, i, limit, room, old(Now()));
    }

    method TakeWidth(ranked: seq<Candidate>, limit: int, reserve: bool)
      modifies this
      ensures Now() == Run(Width(reserve), ranked, limit, room, old(Now())).1
    {
      RunNothing(Width(reserve), ranked, limit, room, Now());
      hide Run, Fits, Taking;
      var taken, i := 0, 0;
      while i < |ranked|
        invariant 0 <= i <= |ranked|
        invariant (taken, Now()) == Run(Width(reserve), ranked[..i], limit, room, old(Now()))
      {
        if taken >= limit {
          break;
        }
        RunStep(Width(reserve), ranked, i, limit, room, old(Now()));
        var candidate := ranked[i];
        i := i + 1;
        if candidate.memoryId in seen {
          continue;
        }
        if reserve && candidate.pinned {
          continue;
        }
        var ok := Take(candidate);
        if ok { taken := taken + 1; }
      }
      RunFull(Width(reserve), ranked, i, limit, room, old(Now()));
    }

    method TakeDepth(ranked: seq<Candidate>, limit: int, reserve: bool)
      modifies this
      ensures Now() == Run(Depth(reserve), ranked, limit, room, old(Now())).1
    {
      RunNothing(Depth(reserve), ranked, limit, room, Now());
      hide Run, Fits, Taking;
      var taken, i := 0, 0;
      while i < |ranked|
        invariant 0 <= i <= |ranked|
        invariant (taken, Now()) == Run(Depth(reserve), ranked[..i], limit, room, old(Now()))
      {
        if taken >= limit {
          break;
        }
        RunStep(Depth(reserve), ranked, i, limit, room, old(Now()));
        var candidate := ranked[i];
        i := i + 1;
        if candidate.chunkId in chosen || candidate.memoryId !in seen {
          continue;
        }
        if reserve && candidate.pinned {
          continue;
        }
        var ok := Take(candidate);
        if ok { taken := taken + 1; }
      }
      RunFull(Depth(reserve), ranked, i, limit, room, old(Now()));
    }
  }

  method Pack(ranked: seq<Candidate>, limit: int, reserve: bool, room: Room) returns (result: Retrieval)
    ensures result == Packed(ranked, limit, reserve, room)
  {
    var packer := new Packer(room);
    if reserve {
      packer.TakePinned(ranked, limit);
    }
    packer.TakeWidth(ranked, limit, reserve);
    packer.TakeDepth(ranked, limit, reserve);
    var chosen := packer.chosen;
    result := Retrieval([], [], [], packer.used);
    for i := 0 to |ranked|
      invariant result == Retrieval(Kept(ranked[..i], chosen), Chosen(ranked[..i], chosen, true),
                                    Chosen(ranked[..i], chosen, false), packer.used)
    {
      assert ranked[..i + 1][..i] == ranked[..i];
      var candidate := ranked[i];
      if candidate.chunkId in chosen {
        var snippet := chosen[candidate.chunkId];
        result := result.(kept := result.kept + [candidate]);
        if candidate.pinned {
          result := result.(pinned := result.pinned + [snippet]);
        } else {
          result := result.(snippets := result.snippets + [snippet]);
        }
      }
    }
    assert ranked[..|ranked|] == ranked;
  }

  lemma RunNothing(pass: Pass, ranked: seq<Candidate>, limit: int, room: Room, start: Progress)
    ensures Run(pass, ranked[..0], limit, room, start) == (0, start)
  {
  }

  lemma RunStep(pass: Pass, ranked: seq<Candidate>, i: nat, limit: int, room: Room, start: Progress)
    requires i < |ranked|
    ensures var (taken, p) := Run(pass, ranked[..i], limit, room, start);
      Run(pass, ranked[..i + 1], limit, room, start)
      == if taken < limit && Eligible(pass, p, ranked[i]) && Fits(p, ranked[i], room)
         then (taken + 1, Taking(p, ranked[i], room)) else (taken, p)
  {
    assert ranked[..i + 1][..i] == ranked[..i];
  }

  /** A pass that has taken its limit takes nothing more. */
  lemma {:induction false} RunFull(pass: Pass, ranked: seq<Candidate>, i: nat, limit: int, room: Room, start: Progress)
    requires i <= |ranked|
    requires i == |ranked| || Run(pass, ranked[..i], limit, room, start).0 >= limit
    ensures Run(pass, ranked, limit, room, start) == Run(pass, ranked[..i], limit, room, start)
    decreases |ranked| - i
  {
    if i == |ranked| {
      assert ranked[..i] == ranked;
    } else {
      RunStep(pass, ranked, i, limit, room, start);
      RunFull(pass, ranked, i + 1, limit, room, start);
    }
  }

  // --- what is packed adds up, and fits ---

  ghost predicate ChunksDistinct(ranked: seq<Candidate>) {
    forall i, j | 0 <= i < j < |ranked| :: ranked[i].chunkId != ranked[j].chunkId
  }

  function TotalCost(kept: seq<Candidate>, room: Room): nat {
    if kept == [] then 0 else TotalCost(kept[..|kept| - 1], room) + Cost(kept[|kept| - 1], room)
  }

  /** Every chosen chunk is a candidate's, with its snippet, and its memory has been seen. */
  ghost predicate ChosenAreSeen(ranked: seq<Candidate>, p: Progress) {
    forall i | 0 <= i < |ranked| && ranked[i].chunkId in p.chosen ::
      ranked[i].memoryId in p.seen && p.chosen[ranked[i].chunkId] == Snippet(ranked[i])
  }

  ghost predicate Represented(ranked: seq<Candidate>, p: Progress, memory: string) {
    exists i :: 0 <= i < |ranked| && ranked[i].memoryId == memory && ranked[i].chunkId in p.chosen
  }

  /** What is packed weighs what it says and fits, and its memories are the ones seen. */
  ghost predicate Sound(ranked: seq<Candidate>, p: Progress, room: Room) {
    && p.used == TotalCost(Kept(ranked, p.chosen), room)
    && (p.used <= room.budget || p == EMPTY)
    && ChosenAreSeen(ranked, p)
    && forall m | m in p.seen :: Represented(ranked, p, m)
  }

  /** At most one chunk of any memory. */
  ghost predicate OnePerMemory(ranked: seq<Candidate>, p: Progress) {
    forall i, j | 0 <= i < j < |ranked| && ranked[i].memoryId == ranked[j].memoryId ::
      ranked[i].chunkId !in p.chosen || ranked[j].chunkId !in p.chosen
  }
}
