/** What the packer guarantees: room, fairness, depth, and pinned memories left alone. */
module PackingLaws {
  import opened Candidates
  import opened Packing
  import T = Text

  // --- one pass, step by step ---

  /** Taking one candidate puts no other within reach. */
  lemma StillLeft(pass: Pass, p: Progress, c: Candidate, d: Candidate, room: Room)
    requires Eligible(pass, p, c)
    ensures var q := Taking(p, c, room);
      && !Eligible(pass, q, c)
      && (Eligible(pass, q, d) ==> Eligible(pass, p, d))
      && (Fits(q, d, room) ==> Fits(p, d, room))
  {
    hide Snippet;
  }

  /** A pass that stopped short of its limit has left nothing eligible that would fit. */
  lemma {:induction false} RunFair(pass: Pass, ranked: seq<Candidate>, k: nat, limit: int, room: Room, start: Progress)
    requires k <= |ranked|
    requires Run(pass, ranked[..k], limit, room, start).0 < limit
    ensures var p := Run(pass, ranked[..k], limit, room, start).1;
      forall i | 0 <= i < k :: !Eligible(pass, p, ranked[i]) || !Fits(p, ranked[i], room)
  {
    hide Eligible;
    hide Fits;
    hide Taking;
    if k > 0 {
      RunStep(pass, ranked, k - 1, limit, room, start);
      RunFair(pass, ranked, k - 1, limit, room, start);
      var before, c := Run(pass, ranked[..k - 1], limit, room, start).1, ranked[k - 1];
      if Eligible(pass, before, c) && Fits(before, c, room) {
        forall i | 0 <= i < k
          ensures !Eligible(pass, Taking(before, c, room), ranked[i]) || !Fits(Taking(before, c, room), ranked[i], room)
        {
          StillLeft(pass, before, c, ranked[i], room);
        }
      }
    }
  }

  /** Nothing is ever unpacked, and the depth pass brings in no new memory. */
  lemma {:induction false} RunGrows(pass: Pass, ranked: seq<Candidate>, k: nat, limit: int, room: Room, start: Progress)
    requires k <= |ranked|
    ensures var (taken, p) := Run(pass, ranked[..k], limit, room, start);
      && (limit > 0 ==> taken <= limit) && (limit <= 0 ==> taken == 0)
      && start.used <= p.used && start.seen <= p.seen && start.chosen.Keys <= p.chosen.Keys
      && (pass.Depth? ==> p.seen == start.seen)
  {
    if k > 0 {
      RunStep(pass, ranked, k - 1, limit, room, start);
      RunGrows(pass, ranked, k - 1, limit, room, start);
    }
  }

  // --- sound bookkeeping ---

  lemma {:induction false} KeptOf(ranked: seq<Candidate>, a: map<string, string>, b: map<string, string>)
    requires forall i | 0 <= i < |ranked| :: ranked[i].chunkId in a <==> ranked[i].chunkId in b
    ensures Kept(ranked, a) == Kept(ranked, b)
  {
    if ranked != [] { KeptOf(ranked[..|ranked| - 1], a, b); }
  }

  lemma CostSnoc(kept: seq<Candidate>, c: Candidate, room: Room)
    ensures TotalCost(kept + [c], room) == TotalCost(kept, room) + Cost(c, room)
  {
    assert (kept + [c])[..|kept|] == kept;
  }

  /** Choosing one more chunk keeps one more candidate, at its price. */
  lemma {:induction false} KeepOneMore(ranked: seq<Candidate>, i: nat, chosen: map<string, string>, room: Room)
    requires ChunksDistinct(ranked) && i < |ranked| && ranked[i].chunkId !in chosen
    ensures var after := chosen[ranked[i].chunkId := Snippet(ranked[i])];
      && TotalCost(Kept(ranked, after), room) == TotalCost(Kept(ranked, chosen), room) + Cost(ranked[i], room)
      && |Kept(ranked, after)| == |Kept(ranked, chosen)| + 1
  {
    var front, last := ranked[..|ranked| - 1], ranked[|ranked| - 1];
    var after := chosen[ranked[i].chunkId := Snippet(ranked[i])];
    CostSnoc(Kept(front, chosen), last, room);
    CostSnoc(Kept(front, after), last, room);
    if i == |front| {
      KeptOf(front, chosen, after);
    } else {
      KeepOneMore(front, i, chosen, room);
    }
  }

  lemma EligibleIsNew(pass: Pass, ranked: seq<Candidate>, i: nat, p: Progress, room: Room)
    requires Sound(ranked, p, room) && i < |ranked| && Eligible(pass, p, ranked[i])
    ensures ranked[i].chunkId !in p.chosen
  {}

  lemma TakingIsSound(ranked: seq<Candidate>, i: nat, p: Progress, room: Room)
    requires ChunksDistinct(ranked) && Sound(ranked, p, room) && i < |ranked|
    requires ranked[i].chunkId !in p.chosen && Fits(p, ranked[i], room)
    ensures Sound(ranked, Taking(p, ranked[i], room), room)
  {
    hide Snippet;
    hide TotalCost;
    hide Kept;
    hide Represented;
    KeepOneMore(ranked, i, p.chosen, room);
    var after := Taking(p, ranked[i], room);
    forall m | m in after.seen ensures Represented(ranked, after, m) {
      StillRepresented(ranked, i, p, room, m);
    }
  }

  lemma StillRepresented(ranked: seq<Candidate>, i: nat, p: Progress, room: Room, memory: string)
    requires i < |ranked|
    requires Represented(ranked, p, memory) || memory == ranked[i].memoryId
    ensures Represented(ranked, Taking(p, ranked[i], room), memory)
  {
    hide Snippet;
    var after := Taking(p, ranked[i], room);
    if Represented(ranked, p, memory) {
      var j :| 0 <= j < |ranked| && ranked[j].memoryId == memory && ranked[j].chunkId in p.chosen;
      assert ranked[j].chunkId in after.chosen;
    } else {
      assert ranked[i].chunkId in after.chosen;
    }
  }

  lemma {:induction false} RunIsSound(pass: Pass, ranked: seq<Candidate>, k: nat, limit: int, room: Room,
                                      start: Progress)
    requires ChunksDistinct(ranked) && Sound(ranked, start, room) && k <= |ranked|
    ensures Sound(ranked, Run(pass, ranked[..k], limit, room, start).1, room)
    ensures |Kept(ranked, Run(pass, ranked[..k], limit, room, start).1.chosen)|
         == |Kept(ranked, start.chosen)| + Run(pass, ranked[..k], limit, room, start).0
  {
    hide Sound;
    hide Eligible;
    hide Fits;
    if k == 0 {
      assert ranked[..0] == [];
    } else {
      RunStep(pass, ranked, k - 1, limit, room, start);
      RunIsSound(pass, ranked, k - 1, limit, room, start);
      var (taken, p) := Run(pass, ranked[..k - 1], limit, room, start);
      if taken < limit && Eligible(pass, p, ranked[k - 1]) && Fits(p, ranked[k - 1], room) {
        EligibleIsNew(pass, ranked, k - 1, p, room);
        TakingIsSound(ranked, k - 1, p, room);
        KeepOneMore(ranked, k - 1, p.chosen, room);
      }
    }
  }

  /** The first two passes take one chunk of a memory. */
  lemma {:induction false} RunTakesOne(pass: Pass, ranked: seq<Candidate>, k: nat, limit: int, room: Room,
                                       start: Progress)
    requires !pass.Depth? && ChunksDistinct(ranked) && k <= |ranked|
    requires Sound(ranked, start, room) && OnePerMemory(ranked, start)
    ensures OnePerMemory(ranked, Run(pass, ranked[..k], limit, room, start).1)
  {
    hide Sound;
    hide OnePerMemory;
    hide Fits;
    if k > 0 {
      RunTakesOne(pass, ranked, k - 1, limit, room, start);
      RunStep(pass, ranked, k - 1, limit, room, start);
      RunIsSound(pass, ranked, k - 1, limit, room, start);
      var p := Run(pass, ranked[..k - 1], limit, room, start).1;
      if Eligible(pass, p, ranked[k - 1]) {
        TakingKeepsOne(ranked, k - 1, p, room);
      }
    }
  }

  lemma TakingKeepsOne(ranked: seq<Candidate>, i: nat, p: Progress, room: Room)
    requires ChunksDistinct(ranked) && Sound(ranked, p, room) && OnePerMemory(ranked, p)
    requires i < |ranked| && ranked[i].memoryId !in p.seen
    ensures OnePerMemory(ranked, Taking(p, ranked[i], room))
  {
    hide Snippet;
    hide Kept;
    hide TotalCost;
    hide Represented;
  }

  lemma {:induction false} NothingKept(ranked: seq<Candidate>)
    ensures Kept(ranked, map[]) == []
  {
    if ranked != [] { NothingKept(ranked[..|ranked| - 1]); }
  }

  lemma EmptyIsSound(ranked: seq<Candidate>, room: Room)
    ensures Sound(ranked, EMPTY, room) && OnePerMemory(ranked, EMPTY)
  {
    NothingKept(ranked);
  }

  // --- who is taken, and what for ---

  /** A candidate as it goes into the prompt. */
  function Line(c: Candidate): string {
    "[[" + c.memoryId + "]] (" + c.path + ")\n" + T.Strip(c.text)
  }

  /**
   * Whose turn it is: pinned ones of memories not packed yet; then any of those; then more of memories that are. With
   * room reserved for pinned ones, only their own pass takes them.
   */
  predicate Mine(pass: Pass, p: Progress, c: Candidate) {
    match pass
    case Pinned => c.pinned && c.memoryId !in p.seen
    case Width(reserve) => c.memoryId !in p.seen && (c.pinned ==> !reserve)
    case Depth(reserve) => c.memoryId in p.seen && c.chunkId !in p.chosen && (c.pinned ==> !reserve)
  }

  /** In rank order, a pass takes what is its to take and still fits the budget, up to its limit, and nothing else. */
  lemma PassTakes(pass: Pass, ranked: seq<Candidate>, i: nat, limit: int, room: Room, start: Progress)
    requires i < |ranked|
    ensures var (taken, p) := Run(pass, ranked[..i], limit, room, start);
            var (takenNext, q) := Run(pass, ranked[..i + 1], limit, room, start);
            var c := ranked[i];
            if taken < limit && Mine(pass, p, c) && p.used + room.count(Line(c)) <= room.budget then
              && takenNext == taken + 1 && q.used == p.used + room.count(Line(c))
              && q.seen == p.seen + {c.memoryId} && q.chosen == p.chosen[c.chunkId := Line(c)]
            else takenNext == taken && q == p
  {
    RunStep(pass, ranked, i, limit, room, start);
  }

  /** The lines of the pinned, or of the other, candidates. */
  function LinesOf(kept: seq<Candidate>, pinned: bool): seq<string> {
    if kept == [] then []
    else
      var c := kept[|kept| - 1];
      LinesOf(kept[..|kept| - 1], pinned) + if c.pinned == pinned then [Line(c)] else []
  }

  lemma {:induction false} ChosenAreLines(ranked: seq<Candidate>, chosen: map<string, string>, pinned: bool)
    requires forall i | 0 <= i < |ranked| && ranked[i].chunkId in chosen :: chosen[ranked[i].chunkId] == Line(ranked[i])
    ensures Chosen(ranked, chosen, pinned) == LinesOf(Kept(ranked, chosen), pinned)
  {
    if ranked != [] {
      var front, c := ranked[..|ranked| - 1], ranked[|ranked| - 1];
      ChosenAreLines(front, chosen, pinned);
      if c.chunkId in chosen {
        assert (Kept(front, chosen) + [c])[..|Kept(front, chosen)|] == Kept(front, chosen);
      }
    }
  }

  /** What is packed goes out in rank order, the pinned lines to the one destination and all the others to the other. */
  lemma PackedSplits(ranked: seq<Candidate>, limit: int, reserve: bool, room: Room)
    requires ChunksDistinct(ranked)
    ensures var r := Packed(ranked, limit, reserve, room);
            r.pinned == LinesOf(r.kept, true) && r.snippets == LinesOf(r.kept, false)
  {
    hide Run, Snippet, Line;
    var chosen := AfterDepth(ranked, limit, reserve, room).chosen;
    PassesAreSound(ranked, limit, reserve, room);
    forall i | 0 <= i < |ranked| && ranked[i].chunkId in chosen ensures chosen[ranked[i].chunkId] == Line(ranked[i]) {
      SnippetIsLine(ranked[i]);
    }
    ChosenAreLines(ranked, chosen, true);
    ChosenAreLines(ranked, chosen, false);
  }

  lemma SnippetIsLine(c: Candidate)
    ensures Snippet(c) == Line(c)
  {}

  /** And what is kept is every candidate whose chunk some pass chose. */
  lemma {:induction false} KeptAreChosen(ranked: seq<Candidate>, chosen: map<string, string>, c: Candidate)
    ensures c in Kept(ranked, chosen) <==> c in ranked && c.chunkId in chosen
  {
    if ranked != [] {
      var front, last := ranked[..|ranked| - 1], ranked[|ranked| - 1];
      KeptAreChosen(front, chosen, c);
      assert ranked == front + [last];
    }
  }

  // --- the three passes together ---

  function Allowance(limit: int): nat { if limit > 0 then limit else 0 }

  lemma PassesAreSound(ranked: seq<Candidate>, limit: int, reserve: bool, room: Room)
    requires ChunksDistinct(ranked)
    ensures Sound(ranked, AfterWidth(ranked, limit, reserve, room), room)
    ensures Sound(ranked, AfterDepth(ranked, limit, reserve, room), room)
    ensures OnePerMemory(ranked, AfterWidth(ranked, limit, reserve, room))
    ensures |Kept(ranked, AfterDepth(ranked, limit, reserve, room).chosen)| <= 3 * Allowance(limit)
  {
    hide Sound;
    hide OnePerMemory;
    hide Kept;
    assert ranked[..|ranked|] == ranked;
    EmptyIsSound(ranked, room);
    NothingKept(ranked);
    if reserve {
      RunIsSound(Pinned, ranked, |ranked|, limit, room, EMPTY);
      RunTakesOne(Pinned, ranked, |ranked|, limit, room, EMPTY);
      RunGrows(Pinned, ranked, |ranked|, limit, room, EMPTY);
    }
    var p1 := AfterPinned(ranked, limit, reserve, room);
    RunIsSound(Width(reserve), ranked, |ranked|, limit, room, p1);
    RunTakesOne(Width(reserve), ranked, |ranked|, limit, room, p1);
    RunGrows(Width(reserve), ranked, |ranked|, limit, room, p1);
    var p2 := AfterWidth(ranked, limit, reserve, room);
    RunIsSound(Depth(reserve), ranked, |ranked|, limit, room, p2);
    RunGrows(Depth(reserve), ranked, |ranked|, limit, room, p2);
  }

  /** `part` can be had from `whole` by dropping elements. */
  predicate Subsequence(part: seq<Candidate>, whole: seq<Candidate>) {
    if part == [] then true
    else if whole == [] then false
    else
      var rest := whole[..|whole| - 1];
      || (part[|part| - 1] == whole[|whole| - 1] && Subsequence(part[..|part| - 1], rest))
      || Subsequence(part, rest)
  }

  lemma {:induction false} KeptIsASubsequence(ranked: seq<Candidate>, chosen: map<string, string>)
    ensures Subsequence(Kept(ranked, chosen), ranked)
  {
    if ranked != [] {
      var front, c := ranked[..|ranked| - 1], ranked[|ranked| - 1];
      KeptIsASubsequence(front, chosen);
      if c.chunkId in chosen {
        assert (Kept(front, chosen) + [c])[..|Kept(front, chosen)|] == Kept(front, chosen);
      }
    }
  }

  /** What is packed is in rank order, weighs what the trace says, fits the budget, and is never
      more than three times the limit. */
  lemma PackedFits(ranked: seq<Candidate>, limit: int, reserve: bool, room: Room)
    requires ChunksDistinct(ranked)
    ensures var r := Packed(ranked, limit, reserve, room);
      && Subsequence(r.kept, ranked)
      && r.used == TotalCost(r.kept, room)
      && (r.used <= room.budget || r.kept == [])
      && |r.kept| <= 3 * Allowance(limit)
  {
    PassesAreSound(ranked, limit, reserve, room);
    KeptIsASubsequence(ranked, AfterDepth(ranked, limit, reserve, room).chosen);
    NothingKept(ranked);
  }

  /** A pass that took fewer than its limit left out, of what was its to take, only what does not
      fit in the room left at the very end. */
  lemma LeftOutForRoom(ranked: seq<Candidate>, limit: int, reserve: bool, room: Room, i: nat)
    requires i < |ranked|
    ensures var p1, p2, p3 := AfterPinned(ranked, limit, reserve, room), AfterWidth(ranked, limit, reserve, room),
                              AfterDepth(ranked, limit, reserve, room);
      && (reserve && Run(Pinned, ranked, limit, room, EMPTY).0 < limit && Eligible(Pinned, p3, ranked[i])
          ==> !Fits(p3, ranked[i], room))
      && (Run(Width(reserve), ranked, limit, room, p1).0 < limit && Eligible(Width(reserve), p3, ranked[i])
          ==> !Fits(p3, ranked[i], room))
      && (Run(Depth(reserve), ranked, limit, room, p2).0 < limit && Eligible(Depth(reserve), p3, ranked[i])
          ==> !Fits(p3, ranked[i], room))
  {
    hide Run;
    hide Snippet;
    assert ranked[..|ranked|] == ranked;
    var p1, p2 := AfterPinned(ranked, limit, reserve, room), AfterWidth(ranked, limit, reserve, room);
    if reserve && Run(Pinned, ranked, limit, room, EMPTY).0 < limit {
      RunFair(Pinned, ranked, |ranked|, limit, room, EMPTY);
    }
    if Run(Width(reserve), ranked, limit, room, p1).0 < limit {
      RunFair(Width(reserve), ranked, |ranked|, limit, room, p1);
    }
    if Run(Depth(reserve), ranked, limit, room, p2).0 < limit {
      RunFair(Depth(reserve), ranked, |ranked|, limit, room, p2);
    }
    RunGrows(Width(reserve), ranked, |ranked|, limit, room, p1);
    RunGrows(Depth(reserve), ranked, |ranked|, limit, room, p2);
  }

  /** A second chunk goes only to a memory that the first two passes packed, which gave it one. */
  lemma DepthFollowsWidth(ranked: seq<Candidate>, limit: int, reserve: bool, room: Room, i: nat)
    requires ChunksDistinct(ranked) && i < |ranked|
    requires ranked[i].chunkId in AfterDepth(ranked, limit, reserve, room).chosen
    ensures var wide := AfterWidth(ranked, limit, reserve, room);
      exists j | 0 <= j < |ranked| ::
        && ranked[j].memoryId == ranked[i].memoryId && ranked[j].chunkId in wide.chosen
        && forall l | 0 <= l < |ranked| && l != j && ranked[l].memoryId == ranked[j].memoryId ::
             ranked[l].chunkId !in wide.chosen
  {
    hide Run;
    hide Snippet;
    assert ranked[..|ranked|] == ranked;
    PassesAreSound(ranked, limit, reserve, room);
    var wide, deep := AfterWidth(ranked, limit, reserve, room), AfterDepth(ranked, limit, reserve, room);
    RunGrows(Depth(reserve), ranked, |ranked|, limit, room, wide);
    assert ranked[i].memoryId in deep.seen;
    assert Represented(ranked, wide, ranked[i].memoryId);
    var j :| 0 <= j < |ranked| && ranked[j].memoryId == ranked[i].memoryId && ranked[j].chunkId in wide.chosen;
    OnlyOne(ranked, wide, j);
  }

  lemma OnlyOne(ranked: seq<Candidate>, p: Progress, j: nat)
    requires OnePerMemory(ranked, p) && j < |ranked| && ranked[j].chunkId in p.chosen
    ensures forall l | 0 <= l < |ranked| && l != j && ranked[l].memoryId == ranked[j].memoryId ::
      ranked[l].chunkId !in p.chosen
  {}

  // --- pinned memories are not disturbed ---

  function OnlyPinned(ranked: seq<Candidate>): seq<Candidate> {
    if ranked == [] then []
    else
      var before := OnlyPinned(ranked[..|ranked| - 1]);
      if ranked[|ranked| - 1].pinned then before + [ranked[|ranked| - 1]] else before
  }

  lemma {:induction false} PinnedPassSeesPinned(ranked: seq<Candidate>, limit: int, room: Room)
    ensures Run(Pinned, ranked, limit, room, EMPTY) == Run(Pinned, OnlyPinned(ranked), limit, room, EMPTY)
  {
    if ranked != [] {
      var front, c := ranked[..|ranked| - 1], ranked[|ranked| - 1];
      PinnedPassSeesPinned(front, limit, room);
      if c.pinned {
        assert (OnlyPinned(front) + [c])[..|OnlyPinned(front)|] == OnlyPinned(front);
      }
    }
  }

  /** With pinned memories reserved, the later passes choose no pinned chunk. */
  lemma {:induction false} LaterPassesSkipPinned(pass: Pass, ranked: seq<Candidate>, k: nat, limit: int, room: Room,
                                                 start: Progress, i: nat)
    requires pass == Width(true) || pass == Depth(true)
    requires ChunksDistinct(ranked) && k <= |ranked| && i < |ranked| && ranked[i].pinned
    ensures var p, id := Run(pass, ranked[..k], limit, room, start).1, ranked[i].chunkId;
      && (id in p.chosen <==> id in start.chosen)
      && (id in p.chosen ==> p.chosen[id] == start.chosen[id])
  {
    hide Snippet;
    hide Fits;
    if k > 0 {
      RunStep(pass, ranked, k - 1, limit, room, start);
      LaterPassesSkipPinned(pass, ranked, k - 1, limit, room, start, i);
      assert ranked[i].chunkId == ranked[k - 1].chunkId ==> i == k - 1;
    }
  }

  lemma {:induction false} PinnedChosen(ranked: seq<Candidate>, a: map<string, string>, b: map<string, string>)
    requires forall i | 0 <= i < |ranked| && ranked[i].pinned ::
      var id := ranked[i].chunkId; (id in a <==> id in b) && (id in a ==> a[id] == b[id])
    ensures Chosen(ranked, a, true) == Chosen(OnlyPinned(ranked), b, true)
  {
    if ranked != [] {
      var front, c := ranked[..|ranked| - 1], ranked[|ranked| - 1];
      PinnedChosen(front, a, b);
      if c.pinned {
        assert (OnlyPinned(front) + [c])[..|OnlyPinned(front)|] == OnlyPinned(front);
      }
    }
  }

  lemma PinnedComesFromPinned(ranked: seq<Candidate>, limit: int, room: Room)
    requires ChunksDistinct(ranked)
    ensures Packed(ranked, limit, true, room).pinned
         == Chosen(OnlyPinned(ranked), Run(Pinned, OnlyPinned(ranked), limit, room, EMPTY).1.chosen, true)
  {
    hide Run;
    assert ranked[..|ranked|] == ranked;
    PinnedPassSeesPinned(ranked, limit, room);
    var p1, p2 := AfterPinned(ranked, limit, true, room), AfterWidth(ranked, limit, true, room);
    var p3 := AfterDepth(ranked, limit, true, room);
    forall i | 0 <= i < |ranked| && ranked[i].pinned
      ensures var id := ranked[i].chunkId;
        (id in p3.chosen <==> id in p1.chosen) && (id in p3.chosen ==> p3.chosen[id] == p1.chosen[id])
    {
      LaterPassesSkipPinned(Width(true), ranked, |ranked|, limit, room, p1, i);
      LaterPassesSkipPinned(Depth(true), ranked, |ranked|, limit, room, p2, i);
    }
    PinnedChosen(ranked, p3.chosen, p1.chosen);
  }

  /** Two rankings that agree on the pinned candidates pack the same pinned snippets, whatever
      else was asked: the cacheable prefix does not depend on the question. */
  lemma PinnedUndisturbed(a: seq<Candidate>, b: seq<Candidate>, limit: int, room: Room)
    requires ChunksDistinct(a) && ChunksDistinct(b) && OnlyPinned(a) == OnlyPinned(b)
    ensures Packed(a, limit, true, room).pinned == Packed(b, limit, true, room).pinned
  {
    hide Packed;
    PinnedComesFromPinned(a, limit, room);
    PinnedComesFromPinned(b, limit, room);
  }
}
