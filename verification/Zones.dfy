/**
 * A time zone as a list of offset changes, with the two readings of a repeated wall time that
 * PEP 495 defines. Instants and wall clocks are counted in microseconds; a wall clock reads
 * instant plus offset.
 */
module Zones {
  import opened Wrappers

  const MINUTE := 60_000_000

  datatype Transition = Transition(at: int, offset: int)
  datatype Zone = Zone(first: int, transitions: seq<Transition>)

  /** The offset in force after the first `i` transitions. */
  function Offset(z: Zone, i: nat): int
    requires i <= |z.transitions|
  {
    if i == 0 then z.first else z.transitions[i - 1].offset
  }

  function At(z: Zone, i: nat): int
    requires i < |z.transitions|
  {
    z.transitions[i].at
  }

  function Jump(z: Zone, i: nat): int
    requires i < |z.transitions|
  {
    Offset(z, i + 1) - Offset(z, i)
  }

  function Abs(x: int): int {
    if x < 0 then -x else x
  }

  function Max(a: int, b: int): int {
    if a < b then b else a
  }

  function Min(a: int, b: int): int {
    if a < b then a else b
  }

  /** Transitions are further apart than the jumps at either end, by a minute. */
  ghost predicate Spaced(z: Zone) {
    forall i | 0 <= i < |z.transitions| - 1 ::
      At(z, i + 1) - At(z, i) >= Abs(Jump(z, i)) + Abs(Jump(z, i + 1)) + MINUTE
  }

  // ----- instant to wall clock

  /** How many of the first `n` transitions are at or before `t`, searching from the latest. */
  function Passed(z: Zone, t: int, n: nat): (i: nat)
    requires n <= |z.transitions|
    ensures i <= n
  {
    if n == 0 || At(z, n - 1) <= t then n else Passed(z, t, n - 1)
  }

  function Reading(z: Zone, t: int): int {
    t + Offset(z, Passed(z, t, |z.transitions|))
  }

  // ----- wall clock to instant

  /** Where on the wall clock a transition takes effect: the later reading for fold 0, the earlier for fold 1. */
  function Edge(z: Zone, i: nat, fold: nat): int
    requires i < |z.transitions|
  {
    At(z, i) + if fold == 0 then Max(Offset(z, i), Offset(z, i + 1)) else Min(Offset(z, i), Offset(z, i + 1))
  }

  function PassedOnWall(z: Zone, w: int, fold: nat, n: nat): (i: nat)
    requires n <= |z.transitions|
    ensures i <= n
  {
    if n == 0 || Edge(z, n - 1, fold) <= w then n else PassedOnWall(z, w, fold, n - 1)
  }

  function WallOffset(z: Zone, w: int, fold: nat): int {
    Offset(z, PassedOnWall(z, w, fold, |z.transitions|))
  }

  /** `_to_utc`: the fold-0 instant, if it reads back as `w`. */
  function ToUtc(z: Zone, w: int): Option<int> {
    var t := w - WallOffset(z, w, 0);
    if Reading(z, t) == w then Some(t) else None
  }

  // ----- the search index, by its neighbours

  lemma {:induction false} PassedOnWallBounds(z: Zone, w: int, fold: nat, n: nat)
    requires n <= |z.transitions|
    ensures var i := PassedOnWall(z, w, fold, n);
            (i == 0 || Edge(z, i - 1, fold) <= w) && (i < n ==> w < Edge(z, i, fold))
  {
    if n != 0 && Edge(z, n - 1, fold) > w {
      PassedOnWallBounds(z, w, fold, n - 1);
    }
  }

  lemma {:induction false} TransitionsApart(z: Zone, i: nat, j: nat)
    requires Spaced(z) && i < j < |z.transitions|
    ensures At(z, i) + Abs(Jump(z, i)) + MINUTE <= At(z, j) - Abs(Jump(z, j))
    decreases j - i
  {
    if i + 1 < j {
      TransitionsApart(z, i, j - 1);
      assert At(z, j - 1 + 1) - At(z, j - 1) >= MINUTE + Abs(Jump(z, j - 1)) + Abs(Jump(z, j));
    } else {
      assert At(z, i + 1) - At(z, i) >= MINUTE + Abs(Jump(z, i)) + Abs(Jump(z, i + 1));
    }
  }

  /** The search finds the one index whose neighbouring transitions straddle the instant. */
  lemma {:induction false} PassedIs(z: Zone, t: int, i: nat, n: nat)
    requires Spaced(z) && i <= n <= |z.transitions|
    requires i == 0 || At(z, i - 1) <= t
    requires i < n ==> t < At(z, i)
    ensures Passed(z, t, n) == i
  {
    if i < n {
      if i < n - 1 {
        TransitionsApart(z, i, n - 1);
      }
      PassedIs(z, t, i, n - 1);
    }
  }

  /** The wall reading lies in the hole a forward jump leaves. */
  ghost predicate InGap(z: Zone, w: int, i: nat) {
    i < |z.transitions| && At(z, i) + Offset(z, i) <= w < At(z, i) + Offset(z, i + 1)
  }

  /** Just before transition `i` takes effect on the wall, the fold-0 instant is before it, or in the gap past it. */
  lemma FoldZero(z: Zone, w: int)
    requires Spaced(z)
    ensures var i := PassedOnWall(z, w, 0, |z.transitions|);
            var t := w - Offset(z, i);
            && (i > 0 ==> At(z, i - 1) <= t)
            && (InGap(z, w, i) ==> ToUtc(z, w) == None)
            && (!InGap(z, w, i) ==> ToUtc(z, w) == Some(t) && (i < |z.transitions| ==> t < At(z, i)))
            && (InGap(z, w, i) ==> WallOffset(z, w, 1) == Offset(z, i + 1))
  {
    var n := |z.transitions|;
    var i := PassedOnWall(z, w, 0, n);
    var t := w - Offset(z, i);
    PassedOnWallBounds(z, w, 0, n);
    if InGap(z, w, i) {
      if i + 1 < n {
        TransitionsApart(z, i, i + 1);
      }
      PassedIs(z, t, i + 1, n);
      OnWallIs(z, w, 1, i + 1, n);
    } else {
      PassedIs(z, t, i, n);
    }
  }

  /** The wall search finds the index whose neighbouring edges straddle the reading. */
  lemma {:induction false} OnWallIs(z: Zone, w: int, fold: nat, i: nat, n: nat)
    requires Spaced(z) && i <= n <= |z.transitions|
    requires i == 0 || Edge(z, i - 1, fold) <= w
    requires i < n ==> w < Edge(z, i, fold)
    ensures PassedOnWall(z, w, fold, n) == i
  {
    if i < n {
      if i < n - 1 {
        EdgesApart(z, i, n - 1, fold);
      }
      OnWallIs(z, w, fold, i, n - 1);
    }
  }

  lemma {:induction false} EdgesApart(z: Zone, i: nat, j: nat, fold: nat)
    requires Spaced(z) && i < j < |z.transitions|
    ensures Edge(z, i, fold) + MINUTE <= Edge(z, j, fold)
    decreases j - i
  {
    if i + 1 < j {
      EdgesApart(z, i, j - 1, fold);
    }
    assert At(z, j - 1 + 1) - At(z, j - 1) >= MINUTE + Abs(Jump(z, j - 1)) + Abs(Jump(z, j));
  }

  // ----- what the fold-0 instant means

  lemma PassedBounds(z: Zone, t: int, n: nat)
    requires n <= |z.transitions|
    ensures var i := Passed(z, t, n); (i == 0 || At(z, i - 1) <= t) && (i < n ==> t < At(z, i))
  {
  }

  /** A reading is repeated at most once more: the fold-0 instant is the first that reads `w`. */
  lemma ToUtcIsFirst(z: Zone, w: int, t: int)
    requires Spaced(z) && Reading(z, t) == w
    ensures ToUtc(z, w).Some? && ToUtc(z, w).value <= t && Reading(z, ToUtc(z, w).value) == w
  {
    var n := |z.transitions|;
    var i, j := PassedOnWall(z, w, 0, n), Passed(z, t, n);
    PassedOnWallBounds(z, w, 0, n);
    PassedBounds(z, t, n);
    FoldZero(z, w);
    if i < j {
      NotAhead(z, w, t, i, j);
    } else if j < i {
      NotBehind(z, w, t, i, j);
    }
  }

  lemma NotAhead(z: Zone, w: int, t: int, i: nat, j: nat)
    requires Spaced(z) && i < j <= |z.transitions|
    requires w < Edge(z, i, 0)
    requires At(z, j - 1) <= t && w == t + Offset(z, j)
    ensures j == i + 1 && !InGap(z, w, i) && w - Offset(z, i) <= t
  {
    if i < j - 1 {
      EdgesApart(z, i, j - 1, 0);
      assert Edge(z, j - 1, 0) <= w + Abs(Jump(z, j - 1));
      TransitionsApart(z, i, j - 1);
      OffsetsClose(z, i, j);
    }
  }

  lemma NotBehind(z: Zone, w: int, t: int, i: nat, j: nat)
    requires Spaced(z) && j < i <= |z.transitions|
    requires Edge(z, i - 1, 0) <= w
    ensures t < At(z, j) ==> w != t + Offset(z, j)
  {
    if j < i - 1 {
      EdgesApart(z, j, i - 1, 0);
    }
  }

  lemma {:induction false} OffsetsClose(z: Zone, i: nat, j: nat)
    requires Spaced(z) && i < j - 1 && j <= |z.transitions|
    ensures At(z, i) + Max(Offset(z, i), Offset(z, i + 1)) <= At(z, j - 1) + Offset(z, j)
    decreases j - i
  {
    EdgesApart(z, i, j - 1, 1);
    assert At(z, i + 1) - At(z, i) >= MINUTE + Abs(Jump(z, i)) + Abs(Jump(z, i + 1));
    if i + 1 < j - 1 {
      OffsetsClose(z, i + 1, j);
    }
  }

  // ----- the instant a wall minute fires at

  function AfterGapFrom(z: Zone, probe: int, edge: int): Option<int>
    decreases edge - probe
  {
    if probe >= edge then None
    else if ToUtc(z, probe + MINUTE).Some? then ToUtc(z, probe + MINUTE)
    else AfterGapFrom(z, probe + MINUTE, edge)
  }

  /** `_after_gap` */
  function AfterGap(z: Zone, w: int): Option<int> {
    var ahead, behind := WallOffset(z, w, 1), WallOffset(z, w, 0);
    if ahead <= behind then None else AfterGapFrom(z, w, w + (ahead - behind))
  }

  function Inst(z: Zone, w: int): Option<int> {
    if ToUtc(z, w).Some? then ToUtc(z, w) else AfterGap(z, w)
  }

  ghost predicate Reads(z: Zone, w: int) {
    exists t :: Reading(z, t) == w
  }

  lemma ReadsIffToUtc(z: Zone, w: int)
    requires Spaced(z)
    ensures Reads(z, w) <==> ToUtc(z, w).Some?
  {
    if Reads(z, w) {
      var t :| Reading(z, t) == w;
      ToUtcIsFirst(z, w, t);
    }
  }

  /** `x` is the first pass over the first reading at or after `w`, in steps of a minute, that any instant has. */
  ghost predicate FiresAt(z: Zone, w: int, x: int, k: nat) {
    && ToUtc(z, w + k * MINUTE) == Some(x)
    && forall l | 0 <= l < k :: !Reads(z, w + l * MINUTE)
  }

  /** Past the hole: the first whole-minute step beyond a gap is read, within a minute of the jump. */
  lemma PastGap(z: Zone, w: int, i: nat)
    requires Spaced(z) && i < |z.transitions| && Jump(z, i) > 0
    requires At(z, i) + Offset(z, i + 1) <= w < At(z, i) + Offset(z, i + 1) + MINUTE
    ensures ToUtc(z, w) == Some(w - Offset(z, i + 1))
  {
    if i + 1 < |z.transitions| {
      assert At(z, i + 1) - At(z, i) >= MINUTE + Abs(Jump(z, i)) + Abs(Jump(z, i + 1));
    }
    OnWallIs(z, w, 0, i + 1, |z.transitions|);
    FoldZero(z, w);
  }

  /** Inside the hole nothing is read. */
  lemma WithinGap(z: Zone, w: int, i: nat)
    requires Spaced(z) && InGap(z, w, i)
    ensures PassedOnWall(z, w, 0, |z.transitions|) == i && ToUtc(z, w) == None
  {
    if i > 0 {
      assert At(z, i - 1 + 1) - At(z, i - 1) >= MINUTE + Abs(Jump(z, i - 1)) + Abs(Jump(z, i));
    }
    OnWallIs(z, w, 0, i, |z.transitions|);
    FoldZero(z, w);
  }

  lemma {:induction false} ProbeOut(z: Zone, w: int, probe: int, i: nat, k: nat) returns (x: int, l: nat)
    requires Spaced(z) && InGap(z, w, i) && InGap(z, probe, i) && probe == w + k * MINUTE
    requires forall l | 0 <= l <= k :: !Reads(z, w + l * MINUTE)
    ensures AfterGapFrom(z, probe, w + Jump(z, i)) == Some(x) && FiresAt(z, w, x, l)
    ensures At(z, i) <= x < At(z, i) + MINUTE
    decreases At(z, i) + Offset(z, i + 1) - probe
  {
    var next := probe + MINUTE;
    assert next == w + (k + 1) * MINUTE;
    if InGap(z, next, i) {
      WithinGap(z, next, i);
      ReadsIffToUtc(z, next);
      x, l := ProbeOut(z, w, next, i, k + 1);
    } else {
      PastGap(z, next, i);
      x, l := next - Offset(z, i + 1), k + 1;
    }
  }

  /** Every wall minute fires: at its first pass, or just past the gap that swallowed it. */
  lemma InstFires(z: Zone, w: int) returns (x: int, k: nat)
    requires Spaced(z)
    ensures Inst(z, w) == Some(x) && FiresAt(z, w, x, k)
    ensures k > 0 ==> exists i: nat :: InGap(z, w, i) && At(z, i) <= x < At(z, i) + MINUTE
  {
    FoldZero(z, w);
    var i := PassedOnWall(z, w, 0, |z.transitions|);
    if InGap(z, w, i) {
      ReadsIffToUtc(z, w);
      assert w == w + 0 * MINUTE;
      x, k := ProbeOut(z, w, w, i, 0);
    } else {
      x, k := w - Offset(z, i), 0;
    }
  }

  lemma {:induction false} WallSearchMonotone(z: Zone, v: int, w: int, fold: nat, n: nat)
    requires v <= w && n <= |z.transitions|
    ensures PassedOnWall(z, v, fold, n) <= PassedOnWall(z, w, fold, n)
  {
    if n > 0 && Edge(z, n - 1, fold) > w {
      WallSearchMonotone(z, v, w, fold, n - 1);
    }
  }

  /** First passes keep the order of their readings. */
  lemma FirstPassMonotone(z: Zone, v: int, w: int)
    requires Spaced(z) && v < w && ToUtc(z, v).Some? && ToUtc(z, w).Some?
    ensures ToUtc(z, v).value < ToUtc(z, w).value
  {
    FoldZero(z, v);
    FoldZero(z, w);
    var n := |z.transitions|;
    WallSearchMonotone(z, v, w, 0, n);
    var i, j := PassedOnWall(z, v, 0, n), PassedOnWall(z, w, 0, n);
    if i + 1 < j {
      TransitionsApart(z, i, j - 1);
    }
  }

  /** Later wall minutes never fire earlier. */
  lemma InstMonotone(z: Zone, v: int, w: int, steps: nat)
    requires Spaced(z) && w == v + steps * MINUTE
    ensures Inst(z, v).Some? && Inst(z, w).Some? && Inst(z, v).value <= Inst(z, w).value
  {
    var x, k := InstFires(z, v);
    var y, l := InstFires(z, w);
    ReadsIffToUtc(z, w + l * MINUTE);
    assert w + l * MINUTE == v + (steps + l) * MINUTE;
    assert k <= steps + l;
    if k < steps + l {
      Ordered(v, k, steps + l);
      FirstPassMonotone(z, v + k * MINUTE, w + l * MINUTE);
    }
  }

  lemma Ordered(v: int, a: nat, b: nat)
    requires a < b
    ensures v + a * MINUTE < v + b * MINUTE
  {
  }

  /** How far past the jump a forward jump's far edge is short of a whole minute of the wall clock. */
  function ShortOfMinute(z: Zone, i: nat): int
    requires i < |z.transitions|
  {
    (-(At(z, i) + Offset(z, i + 1))) % MINUTE
  }

  /** The first whole minute that the wall clock shows after a forward jump. */
  function Landing(z: Zone, i: nat): int
    requires i < |z.transitions|
  {
    At(z, i) + Offset(z, i + 1) + ShortOfMinute(z, i)
  }

  /** A whole minute that a forward jump skips fires at the first whole minute the clock then shows. */
  lemma GapFiresExactly(z: Zone, v: int, i: nat)
    requires Spaced(z) && InGap(z, v, i) && v % MINUTE == 0
    ensures Inst(z, v) == Some(At(z, i) + ShortOfMinute(z, i))
  {
    var x, k := InstFires(z, v);
    var landing := Landing(z, i);
    var steps := (landing - v) / MINUTE;
    assert landing % MINUTE == 0 && landing == v + steps * MINUTE;
    PastGap(z, landing, i);
    ReadsIffToUtc(z, landing);
    assert k <= steps;
    if k < steps {
      Ordered(v, k, steps);
      WholeSteps(v + k * MINUTE, landing, steps - k);
      assert InGap(z, v + k * MINUTE, i);
      WithinGap(z, v + k * MINUTE, i);
    }
  }

  lemma WholeSteps(a: int, landing: int, steps: nat)
    requires steps > 0 && landing == a + steps * MINUTE
    ensures a <= landing - MINUTE
  {
  }

  /** The clock has jumped over whole minute `v` and has not yet come to the minute it fires at. */
  ghost predicate Pending(z: Zone, moment: int, v: int, i: nat) {
    InGap(z, v, i) && v % MINUTE == 0 && At(z, i) <= moment < At(z, i) + ShortOfMinute(z, i)
  }

  /** The moment is less than a minute past a forward jump that lands off the minute. */
  ghost predicate JustJumped(z: Zone, moment: int) {
    exists v, i: nat :: Pending(z, moment, v, i)
  }

  /** A wall minute the clock has already reached does not fire again later, unless it is pending. */
  lemma PendingOrFired(z: Zone, v: int, moment: int) returns (i: nat)
    requires Spaced(z) && v % MINUTE == 0 && v <= Reading(z, moment)
    ensures Inst(z, v).Some? && (Inst(z, v).value <= moment || Pending(z, moment, v, i))
  {
    i := 0;
    var now := Reading(z, moment);
    var x, k := InstFires(z, v);
    ToUtcIsFirst(z, now, moment);
    if k > 0 {
      i :| InGap(z, v, i) && At(z, i) <= x < At(z, i) + MINUTE;
      GapFiresExactly(z, v, i);
      JumpIsPast(z, v, moment, i);
    } else {
      assert v + 0 * MINUTE == v;
      if v < now {
        FirstPassMonotone(z, v, now);
      }
    }
  }

  /** A clock that shows more than a skipped reading has made the jump that skipped it. */
  lemma JumpIsPast(z: Zone, v: int, moment: int, i: nat)
    requires Spaced(z) && InGap(z, v, i) && v <= Reading(z, moment)
    ensures At(z, i) <= moment
  {
    var now, end := Reading(z, moment), At(z, i) + Offset(z, i + 1);
    ToUtcIsFirst(z, now, moment);
    if now < end {
      WithinGap(z, now, i);
    }
    PastGap(z, end, i);
    if end < now {
      FirstPassMonotone(z, end, now);
    }
  }

  /** A pending minute is behind the clock and fires ahead of it. */
  lemma PendingFiresLater(z: Zone, moment: int, v: int, i: nat)
    requires Spaced(z) && Pending(z, moment, v, i)
    ensures v < Reading(z, moment) && Inst(z, v).Some? && Inst(z, v).value > moment
  {
    GapFiresExactly(z, v, i);
    if i + 1 < |z.transitions| {
      TransitionsApart(z, i, i + 1);
    }
    PassedIs(z, moment, i + 1, |z.transitions|);
  }

  /** The clock comes next to the landing of the jump, which fires when the pending minute does. */
  lemma LandingIsNext(z: Zone, moment: int, v: int, i: nat)
    requires Spaced(z) && Pending(z, moment, v, i)
    ensures Landing(z, i) % MINUTE == 0 && Reading(z, moment) < Landing(z, i) <= Reading(z, moment) + MINUTE
    ensures ToUtc(z, Landing(z, i)).Some? && Inst(z, Landing(z, i)) == Inst(z, v)
  {
    GapFiresExactly(z, v, i);
    if i + 1 < |z.transitions| {
      TransitionsApart(z, i, i + 1);
    }
    PassedIs(z, moment, i + 1, |z.transitions|);
    PastGap(z, Landing(z, i), i);
  }

  /** A minute past one that is read fires strictly later. */
  lemma LaterThanRead(z: Zone, v: int, w: int)
    requires Spaced(z) && v < w && ToUtc(z, v).Some?
    ensures Inst(z, v).Some? && Inst(z, w).Some? && Inst(z, v).value < Inst(z, w).value
  {
    var x, k := InstFires(z, w);
    assert v < w + k * MINUTE;
    FirstPassMonotone(z, v, w + k * MINUTE);
  }

  /** Every wall minute the clock has reached has fired, if and only if the clock has not just jumped. */
  lemma AlreadyFired(z: Zone, moment: int)
    requires Spaced(z)
    ensures (forall v | v % MINUTE == 0 && v <= Reading(z, moment) :: Inst(z, v).Some? && Inst(z, v).value <= moment)
       <==> !JustJumped(z, moment)
  {
    if JustJumped(z, moment) {
      var v, i: nat :| Pending(z, moment, v, i);
      PendingFiresLater(z, moment, v, i);
    } else {
      forall v | v % MINUTE == 0 && v <= Reading(z, moment) ensures Inst(z, v).Some? && Inst(z, v).value <= moment {
        var _ := PendingOrFired(z, v, moment);
      }
    }
  }
}
