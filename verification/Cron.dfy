/** A five-field cron expression, and when it next fires (siatt/runner/cron.py). */
module Cron {
  import opened Civil
  import opened Wrappers
  import opened Zones

  datatype Expression = Expression(minutes: set<int>, hours: set<int>, days: set<int>, months: set<int>,
    weekdays: set<int>, eitherDay: bool)

  /** Minutes of a naive wall clock, counted from the midnight that starts day 0. */
  type WallMinute = int

  const DAY_MINUTES := 1440
  const HORIZON: int := 366 * 4 * DAY_MINUTES

  function DayNumber(w: WallMinute): int { w / DAY_MINUTES }
  function HourOf(w: WallMinute): int { w / 60 % 24 }
  function MinuteOf(w: WallMinute): int { w % 60 }
  function MonthAt(w: WallMinute): int { MonthOf(DayNumber(w)) }

  /** `isoweekday() % 7`: day 1 was a Monday, so the remainder counts from Sunday. */
  function WeekdayOf(n: int): int { n % 7 }

  predicate DayMatches(c: Expression, n: int) {
    var byMonth, byWeek := DayOf(n) in c.days, WeekdayOf(n) in c.weekdays;
    if c.eitherDay then byMonth || byWeek else byMonth && byWeek
  }

  predicate Matches(c: Expression, w: WallMinute) {
    && MinuteOf(w) in c.minutes
    && HourOf(w) in c.hours
    && MonthAt(w) in c.months
    && DayMatches(c, DayNumber(w))
  }

  // ----- the jumps

  /** `_next_month`: thirty-two days after the first, then back to the first. */
  function NextMonth(w: WallMinute): WallMinute {
    var first := DayNumber(w) - DayOf(DayNumber(w)) + 1;
    var later := first + 32;
    (later - DayOf(later) + 1) * DAY_MINUTES
  }

  function NextDay(w: WallMinute): WallMinute {
    (DayNumber(w) + 1) * DAY_MINUTES
  }

  function NextHour(w: WallMinute): WallMinute {
    (w / 60 + 1) * 60
  }

  function Jump(c: Expression, w: WallMinute): WallMinute {
    if MonthAt(w) !in c.months then NextMonth(w)
    else if !DayMatches(c, DayNumber(w)) then NextDay(w)
    else if HourOf(w) !in c.hours then NextHour(w)
    else w + 1
  }

  /** The days of a month are the ones around it that decode to it. */
  lemma WholeMonth(n: int, v: int)
    requires n - DayOf(n) < v <= n - DayOf(n) + DaysInMonth(YearOf(n), MonthOf(n))
    ensures MonthOf(v) == MonthOf(n)
  {
    DecodeIsADate(n);
    DecodeEncode(YearOf(n), MonthOf(n), v - n + DayOf(n));
    assert Ordinal(YearOf(n), MonthOf(n), v - n + DayOf(n)) == v;
  }

  /** Thirty-two days after the first of a month is early in the next one. */
  lemma IntoNextMonth(n: int)
    ensures DayOf(n - DayOf(n) + 33) == 33 - DaysInMonth(YearOf(n), MonthOf(n))
  {
    hide YearOf;
    hide MonthOf;
    hide DayOf;
    DecodeIsADate(n);
    var y, m := YearOf(n), MonthOf(n);
    if m == 12 {
      MonthsFillTheYear(y);
      DecodeEncode(y + 1, 1, 33 - DaysInMonth(y, m));
      assert Ordinal(y + 1, 1, 33 - DaysInMonth(y, m)) == n - DayOf(n) + 33;
    } else {
      DecodeEncode(y, m + 1, 33 - DaysInMonth(y, m));
      assert Ordinal(y, m + 1, 33 - DaysInMonth(y, m)) == n - DayOf(n) + 33;
    }
  }

  /** The jump to the next month lands on its first midnight, past every other minute of this one. */
  lemma NextMonthIsNext(w: WallMinute)
    ensures NextMonth(w) > w
    ensures forall v | w <= v < NextMonth(w) :: MonthAt(v) == MonthAt(w)
  {
    var n := DayNumber(w);
    DecodeIsADate(n);
    IntoNextMonth(n);
    assert NextMonth(w) == (n - DayOf(n) + 1 + DaysInMonth(YearOf(n), MonthOf(n))) * DAY_MINUTES;
    forall v | w <= v < NextMonth(w) ensures MonthAt(v) == MonthAt(w) {
      WholeMonth(n, DayNumber(v));
    }
  }

  lemma NextDayIsNext(w: WallMinute)
    ensures NextDay(w) > w
    ensures forall v | w <= v < NextDay(w) :: DayNumber(v) == DayNumber(w)
  {
  }

  lemma NextHourIsNext(w: WallMinute)
    ensures NextHour(w) > w
    ensures forall v | w <= v < NextHour(w) :: HourOf(v) == HourOf(w)
  {
    forall v | w <= v < NextHour(w) ensures v / 60 == w / 60 {}
  }

  /** Skipping never passes over a minute that matches. */
  lemma JumpIsSafe(c: Expression, w: WallMinute)
    requires !Matches(c, w)
    ensures Jump(c, w) > w
    ensures forall v | w <= v < Jump(c, w) :: !Matches(c, v)
  {
    hide MonthOf, DayOf, NextMonth;
    if MonthAt(w) !in c.months {
      NextMonthIsNext(w);
    } else if !DayMatches(c, DayNumber(w)) {
      NextDayIsNext(w);
    } else if HourOf(w) !in c.hours {
      NextHourIsNext(w);
    }
  }

  // ----- the instants

  /** What the wall clock reads at an instant; without a zone the two are one frame. */
  function Wall(zone: Option<Zone>, moment: int): int {
    if zone.None? then moment else Reading(zone.value, moment)
  }

  /** The instant a wall minute fires at. */
  function FireAt(zone: Option<Zone>, w: WallMinute): Option<int> {
    if zone.None? then Some(w * MINUTE) else Inst(zone.value, w * MINUTE)
  }

  method AfterGapMinute(z: Zone, w: int) returns (r: Option<int>)
    ensures r == AfterGap(z, w)
  {
    var ahead, behind := WallOffset(z, w, 1), WallOffset(z, w, 0);
    if ahead <= behind {
      return None;
    }
    var probe, edge := w, w + (ahead - behind);
    while probe < edge
      invariant AfterGap(z, w) == AfterGapFrom(z, probe, edge)
      decreases edge - probe
    {
      probe := probe + MINUTE;
      var instant := ToUtc(z, probe);
      if instant.Some? {
        return instant;
      }
    }
    r := None;
  }

  /** `_instant`: None when the instant is not after `after`, and the walk should go on. */
  method Instant(zone: Option<Zone>, w: WallMinute, after: int) returns (r: Option<int>)
    ensures zone.None? ==> r == FireAt(zone, w)
    ensures zone.Some? ==> r == if FireAt(zone, w).Some? && FireAt(zone, w).value > after then FireAt(zone, w) else None
  {
    if zone.None? {
      return Some(w * MINUTE);
    }
    var fireAt := ToUtc(zone.value, w * MINUTE);
    if fireAt.None? {
      fireAt := AfterGapMinute(zone.value, w * MINUTE);
    }
    r := if fireAt.Some? && fireAt.value > after then fireAt else None;
  }

  function Start(zone: Option<Zone>, moment: int): WallMinute {
    Wall(zone, moment) / MINUTE + 1
  }

  /** The wall minutes an expression matches. */
  function Due(c: Expression): WallMinute -> bool {
    w => Matches(c, w)
  }

  /** A wall minute on offer: it matches, and it fires after `moment`. */
  predicate Offered(due: WallMinute -> bool, zone: Option<Zone>, moment: int, w: WallMinute) {
    due(w) && FireAt(zone, w).Some? && FireAt(zone, w).value > moment
  }

  /** The first wall minute on offer before the horizon, or none and then the source raises. */
  ghost predicate IsNext(due: WallMinute -> bool, zone: Option<Zone>, moment: int, fires: Option<int>, at: WallMinute) {
    var start := Start(zone, moment);
    if fires.Some? then
      && start <= at < start + HORIZON
      && Offered(due, zone, moment, at) && FireAt(zone, at) == fires
      && forall v | start <= v < at :: !Offered(due, zone, moment, v)
    else forall v | start <= v < start + HORIZON :: !Offered(due, zone, moment, v)
  }

  method NextAfter(c: Expression, zone: Option<Zone>, moment: int) returns (fires: Option<int>)
    ensures exists at :: IsNext(Due(c), zone, moment, fires, at)
  {
    hide DayOf, MonthOf, NextMonth, Inst, Reading;
    var candidate := Wall(zone, moment) / MINUTE + 1;
    var limit := candidate + HORIZON;
    while candidate < limit
      invariant Start(zone, moment) <= candidate
      invariant forall v | Start(zone, moment) <= v < candidate :: !Offered(Due(c), zone, moment, v)
      decreases limit - candidate
    {
      if !Matches(c, candidate) {
        JumpIsSafe(c, candidate);
      }
      if MonthAt(candidate) !in c.months {
        candidate := NextMonth(candidate);
      } else if !DayMatches(c, DayNumber(candidate)) {
        candidate := NextDay(candidate);
      } else if HourOf(candidate) !in c.hours {
        candidate := NextHour(candidate);
      } else if MinuteOf(candidate) !in c.minutes {
        candidate := candidate + 1;
      } else {
        var fireAt := Instant(zone, candidate, moment);
        if fireAt.Some? {
          StartIsLater(zone, moment);
          assert IsNext(Due(c), zone, moment, fireAt, candidate);
          return fireAt;
        }
        candidate := candidate + 1;
      }
    }
    fires := None;
    assert IsNext(Due(c), zone, moment, None, candidate);
  }

  /** The walk starts at the first whole minute the wall clock has not reached. */
  lemma StartIsLater(zone: Option<Zone>, moment: int)
    ensures (Start(zone, moment) - 1) * MINUTE <= Wall(zone, moment) < Start(zone, moment) * MINUTE
  {
  }

  // ----- what the answer means

  /** A wall minute is later than the moment exactly when the walk has it ahead. */
  lemma AheadWithoutZone(moment: int, w: WallMinute)
    ensures w * MINUTE > moment <==> w >= Start(None, moment)
  {
  }

  /** Without a zone the answer is the least matching minute after `moment`. */
  lemma NextIsLeastMatch(due: WallMinute -> bool, moment: int, fires: Option<int>, at: WallMinute, w: WallMinute)
    requires IsNext(due, None, moment, fires, at) && fires.Some?
    ensures fires.value == at * MINUTE > moment && due(at) && at < Start(None, moment) + HORIZON
    ensures w * MINUTE > moment && due(w) ==> at <= w
  {
    AheadWithoutZone(moment, w);
    if w < at && w >= Start(None, moment) {
      assert !Offered(due, None, moment, w);
    }
  }

  /** Without a zone it raises exactly when no minute of the horizon matches. */
  lemma NoneWithoutZone(due: WallMinute -> bool, moment: int, fires: Option<int>, at: WallMinute)
    requires IsNext(due, None, moment, fires, at)
    ensures fires.None? <==> forall w | Start(None, moment) <= w < Start(None, moment) + HORIZON :: !due(w)
  {
    if fires.None? {
      forall w | Start(None, moment) <= w < Start(None, moment) + HORIZON ensures !due(w) {
        assert !Offered(due, None, moment, w);
        AheadWithoutZone(moment, w);
      }
    }
  }

  /** A due minute that the clock has jumped over and that is still to fire. */
  ghost predicate DuePending(due: WallMinute -> bool, z: Zone, moment: int) {
    exists v, i: nat :: due(v) && Pending(z, moment, v * MINUTE, i)
  }

  /** The minutes the walk never looks at have fired already, but for those. */
  lemma OfferedBehind(z: Zone, moment: int, w: WallMinute) returns (i: nat)
    requires Spaced(z) && w < Start(Some(z), moment)
    requires FireAt(Some(z), w).Some? && FireAt(Some(z), w).value > moment
    ensures Pending(z, moment, w * MINUTE, i)
  {
    hide Inst;
    StartIsLater(Some(z), moment);
    i := PendingOrFired(z, w * MINUTE, moment);
  }

  /** A pending minute is behind the walk's start, and fires when the start itself does. */
  lemma PendingFiresAtStart(z: Zone, moment: int, v: WallMinute, i: nat)
    requires Spaced(z) && Pending(z, moment, v * MINUTE, i)
    ensures v < Start(Some(z), moment)
    ensures FireAt(Some(z), v).Some? && FireAt(Some(z), v) == FireAt(Some(z), Start(Some(z), moment))
    ensures FireAt(Some(z), v).value > moment
  {
    hide Inst;
    StartIsLater(Some(z), moment);
    PendingFiresLater(z, moment, v * MINUTE, i);
    LandingIsNext(z, moment, v * MINUTE, i);
    SameMinute(Start(Some(z), moment), Reading(z, moment), Landing(z, i));
  }

  lemma SameMinute(start: WallMinute, now: int, landing: int)
    requires (start - 1) * MINUTE <= now < start * MINUTE
    requires landing % MINUTE == 0 && now < landing <= now + MINUTE
    ensures start * MINUTE == landing
  {
  }

  /** What the walk finds past its start fires later than the start does. */
  lemma PastStart(z: Zone, moment: int, v: WallMinute, i: nat, at: WallMinute)
    requires Spaced(z) && Pending(z, moment, v * MINUTE, i) && at > Start(Some(z), moment)
    ensures FireAt(Some(z), v).Some? && FireAt(Some(z), at).Some?
    ensures FireAt(Some(z), at).value > FireAt(Some(z), v).value
  {
    hide Inst;
    StartIsLater(Some(z), moment);
    PendingFiresLater(z, moment, v * MINUTE, i);
    LandingIsNext(z, moment, v * MINUTE, i);
    SameMinute(Start(Some(z), moment), Reading(z, moment), Landing(z, i));
    LaterThanRead(z, Landing(z, i), at * MINUTE);
  }

  /**
   * With a zone the answer is the least instant after `moment` at which any matching wall minute fires, if and
   * only if no matching minute is pending that the clock has jumped over, or the walk's first minute matches
   * and fires in its place.
   */
  lemma NextIsLeastInstant(due: WallMinute -> bool, z: Zone, moment: int, fires: Option<int>, at: WallMinute)
    requires Spaced(z) && IsNext(due, Some(z), moment, fires, at) && fires.Some?
    ensures Offered(due, Some(z), moment, at) && FireAt(Some(z), at) == fires && fires.value > moment
    ensures (forall w :: Offered(due, Some(z), moment, w) ==> fires.value <= FireAt(Some(z), w).value)
       <==> !DuePending(due, z, moment) || due(Start(Some(z), moment))
  {
    hide Inst;
    var start := Start(Some(z), moment);
    if DuePending(due, z, moment) {
      var v, i: nat :| due(v) && Pending(z, moment, v * MINUTE, i);
      PendingFiresAtStart(z, moment, v, i);
      assert Offered(due, Some(z), moment, v);
      if !due(start) {
        PastStart(z, moment, v, i, at);
      }
    }
    forall w | Offered(due, Some(z), moment, w) && (!DuePending(due, z, moment) || due(start))
      ensures fires.value <= FireAt(Some(z), w).value
    {
      if w < start {
        var i := OfferedBehind(z, moment, w);
        assert DuePending(due, z, moment);
        PendingFiresAtStart(z, moment, w, i);
        assert at == start by { assert Offered(due, Some(z), moment, start); }
      } else {
        InstMonotone(z, at * MINUTE, w * MINUTE, w - at);
      }
    }
  }

  /**
   * With a zone, no wall minute before the end of the horizon is on offer exactly when it raises and no matching
   * minute is pending.
   */
  lemma NoneWithZone(due: WallMinute -> bool, z: Zone, moment: int, fires: Option<int>, at: WallMinute)
    requires Spaced(z) && IsNext(due, Some(z), moment, fires, at)
    ensures (forall w | w < Start(Some(z), moment) + HORIZON :: !Offered(due, Some(z), moment, w))
       <==> fires.None? && !DuePending(due, z, moment)
  {
    hide Inst;
    if DuePending(due, z, moment) {
      var v, i: nat :| due(v) && Pending(z, moment, v * MINUTE, i);
      PendingFiresAtStart(z, moment, v, i);
      assert Offered(due, Some(z), moment, v);
    } else if fires.None? {
      forall w | w < Start(Some(z), moment) + HORIZON ensures !Offered(due, Some(z), moment, w) {
        if Offered(due, Some(z), moment, w) && w < Start(Some(z), moment) {
          var i := OfferedBehind(z, moment, w);
        }
      }
    }
  }

  /** 7 January 1972, as a day number. */
  const JUMP_DAY := 719_899

  /** The first minute of that day, as an instant that a clock on UTC counts from. */
  const JUMP_MIDNIGHT := JUMP_DAY * DAY_MINUTES * MINUTE

  const SECOND := 1_000_000

  /** Monrovia's clocks went from 44 minutes 30 seconds behind UTC to UTC at the start of that day. */
  function Monrovia(): Zone {
    Zone(-2670 * SECOND, [Transition(JUMP_MIDNIGHT + 2670 * SECOND, 0)])
  }

  /** `0 0 7 1 *` */
  const EVERY_7_JANUARY := Expression({0}, {0}, {7}, {1}, {0, 1, 2, 3, 4, 5, 6}, false)

  lemma JumpDayIsDue()
    ensures Matches(EVERY_7_JANUARY, JUMP_DAY * DAY_MINUTES)
    ensures !Matches(EVERY_7_JANUARY, JUMP_DAY * DAY_MINUTES + 45)
  {
    hide YearOf, MonthOf, DayOf;
    assert Ordinal(1972, 1, 7) == JUMP_DAY;
    DecodeEncode(1972, 1, 7);
    assert DayNumber(JUMP_DAY * DAY_MINUTES) == JUMP_DAY;
    assert MinuteOf(JUMP_DAY * DAY_MINUTES + 45) == 45;
  }

  /**
   * Ten seconds after that jump its midnight is due and still to fire, at a quarter to one, and the answer for
   * 7 January is a later one.
   */
  lemma MonroviaMisses(fires: Option<int>, at: WallMinute)
    requires IsNext(Due(EVERY_7_JANUARY), Some(Monrovia()), JUMP_MIDNIGHT + 2680 * SECOND, fires, at)
    ensures var moment, w := JUMP_MIDNIGHT + 2680 * SECOND, JUMP_DAY * DAY_MINUTES;
            && Spaced(Monrovia()) && Offered(Due(EVERY_7_JANUARY), Some(Monrovia()), moment, w)
            && FireAt(Some(Monrovia()), w) == Some(JUMP_MIDNIGHT + 45 * MINUTE)
            && (fires.Some? ==> fires.value > JUMP_MIDNIGHT + 45 * MINUTE)
  {
    hide MonthOf, DayOf, Inst, Reading;
    var z, moment, w := Monrovia(), JUMP_MIDNIGHT + 2680 * SECOND, JUMP_DAY * DAY_MINUTES;
    JumpDayIsDue();
    assert Pending(z, moment, w * MINUTE, 0);
    PendingFiresAtStart(z, moment, w, 0);
    GapFiresExactly(z, w * MINUTE, 0);
    LandingIsNext(z, moment, w * MINUTE, 0);
    StartIsLater(Some(z), moment);
    SameMinute(Start(Some(z), moment), Reading(z, moment), Landing(z, 0));
    assert Start(Some(z), moment) == w + 45;
    if fires.Some? {
      assert at != w + 45;
      PastStart(z, moment, w, 0, at);
    }
  }

  /** A repeated wall time fires once: what fires is always the first pass over its own reading. */
  lemma FiresOnFirstPass(due: WallMinute -> bool, z: Zone, moment: int, fires: Option<int>, at: WallMinute, other: int)
    requires Spaced(z) && IsNext(due, Some(z), moment, fires, at) && fires.Some?
    requires Reading(z, other) == Reading(z, fires.value)
    ensures fires.value <= other
  {
    var x, k := InstFires(z, at * MINUTE);
    ToUtcIsFirst(z, Reading(z, x), other);
  }

  lemma GapFiresSoon(z: Zone, w: int, i: nat)
    requires Spaced(z) && InGap(z, w, i)
    ensures Inst(z, w).Some? && At(z, i) <= Inst(z, w).value < At(z, i) + MINUTE
  {
    var x, k := InstFires(z, w);
    WithinGap(z, w, i);
    assert k > 0 by { assert w + 0 * MINUTE == w; }
    var j: nat :| InGap(z, w, j) && At(z, j) <= x < At(z, j) + MINUTE;
    WithinGap(z, w, j);
  }

  /** A skipped wall minute still fires: no later than a minute past the jump that swallowed it. */
  lemma SkippedStillFires(due: WallMinute -> bool, z: Zone, moment: int, fires: Option<int>, at: WallMinute,
                          w: WallMinute, i: nat)
    requires Spaced(z) && IsNext(due, Some(z), moment, fires, at)
    requires due(w) && InGap(z, w * MINUTE, i)
    requires moment < At(z, i) && w < Start(Some(z), moment) + HORIZON
    ensures fires.Some? && moment < fires.value < At(z, i) + MINUTE
  {
    GapFiresSoon(z, w * MINUTE, i);
    StartIsLater(Some(z), moment);
    if w < Start(Some(z), moment) {
      JumpIsPast(z, w * MINUTE, moment, i);
    }
    assert Offered(due, Some(z), moment, w);
    if fires.Some? {
      assert at <= w;
      InstMonotone(z, at * MINUTE, w * MINUTE, w - at);
    }
  }

  /**
   * `matches` on an instant that fires: the wall clock reads the matching minute it fired for, or, if a jump
   * skipped that minute, the first whole minute after the jump.
   */
  lemma FiredMinuteMatches(due: WallMinute -> bool, z: Zone, moment: int, fires: Option<int>, at: WallMinute)
    requires Spaced(z) && IsNext(due, Some(z), moment, fires, at) && fires.Some?
    ensures due(at)
    ensures || (Reads(z, at * MINUTE) && Reading(z, fires.value) == at * MINUTE)
            || (exists i: nat :: InGap(z, at * MINUTE, i) && Reading(z, fires.value) == Landing(z, i))
  {
    hide Passed, ShortOfMinute;
    ReadsIffToUtc(z, at * MINUTE);
    var x, k := InstFires(z, at * MINUTE);
    if k == 0 {
      assert at * MINUTE + 0 * MINUTE == at * MINUTE;
    } else {
      var i: nat :| InGap(z, at * MINUTE, i) && At(z, i) <= x < At(z, i) + MINUTE;
      GapFiresExactly(z, at * MINUTE, i);
      LandsThere(z, i, x);
    }
  }

  lemma LandsThere(z: Zone, i: nat, x: int)
    requires Spaced(z) && i < |z.transitions| && x == At(z, i) + ShortOfMinute(z, i)
    ensures Reading(z, x) == Landing(z, i)
  {
    if i + 1 < |z.transitions| {
      TransitionsApart(z, i, i + 1);
    }
    PassedIs(z, x, i + 1, |z.transitions|);
  }

  // ----- the leap day

  /** The horizon, in days. */
  const HORIZON_DAYS := 1464

  predicate IsLeapDay(n: int) {
    MonthOf(n) == 2 && DayOf(n) == 29
  }

  /** The day after 28 February. */
  function AfterFebruary28(year: int): int {
    DaysBeforeYear(year) + 60
  }

  lemma IsLeapDayIn(n: int)
    ensures IsLeapDay(n) ==> IsLeap(YearOf(n)) && n == AfterFebruary28(YearOf(n))
  {
    hide YearOf, MonthOf, DayOf, DaysBeforeYear;
    DecodeIsADate(n);
    assert DaysBeforeMonth(YearOf(n), 2) == 31;
  }

  lemma LeapDayOf(year: int)
    requires IsLeap(year)
    ensures IsLeapDay(AfterFebruary28(year))
  {
    hide YearOf, MonthOf, DayOf, DaysBeforeYear;
    DecodeEncode(year, 2, 29);
    assert DaysBeforeMonth(year, 2) == 31;
  }

  lemma ByFour(k: int, r: int)
    requires 0 <= r < 4
    ensures (4 * k + r) % 4 == r
  {
  }

  lemma ByHundred(k: int, r: int)
    requires 0 <= r < 100
    ensures (100 * k + r) % 100 == r
  {
  }

  lemma NotLeap(year: int, k: int)
    requires year % 4 == 0 && 1 <= k <= 3
    ensures !IsLeap(year + k)
  {
    ByFour(year / 4, k);
    assert year + k == 4 * (year / 4) + k;
  }

  lemma FourYears(year: int)
    requires year % 4 == 0
    ensures AfterFebruary28(year + 4) == AfterFebruary28(year) + if IsLeap(year) then 1461 else 1460
  {
    hide DaysBeforeYear, IsLeap;
    NotLeap(year, 1);
    NotLeap(year, 2);
    NotLeap(year, 3);
    YearLength(year);
    YearLength(year + 1);
    YearLength(year + 2);
    YearLength(year + 3);
  }

  lemma LaterYearLaterDay(a: int, b: int)
    requires a < b
    ensures AfterFebruary28(a) < AfterFebruary28(b)
  {
    hide DaysBeforeYear, IsLeap;
    YearsApart(a, b);
    YearLength(a);
  }

  /** A century whose year has no leap day. */
  predicate SkippedCentury(year: int) {
    year % 100 == 0 && year % 400 != 0
  }

  lemma LeapEitherSide(year: int)
    requires SkippedCentury(year)
    ensures (year - 4) % 4 == 0 && year % 4 == 0
    ensures IsLeap(year - 4) && !IsLeap(year) && IsLeap(year + 4)
  {
    var q := year / 100;
    assert year == 100 * q;
    assert (year - 4) % 4 == 0 by { ByFour(25 * q - 1, 0); }
    assert (year + 4) % 4 == 0 by { ByFour(25 * q + 1, 0); }
    assert year % 4 == 0 by { ByFour(25 * q, 0); }
    assert (year - 4) % 100 == 96 by { ByHundred(q - 1, 96); }
    assert (year + 4) % 100 == 4 by { ByHundred(q, 4); }
  }

  lemma FourApart(y: int, year: int)
    requires y % 4 == 0 && year % 4 == 0 && year - 4 < y < year + 4
    ensures y == year
  {
  }

  /** Eight years apart, the leap days either side of a skipped one. */
  lemma AroundACentury(year: int)
    requires SkippedCentury(year)
    ensures IsLeap(year - 4) && !IsLeap(year) && IsLeap(year + 4)
    ensures AfterFebruary28(year + 4) == AfterFebruary28(year - 4) + 2921
  {
    hide AfterFebruary28, IsLeap, SkippedCentury;
    LeapEitherSide(year);
    FourYears(year - 4);
    FourYears(year);
  }

  lemma LeapIsByFour(year: int)
    ensures IsLeap(year) ==> year % 4 == 0
  {
  }

  lemma NoLeapDayBetween(year: int, n: int)
    requires SkippedCentury(year) && AfterFebruary28(year - 4) < n < AfterFebruary28(year + 4)
    ensures !IsLeapDay(n)
  {
    hide AfterFebruary28, YearOf, IsLeap, IsLeapDay, SkippedCentury;
    IsLeapDayIn(n);
    if IsLeapDay(n) {
      var y := YearOf(n);
      LeapEitherSide(year);
      LeapIsByFour(y);
      if y < year - 4 {
        LaterYearLaterDay(y, year - 4);
      } else if y > year + 4 {
        LaterYearLaterDay(year + 4, y);
      } else if year - 4 < y < year + 4 {
        FourApart(y, year);
      }
    }
  }

  /** The four-year period, from one day after 28 February to another, that holds a day. */
  lemma FourYearPeriod(d: int) returns (year: int)
    ensures year % 4 == 0 && AfterFebruary28(year) < d <= AfterFebruary28(year + 4)
  {
    hide DaysBeforeYear, YearOf, IsLeap;
    YearBounds(d);
    var y := YearOf(d);
    year := y - y % 4;
    if AfterFebruary28(year) < d {
      YearsApart(y, year + 4);
    } else {
      if year < y {
        YearsApart(year, y);
        YearLength(year);
      }
      year := year - 4;
      FourYears(year);
    }
  }

  /**
   * The horizon from midnight of day `d` holds no leap day: `d` is within 1457 days past the one before a
   * skipped century.
   */
  ghost predicate OutOfReach(d: int) {
    exists year :: SkippedCentury(year) && AfterFebruary28(year - 4) < d <= AfterFebruary28(year - 4) + 1457
  }

  /** A year divisible by four that is not a leap year begins a century that skips it. */
  lemma LeapOrSkipped(year: int)
    requires year % 4 == 0 && !IsLeap(year)
    ensures SkippedCentury(year)
  {
  }

  lemma LeapDayAhead(d: int) returns (n: int)
    requires !OutOfReach(d)
    ensures d <= n < d + HORIZON_DAYS && IsLeapDay(n)
  {
    hide AfterFebruary28, IsLeapDay, IsLeap, SkippedCentury;
    var year := FourYearPeriod(d);
    FourYears(year);
    n := AfterFebruary28(year + 4);
    if IsLeap(year + 4) {
      LeapDayOf(year + 4);
    } else {
      LeapOrSkipped(year + 4);
      AroundACentury(year + 4);
      assert year + 4 - 4 == year && year + 4 + 4 == year + 8;
      n := AfterFebruary28(year + 8);
      LeapDayOf(year + 8);
    }
  }

  lemma LeapDayInReach(d: int)
    ensures (exists n :: d <= n < d + HORIZON_DAYS && IsLeapDay(n)) <==> !OutOfReach(d)
  {
    hide AfterFebruary28, IsLeapDay, SkippedCentury;
    if OutOfReach(d) {
      var year :| SkippedCentury(year) && AfterFebruary28(year - 4) < d <= AfterFebruary28(year - 4) + 1457;
      AroundACentury(year);
      forall n | d <= n < d + HORIZON_DAYS ensures !IsLeapDay(n) {
        NoLeapDayBetween(year, n);
      }
    } else {
      var _ := LeapDayAhead(d);
    }
  }

  /** `0 0 29 2 *` */
  predicate ForLeapDay(c: Expression) {
    && c.minutes == {0} && c.hours == {0} && c.days == {29} && c.months == {2}
    && c.weekdays == {0, 1, 2, 3, 4, 5, 6} && !c.eitherDay
  }

  lemma LeapDayMatches(c: Expression, w: WallMinute)
    requires ForLeapDay(c)
    ensures Matches(c, w) <==> w % DAY_MINUTES == 0 && IsLeapDay(w / DAY_MINUTES)
  {
    hide MonthOf, DayOf;
    assert w % DAY_MINUTES == 0 <==> MinuteOf(w) == 0 && HourOf(w) == 0;
  }

  /** The first midnight at or after a minute. */
  function FirstMidnight(w: WallMinute): int {
    (w + DAY_MINUTES - 1) / DAY_MINUTES
  }

  /** The days whose midnight lies within the horizon. */
  lemma HorizonInDays(start: WallMinute, n: int)
    ensures start <= n * DAY_MINUTES < start + HORIZON
       <==> FirstMidnight(start) <= n < FirstMidnight(start) + HORIZON_DAYS
  {
  }

  /**
   * The four-year horizon reaches a leap day from every start but those around a century that skips one:
   * before 2100 it fails from the first minute after midnight of 29 February 2096 up to midnight of
   * 25 February 2100, and an expression for the leap day is then taken never to fire.
   */
  lemma LeapDayReached(c: Expression, moment: int, fires: Option<int>, at: WallMinute)
    requires ForLeapDay(c) && IsNext(Due(c), None, moment, fires, at)
    ensures fires.None? <==> OutOfReach(FirstMidnight(Start(None, moment)))
  {
    hide MonthOf, DayOf, IsNext, OutOfReach;
    var start := Start(None, moment);
    var d := FirstMidnight(start);
    NoneWithoutZone(Due(c), moment, fires, at);
    LeapDayInReach(d);
    if fires.Some? {
      var w :| start <= w < start + HORIZON && Due(c)(w);
      LeapDayMatches(c, w);
      var n := w / DAY_MINUTES;
      assert w == n * DAY_MINUTES;
      HorizonInDays(start, n);
    } else {
      forall n | d <= n < d + HORIZON_DAYS ensures !IsLeapDay(n) {
        HorizonInDays(start, n);
        LeapDayMatches(c, n * DAY_MINUTES);
        assert !Due(c)(n * DAY_MINUTES);
      }
    }
  }

  /** Nor is anything else found that falls on leap days alone, whatever its times and weekdays. */
  lemma LeapDayOutOfReach(due: WallMinute -> bool, moment: int, fires: Option<int>, at: WallMinute, century: int)
    requires SkippedCentury(century) && forall w | due(w) :: IsLeapDay(DayNumber(w))
    requires AfterFebruary28(century - 4) < DayNumber(Start(None, moment))
    requires Start(None, moment) <= (AfterFebruary28(century - 4) + 1457) * DAY_MINUTES
    requires IsNext(due, None, moment, fires, at)
    ensures fires == None
  {
    hide MonthOf, DayOf;
    AroundACentury(century);
    if fires.Some? {
      NoLeapDayBetween(century, DayNumber(at));
    }
  }

  lemma DaysAround2100()
    ensures AfterFebruary28(2096) == Ordinal(2096, 2, 29) && AfterFebruary28(2104) == Ordinal(2104, 2, 29)
    ensures AfterFebruary28(2092) == Ordinal(2092, 2, 29)
    ensures Ordinal(2096, 3, 1) == AfterFebruary28(2096) + 1
    ensures Ordinal(2100, 2, 25) == AfterFebruary28(2096) + 1457
  {
    assert DaysBeforeMonth(2092, 2) == 31 && DaysBeforeMonth(2096, 2) == 31 && DaysBeforeMonth(2100, 2) == 31;
    assert DaysBeforeMonth(2104, 2) == 31 && DaysBeforeMonth(2096, 3) == 60;
  }

  /** Between the leap days of 2092 and 2104 the days out of reach are 1 March 2096 to 25 February 2100. */
  lemma Around2100(d: int)
    requires Ordinal(2092, 2, 29) < d <= Ordinal(2104, 2, 29)
    ensures OutOfReach(d) <==> Ordinal(2096, 3, 1) <= d <= Ordinal(2100, 2, 25)
  {
    hide AfterFebruary28, Ordinal;
    DaysAround2100();
    if Ordinal(2096, 3, 1) <= d <= Ordinal(2100, 2, 25) {
      assert SkippedCentury(2100) && 2100 - 4 == 2096;
    }
    if year :| SkippedCentury(year) && AfterFebruary28(year - 4) < d <= AfterFebruary28(year - 4) + 1457 {
      FourYears(2088);
      if year < 2092 {
        LaterYearLaterDay(year - 4, 2088);
      } else if year > 2108 {
        LaterYearLaterDay(2104, year - 4);
      }
      assert year - 4 == 2096;
    }
  }
}
