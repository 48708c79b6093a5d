/** What an expression means: how a field is written, and on which dates it falls due (siatt/runner/cron.py). */
module CronSchedules {
  import opened Civil
  import opened Cron
  import opened CronFields
  import opened Wrappers
  import T = Text
  import E = Elision

  // ----- one part of a field

  /** The ways a part can be written: `*`, `n` and `a-b`, each with a step or without. */
  datatype Spec =
    | Star
    | StarStep(step: nat)
    | One(n: nat)
    | OneStep(n: nat, step: nat)
    | Span(a: nat, b: nat)
    | SpanStep(a: nat, b: nat, step: nat)

  function SpecText(spec: Spec): string {
    match spec
    case Star => "*"
    case StarStep(step) => "*"
    case One(n) => E.Digits(n)
    case OneStep(n, _) => E.Digits(n)
    case Span(a, b) => E.Digits(a) + "-" + E.Digits(b)
    case SpanStep(a, b, _) => E.Digits(a) + "-" + E.Digits(b)
  }

  predicate Steps(spec: Spec) {
    spec.StarStep? || spec.OneStep? || spec.SpanStep?
  }

  function Written(spec: Spec): string {
    if Steps(spec) then SpecText(spec) + "/" + E.Digits(spec.step) else SpecText(spec)
  }

  /** `v` comes from `start` in whole steps. */
  ghost predicate InSteps(v: int, start: int, step: int) {
    exists j: nat :: v == start + j * step
  }

  /** The values a part names in a field that runs from `low` to `high`. */
  ghost predicate Names(spec: Spec, low: int, high: int, v: int) {
    match spec
    case Star => low <= v <= high
    case StarStep(step) => low <= v <= high && InSteps(v, low, step)
    case One(n) => v == n
    case OneStep(_, _) => false
    case Span(a, b) => a <= v <= b
    case SpanStep(a, b, step) => a <= v <= b && InSteps(v, a, step)
  }

  /** What is wrong with a part, first problem first. */
  function Wrong(spec: Spec, low: int, high: int): Option<Problem> {
    if Steps(spec) && spec.step == 0 then Some(StepBelowOne)
    else
      match spec
      case Star => None
      case StarStep(_) => None
      case One(n) => if low <= n <= high then None else Some(OutOfRange)
      case OneStep(_, _) => Some(StepsFromOneValue)
      case Span(a, b) => SpanWrong(a, b, low, high)
      case SpanStep(a, b, _) => SpanWrong(a, b, low, high)
  }

  function SpanWrong(a: int, b: int, low: int, high: int): Option<Problem> {
    if a < low || a > high || b < low || b > high then Some(OutOfRange)
    else if b < a then Some(Backwards) else None
  }

  lemma {:induction false} CutAt(word: string, rest: string, sep: char)
    requires sep !in word
    ensures Before(word + [sep] + rest, sep) == word && After(word + [sep] + rest, sep) == rest
  {
    var text := word + [sep] + rest;
    if word == "" {
      assert text[1..] == rest;
    } else {
      CutAt(word[1..], rest, sep);
      assert text[1..] == word[1..] + [sep] + rest;
      assert [word[0]] + word[1..] == word;
    }
  }

  lemma NoSign(n: nat)
    ensures '-' !in E.Digits(n) && '/' !in E.Digits(n) && ',' !in E.Digits(n) && '*' !in E.Digits(n)
  {
    DigitsAreDigits(n);
  }

  lemma SpecTextPlain(spec: Spec)
    ensures '/' !in SpecText(spec) && ',' !in SpecText(spec)
  {
    hide E.Digits;
    match spec
    case Star =>
    case StarStep(_) =>
    case One(n) => NoSign(n);
    case OneStep(n, _) => NoSign(n);
    case Span(a, b) => NoSign(a); NoSign(b);
    case SpanStep(a, b, _) => NoSign(a); NoSign(b);
  }

  /** A part splits into its values and its step. */
  lemma PartSplits(spec: Spec)
    ensures Before(Written(spec), '/') == SpecText(spec)
    ensures After(Written(spec), '/') == if Steps(spec) then E.Digits(spec.step) else ""
  {
    hide E.Digits, SpecText;
    SpecTextPlain(spec);
    if Steps(spec) {
      CutAt(SpecText(spec), E.Digits(spec.step), '/');
    } else {
      PlainBefore(SpecText(spec), '/');
    }
  }

  /** The first and the last value, or that a single value takes no step. */
  lemma EndsRead(spec: Spec, stepText: string, low: int, high: int, number: Number)
    requires ReadsDigits(number)
    ensures Ends(SpecText(spec), stepText, low, high, number)
         == match spec
            case Star => Ok((low, high))
            case StarStep(_) => Ok((low, high))
            case One(n) => if stepText != "" then Err(StepsFromOneValue) else Ok((n as int, n as int))
            case OneStep(n, _) => if stepText != "" then Err(StepsFromOneValue) else Ok((n as int, n as int))
            case Span(a, b) => Ok((a as int, b as int))
            case SpanStep(a, b, _) => Ok((a as int, b as int))
  {
    hide E.Digits;
    match spec
    case Star =>
    case StarStep(_) =>
    case One(n) => NumberRead(n, stepText, low, high, number);
    case OneStep(n, _) => NumberRead(n, stepText, low, high, number);
    case Span(a, b) => RangeRead(a, b, stepText, low, high, number);
    case SpanStep(a, b, _) => RangeRead(a, b, stepText, low, high, number);
  }

  lemma NumberRead(n: nat, stepText: string, low: int, high: int, number: Number)
    requires ReadsDigits(number)
    ensures Ends(E.Digits(n), stepText, low, high, number)
         == if stepText != "" then Err(StepsFromOneValue) else Ok((n as int, n as int))
  {
    hide E.Digits;
    NoSign(n);
    assert E.Digits(n) != "*" by { assert '*' in "*"; }
  }

  lemma RangeRead(a: nat, b: nat, stepText: string, low: int, high: int, number: Number)
    requires ReadsDigits(number)
    ensures Ends(E.Digits(a) + "-" + E.Digits(b), stepText, low, high, number) == Ok((a as int, b as int))
  {
    hide E.Digits;
    var spec := E.Digits(a) + "-" + E.Digits(b);
    NoSign(a);
    CutAt(E.Digits(a), E.Digits(b), '-');
    assert spec[|E.Digits(a)|] == '-';
    assert spec != "*" by { assert '-' !in "*"; }
  }

  lemma SteppedMeans(start: int, stop: int, step: int, v: int)
    requires step >= 1
    ensures v in Stepped(start, stop, step) <==> start <= v <= stop && InSteps(v, start, step)
  {
    if start <= v <= stop {
      var j := (v - start) / step;
      if OnStep(v, start, step) {
        assert v == start + j * step && j >= 0;
      }
      if i: nat :| v == start + i * step {
        Multiple(i, step);
      }
    }
  }

  lemma Multiple(i: nat, step: int)
    requires step >= 1
    ensures (i * step) % step == 0
  {
    var q, r := (i * step) / step, (i * step) % step;
    Times(i - q, step);
    assert step * (i - q) == r;
  }

  lemma Times(d: int, step: int)
    requires step >= 1
    ensures d >= 1 ==> step * d >= step
    ensures d <= -1 ==> step * d <= -step
  {}

  lemma StepByOne(v: int, start: int)
    requires start <= v
    ensures InSteps(v, start, 1)
  {
    assert v == start + (v - start) * 1;
  }

  /** A part reads as the values it names, if there is nothing wrong with it. */
  lemma PartMeans(spec: Spec, low: int, high: int, number: Number, v: int)
    requires ReadsDigits(number) && low <= high
    ensures var r := Part(Written(spec), low, high, number);
            match Wrong(spec, low, high)
            case Some(problem) => r == Err(problem)
            case None => r.Ok? && (v in r.value <==> Names(spec, low, high, v))
  {
    hide E.Digits, Ends, Stepped, InSteps;
    PartSplits(spec);
    var stepText := if Steps(spec) then E.Digits(spec.step) else "";
    var step := if Steps(spec) then spec.step else 1;
    EndsRead(spec, stepText, low, high, number);
    if step >= 1 && Wrong(spec, low, high).None? {
      var (start, stop) := Ends(SpecText(spec), stepText, low, high, number).value;
      SteppedMeans(start, stop, step, v);
      if start <= v && step == 1 {
        StepByOne(v, start);
      }
    }
  }

  // ----- a whole field

  function WrittenField(specs: seq<Spec>): string
    requires specs != []
  {
    if |specs| == 1 then Written(specs[0]) else Written(specs[0]) + "," + WrittenField(specs[1..])
  }

  lemma NoComma(spec: Spec)
    ensures ',' !in Written(spec)
  {
    hide E.Digits, SpecText;
    SpecTextPlain(spec);
    if Steps(spec) {
      NoSign(spec.step);
    }
  }

  lemma {:induction false} FieldSplits(specs: seq<Spec>)
    requires specs != []
    ensures |T.SplitOn(WrittenField(specs), ',')| == |specs|
    ensures forall i | 0 <= i < |specs| :: T.SplitOn(WrittenField(specs), ',')[i] == Written(specs[i])
  {
    hide Written;
    NoComma(specs[0]);
    if |specs| == 1 {
      PlainSplit(Written(specs[0]), "", ',');
    } else {
      PlainSplit(Written(specs[0]), WrittenField(specs[1..]), ',');
      FieldSplits(specs[1..]);
    }
  }

  lemma {:induction false} PartsMean(parts: seq<string>, specs: seq<Spec>, low: int, high: int, number: Number, v: int)
    requires ReadsDigits(number) && low <= high && |parts| == |specs|
    requires forall i | 0 <= i < |specs| :: parts[i] == Written(specs[i])
    ensures var r := Parts(parts, low, high, number);
            && (r.Ok? <==> forall i | 0 <= i < |specs| :: Wrong(specs[i], low, high).None?)
            && (r.Ok? ==> (v in r.value <==> exists i :: 0 <= i < |specs| && Names(specs[i], low, high, v)))
  {
    hide Part, Written, Wrong, Names;
    if specs != [] {
      var k := |specs| - 1;
      PartsMean(parts[..k], specs[..k], low, high, number, v);
      PartMeans(specs[k], low, high, number, v);
      assert forall i | 0 <= i < k :: specs[..k][i] == specs[i];
    }
  }

  /** A field reads as what its parts name together, and not at all if anything is wrong with one of them. */
  lemma FieldMeans(specs: seq<Spec>, low: int, high: int, number: Number, v: int)
    requires ReadsDigits(number) && low <= high && specs != []
    ensures var r := Parts(T.SplitOn(WrittenField(specs), ','), low, high, number);
            && (r.Ok? <==> forall i | 0 <= i < |specs| :: Wrong(specs[i], low, high).None?)
            && (r.Ok? ==> (v in r.value <==> exists i :: 0 <= i < |specs| && Names(specs[i], low, high, v)))
  {
    hide Written, Wrong, Names;
    FieldSplits(specs);
    PartsMean(T.SplitOn(WrittenField(specs), ','), specs, low, high, number, v);
  }

  // ----- dates

  predicate IsDate(year: int, month: int, day: int) {
    1 <= month <= 12 && 1 <= day <= DaysInMonth(year, month)
  }

  /** The minute of a date at a time of day. */
  function MinuteAt(year: int, month: Month, day: int, hour: int, minute: int): WallMinute {
    Ordinal(year, month, day) * DAY_MINUTES + hour * 60 + minute
  }

  /** Days since Sunday, counted from 7 January 2024, which was one. */
  function DaysSinceSunday(day: int): int {
    (day - Ordinal(2024, 1, 7)) % 7
  }

  lemma EveryMinuteIsADate(w: WallMinute) returns (year: int, month: Month, day: int, hour: int, minute: int)
    ensures IsDate(year, month, day) && 0 <= hour < 24 && 0 <= minute < 60
    ensures w == MinuteAt(year, month, day, hour, minute)
  {
    hide YearOf, MonthOf, DayOf, Ordinal;
    var n := w / DAY_MINUTES;
    DecodeIsADate(n);
    year, month, day, hour, minute := YearOf(n), MonthOf(n), DayOf(n), w / 60 % 24, w % 60;
    SplitMinutes(n, w - n * DAY_MINUTES);
  }

  lemma SplitMinutes(n: int, rest: int)
    requires 0 <= rest < DAY_MINUTES
    ensures var w := n * DAY_MINUTES + rest;
            w / DAY_MINUTES == n && w / 60 % 24 == rest / 60 && w % 60 == rest % 60
  {
    var w := n * 1440 + rest;
    assert w / 60 == n * 24 + rest / 60;
    assert (n * 24 + rest / 60) % 24 == rest / 60;
  }

  lemma KnownSunday()
    ensures Ordinal(2024, 1, 7) % 7 == 0
  {
    assert DaysBeforeYear(2024) == 738885;
  }

  /**
   * What an expression matches: the minutes, hours and months it names, on a day that is named by its day of the
   * month and by its weekday, or by either if both fields are narrowed.
   */
  lemma MatchesMeans(c: Expression, year: int, month: Month, day: int, hour: int, minute: int)
    requires IsDate(year, month, day) && 0 <= hour < 24 && 0 <= minute < 60
    ensures Matches(c, MinuteAt(year, month, day, hour, minute))
       <==> && minute in c.minutes && hour in c.hours && month in c.months
            && var ofMonth, ofWeek := day in c.days, DaysSinceSunday(Ordinal(year, month, day)) in c.weekdays;
               if c.eitherDay then ofMonth || ofWeek else ofMonth && ofWeek
  {
    hide YearOf, MonthOf, DayOf;
    DecodeEncode(year, month, day);
    SplitMinutes(Ordinal(year, month, day), hour * 60 + minute);
    SundayIsZero(Ordinal(year, month, day));
  }

  lemma SundayIsZero(n: int)
    ensures WeekdayOf(n) == DaysSinceSunday(n)
  {
    KnownSunday();
    var q := Ordinal(2024, 1, 7) / 7;
    assert Ordinal(2024, 1, 7) == 7 * q;
    assert (n - 7 * q) % 7 == n % 7;
  }

  // ----- schedules from their text

  /** A field of one part names what the part names. */
  lemma FieldOfOne(spec: Spec, low: int, high: int, number: Number, values: set<int>)
    requires ReadsDigits(number) && low <= high && Wrong(spec, low, high).None?
    requires Ok(values) == Parts(T.SplitOn(Written(spec), ','), low, high, number)
    ensures forall v :: v in values <==> Names(spec, low, high, v)
  {
    hide Written, Wrong, Names;
    forall v ensures v in values <==> Names(spec, low, high, v) {
      FieldMeans([spec], low, high, number, v);
      assert [spec][0] == spec;
    }
  }

  /** What a list of five parts reads as. */
  ghost predicate ReadsAs(specs: seq<Spec>, number: Number, c: Expression)
    requires |specs| == 5
  {
    Reads([Written(specs[0]), Written(specs[1]), Written(specs[2]), Written(specs[3]), Written(specs[4])], number, c)
  }

  lemma StarredMeans(spec: Spec)
    ensures Starred(Written(spec)) <==> spec.Star? || spec.StarStep?
  {
    hide E.Digits;
    match spec
    case Star =>
    case StarStep(_) =>
    case One(n) => NoSign(n);
    case OneStep(n, _) => NoSign(n);
    case Span(a, _) => NoSign(a);
    case SpanStep(a, _, _) => NoSign(a);
  }

  /** An expression of five parts, each right on its own, matches the dates and times they name. */
  lemma ScheduleMeans(specs: seq<Spec>, number: Number, c: Expression,
                      year: int, month: Month, day: int, hour: int, minute: int)
    requires |specs| == 5 && ReadsDigits(number) && ReadsAs(specs, number, c)
    requires Wrong(specs[0], 0, 59).None? && Wrong(specs[1], 0, 23).None? && Wrong(specs[2], 1, 31).None?
    requires Wrong(specs[3], 1, 12).None? && Wrong(specs[4], 0, 6).None?
    requires IsDate(year, month, day) && 0 <= hour < 24 && 0 <= minute < 60
    ensures Matches(c, MinuteAt(year, month, day, hour, minute))
       <==> && Names(specs[0], 0, 59, minute) && Names(specs[1], 0, 23, hour) && Names(specs[3], 1, 12, month)
            && var ofMonth := Names(specs[2], 1, 31, day);
               var ofWeek := Names(specs[4], 0, 6, DaysSinceSunday(Ordinal(year, month, day)));
               if !specs[2].Star? && !specs[2].StarStep? && !specs[4].Star? && !specs[4].StarStep?
               then ofMonth || ofWeek else ofMonth && ofWeek
  {
    hide Written, Wrong, Names, Matches, Parts, MinuteAt, Ordinal, DaysSinceSunday, IsDate;
    FieldOfOne(specs[0], 0, 59, number, c.minutes);
    FieldOfOne(specs[1], 0, 23, number, c.hours);
    FieldOfOne(specs[2], 1, 31, number, c.days);
    FieldOfOne(specs[3], 1, 12, number, c.months);
    FieldOfOne(specs[4], 0, 6, number, c.weekdays);
    StarredMeans(specs[2]);
    StarredMeans(specs[4]);
    MatchesMeans(c, year, month, day, hour, minute);
  }

  /** `0 4 * * d`, the weekly schedule for d = 0: four in the morning of every such weekday, 0 being Sunday. */
  lemma WeeklyMeans(number: Number, c: Expression, d: nat, w: WallMinute)
    requires ReadsDigits(number) && d <= 6 && ReadsAs([One(0), One(4), Star, Star, One(d)], number, c)
    ensures Matches(c, w)
       <==> w % DAY_MINUTES == 4 * 60 && exists k: int :: w / DAY_MINUTES == Ordinal(2024, 1, 7) + d + 7 * k
  {
    hide ReadsAs, Matches, Ordinal;
    var year, month, day, hour, minute := EveryMinuteIsADate(w);
    ScheduleMeans([One(0), One(4), Star, Star, One(d)], number, c, year, month, day, hour, minute);
    SplitMinutes(Ordinal(year, month, day), hour * 60 + minute);
    EverySeventh(w / DAY_MINUTES, d);
  }

  lemma EverySeventh(n: int, d: nat)
    requires d <= 6
    ensures DaysSinceSunday(n) == d <==> exists k: int :: n == Ordinal(2024, 1, 7) + d + 7 * k
  {
    hide Ordinal;
    var since := n - Ordinal(2024, 1, 7);
    if since % 7 == d {
      assert n == Ordinal(2024, 1, 7) + d + 7 * (since / 7);
    }
    if k: int :| n == Ordinal(2024, 1, 7) + d + 7 * k {
      assert since == 7 * k + d;
      assert (7 * k + d) % 7 == d;
    }
  }

  /** `0 0 1 * 1`: midnight of every first of a month and of every Monday. */
  lemma FirstsAndMondays(number: Number, c: Expression, w: WallMinute)
    requires ReadsDigits(number) && ReadsAs([One(0), One(0), One(1), Star, One(1)], number, c)
    ensures Matches(c, w)
       <==> && w % DAY_MINUTES == 0
            && ((exists year: int, month: Month :: w / DAY_MINUTES == Ordinal(year, month, 1))
                || exists k: int :: w / DAY_MINUTES == Ordinal(2024, 1, 7) + 1 + 7 * k)
  {
    hide ReadsAs, Matches, Ordinal;
    var year, month, day, hour, minute := EveryMinuteIsADate(w);
    ScheduleMeans([One(0), One(0), One(1), Star, One(1)], number, c, year, month, day, hour, minute);
    SplitMinutes(Ordinal(year, month, day), hour * 60 + minute);
    EverySeventh(w / DAY_MINUTES, 1);
    FirstOfMonth(year, month, day);
  }

  lemma FirstOfMonth(year: int, month: Month, day: int)
    requires IsDate(year, month, day)
    ensures day == 1 <==> exists y: int, m: Month :: Ordinal(year, month, day) == Ordinal(y, m, 1)
  {
    hide YearOf, MonthOf, DayOf, Ordinal;
    if y: int, m: Month :| Ordinal(year, month, day) == Ordinal(y, m, 1) {
      DecodeEncode(year, month, day);
      DecodeEncode(y, m, 1);
    }
    if day == 1 {
      assert Ordinal(year, month, day) == Ordinal(year, month, 1);
    }
  }

  /** Mondays that fall on an odd day, and not every other day: a field that begins with a star is not narrowed. */
  lemma OddMondays(number: Number, c: Expression, year: int, month: Month, day: int, hour: int, minute: int)
    requires ReadsDigits(number) && ReadsAs([One(0), One(0), StarStep(2), Star, One(1)], number, c)
    requires IsDate(year, month, day) && 0 <= hour < 24 && 0 <= minute < 60
    ensures Matches(c, MinuteAt(year, month, day, hour, minute))
       <==> hour == 0 && minute == 0 && day % 2 == 1 && DaysSinceSunday(Ordinal(year, month, day)) == 1
  {
    hide ReadsAs, Matches, Ordinal, MinuteAt;
    ScheduleMeans([One(0), One(0), StarStep(2), Star, One(1)], number, c, year, month, day, hour, minute);
    if day % 2 == 1 {
      assert day == 1 + (day / 2) * 2;
    }
  }
}
