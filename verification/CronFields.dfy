/** Reading the five fields of a cron expression (siatt/runner/cron.py). */
module CronFields {
  import opened Wrappers
  import opened Cron
  import T = Text
  import E = Elision

  datatype Problem =
    | StepNotANumber
    | StepBelowOne
    | NotANumber
    | StepsFromOneValue
    | OutOfRange
    | Backwards
    | MatchesNothing
    | WrongFieldCount

  /** `int(text)`, or nothing where that raises. */
  type Number = string -> Option<int>

  /** `text.partition(sep)`, without the separator: what is before it and what is after. */
  function Before(text: string, sep: char): string {
    if text == "" || text[0] == sep then "" else [text[0]] + Before(text[1..], sep)
  }

  function After(text: string, sep: char): string {
    if text == "" then "" else if text[0] == sep then text[1..] else After(text[1..], sep)
  }

  function ReadNumber(text: string, number: Number): Result<int, Problem> {
    match number(text) case Some(n) => Ok(n) case None => Err(NotANumber)
  }

  /** `set(range(start, stop + 1, step))`. */
  function Stepped(start: int, stop: int, step: int): (values: set<int>)
    requires step >= 1
    ensures start <= stop ==> start in values
  {
    assert OnStep(start, start, step);
    set v | start <= v <= stop && OnStep(v, start, step)
  }

  predicate OnStep(v: int, start: int, step: int)
    requires step >= 1
  {
    (v - start) % step == 0
  }

  /** The first and the last value a part names, before the range is checked. */
  function Ends(spec: string, stepText: string, low: int, high: int, number: Number): Result<(int, int), Problem> {
    if spec == "*" then Ok((low, high))
    else if '-' in spec then
      match ReadNumber(Before(spec, '-'), number)
      case Err(e) => Err(e)
      case Ok(start) =>
        match ReadNumber(After(spec, '-'), number)
        case Err(e) => Err(e)
        case Ok(stop) => Ok((start, stop))
    else
      match ReadNumber(spec, number)
      case Err(e) => Err(e)
      case Ok(n) => if stepText != "" then Err(StepsFromOneValue) else Ok((n, n))
  }

  function Part(part: string, low: int, high: int, number: Number): (r: Result<set<int>, Problem>)
    ensures r.Ok? ==> r.value != {} && forall v | v in r.value :: low <= v <= high
  {
    var spec, stepText := Before(part, '/'), After(part, '/');
    var step := if stepText == "" then Some(1) else number(stepText);
    if step.None? then Err(StepNotANumber)
    else if step.value < 1 then Err(StepBelowOne)
    else
      match Ends(spec, stepText, low, high, number)
      case Err(e) => Err(e)
      case Ok((start, stop)) =>
        if !(low <= start <= high && low <= stop <= high) then Err(OutOfRange)
        else if start > stop then Err(Backwards)
        else
          assert start in Stepped(start, stop, step.value);
          Ok(Stepped(start, stop, step.value))
  }

  /** Every part's values together, or the first part's problem. */
  function Parts(parts: seq<string>, low: int, high: int, number: Number): Result<set<int>, Problem> {
    if parts == [] then Ok({})
    else
      match Parts(parts[..|parts| - 1], low, high, number)
      case Err(e) => Err(e)
      case Ok(before) =>
        match Part(parts[|parts| - 1], low, high, number)
        case Err(e) => Err(e)
        case Ok(values) => Ok(before + values)
  }

  method Field(text: string, low: int, high: int, number: Number) returns (r: Result<set<int>, Problem>)
    ensures r == Parts(T.SplitOn(text, ','), low, high, number)
    ensures r.Ok? ==> r.value != {} && forall v | v in r.value :: low <= v <= high
  {
    var parts := T.SplitOn(text, ',');
    var values: set<int> := {};
    for i := 0 to |parts|
      invariant Ok(values) == Parts(parts[..i], low, high, number)
      invariant forall v | v in values :: low <= v <= high
      invariant i > 0 ==> values != {}
    {
      assert parts[..i + 1][..i] == parts[..i];
      match Part(parts[i], low, high, number)
      case Err(e) =>
        FirstProblem(parts, i + 1, low, high, number);
        return Err(e);
      case Ok(more) => values := values + more;
    }
    assert parts[..|parts|] == parts;
    if values == {} {
      return Err(MatchesNothing);
    }
    return Ok(values);
  }

  lemma {:induction false} FirstProblem(parts: seq<string>, k: nat, low: int, high: int, number: Number)
    requires k <= |parts| && Parts(parts[..k], low, high, number).Err?
    ensures Parts(parts, low, high, number) == Parts(parts[..k], low, high, number)
    decreases |parts| - k
  {
    if k == |parts| {
      assert parts[..k] == parts;
    } else {
      assert parts[..k + 1][..k] == parts[..k];
      FirstProblem(parts, k + 1, low, high, number);
    }
  }

  /** Every value is one the clock can show. */
  ghost predicate WithinRanges(c: Expression) {
    && (forall v | v in c.minutes :: 0 <= v <= 59) && (forall v | v in c.hours :: 0 <= v <= 23)
    && (forall v | v in c.days :: 1 <= v <= 31) && (forall v | v in c.months :: 1 <= v <= 12)
    && (forall v | v in c.weekdays :: 0 <= v <= 6)
    && c.minutes != {} && c.hours != {} && c.days != {} && c.months != {} && c.weekdays != {}
  }

  predicate Starred(field: string) {
    field != "" && field[0] == '*'
  }

  /** The five fields, read in their ranges, and whether a day has to satisfy both or either of its two. */
  ghost predicate Reads(fields: seq<string>, number: Number, c: Expression)
    requires |fields| == 5
  {
    && Ok(c.minutes) == Parts(T.SplitOn(fields[0], ','), 0, 59, number)
    && Ok(c.hours) == Parts(T.SplitOn(fields[1], ','), 0, 23, number)
    && Ok(c.days) == Parts(T.SplitOn(fields[2], ','), 1, 31, number)
    && Ok(c.months) == Parts(T.SplitOn(fields[3], ','), 1, 12, number)
    && Ok(c.weekdays) == Parts(T.SplitOn(fields[4], ','), 0, 6, number)
    && (c.eitherDay <==> !Starred(fields[2]) && !Starred(fields[4]))
  }

  method Parse(fields: seq<string>, number: Number) returns (r: Result<Expression, Problem>)
    ensures |fields| != 5 ==> r == Err(WrongFieldCount)
    ensures |fields| == 5 && r.Err? ==> forall c :: !Reads(fields, number, c)
    ensures r.Ok? ==> |fields| == 5 && Reads(fields, number, r.value) && WithinRanges(r.value)
  {
    if |fields| != 5 {
      return Err(WrongFieldCount);
    }
    var minutes := Field(fields[0], 0, 59, number);
    if minutes.Err? { return Err(minutes.error); }
    var hours := Field(fields[1], 0, 23, number);
    if hours.Err? { return Err(hours.error); }
    var days := Field(fields[2], 1, 31, number);
    if days.Err? { return Err(days.error); }
    var months := Field(fields[3], 1, 12, number);
    if months.Err? { return Err(months.error); }
    var weekdays := Field(fields[4], 0, 6, number);
    if weekdays.Err? { return Err(weekdays.error); }
    return Ok(Expression(minutes.value, hours.value, days.value, months.value, weekdays.value,
                         !Starred(fields[2]) && !Starred(fields[4])));
  }

  // --- writing a field and reading it back ---

  /** `int` reads what `str` writes. */
  ghost predicate ReadsDigits(number: Number) {
    forall n: nat :: number(E.Digits(n)) == Some(n as int)
  }

  /** The values, in order, between commas. */
  function Written(values: seq<nat>): string
    requires values != []
  {
    if |values| == 1 then E.Digits(values[0]) else E.Digits(values[0]) + "," + Written(values[1..])
  }

  lemma {:induction false} DigitsAreDigits(n: nat)
    ensures forall i | 0 <= i < |E.Digits(n)| :: '0' <= E.Digits(n)[i] <= '9'
  {
    if n >= 10 { DigitsAreDigits(n / 10); }
  }

  lemma {:induction false} PlainSplit(word: string, rest: string, sep: char)
    requires sep !in word
    ensures T.SplitOn(word, sep) == [word]
    ensures T.SplitOn(word + [sep] + rest, sep) == [word] + T.SplitOn(rest, sep)
  {
    if word == "" {
      assert word + [sep] + rest == [sep] + rest;
      assert ([sep] + rest)[1..] == rest;
      assert T.SplitOn([sep] + rest, sep) == [""] + T.SplitOn(rest, sep);
    } else {
      PlainSplit(word[1..], rest, sep);
      assert (word + [sep] + rest)[1..] == word[1..] + [sep] + rest;
      assert [word[0]] + word[1..] == word;
    }
  }

  lemma {:induction false} PlainBefore(word: string, sep: char)
    requires sep !in word
    ensures Before(word, sep) == word && After(word, sep) == ""
  {
    if word != "" { PlainBefore(word[1..], sep); }
  }

  lemma {:induction false} WrittenSplits(values: seq<nat>)
    requires values != []
    ensures T.SplitOn(Written(values), ',') == seq(|values|, i requires 0 <= i < |values| => E.Digits(values[i]))
  {
    hide E.Digits;
    DigitsAreDigits(values[0]);
    if |values| == 1 {
      PlainSplit(E.Digits(values[0]), "", ',');
    } else {
      PlainSplit(E.Digits(values[0]), Written(values[1..]), ',');
      WrittenSplits(values[1..]);
    }
  }

  lemma DigitsPart(n: nat, low: int, high: int, number: Number)
    requires ReadsDigits(number) && low <= n <= high
    ensures Part(E.Digits(n), low, high, number) == Ok({n as int})
  {
    hide E.Digits;
    DigitsAreDigits(n);
    PlainBefore(E.Digits(n), '/');
    assert '-' !in E.Digits(n);
    assert E.Digits(n) != "*" by { assert "*"[0] == '*'; }
    assert Stepped(n, n, 1) == {n as int};
  }

  function Values(values: seq<nat>): set<int> {
    set v | v in values :: v as int
  }

  lemma ValuesSnoc(values: seq<nat>)
    requires values != []
    ensures Values(values) == Values(values[..|values| - 1]) + {values[|values| - 1] as int}
  {
    var front, last := values[..|values| - 1], values[|values| - 1];
    assert values == front + [last];
    forall x | x in Values(values) ensures x in Values(front) + {last as int} {
      var v :| v in values && x == v as int;
      assert v in front || v == last;
    }
    assert last in values;
    forall x | x in Values(front) ensures x in Values(values) {
      var v :| v in front && x == v as int;
      assert v in values;
    }
  }

  lemma {:induction false} DigitsRead(values: seq<nat>, parts: seq<string>, low: int, high: int, number: Number)
    requires ReadsDigits(number) && |parts| == |values|
    requires forall i | 0 <= i < |values| :: low <= values[i] <= high && parts[i] == E.Digits(values[i])
    ensures Parts(parts, low, high, number) == Ok(Values(values))
  {
    hide E.Digits;
    hide Part;
    if values == [] {
      assert Values(values) == {};
    } else {
      var n := |values| - 1;
      DigitsRead(values[..n], parts[..n], low, high, number);
      DigitsPart(values[n], low, high, number);
      ValuesSnoc(values);
    }
  }

  /** Any values of a field, written out in decimal between commas, read back as the same set. */
  lemma WrittenReadsBack(values: seq<nat>, low: int, high: int, number: Number)
    requires ReadsDigits(number) && values != []
    requires forall i | 0 <= i < |values| :: low <= values[i] <= high
    ensures Parts(T.SplitOn(Written(values), ','), low, high, number) == Ok(Values(values))
  {
    hide E.Digits;
    WrittenSplits(values);
    DigitsRead(values, T.SplitOn(Written(values), ','), low, high, number);
  }
}
