/** What a turn stores, message by message, told from what it meets (siatt/core/agent.py). */
module AgentTurns {
  import opened Agent
  import opened Transcript

  // ----- one round of calls

  /** The calls before `k` all come back. */
  ghost predicate ComeBack(w: World, i: nat, k: nat) {
    forall j: nat | j < k :: w.dispatch(i, j).Returned?
  }

  /** What the first `k` calls gave, under the ids they were made with. */
  ghost function Given(w: World, i: nat, ids: seq<string>, k: nat): seq<Block>
    requires k <= |ids| && ComeBack(w, i, k)
  {
    seq(k, j requires 0 <= j < k => ToolResult(ids[j], w.dispatch(i, j).content, w.dispatch(i, j).isError))
  }

  /** One error for each of the calls from `k` on. */
  function Errors(ids: seq<string>, k: nat, text: string): seq<Block>
    requires k <= |ids|
  {
    seq(|ids| - k, j requires 0 <= j < |ids| - k => ToolResult(ids[k + j], text, true))
  }

  lemma {:induction false} DispatchIsGiven(w: World, i: nat, ids: seq<string>, j: nat)
    requires j <= |ids|
    ensures var d := DispatchFrom(w, i, ids, j);
            && j + |d.results| <= |ids|
            && (forall n | j <= n < j + |d.results| ::
                  && w.dispatch(i, n).Returned?
                  && d.results[n - j] == ToolResult(ids[n], w.dispatch(i, n).content, w.dispatch(i, n).isError))
            && (if d.raised then j + |d.results| < |ids| && w.dispatch(i, j + |d.results|).Raised?
                else j + |d.results| == |ids|)
    decreases |ids| - j
  {
    if j < |ids| && w.dispatch(i, j).Returned? {
      DispatchIsGiven(w, i, ids, j + 1);
    }
  }

  /** The calls are made in order up to the first that raises; what each gave is its result, unchanged. */
  lemma DispatchExactly(w: World, i: nat, ids: seq<string>)
    ensures var d := DispatchFrom(w, i, ids, 0); var k := |d.results|;
            && k <= |ids| && ComeBack(w, i, k) && d.results == Given(w, i, ids, k)
            && (if d.raised then k < |ids| && w.dispatch(i, k).Raised? else k == |ids|)
  {
    DispatchIsGiven(w, i, ids, 0);
  }

  /** After a call that raised, it and every later one get an error in the message that is stored. */
  lemma FilledExactly(w: World, i: nat, ids: seq<string>, k: nat)
    requires Distinct(ids) && k <= |ids| && ComeBack(w, i, k)
    ensures Filled(ids, Given(w, i, ids, k))
         == Message(User, Given(w, i, ids, k) + Errors(ids, k, "Turn was cancelled before this tool ran."))
  {
    GivenIds(w, i, ids, k);
    UnansweredRest(ids, k, ids[..k]);
    assert ResultsFor(ids[k..], CANCELLED) == Errors(ids, k, CANCELLED);
  }

  lemma {:induction false} GivenIds(w: World, i: nat, ids: seq<string>, k: nat)
    requires k <= |ids| && ComeBack(w, i, k)
    ensures ResultIds(Given(w, i, ids, k)) == ids[..k]
  {
    if k > 0 {
      GivenIds(w, i, ids, k - 1);
      var init := Given(w, i, ids, k - 1);
      var last := ToolResult(ids[k - 1], w.dispatch(i, k - 1).content, w.dispatch(i, k - 1).isError);
      assert Given(w, i, ids, k) == init + [last];
      IdsConcat(init, [last]);
      OneMoreResult(last.useId, last.content, last.isError, []);
      assert [last] + [] == [last];
      assert ids[..k] == ids[..k - 1] + [ids[k - 1]];
    }
  }

  lemma RefusedExactly(ids: seq<string>)
    ensures Refused(ids) == Message(User, Errors(ids, 0, "This turn is out of tool budget."))
  {
    assert ResultsFor(ids, OUT_OF_BUDGET) == Errors(ids, 0, OUT_OF_BUDGET);
  }

  // ----- the iterations that go on

  function Said(w: World, i: nat): Message
    requires w.reply(i).Reply?
  {
    Message(Assistant, w.reply(i).content)
  }

  function CallsOf(w: World, i: nat): seq<string>
    requires w.reply(i).Reply?
  {
    UseIds(w.reply(i).content)
  }

  /** The answer to a reply all of whose calls come back: their results, and then the pictures. */
  ghost function Answer(w: World, i: nat): Message
    requires w.reply(i).Reply? && w.pictures(i).Shown? && ComeBack(w, i, |CallsOf(w, i)|)
  {
    Message(User, Given(w, i, CallsOf(w, i), |CallsOf(w, i)|) + w.pictures(i).images)
  }

  lemma GoesAnswers(w: World, max: nat, i: nat)
    requires Goes(w, max, i)
    ensures ComeBack(w, i, |CallsOf(w, i)|) && i <= max
    ensures DispatchFrom(w, i, CallsOf(w, i), 0)
         == Dispatched(Given(w, i, CallsOf(w, i), |CallsOf(w, i)|), false)
  {
    DispatchExactly(w, i, CallsOf(w, i));
  }

  // ----- the iteration that ends it

  /** What storing a message adds. */
  function Stored(m: Message, a: Append): seq<Message> {
    if a.Missed? then [] else [m]
  }

  /** The first of the calls that raises. */
  ghost predicate FirstRaise(w: World, i: nat, k: nat) {
    ComeBack(w, i, k) && w.dispatch(i, k).Raised?
  }

  /** What the last iteration adds, how the turn ends, and how many calls to the model it made. */
  ghost predicate EndsTurn(w: World, max: nat, i: nat, tail: seq<Message>, outcome: Outcome, modelCalls: nat) {
    if w.reply(i).Failed? then tail == [] && outcome == Interrupted(AtCall) && modelCalls == i
    else if !w.append(i, AtReply).Done? then
      tail == Stored(Said(w, i), w.append(i, AtReply)) && outcome == Interrupted(AtStore) && modelCalls == i
    else if w.reply(i).stop != ToolUseStop || CallsOf(w, i) == [] then
      tail == [Said(w, i)] && outcome == Finished(w.reply(i).stop) && modelCalls == i
    else if OverBudget(w, max, i) then
      var refusal := Message(User, Errors(CallsOf(w, i), 0, "This turn is out of tool budget."));
      if !w.append(i, AtRefusal).Done? then
        && tail == [Said(w, i)] + Stored(refusal, w.append(i, AtRefusal))
        && outcome == Interrupted(AtStore) && modelCalls == i
      else
        modelCalls == i + 1 && exists last :: tail == [Said(w, i), refusal] + last && EndsClosing(w, i, last, outcome)
    else if Raises(w, i) then
      && outcome == Interrupted(AtDispatch) && modelCalls == i
      && exists k :: && 0 <= k < |CallsOf(w, i)| && FirstRaise(w, i, k)
                     && tail == [Said(w, i)] + Stored(Cut(w, i, k), w.append(i, AtFiller))
    else if w.pictures(i).Lost? then tail == [Said(w, i)] && outcome == Interrupted(AtPictures) && modelCalls == i
    else
      && ComeBack(w, i, |CallsOf(w, i)|) && outcome == Interrupted(AtStore) && modelCalls == i
      && tail == [Said(w, i)] + Stored(Answer(w, i), w.append(i, AtResults))
  }

  /** The message that is stored when call `k` raises. */
  ghost function Cut(w: World, i: nat, k: nat): Message
    requires w.reply(i).Reply? && k <= |CallsOf(w, i)| && ComeBack(w, i, k)
  {
    Message(User, Given(w, i, CallsOf(w, i), k)
                  + Errors(CallsOf(w, i), k, "Turn was cancelled before this tool ran."))
  }

  /** What the closing call adds to a turn out of budget. */
  ghost predicate EndsClosing(w: World, i: nat, last: seq<Message>, outcome: Outcome) {
    match w.closing(i)
    case Failed => last == [] && outcome == Interrupted(AtCall)
    case Reply(content, _) =>
      var said := Message(Assistant, content);
      if !w.append(i, AtClosing).Done? then
        last == Stored(said, w.append(i, AtClosing)) && outcome == Interrupted(AtStore)
      else if UseIds(content) == [] then last == [said] && outcome == OutOfBudget
      else
        var refusal := Message(User, Errors(UseIds(content), 0, "This turn is out of tool budget."));
        && last == [said] + Stored(refusal, w.append(i, AtStray))
        && outcome == if w.append(i, AtStray).Done? then OutOfBudget else Interrupted(AtStore)
  }

  lemma CloseOutEnds(w: World, t: seq<Message>, i: nat) returns (last: seq<Message>)
    ensures var e := CloseOut(w, t, i);
            e.transcript == t + last && e.modelCalls == i + 1 && EndsClosing(w, i, last, e.outcome)
  {
    match w.closing(i)
    case Failed =>
      last := [];
    case Reply(content, _) =>
      RefusedExactly(UseIds(content));
      last := CloseOut(w, t, i).transcript[|t|..];
  }

  /** An iteration that does not go on ends the turn in one of these ways. */
  lemma LastIteration(w: World, max: nat, t: seq<Message>, i: nat) returns (tail: seq<Message>)
    requires Sane(w) && 1 <= i <= max + 1 && !Goes(w, max, i)
    ensures var e := TurnFrom(w, max, t, i);
            e.transcript == t + tail && EndsTurn(w, max, i, tail, e.outcome, e.modelCalls)
  {
    hide CloseOut, Given, Errors, EndsClosing, DispatchFrom, Filled, Refused;
    var e := TurnFrom(w, max, t, i);
    match w.reply(i)
    case Failed =>
      tail := [];
    case Reply(content, stop) =>
      var ids, said := UseIds(content), Message(Assistant, content);
      assert SaneCall(w.reply(i));
      if !w.append(i, AtReply).Done? || stop != ToolUseStop || ids == [] {
        tail := e.transcript[|t|..];
      } else if OverBudget(w, max, i) {
        RefusedExactly(ids);
        var refusal := Refused(ids);
        if w.append(i, AtRefusal).Done? {
          var last := CloseOutEnds(w, t + [said] + [refusal], i);
          tail := [said, refusal] + last;
        } else {
          tail := [said] + Stored(refusal, w.append(i, AtRefusal));
        }
      } else {
        tail := CallsEnd(w, max, t, i);
      }
  }

  lemma CallsEnd(w: World, max: nat, t: seq<Message>, i: nat) returns (tail: seq<Message>)
    requires 1 <= i <= max + 1 && !Goes(w, max, i) && Calls(w.reply(i)) && w.reply(i).stop == ToolUseStop
    requires w.append(i, AtReply).Done? && !OverBudget(w, max, i) && Distinct(CallsOf(w, i))
    ensures var e := TurnFrom(w, max, t, i);
            e.transcript == t + tail && EndsTurn(w, max, i, tail, e.outcome, e.modelCalls)
  {
    hide CloseOut, Given, Errors, EndsClosing, DispatchFrom, Filled, Refused, Distinct;
    var ids, said := CallsOf(w, i), Said(w, i);
    DispatchExactly(w, i, ids);
    var d := DispatchFrom(w, i, ids, 0);
    var k := |d.results|;
    if d.raised {
      assert Raises(w, i);
      FilledExactly(w, i, ids, k);
      tail := [said] + Stored(Cut(w, i, k), w.append(i, AtFiller));
      assert FirstRaise(w, i, k);
    } else {
      assert !Raises(w, i);
      if w.pictures(i).Lost? {
        tail := [said];
      } else {
        assert !w.append(i, AtResults).Done?;
        tail := [said] + Stored(Answer(w, i), w.append(i, AtResults));
      }
    }
  }

  /** The rounds of the iterations from `i` up to `k`: each reply and its answer. */
  ghost predicate HoldsRounds(w: World, stored: seq<Message>, i: nat, k: nat) {
    && i <= k && |stored| == 2 * (k - i)
    && forall j | i <= j < k ::
         && w.reply(j).Reply? && w.pictures(j).Shown? && ComeBack(w, j, |CallsOf(w, j)|)
         && stored[2 * (j - i)] == Said(w, j) && stored[2 * (j - i) + 1] == Answer(w, j)
  }

  /** The iteration at which a turn ends. */
  ghost function LastOf(w: World, max: nat, i: nat): (k: nat)
    requires 1 <= i <= max + 1
    ensures k <= max + 1 && Reached(w, max, i, k) && !Goes(w, max, k)
    decreases max + 1 - i
  {
    if !Goes(w, max, i) then i else
      var k := LastOf(w, max, i + 1);
      assert forall j | i <= j < k :: j == i || Goes(w, max, j);
      k
  }

  /**
   * A turn stores, after what was there, every reply that goes on with its answer, and then what its last iteration
   * adds.
   */
  lemma {:induction false} TurnStores(w: World, max: nat, t: seq<Message>, i: nat)
      returns (rounds: seq<Message>, tail: seq<Message>)
    requires Sane(w) && 1 <= i <= max + 1
    ensures var e := TurnFrom(w, max, t, i);
            && e.transcript == t + rounds + tail && HoldsRounds(w, rounds, i, LastOf(w, max, i))
            && EndsTurn(w, max, LastOf(w, max, i), tail, e.outcome, e.modelCalls)
    decreases max + 1 - i
  {
    hide EndsTurn, Given, Sane, Reached;
    if Goes(w, max, i) {
      GoesAnswers(w, max, i);
      var t1 := t + [Said(w, i)] + [Answer(w, i)];
      var later;
      later, tail := TurnStores(w, max, t1, i + 1);
      rounds := [Said(w, i), Answer(w, i)] + later;
      assert TurnFrom(w, max, t, i) == TurnFrom(w, max, t1, i + 1);
      assert t1 + later + tail == t + rounds + tail;
      OneMoreRound(w, later, i, LastOf(w, max, i));
    } else {
      rounds := [];
      tail := LastIteration(w, max, t, i);
      assert t + [] + tail == t + tail;
    }
  }

  lemma OneMoreRound(w: World, later: seq<Message>, i: nat, k: nat)
    requires HoldsRounds(w, later, i + 1, k)
    requires w.reply(i).Reply? && w.pictures(i).Shown? && ComeBack(w, i, |CallsOf(w, i)|)
    ensures HoldsRounds(w, [Said(w, i), Answer(w, i)] + later, i, k)
  {
    hide Said, Answer, ComeBack;
    var rounds := [Said(w, i), Answer(w, i)] + later;
    forall j | i <= j < k
      ensures && w.reply(j).Reply? && w.pictures(j).Shown? && ComeBack(w, j, |CallsOf(w, j)|)
              && rounds[2 * (j - i)] == Said(w, j) && rounds[2 * (j - i) + 1] == Answer(w, j)
    {
      if j > i {
        assert rounds[2 * (j - i)] == later[2 * (j - (i + 1))];
      }
    }
  }
}
