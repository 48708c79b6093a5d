/** The tool loop of one turn (siatt/core/agent.py). */
module Agent {
  import opened Transcript

  datatype StopReason = EndTurn | MaxTokens | ToolUseStop | StopSequence | ContentFilter

  /** A model call: a reply, or a failure or cancellation anywhere before the reply is stored. */
  datatype Call = Reply(content: seq<Block>, stop: StopReason) | Failed

  /** A tool call: its result, or an exception that leaves the dispatcher, cancellation included. */
  datatype Dispatch = Returned(content: string, isError: bool) | Raised

  /** The pictures that ride with the results: read from the attachment store, which can fail too. */
  datatype Pictures = Shown(images: seq<Block>) | Lost

  /** The places where a turn stores a message. */
  datatype Spot = AtOpening | AtReply | AtRefusal | AtClosing | AtStray | AtFiller | AtResults

  /**
   * Storing a message waits for the store. It is done, or a cancellation or a failure ends the turn there: after
   * the message was committed, or before, so that it is missing.
   */
  datatype Append = Done | DoneThenCut | Missed

  /** Everything the turn meets, by iteration; the opening is stored before the first, at 0. */
  datatype World = World(
    reply: nat -> Call, late: nat -> bool, dispatch: (nat, nat) -> Dispatch, pictures: nat -> Pictures,
    closing: nat -> Call, append: (nat, Spot) -> Append)

  /** A reply is text, thinking and tool calls with distinct ids; pictures are images. */
  ghost predicate Sane(w: World) {
    && (forall i :: SaneCall(w.reply(i)) && SaneCall(w.closing(i)))
    && (forall i | w.pictures(i).Shown? ::
          UseIds(w.pictures(i).images) == [] && ResultIds(w.pictures(i).images) == [])
  }

  ghost predicate SaneCall(c: Call) {
    c.Reply? ==> ResultIds(c.content) == [] && Distinct(UseIds(c.content))
  }

  const OUT_OF_BUDGET := "This turn is out of tool budget."
  const CANCELLED := "Turn was cancelled before this tool ran."

  function ResultsFor(ids: seq<string>, text: string): seq<Block> {
    seq(|ids|, i requires 0 <= i < |ids| => ToolResult(ids[i], text, true))
  }

  /** `_refused` */
  function Refused(ids: seq<string>): Message {
    Message(User, ResultsFor(ids, OUT_OF_BUDGET))
  }

  /** What is stored when dispatch is cut short: the results so far, and one for every call that never ran. */
  function Filled(ids: seq<string>, results: seq<Block>): Message {
    Message(User, results + ResultsFor(Unanswered(ids, ResultIds(results)), CANCELLED))
  }

  /** The results of the calls before the first that raised, and whether one did. */
  datatype Dispatched = Dispatched(results: seq<Block>, raised: bool)

  function DispatchFrom(w: World, i: nat, ids: seq<string>, j: nat): Dispatched
    requires j <= |ids|
    decreases |ids| - j
  {
    if j == |ids| then Dispatched([], false)
    else
      match w.dispatch(i, j)
      case Raised => Dispatched([], true)
      case Returned(content, isError) =>
        var rest := DispatchFrom(w, i, ids, j + 1);
        rest.(results := [ToolResult(ids[j], content, isError)] + rest.results)
  }

  /** The calls no result answers, in order. */
  function Unanswered(ids: seq<string>, answered: seq<string>): seq<string> {
    if ids == [] then []
    else (if ids[0] in answered then [] else [ids[0]]) + Unanswered(ids[1..], answered)
  }

  datatype Where = AtCall | AtDispatch | AtPictures | AtStore
  datatype Outcome = Finished(stop: StopReason) | OutOfBudget | Interrupted(where_: Where)
  datatype Ended = Ended(transcript: seq<Message>, outcome: Outcome, modelCalls: nat)

  /** The transcript after storing `m`, however that went. */
  function After(t: seq<Message>, m: Message, a: Append): seq<Message> {
    if a.Missed? then t else t + [m]
  }

  predicate OverBudget(w: World, max: nat, i: nat) {
    i > max || w.late(i)
  }

  /** The passes of the loop from iteration `i` on, with `max` tool rounds allowed. */
  function TurnFrom(w: World, max: nat, t: seq<Message>, i: nat): Ended
    requires 1 <= i <= max + 1
    decreases max + 1 - i
  {
    match w.reply(i)
    case Failed => Ended(t, Interrupted(AtCall), i)
    case Reply(content, stop) =>
      var ids := UseIds(content);
      var t1 := After(t, Message(Assistant, content), w.append(i, AtReply));
      if !w.append(i, AtReply).Done? then Ended(t1, Interrupted(AtStore), i)
      else if stop != ToolUseStop || ids == [] then Ended(t1, Finished(stop), i)
      else if OverBudget(w, max, i) then
        var t2 := After(t1, Refused(ids), w.append(i, AtRefusal));
        if !w.append(i, AtRefusal).Done? then Ended(t2, Interrupted(AtStore), i) else CloseOut(w, t2, i)
      else
        var d := DispatchFrom(w, i, ids, 0);
        if d.raised then Ended(After(t1, Filled(ids, d.results), w.append(i, AtFiller)), Interrupted(AtDispatch), i)
        else
          match w.pictures(i)
          case Lost => Ended(t1, Interrupted(AtPictures), i)
          case Shown(images) =>
            var t2 := After(t1, Message(User, d.results + images), w.append(i, AtResults));
            if !w.append(i, AtResults).Done? then Ended(t2, Interrupted(AtStore), i)
            else TurnFrom(w, max, t2, i + 1)
  }

  /** The last word of a turn out of budget: one more call with no tools, and any stray call refused. */
  function CloseOut(w: World, t: seq<Message>, i: nat): Ended {
    match w.closing(i)
    case Failed => Ended(t, Interrupted(AtCall), i + 1)
    case Reply(content, _) =>
      var t1 := After(t, Message(Assistant, content), w.append(i, AtClosing));
      if !w.append(i, AtClosing).Done? then Ended(t1, Interrupted(AtStore), i + 1)
      else if UseIds(content) == [] then Ended(t1, OutOfBudget, i + 1)
      else
        var t2 := After(t1, Refused(UseIds(content)), w.append(i, AtStray));
        Ended(t2, if w.append(i, AtStray).Done? then OutOfBudget else Interrupted(AtStore), i + 1)
  }

  /** The whole turn, from storing the message that opens it. */
  function WholeTurn(w: World, max: nat, t: seq<Message>, user: Message): Ended {
    var t1 := After(t, user, w.append(0, AtOpening));
    if !w.append(0, AtOpening).Done? then Ended(t1, Interrupted(AtStore), 0) else TurnFrom(w, max, t1, 1)
  }

  // ----- the loop as it runs

  class Session {
    var transcript: seq<Message>

    constructor ()
      ensures transcript == []
    {
      transcript := [];
    }

    method Append(m: Message, a: Append) returns (cut: bool)
      modifies this
      ensures transcript == After(old(transcript), m, a)
      ensures cut <==> !a.Done?
    {
      if !a.Missed? {
        transcript := transcript + [m];
      }
      cut := !a.Done?;
    }

    /** `_dispatch_all`: every call gets a result, even when one of them raises. */
    method DispatchAll(w: World, i: nat, ids: seq<string>) returns (results: seq<Block>, raised: bool)
      modifies this
      ensures Dispatched(results, raised) == DispatchFrom(w, i, ids, 0)
      ensures |results| <= |ids|
      ensures forall j | 0 <= j < |results| ::
        && w.dispatch(i, j).Returned?
        && results[j] == ToolResult(ids[j], w.dispatch(i, j).content, w.dispatch(i, j).isError)
      ensures if raised then |results| < |ids| && w.dispatch(i, |results|).Raised? else |results| == |ids|
      ensures transcript
           == if raised then After(old(transcript), Filled(ids, results), w.append(i, AtFiller)) else old(transcript)
    {
      results := [];
      for j := 0 to |ids|
        invariant transcript == old(transcript)
        invariant |results| == j
        invariant forall n | 0 <= n < j ::
          && w.dispatch(i, n).Returned?
          && results[n] == ToolResult(ids[n], w.dispatch(i, n).content, w.dispatch(i, n).isError)
        invariant DispatchFrom(w, i, ids, 0)
               == DispatchFrom(w, i, ids, j).(results := results + DispatchFrom(w, i, ids, j).results)
      {
        match w.dispatch(i, j) {
          case Raised =>
            var _ := Append(Filled(ids, results), w.append(i, AtFiller));
            assert DispatchFrom(w, i, ids, 0).results == results;
            return results, true;
          case Returned(content, isError) =>
            var one := [ToolResult(ids[j], content, isError)];
            ghost var rest := DispatchFrom(w, i, ids, j + 1).results;
            assert results + (one + rest) == (results + one) + rest;
            results := results + one;
        }
      }
      raised := false;
      assert results + [] == results;
    }

    /** `respond` */
    method Respond(w: World, max: nat, user: Message) returns (outcome: Outcome, modelCalls: nat)
      modifies this
      ensures Ended(transcript, outcome, modelCalls) == WholeTurn(w, max, old(transcript), user)
    {
      var cut := Append(user, w.append(0, AtOpening));
      if cut {
        return Interrupted(AtStore), 0;
      }
      ghost var start := transcript;
      var i := 1;
      while true
        invariant 1 <= i <= max + 1
        invariant TurnFrom(w, max, start, 1) == TurnFrom(w, max, transcript, i)
        decreases max + 1 - i
      {
        var response := w.reply(i);
        if response.Failed? {
          return Interrupted(AtCall), i;
        }
        cut := Append(Message(Assistant, response.content), w.append(i, AtReply));
        if cut {
          return Interrupted(AtStore), i;
        }
        var ids := UseIds(response.content);
        if response.stop != ToolUseStop || ids == [] {
          return Finished(response.stop), i;
        }
        if i > max || w.late(i) {
          cut := Append(Refused(ids), w.append(i, AtRefusal));
          if cut {
            return Interrupted(AtStore), i;
          }
          outcome := Close(w, i);
          return outcome, i + 1;
        }
        ghost var called := transcript;
        var results, raised := DispatchAll(w, i, ids);
        assert !raised ==> transcript == called;
        if raised {
          return Interrupted(AtDispatch), i;
        }
        var pictures := w.pictures(i);
        if pictures.Lost? {
          return Interrupted(AtPictures), i;
        }
        cut := Append(Message(User, results + pictures.images), w.append(i, AtResults));
        if cut {
          return Interrupted(AtStore), i;
        }
        i := i + 1;
      }
    }

    /** What `respond` does with the call that closes a turn out of budget. */
    method Close(w: World, i: nat) returns (outcome: Outcome)
      modifies this
      ensures Ended(transcript, outcome, i + 1) == CloseOut(w, old(transcript), i)
    {
      var closing := w.closing(i);
      if closing.Failed? {
        return Interrupted(AtCall);
      }
      var cut := Append(Message(Assistant, closing.content), w.append(i, AtClosing));
      if cut {
        return Interrupted(AtStore);
      }
      var stray := UseIds(closing.content);
      if stray != [] {
        cut := Append(Refused(stray), w.append(i, AtStray));
      }
      outcome := if cut then Interrupted(AtStore) else OutOfBudget;
    }
  }

  // ----- the transcript it leaves

  lemma {:induction false} ResultsForIds(ids: seq<string>, text: string)
    ensures ResultIds(ResultsFor(ids, text)) == ids
    ensures UseIds(ResultsFor(ids, text)) == []
  {
    var blocks := ResultsFor(ids, text);
    if ids != [] {
      ResultsForIds(ids[1..], text);
      assert blocks[1..] == ResultsFor(ids[1..], text);
    }
  }

  /** Dispatch answers a prefix of the calls: all of them, or those before the one that raised. */
  lemma {:induction false} DispatchedIds(w: World, i: nat, ids: seq<string>, j: nat)
    requires j <= |ids|
    ensures var d := DispatchFrom(w, i, ids, j);
            && UseIds(d.results) == []
            && |d.results| <= |ids| - j
            && ResultIds(d.results) == ids[j..j + |d.results|]
            && (!d.raised ==> |d.results| == |ids| - j)
    decreases |ids| - j
  {
    if j < |ids| && w.dispatch(i, j).Returned? {
      DispatchedIds(w, i, ids, j + 1);
      var rest := DispatchFrom(w, i, ids, j + 1).results;
      OneMoreResult(ids[j], w.dispatch(i, j).content, w.dispatch(i, j).isError, rest);
      assert ids[j..j + 1 + |rest|] == [ids[j]] + ids[j + 1..j + 1 + |rest|];
    }
  }

  lemma OneMoreResult(id: string, content: string, isError: bool, rest: seq<Block>)
    ensures UseIds([ToolResult(id, content, isError)] + rest) == UseIds(rest)
    ensures ResultIds([ToolResult(id, content, isError)] + rest) == [id] + ResultIds(rest)
  {
    assert ([ToolResult(id, content, isError)] + rest)[1..] == rest;
  }

  lemma {:induction false} UnansweredRest(ids: seq<string>, k: nat, answered: seq<string>)
    requires Distinct(ids) && k <= |ids| && answered == ids[..k]
    ensures Unanswered(ids, answered) == ids[k..]
  {
    UnansweredFrom(ids, k, answered, 0);
  }

  lemma {:induction false} UnansweredFrom(ids: seq<string>, k: nat, answered: seq<string>, at: nat)
    requires Distinct(ids) && at <= |ids| && k <= |ids| && answered == ids[..k]
    ensures Unanswered(ids[at..], answered) == if at <= k then ids[k..] else ids[at..]
    decreases |ids| - at
  {
    if at < |ids| {
      UnansweredFrom(ids, k, answered, at + 1);
      assert ids[at..][1..] == ids[at + 1..];
      assert ids[at] in answered <==> at < k by {
        if at < k { assert answered[at] == ids[at]; }
      }
    }
  }

  // ----- which turns leave a call unanswered, in terms of what they meet

  predicate Calls(c: Call) {
    c.Reply? && UseIds(c.content) != []
  }

  ghost predicate Raises(w: World, i: nat)
    requires w.reply(i).Reply?
  {
    exists j :: 0 <= j < |UseIds(w.reply(i).content)| && w.dispatch(i, j).Raised?
  }

  /** Iteration `i` makes calls within the budget, every call returns, and its messages are stored. */
  ghost predicate Goes(w: World, max: nat, i: nat) {
    && Calls(w.reply(i)) && w.reply(i).stop == ToolUseStop && w.append(i, AtReply).Done?
    && !OverBudget(w, max, i) && !Raises(w, i)
    && w.pictures(i).Shown? && w.append(i, AtResults).Done?
  }

  /** From iteration `i` the turn comes to iteration `k`. */
  ghost predicate Reached(w: World, max: nat, i: nat, k: nat) {
    i <= k && forall j | i <= j < k :: Goes(w, max, j)
  }

  /**
   * A reply that makes calls is stored, and then the turn is cut before anything else, or the reply reports some
   * other stop reason, or the message that would answer it is never made or not stored.
   */
  ghost predicate Strands(w: World, max: nat, k: nat) {
    && Calls(w.reply(k))
    && match w.append(k, AtReply)
       case Missed => false
       case DoneThenCut => true
       case Done =>
         if w.reply(k).stop != ToolUseStop then true
         else if OverBudget(w, max, k) then
           w.append(k, AtRefusal).Missed? || (w.append(k, AtRefusal).Done? && ClosingStrands(w, k))
         else if Raises(w, k) then w.append(k, AtFiller).Missed?
         else w.pictures(k).Lost? || w.append(k, AtResults).Missed?
  }

  /** The same of a call in the reply that closes the turn. */
  predicate ClosingStrands(w: World, k: nat) {
    && Calls(w.closing(k))
    && (w.append(k, AtClosing).DoneThenCut? || (w.append(k, AtClosing).Done? && w.append(k, AtStray).Missed?))
  }

  ghost predicate Stranding(w: World, max: nat, i: nat) {
    exists k: nat :: Reached(w, max, i, k) && Strands(w, max, k)
  }

  /** Whether iteration `i` strands a call, or goes on to one that does. */
  lemma StrandsHereOrLater(w: World, max: nat, i: nat)
    ensures Stranding(w, max, i) <==> Strands(w, max, i) || (Goes(w, max, i) && Stranding(w, max, i + 1))
  {
    hide Goes, Strands;
    if Stranding(w, max, i) {
      var k: nat :| Reached(w, max, i, k) && Strands(w, max, k);
      if k > i {
        assert Reached(w, max, i + 1, k);
      }
    }
    if Strands(w, max, i) {
      assert Reached(w, max, i, i);
    } else if Goes(w, max, i) && Stranding(w, max, i + 1) {
      var k: nat :| Reached(w, max, i + 1, k) && Strands(w, max, k);
      assert Reached(w, max, i, k);
    }
  }

  /** Dispatch is cut short exactly when some call raises. */
  lemma {:induction false} RaisedMeansSomeCall(w: World, i: nat, ids: seq<string>, j: nat)
    requires j <= |ids|
    ensures DispatchFrom(w, i, ids, j).raised <==> exists n :: j <= n < |ids| && w.dispatch(i, n).Raised?
    decreases |ids| - j
  {
    if j < |ids| {
      RaisedMeansSomeCall(w, i, ids, j + 1);
    }
  }

  lemma RefusedAnswers(ids: seq<string>)
    ensures Results(Refused(ids)) == ids && Uses(Refused(ids)) == []
  {
    ResultsForIds(ids, OUT_OF_BUDGET);
  }

  lemma CloseOutWellFormed(w: World, t: seq<Message>, i: nat)
    requires Sane(w) && WellFormed(t)
    ensures WellFormed(CloseOut(w, t, i).transcript) <==> !ClosingStrands(w, i)
    ensures CloseOut(w, t, i).modelCalls == i + 1
  {
    hide WellFormed;
    match w.closing(i)
    case Failed =>
    case Reply(content, _) =>
      assert SaneCall(w.closing(i));
      var reply := Message(Assistant, content);
      RefusedAnswers(UseIds(content));
      PlainAppend(t, reply);
      if UseIds(content) != [] {
        AnsweredAppend(t, reply, Refused(UseIds(content)));
      }
  }

  /** However the dispatch ended, its message answers every call of the reply, once and in order. */
  lemma DispatchAnswers(w: World, i: nat, ids: seq<string>)
    requires Distinct(ids)
    ensures var d := DispatchFrom(w, i, ids, 0);
            && UseIds(d.results) == []
            && (!d.raised ==> ResultIds(d.results) == ids)
            && (d.raised ==> Results(Filled(ids, d.results)) == ids && Uses(Filled(ids, d.results)) == [])
  {
    hide DispatchFrom, Distinct, Unanswered, UseIds, ResultIds;
    var d := DispatchFrom(w, i, ids, 0);
    DispatchedIds(w, i, ids, 0);
    if d.raised {
      var k := |d.results|;
      UnansweredRest(ids, k, ResultIds(d.results));
      var filler := ResultsFor(ids[k..], CANCELLED);
      ResultsForIds(ids[k..], CANCELLED);
      IdsConcat(d.results, filler);
      assert ids[..k] + ids[k..] == ids;
    } else {
      assert ids[0..|ids|] == ids;
    }
  }

  /**
   * However a model call, a tool or the storing of a message fails or is cancelled, the turn leaves every tool
   * call answered by the very next message, unless it comes to an iteration that strands one.
   */
  lemma {:induction false} TurnLeavesItWellFormed(w: World, max: nat, t: seq<Message>, i: nat)
    requires Sane(w) && WellFormed(t) && 1 <= i <= max + 1
    ensures WellFormed(TurnFrom(w, max, t, i).transcript)
       <==> !exists k: nat :: Reached(w, max, i, k) && Strands(w, max, k)
    ensures TurnFrom(w, max, t, i).modelCalls <= max + 2
    decreases max + 1 - i
  {
    hide WellFormed;
    StrandsHereOrLater(w, max, i);
    assert Stranding(w, max, i) <==> exists k: nat :: Reached(w, max, i, k) && Strands(w, max, k);
    match w.reply(i)
    case Failed =>
    case Reply(content, stop) =>
      assert SaneCall(w.reply(i));
      var ids := UseIds(content);
      var reply := Message(Assistant, content);
      PlainAppend(t, reply);
      if !w.append(i, AtReply).Done? || stop != ToolUseStop || ids == [] {
      } else if OverBudget(w, max, i) {
        RefusedAnswers(ids);
        AnsweredAppend(t, reply, Refused(ids));
        CloseOutWellFormed(w, t + [reply] + [Refused(ids)], i);
      } else {
        RoundLeavesItWellFormed(w, max, t, i);
        var d := DispatchFrom(w, i, ids, 0);
        if Goes(w, max, i) {
          TurnLeavesItWellFormed(w, max, t + [reply] + [Message(User, d.results + w.pictures(i).images)], i + 1);
          assert Stranding(w, max, i + 1) <==> exists k: nat :: Reached(w, max, i + 1, k) && Strands(w, max, k);
        }
      }
  }

  /** One round of calls: the message after the reply, once it is stored, answers it. */
  lemma RoundLeavesItWellFormed(w: World, max: nat, t: seq<Message>, i: nat)
    requires Sane(w) && WellFormed(t) && 1 <= i <= max && Calls(w.reply(i))
    requires w.reply(i).stop == ToolUseStop && !OverBudget(w, max, i) && w.append(i, AtReply).Done?
    ensures var reply := Message(Assistant, w.reply(i).content);
            var d := DispatchFrom(w, i, UseIds(reply.content), 0);
            && (Raises(w, i) <==> d.raised)
            && (Goes(w, max, i) ==> WellFormed(t + [reply] + [Message(User, d.results + w.pictures(i).images)]))
            && (!Goes(w, max, i) ==> (WellFormed(TurnFrom(w, max, t, i).transcript) <==> !Strands(w, max, i)))
  {
    hide WellFormed;
    assert SaneCall(w.reply(i));
    var reply := Message(Assistant, w.reply(i).content);
    var ids := UseIds(reply.content);
    var d := DispatchFrom(w, i, ids, 0);
    RaisedMeansSomeCall(w, i, ids, 0);
    DispatchAnswers(w, i, ids);
    PlainAppend(t, reply);
    if d.raised {
      AnsweredAppend(t, reply, Filled(ids, d.results));
    } else if w.pictures(i).Shown? {
      IdsConcat(d.results, w.pictures(i).images);
      AnsweredAppend(t, reply, Message(User, d.results + w.pictures(i).images));
    }
  }

  /**
   * With replies that report tool use whenever they call tools, pictures that can be read, and nothing cut while
   * it is being stored, nothing is stranded.
   */
  lemma HonestTurnsReplay(w: World, max: nat, t: seq<Message>)
    requires Sane(w) && WellFormed(t)
    requires forall i :: Calls(w.reply(i)) ==> w.reply(i).stop == ToolUseStop
    requires forall i :: w.pictures(i).Shown?
    requires forall i, spot :: w.append(i, spot).Done?
    ensures WellFormed(TurnFrom(w, max, t, 1).transcript)
  {
    TurnLeavesItWellFormed(w, max, t, 1);
  }

  /** What was said before stays as it was said. */
  lemma {:induction false} TurnOnlyAppends(w: World, max: nat, t: seq<Message>, i: nat)
    requires 1 <= i <= max + 1
    ensures t <= TurnFrom(w, max, t, i).transcript
    decreases max + 1 - i
  {
    if w.reply(i).Reply? {
      var reply := Message(Assistant, w.reply(i).content);
      var ids := UseIds(reply.content);
      var d := DispatchFrom(w, i, ids, 0);
      if !OverBudget(w, max, i) && w.pictures(i).Shown? {
        TurnOnlyAppends(w, max, t + [reply] + [Message(User, d.results + w.pictures(i).images)], i + 1);
      }
    }
  }

  /** One turn of a conversation: what it meets, its tool rounds, and the user message that opens it. */
  datatype Turn = Turn(world: World, max: nat, user: Message)

  /** The transcript after several turns. */
  function Conversation(turns: seq<Turn>): seq<Message> {
    if turns == [] then []
    else
      var last := turns[|turns| - 1];
      WholeTurn(last.world, last.max, Conversation(turns[..|turns| - 1]), last.user).transcript
  }

  ghost predicate Opens(turn: Turn) {
    Sane(turn.world) && StartsTurn(turn.user) && Uses(turn.user) == []
  }

  /** The turn opens, and comes to an iteration that strands a call. */
  ghost predicate LeavesUnanswered(turn: Turn) {
    turn.world.append(0, AtOpening).Done? && Stranding(turn.world, turn.max, 1)
  }

  /**
   * Turn after turn, interrupted or not, the stored conversation can be replayed if and only if no turn came to
   * an iteration that strands a call; one that did is never repaired by a later turn.
   */
  lemma {:induction false} ConversationWellFormed(turns: seq<Turn>)
    requires forall k | 0 <= k < |turns| :: Opens(turns[k])
    ensures WellFormed(Conversation(turns)) <==> forall k | 0 <= k < |turns| :: !LeavesUnanswered(turns[k])
  {
    hide WholeTurn, LeavesUnanswered;
    if turns != [] {
      var k := |turns| - 1;
      var init, last := turns[..k], turns[k];
      ConversationWellFormed(init);
      assert forall j | 0 <= j < k :: init[j] == turns[j];
      var before, whole := Conversation(init), Conversation(turns);
      TurnExtends(last, before);
      if WellFormed(before) {
        TurnStrands(last, before);
      } else if WellFormed(whole) && whole != before {
        CutAtHead(whole, |before|);
        assert whole[..|before|] == before;
      }
    }
  }

  /** A turn that stored anything stored its opening first. */
  lemma TurnExtends(turn: Turn, t: seq<Message>)
    ensures var whole := WholeTurn(turn.world, turn.max, t, turn.user).transcript;
            whole == t || t + [turn.user] <= whole
  {
    TurnOnlyAppends(turn.world, turn.max, t + [turn.user], 1);
  }

  lemma TurnStrands(turn: Turn, t: seq<Message>)
    requires Opens(turn) && WellFormed(t)
    ensures WellFormed(WholeTurn(turn.world, turn.max, t, turn.user).transcript) <==> !LeavesUnanswered(turn)
  {
    PlainAppend(t, turn.user);
    TurnLeavesItWellFormed(turn.world, turn.max, t + [turn.user], 1);
  }
}
