/** Leasing work out of a queue and making sure it is reported back (siatt/core/drain.py).
    Every action is one stretch of code that runs without awaiting. */
module Drain {
  import opened Wrappers

  type Id = string

  datatype Report = Complete | Fail | Release

  /** How the work ended: cut short is a cancellation, of the task or of something the work waited for. */
  datatype Outcome = Returned | Raised | CutShort

  /** Where a task is: scheduled, in the work, in the call that reports it, or over. */
  datatype Phase = Scheduled | Working | Reporting | Over

  /** `begun`: it has run at all. `cut`: a cancellation ended it outside the work. */
  datatype Task = Task(id: Id, phase: Phase, outcome: Option<Outcome>, reports: seq<Report>,
                       begun: bool, cut: bool, forgotten: bool)

  datatype Mode = Running | Settling(waitingFor: set<nat>) | Settled

  /** What a lease that has not answered yet was asked for. */
  datatype Request = Request(limit: nat, exclude: set<Id>)

  datatype State = State(tasks: seq<Task>, inFlight: map<Id, nat>, asked: Option<Request>, mode: Mode)

  datatype Action =
    | Ask
    | Answer(leased: seq<Id>)
    | AskCancelled
    | Begin(task: nat)
    | WorkEnds(task: nat, outcome: Outcome)
    | Cancel(task: nat)
    | ReportEnds(task: nat)
    | Forget(task: nat)
    | Settle
    | SettleEnds

  const INIT := State([], map[], None, Running)

  function NewTask(id: Id): Task {
    Task(id, Scheduled, None, [], false, false, false)
  }

  /** The call the outcome asks for. */
  function ReportOf(outcome: Outcome): Report {
    match outcome case Returned => Complete case Raised => Fail case CutShort => Release
  }

  function Ends(t: Task, outcome: Outcome): Task {
    t.(phase := Reporting, outcome := Some(outcome), reports := t.reports + [ReportOf(outcome)])
  }

  /** What cancelling a task does: in the work it releases the item; before it ever ran, or while
      it is reporting, it just ends. */
  function Cancelled(t: Task): Task {
    match t.phase
    case Working => Ends(t, CutShort)
    case Over => t
    case _ => t.(phase := Over, cut := true)
  }

  /** `_start_batch` once the lease has answered: one task for every item not already running. */
  function Launched(s: State, leased: seq<Id>): (State, nat) {
    if leased == [] then (s, 0)
    else
      var (before, started) := Launched(s, leased[..|leased| - 1]);
      var id := leased[|leased| - 1];
      if id in before.inFlight then (before, started) else (LaunchOne(before, id), started + 1)
  }

  function LaunchOne(s: State, id: Id): State {
    s.(tasks := s.tasks + [NewTask(id)], inFlight := s.inFlight[id := |s.tasks|])
  }

  predicate Enabled(s: State, action: Action, concurrency: nat) {
    match action
    case Ask => s.mode.Running? && s.asked.None? && |s.inFlight| < concurrency
    case Answer(leased) => s.asked.Some? && |leased| <= s.asked.value.limit
    case AskCancelled => s.asked.Some?
    case Begin(t) => t < |s.tasks| && s.tasks[t].phase.Scheduled?
    case WorkEnds(t, _) => t < |s.tasks| && s.tasks[t].phase.Working?
    case Cancel(t) => t < |s.tasks| && s.mode.Settling? && t in s.mode.waitingFor
    case ReportEnds(t) => t < |s.tasks| && s.tasks[t].phase.Reporting?
    case Forget(t) => t < |s.tasks| && s.tasks[t].phase.Over? && !s.tasks[t].forgotten
    case Settle => s.mode.Running? && s.asked.None?
    case SettleEnds =>
      s.mode.Settling? && forall t | t in s.mode.waitingFor :: t < |s.tasks| ==> s.tasks[t].forgotten
  }

  function Put(s: State, t: nat, task: Task): State
    requires t < |s.tasks|
  {
    s.(tasks := s.tasks[t := task])
  }

  function Apply(s: State, action: Action, concurrency: nat): State
    requires Enabled(s, action, concurrency)
  {
    match action
    case Ask => s.(asked := Some(Request(concurrency - |s.inFlight|, s.inFlight.Keys)))
    case Answer(leased) => Launched(s, leased).0.(asked := None)
    case AskCancelled => s.(asked := None)
    case Begin(t) => Put(s, t, s.tasks[t].(phase := Working, begun := true))
    case WorkEnds(t, outcome) => Put(s, t, Ends(s.tasks[t], outcome))
    case Cancel(t) => Put(s, t, Cancelled(s.tasks[t]))
    case ReportEnds(t) => Put(s, t, s.tasks[t].(phase := Over))
    case Forget(t) => Put(s, t, s.tasks[t].(forgotten := true)).(inFlight := s.inFlight - {s.tasks[t].id})
    case Settle => s.(mode := Settling(s.inFlight.Values))
    case SettleEnds => s.(mode := Settled)
  }

  ghost predicate Run(states: seq<State>, actions: seq<Action>, concurrency: nat) {
    && |states| == |actions| + 1 && states[0] == INIT
    && forall k | 0 <= k < |actions| ::
         Enabled(states[k], actions[k], concurrency) && states[k + 1] == Apply(states[k], actions[k], concurrency)
  }

  // --- what every step keeps ---

  /** `_in_flight` is exactly what has not been forgotten, by id. */
  ghost predicate Tracked(s: State) {
    && (forall id | id in s.inFlight ::
          s.inFlight[id] < |s.tasks| && s.tasks[s.inFlight[id]].id == id && !s.tasks[s.inFlight[id]].forgotten)
    && (forall t | 0 <= t < |s.tasks| && !s.tasks[t].forgotten ::
          s.tasks[t].id in s.inFlight && s.inFlight[s.tasks[t].id] == t)
  }

  /** Room for what is running and what has been asked for, and nothing running that the queue was
      not told of. */
  predicate Bounded(s: State, concurrency: nat) {
    && |s.inFlight| <= concurrency
    && (s.asked.Some? ==> |s.inFlight| + s.asked.value.limit <= concurrency && s.inFlight.Keys <= s.asked.value.exclude)
  }

  /** A task that has begun makes one report, the one its outcome asks for, as soon as its work
      has ended; a task that has not begun makes none. */
  predicate ReportedOnce(t: Task) {
    && (t.outcome.Some? ==> t.begun && t.reports == [ReportOf(t.outcome.value)])
    && (t.outcome.None? ==> t.reports == [])
    && (t.outcome.Some? <==> t.phase.Reporting? || (t.phase.Over? && t.begun))
    && (t.phase.Working? ==> t.begun)
    && (t.phase.Scheduled? ==> !t.begun)
    && (t.cut ==> t.phase.Over?) && (t.phase.Over? && !t.cut ==> t.begun)
    && (t.forgotten ==> t.phase.Over?)
  }

  /** Settling waits for everything that is running; nothing new starts. */
  ghost predicate Winding(s: State) {
    && (!s.mode.Running? ==> s.asked.None?)
    && (s.mode.Settling? ==> forall id | id in s.inFlight :: s.inFlight[id] in s.mode.waitingFor)
    && (s.mode.Settled? ==> s.inFlight == map[])
  }

  ghost predicate Inv(s: State, concurrency: nat) {
    Tracked(s) && Bounded(s, concurrency) && Winding(s) && AllReportedOnce(s)
  }

  ghost predicate AllReportedOnce(s: State) {
    forall t | 0 <= t < |s.tasks| :: ReportedOnce(s.tasks[t])
  }

  lemma LaunchOneKeeps(s: State, id: Id)
    requires Tracked(s) && AllReportedOnce(s) && id !in s.inFlight
    ensures Tracked(LaunchOne(s, id)) && AllReportedOnce(LaunchOne(s, id))
    ensures |LaunchOne(s, id).inFlight| == |s.inFlight| + 1
  {
    assert LaunchOne(s, id).inFlight.Keys == s.inFlight.Keys + {id};
  }

  lemma {:induction false} LaunchKeeps(s: State, leased: seq<Id>)
    requires Tracked(s) && AllReportedOnce(s)
    ensures var (after, started) := Launched(s, leased);
      && Tracked(after) && AllReportedOnce(after)
      && |after.inFlight| == |s.inFlight| + started && started <= |leased|
      && after.mode == s.mode && after.asked == s.asked
  {
    hide Tracked;
    hide AllReportedOnce;
    if leased != [] {
      LaunchKeeps(s, leased[..|leased| - 1]);
      var before, id := Launched(s, leased[..|leased| - 1]).0, leased[|leased| - 1];
      if id !in before.inFlight {
        LaunchOneKeeps(before, id);
      }
    }
  }

  /** A step that moves one task on and leaves the rest. */
  lemma PutKeeps(s: State, t: nat, task: Task, concurrency: nat)
    requires Inv(s, concurrency) && t < |s.tasks|
    requires task.id == s.tasks[t].id && task.forgotten == s.tasks[t].forgotten && ReportedOnce(task)
    ensures Inv(Put(s, t, task), concurrency)
  {
    hide ReportedOnce;
  }

  lemma ForgetKeeps(s: State, t: nat, concurrency: nat)
    requires Inv(s, concurrency) && Enabled(s, Forget(t), concurrency)
    ensures Inv(Apply(s, Forget(t), concurrency), concurrency)
  {
    hide Launched;
    var u := Apply(s, Forget(t), concurrency);
    assert u.inFlight.Keys == s.inFlight.Keys - {s.tasks[t].id};
    assert |u.inFlight.Keys| <= |s.inFlight.Keys|;
  }

  lemma NothingLeft(s: State, concurrency: nat)
    requires Inv(s, concurrency) && Enabled(s, SettleEnds, concurrency)
    ensures s.inFlight == map[]
  {}

  lemma StepKeeps(s: State, action: Action, concurrency: nat)
    requires Inv(s, concurrency) && Enabled(s, action, concurrency)
    ensures Inv(Apply(s, action, concurrency), concurrency)
  {
    match action
    case Answer(leased) => LaunchKeeps(s, leased);
    case Begin(t) => PutKeeps(s, t, s.tasks[t].(phase := Working, begun := true), concurrency);
    case WorkEnds(t, outcome) => PutKeeps(s, t, Ends(s.tasks[t], outcome), concurrency);
    case Cancel(t) => PutKeeps(s, t, Cancelled(s.tasks[t]), concurrency);
    case ReportEnds(t) => PutKeeps(s, t, s.tasks[t].(phase := Over), concurrency);
    case Forget(t) => ForgetKeeps(s, t, concurrency);
    case Settle =>
      assert forall id | id in s.inFlight :: s.inFlight[id] in s.inFlight.Values;
    case SettleEnds => NothingLeft(s, concurrency);
    case _ =>
  }

  lemma {:induction false} RunKeeps(states: seq<State>, actions: seq<Action>, concurrency: nat, k: nat)
    requires Run(states, actions, concurrency) && k < |states|
    ensures Inv(states[k], concurrency)
  {
    hide Apply;
    hide Enabled;
    if k > 0 {
      hide Inv;
      RunKeeps(states, actions, concurrency, k - 1);
      StepKeeps(states[k - 1], actions[k - 1], concurrency);
    }
  }

  /** Whatever the queue hands out, no item is ever run by two tasks at once, and no more than
      `concurrency` run. */
  lemma OneTaskPerItem(states: seq<State>, actions: seq<Action>, concurrency: nat, k: nat)
    requires Run(states, actions, concurrency) && k < |states|
    ensures |states[k].inFlight| <= concurrency
    ensures var s := states[k];
      forall t, u | 0 <= t < u < |s.tasks| && !s.tasks[t].phase.Over? && !s.tasks[u].phase.Over? ::
        s.tasks[t].id != s.tasks[u].id
  {
    RunKeeps(states, actions, concurrency, k);
    hide Run;
    var s := states[k];
    forall t, u | 0 <= t < u < |s.tasks| && !s.tasks[t].phase.Over? && !s.tasks[u].phase.Over?
      ensures s.tasks[t].id != s.tasks[u].id
    {
      assert ReportedOnce(s.tasks[t]) && ReportedOnce(s.tasks[u]);
    }
  }

  /** A task that began and is over made exactly one report, the one its work earned, however it
      was cancelled; one cancelled before it ran made none. Only a task cancelled while it was
      reporting, or before it began, ends without having seen its report through. */
  lemma ReportsExactlyOnce(states: seq<State>, actions: seq<Action>, concurrency: nat, k: nat, t: nat)
    requires Run(states, actions, concurrency) && k < |states| && t < |states[k].tasks|
    ensures var task := states[k].tasks[t];
      && |task.reports| <= 1
      && (task.phase.Over? ==> (task.begun <==> task.outcome.Some?))
      && (task.phase.Over? && task.outcome == Some(Returned) ==> task.reports == [Complete])
      && (task.phase.Over? && task.outcome == Some(Raised) ==> task.reports == [Fail])
      && (task.phase.Over? && task.outcome == Some(CutShort) ==> task.reports == [Release])
      && (task.phase.Over? && !task.begun ==> task.reports == [])
      && (task.phase.Over? && !task.cut ==> task.begun)
  {
    RunKeeps(states, actions, concurrency, k);
    hide Run;
    assert ReportedOnce(states[k].tasks[t]);
  }

  /** After settling nothing runs. */
  lemma SettledMeansOver(states: seq<State>, actions: seq<Action>, concurrency: nat, k: nat, t: nat)
    requires Run(states, actions, concurrency) && k < |states| && states[k].mode.Settled?
    ensures states[k].inFlight == map[]
    ensures t < |states[k].tasks| ==> states[k].tasks[t].phase.Over?
  {
    RunKeeps(states, actions, concurrency, k);
    hide Run;
    if t < |states[k].tasks| { assert ReportedOnce(states[k].tasks[t]); }
  }

  /** The guard against re-leased items is never needed with a queue that honours `exclude`:
      even if leases expire while their work runs, everything it hands out is started. */
  lemma HonestQueueStartsAll(states: seq<State>, actions: seq<Action>, concurrency: nat, k: nat, leased: seq<Id>)
    requires Run(states, actions, concurrency) && k < |states| && states[k].asked.Some?
    requires forall i | 0 <= i < |leased| :: leased[i] !in states[k].asked.value.exclude
    requires forall i, j | 0 <= i < j < |leased| :: leased[i] != leased[j]
    ensures Launched(states[k], leased).1 == |leased|
  {
    RunKeeps(states, actions, concurrency, k);
    hide Run;
    NothingSkipped(states[k], leased);
  }

  lemma {:induction false} NothingSkipped(s: State, leased: seq<Id>)
    requires forall i | 0 <= i < |leased| :: leased[i] !in s.inFlight
    requires forall i, j | 0 <= i < j < |leased| :: leased[i] != leased[j]
    ensures Launched(s, leased).1 == |leased|
    ensures forall id :: id in Launched(s, leased).0.inFlight <==> id in s.inFlight || id in leased
  {
    if leased != [] {
      var rest := leased[..|leased| - 1];
      NothingSkipped(s, rest);
      assert leased == rest + [leased[|leased| - 1]];
    }
  }

  /** Once the lease has answered, every item it handed out is in flight, and those that were not are scheduled. */
  lemma AnswerStarts(s: State, leased: seq<Id>, concurrency: nat, id: Id)
    requires Tracked(s) && AllReportedOnce(s) && Enabled(s, Answer(leased), concurrency) && id in leased
    ensures var t := Apply(s, Answer(leased), concurrency);
            && t.asked.None? && id in t.inFlight && t.inFlight[id] < |t.tasks|
            && (id in s.inFlight ==> t.inFlight[id] == s.inFlight[id])
            && (id !in s.inFlight ==> |s.tasks| <= t.inFlight[id] && t.tasks[t.inFlight[id]] == NewTask(id))
            && s.tasks <= t.tasks
  {
    LaunchedEach(s, leased, id);
  }

  lemma {:induction false} LaunchedEach(s: State, leased: seq<Id>, id: Id)
    requires Tracked(s) && AllReportedOnce(s)
    ensures var t := Launched(s, leased).0;
            && s.tasks <= t.tasks
            && (id in leased || id in s.inFlight ==> id in t.inFlight && t.inFlight[id] < |t.tasks|)
            && (id in s.inFlight ==> t.inFlight[id] == s.inFlight[id])
            && (id !in s.inFlight && id in t.inFlight ==>
                  && |s.tasks| <= t.inFlight[id] < |t.tasks| && t.tasks[t.inFlight[id]] == NewTask(id))
  {
    if leased != [] {
      var init, last := leased[..|leased| - 1], leased[|leased| - 1];
      LaunchedEach(s, init, id);
      assert leased == init + [last];
    }
  }

  /** A task that nothing disturbs begins, reports what its work earned, and leaves the map; nothing else changes. */
  lemma UndisturbedTask(s: State, t: nat, outcome: Outcome, concurrency: nat)
    requires t < |s.tasks| && s.tasks[t] == NewTask(s.tasks[t].id)
    ensures Enabled(s, Begin(t), concurrency)
    ensures var a := Apply(s, Begin(t), concurrency);
            && Enabled(a, WorkEnds(t, outcome), concurrency)
            && var b := Apply(a, WorkEnds(t, outcome), concurrency);
               && b.tasks[t].reports
                  == [if outcome == Returned then Complete else if outcome == Raised then Fail else Release]
               && Enabled(b, ReportEnds(t), concurrency)
               && var c := Apply(b, ReportEnds(t), concurrency);
                  && Enabled(c, Forget(t), concurrency)
                  && var d := Apply(c, Forget(t), concurrency);
                     && d.inFlight == s.inFlight - {s.tasks[t].id}
                     && |d.tasks| == |s.tasks| && d.tasks[t].phase.Over? && d.tasks[t].begun && d.tasks[t].forgotten
                     && forall u | 0 <= u < |s.tasks| && u != t :: d.tasks[u] == s.tasks[u]
  {}

  /** Settling waits for every task that is in flight, and is over as soon as they have all left the map. */
  lemma SettlesWhenAllAreOver(s: State, concurrency: nat)
    requires Tracked(s) && Enabled(s, Settle, concurrency)
    ensures var t := Apply(s, Settle, concurrency);
            && t.mode.Settling? && t.tasks == s.tasks && t.inFlight == s.inFlight
            && (Enabled(t, SettleEnds, concurrency) <==> s.inFlight == map[])
            && (s.inFlight == map[] ==> Apply(t, SettleEnds, concurrency).mode.Settled?)
  {
    var t := Apply(s, Settle, concurrency);
    forall id | id in s.inFlight ensures s.inFlight[id] in t.mode.waitingFor {}
    if s.inFlight != map[] {
      var id :| id in s.inFlight;
      assert s.inFlight[id] in t.mode.waitingFor;
    }
  }

  // --- the drainer as an object ---

  class Drainer {
    const concurrency: nat
    var tasks: seq<Task>
    var inFlight: map<Id, nat>

    constructor (concurrency: int)
      ensures tasks == [] && inFlight == map[] && this.concurrency >= 1
      ensures concurrency >= 1 ==> this.concurrency == concurrency
    {
      this.concurrency := if concurrency < 1 then 1 else concurrency;
      tasks, inFlight := [], map[];
    }

    function Now(asked: Option<Request>, mode: Mode): State
      reads this
    {
      State(tasks, inFlight, asked, mode)
    }

    /** How many to lease, and which to leave out. */
    method Offer() returns (free: int, exclude: set<Id>)
      ensures free == concurrency - |inFlight| && exclude == inFlight.Keys
    {
      free := concurrency - |inFlight|;
      exclude := inFlight.Keys;
    }

    /** The second half of `_start_batch`. */
    method Launch(leased: seq<Id>) returns (started: nat)
      modifies this
      ensures forall asked, mode ::
        (Now(asked, mode), started) == Launched(old(Now(asked, mode)), leased)
    {
      started := 0;
      ghost var tasks0, inFlight0 := tasks, inFlight;
      for i := 0 to |leased|
        invariant forall asked, mode ::
          (Now(asked, mode), started) == Launched(State(tasks0, inFlight0, asked, mode), leased[..i])
      {
        assert leased[..i + 1][..i] == leased[..i];
        var id := leased[i];
        if id in inFlight {
          continue;
        }
        inFlight := inFlight[id := |tasks|];
        tasks := tasks + [NewTask(id)];
        started := started + 1;
      }
      assert leased[..|leased|] == leased;
    }

    /** The done callback. */
    method Forgets(t: nat)
      requires t < |tasks|
      modifies this
      ensures tasks == old(tasks)[t := old(tasks)[t].(forgotten := true)]
      ensures inFlight == old(inFlight) - {old(tasks)[t].id}
      ensures forall asked, mode ::
        var before := State(old(tasks), old(inFlight), asked, mode);
        Enabled(before, Forget(t), concurrency) ==> Now(asked, mode) == Apply(before, Forget(t), concurrency)
    {
      inFlight := inFlight - {tasks[t].id};
      tasks := tasks[t := tasks[t].(forgotten := true)];
    }
  }
}
