/** The single-writer lease: a lock the kernel frees when its holder dies, and a row that says who
    holds it (siatt/memory/lease.py). */
module Leases {
  import opened Wrappers

  /** Where a process is in `acquire`, `release` or `stale_lease`. */
  datatype Pc =
    | Out
    | Locked
    | Seen(found: Option<nat>)
    | Taking(found: Option<nat>)
    | Held
    | RowGone
    | Stuck
    | ProbeRead(row: nat)
    | ProbeLocked(row: nat)
    | Reported(row: nat)
    | Crashed

  /** Who has the lock, whom the row names, and where every process is. */
  datatype State = State(lock: Option<nat>, row: Option<nat>, pcs: seq<Pc>)

  datatype Action =
    | TryLock(p: nat)
    | ReadRow(p: nat)
    | ReadFails(p: nat)
    | SetFd(p: nat)
    | TakeRow(p: nat)
    | TakeFails(p: nat, written: bool)
    | DeleteRow(p: nat)
    | DeleteFails(p: nat, deleted: bool)
    | Unlock(p: nat)
    | ProbeRow(p: nat)
    | ProbeTest(p: nat)
    | ProbeUnlock(p: nat)
    | Acknowledge(p: nat)
    | Crash(p: nat)

  predicate Enabled(s: State, action: Action) {
    && action.p < |s.pcs|
    && var pc := s.pcs[action.p];
       match action
       case TryLock(_) => pc.Out?
       case ReadRow(_) => pc.Locked?
       case ReadFails(_) => pc.Locked?
       case SetFd(_) => pc.Seen?
       case TakeRow(_) => pc.Taking?
       case TakeFails(_, _) => pc.Taking?
       case DeleteRow(_) => pc.Held?
       case DeleteFails(_, _) => pc.Held?
       case Unlock(_) => pc.RowGone?
       case ProbeRow(_) => pc.Out?
       case ProbeTest(_) => pc.ProbeRead?
       case ProbeUnlock(_) => pc.ProbeLocked?
       case Acknowledge(_) => pc.Reported?
       case Crash(_) => !pc.Crashed?
  }

  function At(s: State, p: nat, pc: Pc): State
    requires p < |s.pcs|
  {
    s.(pcs := s.pcs[p := pc])
  }

  function Apply(s: State, action: Action): State
    requires Enabled(s, action)
  {
    var p := action.p;
    match action
    case TryLock(_) => if s.lock.None? then At(s, p, Locked).(lock := Some(p)) else s
    case ReadRow(_) => At(s, p, Seen(s.row))
    case ReadFails(_) => At(s, p, Stuck)
    case SetFd(_) => At(s, p, Taking(s.pcs[p].found))
    case TakeRow(_) => At(s, p, Held).(row := Some(p))
    case TakeFails(_, written) => At(s, p, Held).(row := if written then Some(p) else s.row)
    case DeleteRow(_) => At(s, p, RowGone).(row := None)
    case DeleteFails(_, deleted) => s.(row := if deleted then None else s.row)
    case Unlock(_) => At(s, p, Out).(lock := None)
    case ProbeRow(_) => if s.row.None? then s else At(s, p, ProbeRead(s.row.value))
    case ProbeTest(_) =>
      if s.lock.None? then At(s, p, ProbeLocked(s.pcs[p].row)).(lock := Some(p)) else At(s, p, Out)
    case ProbeUnlock(_) => At(s, p, Reported(s.pcs[p].row)).(lock := None)
    case Acknowledge(_) => At(s, p, Out)
    case Crash(_) => At(s, p, Crashed).(lock := if s.lock == Some(p) then None else s.lock)
  }

  ghost predicate Run(states: seq<State>, actions: seq<Action>) {
    && |states| == |actions| + 1
    && states[0] == State(None, None, seq(|states[0].pcs|, i => Out))
    && forall k | 0 <= k < |actions| :: Enabled(states[k], actions[k]) && states[k + 1] == Apply(states[k], actions[k])
  }

  /** The process has the lock open, whether or not it knows it. */
  predicate HasLock(pc: Pc) {
    pc.Locked? || pc.Seen? || pc.Taking? || pc.Held? || pc.RowGone? || pc.Stuck? || pc.ProbeLocked?
  }

  /** `held`. */
  predicate HoldsLease(pc: Pc) {
    pc.Taking? || pc.Held? || pc.RowGone?
  }

  /** A row names a process that crashed, or one that has the lock and has not deleted its row. */
  ghost predicate RowExplained(s: State) {
    s.row.Some? ==>
      && s.row.value < |s.pcs|
      && (s.pcs[s.row.value].Crashed? || s.pcs[s.row.value].Held?)
  }

  /** The lock is with the one process that has it open. */
  ghost predicate LockExplained(s: State) {
    && (s.lock.Some? ==> s.lock.value < |s.pcs|)
    && forall p | 0 <= p < |s.pcs| :: HasLock(s.pcs[p]) <==> s.lock == Some(p)
  }

  /** Whatever an acquiring process found was left by a crash. */
  ghost predicate FoundExplained(s: State) {
    forall p | 0 <= p < |s.pcs| && (s.pcs[p].Seen? || s.pcs[p].Taking?) && s.pcs[p].found.Some? ::
      s.pcs[p].found.value < |s.pcs| && s.pcs[s.pcs[p].found.value].Crashed?
  }

  ghost predicate Inv(s: State) {
    LockExplained(s) && RowExplained(s) && FoundExplained(s)
  }

  lemma StepKeepsLock(s: State, action: Action)
    requires LockExplained(s) && Enabled(s, action)
    ensures LockExplained(Apply(s, action))
  {}

  lemma StepKeepsRow(s: State, action: Action)
    requires Inv(s) && Enabled(s, action)
    ensures RowExplained(Apply(s, action))
  {}

  lemma StepKeepsFound(s: State, action: Action)
    requires Inv(s) && Enabled(s, action)
    ensures FoundExplained(Apply(s, action))
  {}

  lemma StepKeeps(s: State, action: Action)
    requires Inv(s) && Enabled(s, action)
    ensures Inv(Apply(s, action))
  {
    hide Apply;
    hide Enabled;
    StepKeepsLock(s, action);
    StepKeepsRow(s, action);
    StepKeepsFound(s, action);
  }

  lemma {:induction false} RunKeeps(states: seq<State>, actions: seq<Action>, k: nat)
    requires Run(states, actions) && k < |states|
    ensures Inv(states[k])
  {
    if k > 0 {
      RunKeeps(states, actions, k - 1);
      StepKeeps(states[k - 1], actions[k - 1]);
    }
  }

  /** However processes interleave, fail and crash, at most one holds the lease. */
  lemma OneHolder(states: seq<State>, actions: seq<Action>, k: nat, p: nat, q: nat)
    requires Run(states, actions) && k < |states|
    requires p < |states[k].pcs| && q < |states[k].pcs| && HoldsLease(states[k].pcs[p]) && HoldsLease(states[k].pcs[q])
    ensures p == q
  {
    RunKeeps(states, actions, k);
  }

  /** A row that `acquire` finds was left by a process that crashed. */
  lemma TakeoverIsFromACrash(states: seq<State>, actions: seq<Action>, k: nat, p: nat)
    requires Run(states, actions) && k < |states| && p < |states[k].pcs|
    requires states[k].pcs[p].Seen? && states[k].pcs[p].found.Some?
    ensures states[k].pcs[p].found.value < |states[k].pcs|
    ensures states[k].pcs[states[k].pcs[p].found.value].Crashed?
  {
    RunKeeps(states, actions, k);
  }

  /** A row read while the lock is free names a process that crashed. */
  lemma RowUnderFreeLock(states: seq<State>, actions: seq<Action>, k: nat)
    requires Run(states, actions) && k < |states|
    requires states[k].lock.None? && states[k].row.Some?
    ensures states[k].row.value < |states[k].pcs| && states[k].pcs[states[k].row.value].Crashed?
  {
    RunKeeps(states, actions, k);
  }

  // --- the row itself ---

  /** Whoever has read the row and not written it yet still has it right. */
  ghost predicate FoundStands(s: State) {
    forall p | 0 <= p < |s.pcs| && (s.pcs[p].Seen? || s.pcs[p].Taking?) :: s.pcs[p].found == s.row
  }

  lemma StepKeepsStanding(s: State, action: Action)
    requires Inv(s) && FoundStands(s) && Enabled(s, action)
    ensures FoundStands(Apply(s, action))
  {}

  /** What `acquire` reports as taken over is the very row that it then overwrites. */
  lemma {:induction false} FoundIsTheRow(states: seq<State>, actions: seq<Action>, k: nat)
    requires Run(states, actions) && k < |states|
    ensures FoundStands(states[k])
  {
    if k > 0 {
      FoundIsTheRow(states, actions, k - 1);
      RunKeeps(states, actions, k - 1);
      StepKeepsStanding(states[k - 1], actions[k - 1]);
    }
  }

  /** What the statements leave in the store, a failing one having done its work or not. */
  function RowAfter(actions: seq<Action>): Option<nat> {
    if actions == [] then None
    else
      match actions[|actions| - 1]
      case TakeRow(p) => Some(p)
      case TakeFails(p, true) => Some(p)
      case DeleteRow(_) => None
      case DeleteFails(_, true) => None
      case _ => RowAfter(actions[..|actions| - 1])
  }

  lemma {:induction false} RowIsWhatWasWritten(states: seq<State>, actions: seq<Action>, k: nat)
    requires Run(states, actions) && k < |states|
    ensures states[k].row == RowAfter(actions[..k])
  {
    if k > 0 {
      RowIsWhatWasWritten(states, actions, k - 1);
      assert actions[..k][..k - 1] == actions[..k - 1];
    }
  }

  // --- the probe reads the row first ---

  /** What would make the probe's report right: the row it read still stands once it has the lock. */
  lemma ProbeRightIfRowStands(states: seq<State>, actions: seq<Action>, k: nat, q: nat)
    requires Run(states, actions) && k < |states| && q < |states[k].pcs|
    requires states[k].pcs[q].ProbeLocked? && states[k].row == Some(states[k].pcs[q].row)
    ensures states[k].row.value < |states[k].pcs| && states[k].pcs[states[k].row.value].Crashed?
  {
    RunKeeps(states, actions, k);
  }

  function ProbeTrace(k: nat): State {
    match k
    case 0 => State(None, None, [Out, Out])
    case 1 => State(Some(0), None, [Locked, Out])
    case 2 => State(Some(0), None, [Seen(None), Out])
    case 3 => State(Some(0), None, [Taking(None), Out])
    case 4 => State(Some(0), Some(0), [Held, Out])
    case 5 => State(Some(0), Some(0), [Held, ProbeRead(0)])
    case 6 => State(Some(0), None, [RowGone, ProbeRead(0)])
    case 7 => State(None, None, [Out, ProbeRead(0)])
    case 8 => State(Some(1), None, [Out, ProbeLocked(0)])
    case _ => State(None, None, [Out, Reported(0)])
  }

  const PROBE_ACTIONS: seq<Action> :=
    [TryLock(0), ReadRow(0), SetFd(0), TakeRow(0), ProbeRow(1), DeleteRow(0), Unlock(0), ProbeTest(1), ProbeUnlock(1)]

  lemma ProbeTraceStep(k: nat)
    requires k < 9
    ensures Enabled(ProbeTrace(k), PROBE_ACTIONS[k]) && ProbeTrace(k + 1) == Apply(ProbeTrace(k), PROBE_ACTIONS[k])
  {}

  /** As written, the probe can report a process that released its lease in good order. */
  lemma ProbeCanAccuseTheLiving()
    ensures exists states: seq<State>, actions :: Run(states, actions) && Accuses(states[|states| - 1])
  {
    var states := seq(10, k requires 0 <= k < 10 => ProbeTrace(k));
    forall k | 0 <= k < 9
      ensures Enabled(states[k], PROBE_ACTIONS[k]) && states[k + 1] == Apply(states[k], PROBE_ACTIONS[k])
    {
      ProbeTraceStep(k);
    }
    assert [Out, Out] == seq(2, i => Out);
    assert Run(states, PROBE_ACTIONS);
    assert Accuses(ProbeTrace(9));
    assert Accuses(states[|states| - 1]);
  }

  predicate Accuses(s: State) {
    |s.pcs| == 2 && s.pcs[1] == Reported(0) && s.pcs[0] == Out
  }

  // --- a store error between the lock and the row ---

  /** A process whose row read failed keeps a lock it no longer knows of: until it dies, nobody
      can take the lease, itself included. */
  lemma {:induction false} LeakedLockStarves(states: seq<State>, actions: seq<Action>, j: nat, k: nat, p: nat, q: nat)
    requires Run(states, actions) && j <= k < |states| && p < |states[j].pcs|
    requires states[j].pcs[p].Stuck? && forall i | j <= i < k :: actions[i] != Crash(p)
    ensures p < |states[k].pcs| && states[k].pcs[p].Stuck? && states[k].lock == Some(p)
    ensures q < |states[k].pcs| ==> !HoldsLease(states[k].pcs[q])
    decreases k - j
  {
    RunKeeps(states, actions, k);
    if j < k {
      LeakedLockStarves(states, actions, j, k - 1, p, q);
      RunKeeps(states, actions, k - 1);
    }
  }

  // --- the lease as an object, when nothing goes wrong around it ---

  /** What every process shares: the lock and the row. */
  class Shared {
    var lock: Option<nat>
    var row: Option<nat>
  }

  datatype Failure = AlreadyHeld | Busy(named: Option<nat>) | StoreFailed

  class Lease {
    const me: nat
    const shared: Shared
    var held: bool

    constructor (me: nat, shared: Shared)
      ensures this.me == me && this.shared == shared && !held
    {
      this.me, this.shared, held := me, shared, false;
    }

    /** The decision is the lock; the row is read, and written, only under it. */
    method Acquire(readOk: bool, writeOk: bool) returns (found: Result<Option<nat>, Failure>)
      modifies this`held, shared
      ensures old(held) ==> found == Err(AlreadyHeld) && held
      ensures old(held) || old(shared.lock).Some? ==> shared.lock == old(shared.lock) && shared.row == old(shared.row)
      ensures !old(held) && old(shared.lock).Some? ==> found == Err(Busy(old(shared.row))) && !held
      ensures !old(held) && old(shared.lock).None? ==>
        && shared.lock == Some(me)
        && (found == Ok(old(shared.row)) <==> readOk && writeOk)
        && (found.Err? ==> found == Err(StoreFailed))
        && held == readOk
        && shared.row == if readOk && writeOk then Some(me) else old(shared.row)
    {
      if held {
        return Err(AlreadyHeld);
      }
      if shared.lock.Some? {
        return Err(Busy(shared.row));
      }
      shared.lock := Some(me);
      if !readOk {
        return Err(StoreFailed);
      }
      var stale := shared.row;
      held := true;
      if !writeOk {
        return Err(StoreFailed);
      }
      shared.row := Some(me);
      return Ok(stale);
    }

    /** Row first, then the lock. */
    method Release(deleteOk: bool) returns (ok: bool)
      modifies this`held, shared
      ensures ok <==> !old(held) || deleteOk
      ensures !old(held) ==> shared.lock == old(shared.lock) && shared.row == old(shared.row) && !held
      ensures old(held) && deleteOk ==> shared.row == None && shared.lock == None && !held
      ensures old(held) && !deleteOk ==> shared.row == old(shared.row) && shared.lock == old(shared.lock) && held
    {
      if !held {
        return true;
      }
      if !deleteOk {
        return false;
      }
      shared.row := None;
      shared.lock := None;
      held := false;
      return true;
    }
  }

  /** Undisturbed, the steps of `acquire` and then of `release` do what the object does: take over
      lock and row, and leave neither. */
  lemma AcquireThenRelease(s: State, p: nat)
    requires p < |s.pcs| && s.pcs[p].Out? && s.lock.None?
    ensures var locked := Apply(s, TryLock(p));
      var taken := Apply(Apply(Apply(locked, ReadRow(p)), SetFd(p)), TakeRow(p));
      && taken == State(Some(p), Some(p), s.pcs[p := Held])
      && Apply(Apply(taken, DeleteRow(p)), Unlock(p)) == State(None, None, s.pcs)
  {
    var taken := Apply(Apply(Apply(Apply(s, TryLock(p)), ReadRow(p)), SetFd(p)), TakeRow(p));
    assert taken.pcs == s.pcs[p := Held];
    assert Apply(Apply(taken, DeleteRow(p)), Unlock(p)).pcs == s.pcs;
  }
}
