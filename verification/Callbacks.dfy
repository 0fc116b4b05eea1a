/**
 Callbacks on their way back from the workers to the main loop: a queue under the pool's
 lock, and a flag that the main loop looks at without the lock. Every read and write of the
 flag and of the queue is a step of its own.
 */
module Callbacks {
  import opened Prelude

  type Thread = nat
  type Closure = nat

  /** Where a call of schedule_back (the first six) or of run_callbacks is. */
  datatype Pc =
    | Allocated(x: Closure)
    | Locked(x: Closure)
    | Tested(x: Closure, wake: bool)
    | FlagSet(x: Closure, wake: bool, epoch: nat)
    | Queued(wake: bool, epoch: nat)
    | Unlocked(wake: bool, epoch: nat)
    | Looking
    | SawFlag
    | Draining
    | Emptied(batch: seq<Closure>)
    | FlagReset(batch: seq<Closure>)
    | Running(batch: seq<Closure>)
    | Returned

  datatype State = State(
    haveScheduledBack: bool,
    scheduledBack: seq<Closure>,
    holder: Option<Thread>,
    calls: map<Thread, Pc>,
    // History: how often the flag was reset, how many wakeups were issued since for closures
    // queued since, what was queued and what was taken out, in order.
    epoch: nat,
    issued: nat,
    queued: seq<Closure>,
    drained: seq<Closure>)

  datatype Step =
    | ScheduleBack(t: Thread, x: Closure)
    | RunCallbacks(t: Thread)
    | Advance(t: Thread)

  predicate NeedsLock(pc: Pc) {
    pc.Allocated? || pc.SawFlag?
  }

  predicate HasLock(pc: Pc) {
    || pc.Locked? || pc.Tested? || pc.FlagSet? || pc.Queued?
    || pc.Draining? || pc.Emptied? || pc.FlagReset?
  }

  predicate Enabled(s: State, step: Step) {
    match step
    case ScheduleBack(t, _) => t !in s.calls || s.calls[t].Returned?
    case RunCallbacks(t) => t !in s.calls || s.calls[t].Returned?
    case Advance(t) =>
      && t in s.calls && !s.calls[t].Returned?
      && (NeedsLock(s.calls[t]) ==> s.holder.None?)
  }

  function At(s: State, t: Thread, pc: Pc): State {
    s.(calls := s.calls[t := pc])
  }

  function Next(s: State, step: Step): State
    requires Enabled(s, step)
  {
    match step
    case ScheduleBack(t, x) => At(s, t, Allocated(x))
    case RunCallbacks(t) => At(s, t, Looking)
    case Advance(t) =>
      match s.calls[t]
      case Allocated(x) => At(s, t, Locked(x)).(holder := Some(t))
      case Locked(x) => At(s, t, Tested(x, !s.haveScheduledBack))
      case Tested(x, wake) => At(s, t, FlagSet(x, wake, s.epoch)).(haveScheduledBack := true)
      case FlagSet(x, wake, epoch) =>
        At(s, t, Queued(wake, epoch)).(
          scheduledBack := s.scheduledBack + [x], queued := s.queued + [x])
      case Queued(wake, epoch) => At(s, t, Unlocked(wake, epoch)).(holder := None)
      case Unlocked(wake, epoch) =>
        At(s, t, Returned).(issued := if wake && epoch == s.epoch then s.issued + 1 else s.issued)
      case Looking => At(s, t, if s.haveScheduledBack then SawFlag else Returned)
      case SawFlag => At(s, t, Draining).(holder := Some(t))
      case Draining =>
        At(s, t, Emptied(s.scheduledBack)).(
          scheduledBack := [], drained := s.drained + s.scheduledBack)
      case Emptied(batch) =>
        At(s, t, FlagReset(batch)).(haveScheduledBack := false, epoch := s.epoch + 1, issued := 0)
      case FlagReset(batch) => At(s, t, Running(batch)).(holder := None)
      case Running(batch) => if batch == [] then At(s, t, Returned) else At(s, t, Running(batch[1..]))
      case Returned => s
  }

  predicate Init(s: State) {
    s == State(false, [], None, map[], 0, 0, [], [])
  }

  predicate IsRun(states: seq<State>, steps: seq<Step>) {
    && |states| == |steps| + 1
    && Init(states[0])
    && forall i :: 0 <= i < |steps| ==>
         Enabled(states[i], steps[i]) && states[i + 1] == Next(states[i], steps[i])
  }

  // ---------- the invariant ----------

  /** A wakeup will be issued by this call, tagged with the drain it follows. */
  predicate Owes(pc: Pc, epoch: nat) {
    (pc.FlagSet? || pc.Queued? || pc.Unlocked?) && pc.wake && pc.epoch == epoch
  }

  function Owing(s: State): set<Thread> {
    set t | t in s.calls && Owes(s.calls[t], s.epoch)
  }

  /** A clear flag means an empty queue, also inside the critical sections. */
  predicate FlagInv(s: State) {
    !s.haveScheduledBack ==> s.scheduledBack == []
  }

  predicate LockInv(s: State) {
    && (s.holder.Some? ==> s.holder.value in s.calls)
    && forall t :: t in s.calls ==> (HasLock(s.calls[t]) <==> s.holder == Some(t))
  }

  /** What a call knows while it holds the lock. */
  predicate KnowsInv(s: State) {
    forall t :: t in s.calls ==>
      match s.calls[t]
      case Tested(_, wake) => wake == !s.haveScheduledBack
      case FlagSet(_, _, epoch) => s.haveScheduledBack && epoch == s.epoch
      case Queued(_, epoch) => s.haveScheduledBack && epoch == s.epoch
      case Unlocked(_, epoch) => epoch <= s.epoch
      case Emptied(_) => s.scheduledBack == []
      case _ => true
  }

  /** Since the last drain one wakeup is issued or owed if the flag is set, none if not. */
  predicate WakeupInv(s: State) {
    |Owing(s)| + s.issued == if s.haveScheduledBack then 1 else 0
  }

  predicate Inv(s: State) {
    && FlagInv(s) && LockInv(s) && KnowsInv(s) && WakeupInv(s)
    && s.queued == s.drained + s.scheduledBack
  }

  lemma OneMember(a: set<Thread>, b: set<Thread>, t: Thread)
    requires a - {t} == b - {t}
    ensures |a| - (if t in a then 1 else 0) == |b| - (if t in b then 1 else 0)
  {
    assert if t in a then a == (a - {t}) + {t} else a == a - {t};
    assert if t in b then b == (b - {t}) + {t} else b == b - {t};
  }

  /** A call moves; who owes a wakeup changes only through that call. */
  lemma OwingMoves(s: State, t: Thread, pc: Pc)
    ensures var s' := At(s, t, pc);
            |Owing(s')| == |Owing(s)| - (if t in Owing(s) then 1 else 0)
                           + (if Owes(pc, s.epoch) then 1 else 0)
  {
    var s' := At(s, t, pc);
    assert Owing(s') - {t} == Owing(s) - {t};
    OneMember(Owing(s'), Owing(s), t);
  }

  lemma CallKeeps(s: State, step: Step)
    requires Inv(s) && Enabled(s, step) && !step.Advance?
    ensures Inv(Next(s, step))
  {
    OwingMoves(s, step.t, Next(s, step).calls[step.t]);
  }

  /** The only step that starts a new count. */
  lemma ResetKeeps(s: State, t: Thread)
    requires Inv(s) && Enabled(s, Advance(t)) && s.calls[t].Emptied?
    ensures Inv(Next(s, Advance(t)))
  {
    assert Owing(Next(s, Advance(t))) == {};
  }

  lemma LockKept(s: State, t: Thread)
    requires LockInv(s) && Enabled(s, Advance(t))
    ensures LockInv(Next(s, Advance(t)))
  {
  }

  /** While one call holds the lock, what the others know does not change. */
  lemma KnowsKept(s: State, t: Thread)
    requires Inv(s) && Enabled(s, Advance(t)) && !s.calls[t].Emptied?
    ensures KnowsInv(Next(s, Advance(t)))
  {
    var s' := Next(s, Advance(t));
    if HasLock(s.calls[t]) {
      assert forall u :: u in s.calls && u != t ==> !HasLock(s.calls[u]);
    }
  }

  /**
   A call moves within a count: the wakeups owed and issued change by as much as the number
   that the flag asks for.
   */
  lemma WakeupMoves(s: State, t: Thread, s': State)
    requires WakeupInv(s) && t in s.calls && s'.epoch == s.epoch && t in s'.calls
    requires s'.calls == s.calls[t := s'.calls[t]]
    requires (if Owes(s'.calls[t], s.epoch) then 1 else 0) - (if Owes(s.calls[t], s.epoch) then 1 else 0)
               + s'.issued - s.issued
             == (if s'.haveScheduledBack then 1 else 0) - (if s.haveScheduledBack then 1 else 0)
    ensures WakeupInv(s')
  {
    OwingMoves(s, t, s'.calls[t]);
    assert Owing(s') == Owing(At(s, t, s'.calls[t]));
  }

  /** The one step that makes a call owe a wakeup, and the one that pays. */
  lemma WakeupPaid(s: State, t: Thread)
    requires Inv(s) && Enabled(s, Advance(t)) && (s.calls[t].Tested? || s.calls[t].Unlocked?)
    ensures WakeupInv(Next(s, Advance(t)))
  {
    WakeupMoves(s, t, Next(s, Advance(t)));
  }

  lemma WakeupUntouched(s: State, t: Thread)
    requires WakeupInv(s) && KnowsInv(s) && Enabled(s, Advance(t))
    requires !s.calls[t].Tested? && !s.calls[t].Unlocked? && !s.calls[t].Emptied?
    ensures WakeupInv(Next(s, Advance(t)))
  {
    WakeupMoves(s, t, Next(s, Advance(t)));
  }

  lemma WakeupKept(s: State, t: Thread)
    requires Inv(s) && Enabled(s, Advance(t)) && !s.calls[t].Emptied?
    ensures WakeupInv(Next(s, Advance(t)))
  {
    if s.calls[t].Tested? || s.calls[t].Unlocked? {
      WakeupPaid(s, t);
    } else {
      WakeupUntouched(s, t);
    }
  }

  lemma QueueKept(s: State, t: Thread)
    requires Inv(s) && Enabled(s, Advance(t)) && !s.calls[t].Emptied?
    ensures var s' := Next(s, Advance(t));
            FlagInv(s') && s'.queued == s'.drained + s'.scheduledBack
  {
    if s.calls[t].FlagSet? {
      var x := s.calls[t].x;
      assert s.drained + (s.scheduledBack + [x]) == (s.drained + s.scheduledBack) + [x];
    }
  }

  lemma AdvanceKeeps(s: State, t: Thread)
    requires Inv(s) && Enabled(s, Advance(t)) && !s.calls[t].Emptied?
    ensures Inv(Next(s, Advance(t)))
  {
    LockKept(s, t);
    KnowsKept(s, t);
    WakeupKept(s, t);
    QueueKept(s, t);
  }

  lemma StepKeeps(s: State, step: Step)
    requires Inv(s) && Enabled(s, step)
    ensures Inv(Next(s, step))
  {
    if !step.Advance? {
      CallKeeps(s, step);
    } else if s.calls[step.t].Emptied? {
      ResetKeeps(s, step.t);
    } else {
      AdvanceKeeps(s, step.t);
    }
  }

  lemma {:induction false} InvOverRuns(states: seq<State>, steps: seq<Step>, i: nat)
    requires IsRun(states, steps) && i < |states|
    ensures Inv(states[i])
  {
    if i == 0 {
      assert Owing(states[0]) == {};
    } else {
      InvOverRuns(states, steps, i - 1);
      StepKeeps(states[i - 1], steps[i - 1]);
    }
  }

  // ---------- guarantees ----------

  /** In every state of every run, a clear flag means that no callback is queued. */
  lemma ClearFlagMeansEmpty(states: seq<State>, steps: seq<Step>, i: nat)
    requires IsRun(states, steps) && i < |states|
    ensures !states[i].haveScheduledBack ==> states[i].scheduledBack == []
  {
    InvOverRuns(states, steps, i);
  }

  /**
   In every state of every run with a callback queued, exactly one wakeup has been issued
   or is owed since the last drain: one was issued and nobody owes one, or none was issued
   and exactly one call is about to issue it.
   */
  lemma ExactlyOneWakeup(states: seq<State>, steps: seq<Step>, i: nat)
    requires IsRun(states, steps) && i < |states|
    requires states[i].scheduledBack != []
    ensures || (states[i].issued == 1 && Owing(states[i]) == {})
            || (states[i].issued == 0 && exists t :: Owing(states[i]) == {t})
  {
    InvOverRuns(states, steps, i);
    var s := states[i];
    if s.issued == 0 {
      var t :| t in Owing(s);
      assert |Owing(s) - {t}| == 0;
      assert Owing(s) == {t};
    }
  }

  /** Callbacks leave the queue once each and in the order they were queued. */
  lemma DrainedInOrder(states: seq<State>, steps: seq<Step>, i: nat)
    requires IsRun(states, steps) && i < |states|
    ensures states[i].queued == states[i].drained + states[i].scheduledBack
  {
    InvOverRuns(states, steps, i);
  }
}
