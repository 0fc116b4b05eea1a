/**
 Which closures the main loop calls: every one that was handed back, once, and in order as
 far as its calls do not overlap.
 */
module CallbackHistory {
  import opened Prelude
  import opened Histories
  import opened Callbacks

  // ---------- what a step does ----------

  /** The closure that is handed over by the caller. */
  function HandedBy(step: Step): seq<Tagged> {
    if step.ScheduleBack? then Tag(step.t, [step.x]) else []
  }

  /** The closure that is put in the queue. */
  function QueuedBy(s: State, step: Step): seq<Tagged>
    requires Enabled(s, step)
  {
    if step.Advance? && s.calls[step.t].FlagSet? then Tag(step.t, [s.calls[step.t].x]) else []
  }

  /** The closures that are taken out of the queue. */
  function TakenBy(s: State, step: Step): seq<Tagged>
    requires Enabled(s, step)
  {
    if step.Advance? && s.calls[step.t].Draining? then Tag(step.t, s.scheduledBack) else []
  }

  /** The closure that is called. */
  function CalledBy(s: State, step: Step): seq<Tagged>
    requires Enabled(s, step)
  {
    if step.Advance? && s.calls[step.t].Running? && s.calls[step.t].batch != []
    then Tag(step.t, [s.calls[step.t].batch[0]])
    else []
  }

  /** What a thread was handed and has not put in the queue yet. */
  function InHand(s: State, t: Thread): seq<Closure> {
    if t !in s.calls then []
    else
      match s.calls[t]
      case Allocated(x) => [x]
      case Locked(x) => [x]
      case Tested(x, _) => [x]
      case FlagSet(x, _, _) => [x]
      case _ => []
  }

  /** What a thread has taken out of the queue and has not called yet. */
  function Held(s: State, t: Thread): seq<Closure> {
    if t !in s.calls then []
    else
      match s.calls[t]
      case Emptied(batch) => batch
      case FlagReset(batch) => batch
      case Running(batch) => batch
      case _ => []
  }

  lemma HandStep(s: State, step: Step, t: Thread)
    requires Enabled(s, step)
    ensures InHand(s, t) + By(HandedBy(step), t) == By(QueuedBy(s, step), t) + InHand(Next(s, step), t)
  {
    if step.ScheduleBack? { ByTag(step.t, [step.x], t); }
    if step.Advance? && s.calls[step.t].FlagSet? { ByTag(step.t, [s.calls[step.t].x], t); }
  }

  lemma TakenByThread(s: State, step: Step, t: Thread)
    requires Enabled(s, step)
    ensures By(TakenBy(s, step), t)
            == if step.Advance? && step.t == t && s.calls[t].Draining? then s.scheduledBack else []
    ensures All(TakenBy(s, step))
            == if step.Advance? && s.calls[step.t].Draining? then s.scheduledBack else []
  {
    ByTag(step.t, s.scheduledBack, t);
    AllTag(step.t, s.scheduledBack);
  }

  lemma CalledByThread(s: State, step: Step, t: Thread)
    requires Enabled(s, step)
    ensures By(CalledBy(s, step), t) == if step.t == t then All(CalledBy(s, step)) else []
    ensures All(CalledBy(s, step))
            == if step.Advance? && s.calls[step.t].Running? && s.calls[step.t].batch != []
               then [s.calls[step.t].batch[0]] else []
  {
    if CalledBy(s, step) != [] {
      ByTag(step.t, [s.calls[step.t].batch[0]], t);
      AllTag(step.t, [s.calls[step.t].batch[0]]);
    }
  }

  lemma HeldStep(s: State, step: Step, t: Thread)
    requires Enabled(s, step)
    ensures Held(s, t) + By(TakenBy(s, step), t) == By(CalledBy(s, step), t) + Held(Next(s, step), t)
  {
    hide By, All, Tag, TakenBy, CalledBy;
    TakenByThread(s, step, t);
    CalledByThread(s, step, t);
  }

  lemma QueueStep(s: State, step: Step)
    requires Enabled(s, step)
    ensures s.scheduledBack + All(QueuedBy(s, step)) == All(TakenBy(s, step)) + Next(s, step).scheduledBack
  {
    AllTag(step.t, s.scheduledBack);
    if QueuedBy(s, step) != [] { AllTag(step.t, [s.calls[step.t].x]); }
  }

  // ---------- what a run does ----------

  function Handed(steps: seq<Step>, i: nat): seq<Tagged>
    requires i <= |steps|
  {
    if i == 0 then [] else Handed(steps, i - 1) + HandedBy(steps[i - 1])
  }

  function Queued(states: seq<State>, steps: seq<Step>, i: nat): seq<Tagged>
    requires IsRun(states, steps) && i <= |steps|
  {
    if i == 0 then [] else Queued(states, steps, i - 1) + QueuedBy(states[i - 1], steps[i - 1])
  }

  function Taken(states: seq<State>, steps: seq<Step>, i: nat): seq<Tagged>
    requires IsRun(states, steps) && i <= |steps|
  {
    if i == 0 then [] else Taken(states, steps, i - 1) + TakenBy(states[i - 1], steps[i - 1])
  }

  function Called(states: seq<State>, steps: seq<Step>, i: nat): seq<Tagged>
    requires IsRun(states, steps) && i <= |steps|
  {
    if i == 0 then [] else Called(states, steps, i - 1) + CalledBy(states[i - 1], steps[i - 1])
  }

  /** Each thread puts in the queue what it was handed, in order. */
  lemma {:induction false} QueuesWhatItWasHanded(states: seq<State>, steps: seq<Step>, i: nat, t: Thread)
    requires IsRun(states, steps) && i <= |steps|
    ensures By(Handed(steps, i), t) == By(Queued(states, steps, i), t) + InHand(states[i], t)
  {
    if i > 0 {
      hide By, HandedBy, QueuedBy, InHand, Next;
      var s, step := states[i - 1], steps[i - 1];
      QueuesWhatItWasHanded(states, steps, i - 1, t);
      ByConcat(Handed(steps, i - 1), HandedBy(step), t);
      ByConcat(Queued(states, steps, i - 1), QueuedBy(s, step), t);
      HandStep(s, step, t);
      Swap(By(Handed(steps, i - 1), t), By(Queued(states, steps, i - 1), t), InHand(s, t), By(HandedBy(step), t),
           By(QueuedBy(s, step), t), InHand(states[i], t));
    }
  }

  /** Closures leave the queue in the order they were put in. */
  lemma {:induction false} TakesWhatWasQueued(states: seq<State>, steps: seq<Step>, i: nat)
    requires IsRun(states, steps) && i <= |steps|
    ensures All(Queued(states, steps, i)) == All(Taken(states, steps, i)) + states[i].scheduledBack
  {
    if i > 0 {
      hide All, TakenBy, QueuedBy, Next;
      var s, step := states[i - 1], steps[i - 1];
      TakesWhatWasQueued(states, steps, i - 1);
      AllConcat(Queued(states, steps, i - 1), QueuedBy(s, step));
      AllConcat(Taken(states, steps, i - 1), TakenBy(s, step));
      QueueStep(s, step);
      Swap(All(Queued(states, steps, i - 1)), All(Taken(states, steps, i - 1)), s.scheduledBack,
           All(QueuedBy(s, step)), All(TakenBy(s, step)), states[i].scheduledBack);
    }
  }

  /** Each thread calls what it has taken out of the queue, in order. */
  lemma {:induction false} CallsWhatItTook(states: seq<State>, steps: seq<Step>, i: nat, t: Thread)
    requires IsRun(states, steps) && i <= |steps|
    ensures By(Taken(states, steps, i), t) == By(Called(states, steps, i), t) + Held(states[i], t)
  {
    if i > 0 {
      hide By, TakenBy, CalledBy, Held, Next;
      var s, step := states[i - 1], steps[i - 1];
      CallsWhatItTook(states, steps, i - 1, t);
      ByConcat(Taken(states, steps, i - 1), TakenBy(s, step), t);
      ByConcat(Called(states, steps, i - 1), CalledBy(s, step), t);
      HeldStep(s, step, t);
      Swap(By(Taken(states, steps, i - 1), t), By(Called(states, steps, i - 1), t), Held(s, t),
           By(TakenBy(s, step), t), By(CalledBy(s, step), t), Held(states[i], t));
    }
  }

  /**
   In every run, however its calls overlap: no closure is lost and none is called twice. What a
   thread has called and what it still holds is what it took out of the queue, as often.
   */
  lemma CalledOnceEach(states: seq<State>, steps: seq<Step>, i: nat, t: Thread, x: Closure)
    requires IsRun(states, steps) && i <= |steps|
    ensures multiset(Taken(states, steps, i))[Tagged(t, x)]
            == multiset(Called(states, steps, i))[Tagged(t, x)] + multiset(Held(states[i], t))[x]
  {
    CallsWhatItTook(states, steps, i, t);
    CountBy(Taken(states, steps, i), t, x);
    CountBy(Called(states, steps, i), t, x);
  }

  /**
   When every call has come to its end and the queue is empty, the closures that were called are
   those that were handed over, each as often.
   */
  lemma EverythingIsCalled(states: seq<State>, steps: seq<Step>, i: nat)
    requires IsRun(states, steps) && i <= |steps|
    requires states[i].scheduledBack == []
    requires forall t :: t in states[i].calls ==> states[i].calls[t].Returned?
    ensures multiset(All(Called(states, steps, i))) == multiset(All(Handed(steps, i)))
  {
    forall t ensures By(Handed(steps, i), t) == By(Queued(states, steps, i), t) {
      QueuesWhatItWasHanded(states, steps, i, t);
    }
    forall t ensures By(Taken(states, steps, i), t) == By(Called(states, steps, i), t) {
      CallsWhatItTook(states, steps, i, t);
    }
    TakesWhatWasQueued(states, steps, i);
    SameByAll(Handed(steps, i), Queued(states, steps, i));
    SameByAll(Taken(states, steps, i), Called(states, steps, i));
  }

  // ---------- calls that do not overlap ----------

  predicate NoneHeld(s: State) {
    forall u :: u in s.calls ==> Held(s, u) == []
  }

  /** Nobody takes closures out of the queue while another thread still holds some. */
  predicate Alone(states: seq<State>, steps: seq<Step>, n: nat)
    requires IsRun(states, steps) && n <= |steps|
  {
    forall j :: 0 <= j < n && steps[j].Advance? && states[j].calls[steps[j].t].Draining? ==>
      NoneHeld(states[j])
  }

  /** No other thread than `t` holds any closure. */
  ghost predicate OnlyHolder(s: State, t: Thread) {
    forall u :: u != t ==> Held(s, u) == []
  }

  lemma HolderStep(s: State, step: Step, t: Thread) returns (t': Thread)
    requires Enabled(s, step) && OnlyHolder(s, t)
    requires step.Advance? && s.calls[step.t].Draining? ==> NoneHeld(s)
    ensures OnlyHolder(Next(s, step), t')
    ensures Held(s, t) + All(TakenBy(s, step)) == All(CalledBy(s, step)) + Held(Next(s, step), t')
  {
    var drains := step.Advance? && s.calls[step.t].Draining?;
    t' := if drains then step.t else t;
    if drains { assert forall u :: Held(s, u) == []; }
    hide By, All, Tag, TakenBy, CalledBy, Held, Next;
    forall u ensures u != t' ==> Held(Next(s, step), u) == [] {
      HeldStep(s, step, u);
      TakenByThread(s, step, u);
    }
    HeldStep(s, step, step.t);
    HeldStep(s, step, t);
    TakenByThread(s, step, step.t);
    TakenByThread(s, step, t);
    CalledByThread(s, step, t);
    CalledByThread(s, step, step.t);
  }

  /**
   In every run in which nobody takes closures while another thread holds some, closures are
   called in the order in which they were queued: what was called, what is still held and what
   is in the queue is what was queued.
   */
  lemma {:induction false} CalledInOrder(states: seq<State>, steps: seq<Step>, i: nat) returns (t: Thread)
    requires IsRun(states, steps) && i <= |steps| && Alone(states, steps, i)
    ensures OnlyHolder(states[i], t)
    ensures All(Queued(states, steps, i))
            == All(Called(states, steps, i)) + Held(states[i], t) + states[i].scheduledBack
  {
    TakesWhatWasQueued(states, steps, i);
    t := TakenIsCalledOrHeld(states, steps, i);
  }

  lemma {:induction false} TakenIsCalledOrHeld(states: seq<State>, steps: seq<Step>, i: nat) returns (t: Thread)
    requires IsRun(states, steps) && i <= |steps| && Alone(states, steps, i)
    ensures OnlyHolder(states[i], t)
    ensures All(Taken(states, steps, i)) == All(Called(states, steps, i)) + Held(states[i], t)
  {
    if i == 0 {
      t := 0;
    } else {
      hide All, TakenBy, CalledBy, OnlyHolder, Next;
      var s, step := states[i - 1], steps[i - 1];
      t := TakenIsCalledOrHeld(states, steps, i - 1);
      var before := t;
      AllConcat(Taken(states, steps, i - 1), TakenBy(s, step));
      AllConcat(Called(states, steps, i - 1), CalledBy(s, step));
      t := HolderStep(s, step, t);
      Swap(All(Taken(states, steps, i - 1)), All(Called(states, steps, i - 1)), Held(s, before),
           All(TakenBy(s, step)), All(CalledBy(s, step)), Held(states[i], t));
    }
  }
}
