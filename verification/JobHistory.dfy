/**
 Which jobs the workers of the thread pool do: every one that was scheduled, once, and each
 worker those it took.
 */
module JobHistory {
  import opened Prelude
  import opened Histories
  import opened ThreadPool

  // ---------- what a step does ----------

  function AskedBy(step: Step): seq<Job> {
    if step.Schedule? then [step.job] else []
  }

  /** The job that a worker takes out of the queue. */
  function TakenBy(s: State, step: Step): seq<Tagged> {
    if (step.Enter? || step.WakeUp?) && s.scheduled != [] then Tag(step.w, [s.scheduled[0]]) else []
  }

  /** The job for which a worker has evaluated a request. */
  function DoneBy(s: State, step: Step): seq<Tagged>
    requires Enabled(s, step)
  {
    if step.BringBack? then Tag(step.w, [s.workers[step.w].job]) else []
  }

  /** What a worker has taken and not done yet. */
  function InHand(s: State, w: Worker): seq<Job> {
    if w !in s.workers then []
    else
      match s.workers[w]
      case Starting(job) => [job]
      case Using(job, _) => [job]
      case _ => []
  }

  lemma QueueStep(s: State, step: Step)
    requires Enabled(s, step)
    ensures s.scheduled + AskedBy(step) == All(TakenBy(s, step)) + Next(s, step).scheduled
  {
    if TakenBy(s, step) != [] { AllTag(step.w, [s.scheduled[0]]); }
  }

  lemma HandStep(s: State, step: Step, w: Worker)
    requires Inv(s) && Enabled(s, step)
    ensures InHand(s, w) + By(TakenBy(s, step), w) == By(DoneBy(s, step), w) + InHand(Next(s, step), w)
  {
    if TakenBy(s, step) != [] { ByTag(step.w, [s.scheduled[0]], w); }
    if step.BringBack? {
      ByTag(step.w, [s.workers[step.w].job], w);
      RoomLeft(s, step.w);
    }
  }

  // ---------- what a run does ----------

  function Asked(steps: seq<Step>, i: nat): seq<Job>
    requires i <= |steps|
  {
    if i == 0 then [] else Asked(steps, i - 1) + AskedBy(steps[i - 1])
  }

  function Taken(states: seq<State>, steps: seq<Step>, i: nat): seq<Tagged>
    requires IsRun(states, steps) && i <= |steps|
  {
    if i == 0 then [] else Taken(states, steps, i - 1) + TakenBy(states[i - 1], steps[i - 1])
  }

  function Done(states: seq<State>, steps: seq<Step>, i: nat): seq<Tagged>
    requires IsRun(states, steps) && i <= |steps|
  {
    if i == 0 then [] else Done(states, steps, i - 1) + DoneBy(states[i - 1], steps[i - 1])
  }

  /** Jobs leave the queue in the order in which they were scheduled. */
  lemma {:induction false} TakesWhatWasScheduled(states: seq<State>, steps: seq<Step>, i: nat)
    requires IsRun(states, steps) && i <= |steps|
    ensures Asked(steps, i) == All(Taken(states, steps, i)) + states[i].scheduled
  {
    if i > 0 {
      hide All, TakenBy, AskedBy, Next;
      var s, step := states[i - 1], steps[i - 1];
      TakesWhatWasScheduled(states, steps, i - 1);
      AllConcat(Taken(states, steps, i - 1), TakenBy(s, step));
      QueueStep(s, step);
      Swap(Asked(steps, i - 1), All(Taken(states, steps, i - 1)), s.scheduled, AskedBy(step),
           All(TakenBy(s, step)), states[i].scheduled);
    }
  }

  /** Each worker does the jobs it has taken, in order. */
  lemma {:induction false} DoesWhatItTook(states: seq<State>, steps: seq<Step>, i: nat, w: Worker)
    requires IsRun(states, steps) && i <= |steps|
    ensures By(Taken(states, steps, i), w) == By(Done(states, steps, i), w) + InHand(states[i], w)
  {
    if i > 0 {
      hide By, TakenBy, DoneBy, InHand, Next, Inv;
      var s, step := states[i - 1], steps[i - 1];
      DoesWhatItTook(states, steps, i - 1, w);
      InvOverRuns(states, steps, i - 1);
      ByConcat(Taken(states, steps, i - 1), TakenBy(s, step), w);
      ByConcat(Done(states, steps, i - 1), DoneBy(s, step), w);
      HandStep(s, step, w);
      Swap(By(Taken(states, steps, i - 1), w), By(Done(states, steps, i - 1), w), InHand(s, w),
           By(TakenBy(s, step), w), By(DoneBy(s, step), w), InHand(states[i], w));
    }
  }

  /**
   When the queue is empty and no worker has a job in hand, the jobs done are those that were
   scheduled, each as often.
   */
  lemma EverythingIsDone(states: seq<State>, steps: seq<Step>, i: nat)
    requires IsRun(states, steps) && i <= |steps|
    requires states[i].scheduled == [] && forall w :: w in states[i].workers ==> InHand(states[i], w) == []
    ensures multiset(All(Done(states, steps, i))) == multiset(Asked(steps, i))
  {
    forall w ensures By(Taken(states, steps, i), w) == By(Done(states, steps, i), w) {
      DoesWhatItTook(states, steps, i, w);
    }
    TakesWhatWasScheduled(states, steps, i);
    SameByAll(Taken(states, steps, i), Done(states, steps, i));
  }
}
