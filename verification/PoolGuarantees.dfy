/**
 What the thread pool guarantees in every run.
 */
module PoolGuarantees {
  import opened ContextPool
  import opened ThreadPool

  /** The counters say how many threads live and wait, and stay within their bounds. */
  lemma CountersBounded(states: seq<State>, steps: seq<Step>, i: nat)
    requires IsRun(states, steps) && i < |states|
    ensures var s := states[i];
            && s.threads == |s.workers.Keys| && s.idle == |Idlers(s)|
            && 0 <= s.idle <= s.threads <= s.maxthreads && s.idle <= 2
  {
    InvOverRuns(states, steps, i);
    Subset(Idlers(states[i]), states[i].workers.Keys);
  }

  /**
   Contexts are conserved: those in the pool and those with workers always add up to one
   per possible thread, so no search for a context or for a free slot ever fails.
   */
  lemma ContextsConserved(states: seq<State>, steps: seq<Step>, i: nat)
    requires IsRun(states, steps) && i < |states|
    ensures var s := states[i];
            && !s.aborted
            && Stock(s.slots) + |Holders(s)| == |s.slots| == s.maxthreads
            && (forall w :: w in s.workers && s.workers[w].Starting? ==>
                  FirstSlot(s.slots, true) < |s.slots|)
            && (forall w :: w in s.workers && s.workers[w].Using? ==>
                  FirstSlot(s.slots, false) < |s.slots|)
  {
    InvOverRuns(states, steps, i);
    var s := states[i];
    forall w | w in s.workers
      ensures s.workers[w].Starting? ==> FirstSlot(s.slots, true) < |s.slots|
      ensures s.workers[w].Using? ==> FirstSlot(s.slots, false) < |s.slots|
    {
      if s.workers[w].Starting? { ContextLeft(s, w); }
      if s.workers[w].Using? { RoomLeft(s, w); }
    }
  }

  /** A context in use is not in the pool, and no other worker evaluates with it. */
  lemma ContextsExclusive(states: seq<State>, steps: seq<Step>, i: nat, v: Worker)
    requires IsRun(states, steps) && i < |states|
    requires v in Holders(states[i])
    ensures Holding(states[i].workers[v].ctx) !in states[i].slots
    ensures forall w :: w in Holders(states[i]) && w != v ==>
      states[i].workers[w].ctx != states[i].workers[v].ctx
  {
    InvOverRuns(states, steps, i);
  }

  /** Jobs are taken once each, in the order they were scheduled; the rest wait in order. */
  lemma FirstInFirstOut(states: seq<State>, steps: seq<Step>, i: nat)
    requires IsRun(states, steps) && i < |states|
    ensures states[i].submitted == states[i].taken + states[i].scheduled
  {
    InvOverRuns(states, steps, i);
  }

  /** A worker dies only when nothing is scheduled. */
  lemma DeathOnlyWhenIdle(s: State, step: Step, w: Worker)
    requires Enabled(s, step) && w in s.workers && w !in Next(s, step).workers
    ensures s.scheduled == [] && (step == Enter(w) || step == WakeUp(w))
  {
  }

  predicate Stranded(s: State) {
    s.scheduled != [] && s.workers == map[]
  }

  /**
   Scheduling strands the job exactly when no thread is alive and none comes: because none
   may be created or because creating it fails. The job stays in the queue in that case.
   */
  lemma SchedulingStrands(s: State, job: Job, w: Worker, created: bool)
    requires Inv(s) && Enabled(s, Schedule(job, w, created))
    ensures Stranded(Next(s, Schedule(job, w, created)))
            <==> s.threads == 0 && (s.maxthreads < 1 || !created)
  {
    var s' := Next(s, Schedule(job, w, created));
    if s.threads == 0 {
      assert s.workers.Keys == {};
      assert Idlers(s) == {};
      if s.maxthreads >= 1 && created { assert w in s'.workers; }
    } else {
      assert s.workers.Keys != {};
      var v :| v in s.workers;
      assert v in s'.workers;
    }
  }

  /**
   A failure is reported exactly when no thread is alive and creating the one that may exist
   fails. The job is then stranded, so that the caller must not schedule it again; a job is
   stranded without a failure being reported exactly when no thread is alive and none may exist.
   */
  lemma FailureReported(s: State, job: Job, w: Worker, created: bool)
    requires Inv(s) && Enabled(s, Schedule(job, w, created))
    ensures var s', rc := Next(s, Schedule(job, w, created)), ScheduleCode(s, created);
      && (rc < 0 <==> s.threads == 0 && s.maxthreads >= 1 && !created)
      && (rc < 0 ==> Stranded(s') && job in s'.scheduled)
      && (Stranded(s') && rc >= 0 <==> s.threads == 0 && s.maxthreads < 1)
      && (rc == 1 <==> w in s'.workers)
  {
    SchedulingStrands(s, job, w, created);
    var s' := Next(s, Schedule(job, w, created));
    assert s'.scheduled[|s.scheduled|] == job;
    if s.threads == 0 {
      assert s.workers.Keys == {};
      assert Idlers(s) == {};
    }
  }

  /** No worker step strands a job. */
  lemma WorkersStrandNothing(s: State, step: Step)
    requires Inv(s) && Enabled(s, step) && !step.Schedule? && !Stranded(s)
    ensures !Stranded(Next(s, step))
  {
    var s' := Next(s, step);
    if s'.scheduled != [] {
      assert s.scheduled != [];
      var w :| w in s.workers;
      assert w in s'.workers;
    }
  }

  /**
   No stranded work: if at least one thread may exist and creating a thread succeeds
   whenever none is alive, then in every state of a run with a job in the queue a worker is
   alive.
   */
  lemma {:induction false} NoStrandedWork(states: seq<State>, steps: seq<Step>, i: nat)
    requires IsRun(states, steps) && i < |states|
    requires states[0].maxthreads >= 1
    requires forall k :: 0 <= k < |steps| && steps[k].Schedule? && states[k].threads == 0 ==>
      steps[k].created
    ensures states[i].maxthreads == states[0].maxthreads
    ensures !Stranded(states[i])
  {
    if i > 0 {
      NoStrandedWork(states, steps, i - 1);
      InvOverRuns(states, steps, i - 1);
      var s, step := states[i - 1], steps[i - 1];
      match step
      case Schedule(job, w, created) => SchedulingStrands(s, job, w, created);
      case _ => WorkersStrandNothing(s, step);
    }
  }

  // ---------- what is scheduled can always be finished ----------

  /** `steps` are worker steps that lead from `s` to `s'`. */
  predicate Leads(s: State, steps: seq<Step>, s': State)
    decreases |steps|
  {
    if steps == [] then s == s'
    else
      && Enabled(s, steps[0]) && !steps[0].Schedule? && !steps[0].AskToDie?
      && Leads(Next(s, steps[0]), steps[1..], s')
  }

  lemma {:induction false} LeadsConcat(s: State, a: seq<Step>, m: State, b: seq<Step>, s': State)
    requires Leads(s, a, m) && Leads(m, b, s')
    ensures Leads(s, a + b, s')
    decreases |a|
  {
    if a == [] {
      assert a + b == b;
    } else {
      assert (a + b)[1..] == a[1..] + b;
      LeadsConcat(Next(s, a[0]), a[1..], m, b, s');
    }
  }

  function StepsAway(pc: WorkerPc): nat {
    match pc
    case Starting(_) => 4
    case Using(_, _) => 3
    case Finished(_) => 2
    case AtTop => 1
    case Idle => 1
  }

  function OwnStep(w: Worker, pc: WorkerPc): Step {
    match pc
    case Starting(_) => TakeContext(w)
    case Using(_, _) => BringBack(w)
    case Finished(_) => GoAround(w)
    case AtTop => Enter(w)
    case Idle => WakeUp(w)
  }

  /** Any one live worker gets to the oldest job by its own steps. */
  lemma {:induction false} WorkerReachesQueue(s: State, w: Worker) returns (steps: seq<Step>, s': State)
    requires Inv(s) && w in s.workers && s.scheduled != []
    ensures Leads(s, steps, s') && Inv(s')
    ensures w in s'.workers && s'.scheduled == s.scheduled[1..]
    ensures s'.submitted == s.submitted && s'.taken == s.taken + [s.scheduled[0]]
    decreases StepsAway(s.workers[w])
  {
    var step := OwnStep(w, s.workers[w]);
    var m := Next(s, step);
    StepKeeps(s, step);
    if step.Enter? || step.WakeUp? {
      steps, s' := [step], m;
    } else {
      var rest;
      rest, s' := WorkerReachesQueue(m, w);
      steps := [step] + rest;
      assert steps[1..] == rest;
    }
  }

  /**
   From every state in which a worker is alive, workers alone can take everything that has
   been scheduled, without a further thread.
   */
  lemma {:induction false} QueueCanBeDrained(s: State) returns (steps: seq<Step>, s': State)
    requires Inv(s) && !Stranded(s)
    ensures Leads(s, steps, s')
    ensures s'.scheduled == [] && s'.taken == s.submitted
    decreases |s.scheduled|
  {
    if s.scheduled == [] {
      return [], s;
    }
    var w :| w in s.workers;
    var first, m := WorkerReachesQueue(s, w);
    var rest;
    rest, s' := QueueCanBeDrained(m);
    steps := first + rest;
    LeadsConcat(s, first, m, rest, s');
  }
}
