/**
 The thread pool with the jobs that the proxy auto-configuration code runs on it, as a state
 machine. Each critical section under the pool's lock, and each under the lock of the
 context pool, is one step; workers, callers and the clock interleave freely.
 */
module ThreadPool {
  import opened ContextPool
  import opened Prelude

  type Job = nat
  type Worker = nat

  /** Where a worker thread is. */
  datatype WorkerPc =
    | AtTop                          // about to take the lock
    | Idle                           // in its timed wait
    | Starting(job: Job)             // about to take a context
    | Using(job: Job, ctx: nat)      // evaluates with a context
    | Finished(job: Job)             // has brought the context back

  datatype State = State(
    maxthreads: int,
    threads: int,
    idle: int,
    dying: bool,
    scheduled: seq<Job>,
    workers: map<Worker, WorkerPc>,  // the threads that are alive
    slots: seq<Slot>,                // the context pool
    aborted: bool,                   // an assertion has failed
    // History: the jobs in the order they were scheduled and in the order they were taken.
    submitted: seq<Job>,
    taken: seq<Job>)

  datatype Step =
    // `w` names the thread that would be created, `created` whether that succeeds
    | Schedule(job: Job, w: Worker, created: bool)
    | Enter(w: Worker)       // at the top of a worker's loop
    | WakeUp(w: Worker)      // signalled, timed out, or spuriously
    | TakeContext(w: Worker)
    | BringBack(w: Worker)
    | GoAround(w: Worker)
    | AskToDie

  predicate Enabled(s: State, step: Step) {
    && !s.aborted
    && match step
       case Schedule(_, w, _) => w !in s.workers
       case Enter(w) => w in s.workers && s.workers[w].AtTop?
       case WakeUp(w) => w in s.workers && s.workers[w].Idle?
       case TakeContext(w) => w in s.workers && s.workers[w].Starting?
       case BringBack(w) => w in s.workers && s.workers[w].Using?
       case GoAround(w) => w in s.workers && s.workers[w].Finished?
       case AskToDie => true
  }

  function Move(s: State, w: Worker, pc: WorkerPc): State {
    s.(workers := s.workers[w := pc])
  }

  function Die(s: State, w: Worker): State {
    s.(threads := s.threads - 1, workers := s.workers - {w})
  }

  function Dequeue(s: State, w: Worker): State
    requires s.scheduled != []
  {
    Move(s, w, Starting(s.scheduled[0])).(
      scheduled := s.scheduled[1..], taken := s.taken + [s.scheduled[0]])
  }

  /** What the caller of a scheduling is told: 1 for a new thread, 0, or -1 for a failure. */
  function ScheduleCode(s: State, created: bool): int {
    if s.idle == 0 && s.threads < s.maxthreads then
      if created then 1 else if s.threads > 0 then 0 else -1
    else 0
  }

  function Next(s: State, step: Step): State
    requires Enabled(s, step)
  {
    match step
    case Schedule(job, w, created) =>
      var s' := s.(scheduled := s.scheduled + [job], submitted := s.submitted + [job]);
      if s.idle == 0 && s.threads < s.maxthreads && created
      then Move(s', w, AtTop).(threads := s.threads + 1)
      else s'
    case Enter(w) =>
      if s.scheduled != [] then Dequeue(s, w)
      else if s.dying || s.idle >= 2 then Die(s, w)
      else Move(s, w, Idle).(idle := s.idle + 1)
    case WakeUp(w) =>
      var s' := s.(idle := s.idle - 1);
      if s.scheduled != [] then Dequeue(s', w) else Die(s', w)
    case TakeContext(w) =>
      var i := FirstSlot(s.slots, true);
      if i < |s.slots|
      then Move(s, w, Using(s.workers[w].job, s.slots[i].ctx)).(slots := s.slots[i := Empty])
      else s.(aborted := true)
    case BringBack(w) =>
      var i := FirstSlot(s.slots, false);
      if i < |s.slots|
      then Move(s, w, Finished(s.workers[w].job)).(slots := s.slots[i := Holding(s.workers[w].ctx)])
      else s.(aborted := true)
    case GoAround(w) => Move(s, w, AtTop)
    case AskToDie => s.(dying := true)
  }

  /** A pool as it is set up: one context per worker, no two slots with the same one. */
  predicate Init(s: State) {
    && s.threads == 0 && s.idle == 0 && !s.dying && !s.aborted
    && s.scheduled == [] && s.workers == map[]
    && s.submitted == [] && s.taken == []
    && |s.slots| == s.maxthreads
    && (forall i :: 0 <= i < |s.slots| ==> s.slots[i].Holding?)
    && (forall i, j :: 0 <= i < j < |s.slots| ==> s.slots[i] != s.slots[j])
  }

  predicate IsRun(states: seq<State>, steps: seq<Step>) {
    && |states| == |steps| + 1
    && Init(states[0])
    && forall i :: 0 <= i < |steps| ==>
         Enabled(states[i], steps[i]) && states[i + 1] == Next(states[i], steps[i])
  }

  // ---------- the invariant ----------

  function Idlers(s: State): set<Worker> {
    set w | w in s.workers && s.workers[w].Idle?
  }

  function Holders(s: State): set<Worker> {
    set w | w in s.workers && s.workers[w].Using?
  }

  predicate CountersInv(s: State) {
    && s.threads == |s.workers.Keys|
    && s.idle == |Idlers(s)|
    && s.threads <= s.maxthreads
    && s.idle <= 2
  }

  predicate FifoInv(s: State) {
    s.submitted == s.taken + s.scheduled
  }

  /** Every context is in a slot or with a worker. */
  predicate ContextsInv(s: State) {
    && |s.slots| == s.maxthreads
    && Stock(s.slots) + |Holders(s)| == s.maxthreads
    && !s.aborted
  }

  /** No context is in two places. */
  predicate ExclusiveInv(s: State) {
    && (forall i, j :: 0 <= i < j < |s.slots| && s.slots[i].Holding? ==> s.slots[i] != s.slots[j])
    && (forall w, i :: w in Holders(s) && 0 <= i < |s.slots| && s.slots[i].Holding? ==>
          s.slots[i].ctx != s.workers[w].ctx)
    && (forall v, w :: v in Holders(s) && w in Holders(s) && v != w ==>
          s.workers[v].ctx != s.workers[w].ctx)
  }

  predicate Inv(s: State) {
    CountersInv(s) && FifoInv(s) && ContextsInv(s) && ExclusiveInv(s)
  }

  lemma {:induction false} FullStock(slots: seq<Slot>)
    requires forall i :: 0 <= i < |slots| ==> slots[i].Holding?
    ensures Stock(slots) == |slots|
  {
    if slots != [] { FullStock(slots[1..]); }
  }

  lemma InitInv(s: State)
    requires Init(s)
    ensures Inv(s)
  {
    FullStock(s.slots);
    assert Idlers(s) == {} && Holders(s) == {};
  }

  lemma Subset<T>(a: set<T>, b: set<T>)
    requires a <= b
    ensures |a| <= |b|
  {
    assert b == a + (b - a);
  }

  /** While a worker holds no context, one is left in the pool. */
  lemma ContextLeft(s: State, w: Worker)
    requires CountersInv(s) && ContextsInv(s)
    requires w in s.workers && !s.workers[w].Using?
    ensures FirstSlot(s.slots, true) < |s.slots|
  {
    Subset(Holders(s), s.workers.Keys - {w});
    SearchFails(s.slots);
  }

  /** While a worker holds a context, a slot is free. */
  lemma RoomLeft(s: State, w: Worker)
    requires ContextsInv(s) && w in Holders(s)
    ensures FirstSlot(s.slots, false) < |s.slots|
  {
    SearchFails(s.slots);
    assert |Holders(s)| >= 1;
  }

  /** A worker moves between two places where it neither idles nor holds a context. */
  lemma PlainMove(s: State, w: Worker, pc: WorkerPc)
    requires !pc.Idle? && !pc.Using?
    requires w !in s.workers || (!s.workers[w].Idle? && !s.workers[w].Using?)
    ensures Idlers(Move(s, w, pc)) == Idlers(s) && Holders(Move(s, w, pc)) == Holders(s)
    ensures Move(s, w, pc).workers.Keys == s.workers.Keys + {w}
  {
  }

  lemma ScheduleKeeps(s: State, job: Job, w: Worker, created: bool)
    requires Inv(s) && Enabled(s, Schedule(job, w, created))
    ensures Inv(Next(s, Schedule(job, w, created)))
  {
    var s' := Next(s, Schedule(job, w, created));
    PlainMove(s, w, AtTop);
    assert Idlers(s') == Idlers(s) && Holders(s') == Holders(s);
    assert s.taken + (s.scheduled + [job]) == (s.taken + s.scheduled) + [job];
  }

  /** The same workers use the same contexts, and no slot changes. */
  lemma SameUsers(s: State, s': State)
    requires ContextsInv(s) && ExclusiveInv(s)
    requires s'.slots == s.slots && s'.maxthreads == s.maxthreads && s'.aborted == s.aborted
    requires forall w :: w in s.workers && s.workers[w].Using? ==> w in s'.workers && s'.workers[w] == s.workers[w]
    requires forall w :: w in s'.workers && s'.workers[w].Using? ==> w in s.workers && s.workers[w] == s'.workers[w]
    ensures ContextsInv(s') && ExclusiveInv(s')
  {
    assert Holders(s') == Holders(s);
  }

  lemma EnterCounts(s: State, w: Worker)
    requires CountersInv(s) && Enabled(s, Enter(w))
    ensures CountersInv(Next(s, Enter(w)))
  {
    var s' := Next(s, Enter(w));
    if s.scheduled != [] {
      assert Idlers(s') == Idlers(s);
      assert s'.workers.Keys == s.workers.Keys;
    } else if s.dying || s.idle >= 2 {
      assert Idlers(s') == Idlers(s);
      assert s'.workers.Keys == s.workers.Keys - {w};
    } else {
      assert Idlers(s') == Idlers(s) + {w};
      assert s'.workers.Keys == s.workers.Keys;
    }
  }

  lemma EnterContexts(s: State, w: Worker)
    requires ContextsInv(s) && ExclusiveInv(s) && Enabled(s, Enter(w))
    ensures ContextsInv(Next(s, Enter(w))) && ExclusiveInv(Next(s, Enter(w)))
  {
    SameUsers(s, Next(s, Enter(w)));
  }

  lemma DequeueInOrder(s: State, w: Worker)
    requires FifoInv(s) && s.scheduled != []
    ensures FifoInv(Dequeue(s, w))
  {
    assert s.scheduled == [s.scheduled[0]] + s.scheduled[1..];
    Regroup(s.taken, [s.scheduled[0]], s.scheduled[1..]);
  }

  lemma EnterKeeps(s: State, w: Worker)
    requires Inv(s) && Enabled(s, Enter(w))
    ensures Inv(Next(s, Enter(w)))
  {
    EnterCounts(s, w);
    EnterContexts(s, w);
    if s.scheduled != [] { DequeueInOrder(s, w); }
  }

  lemma WakeUpCounts(s: State, w: Worker)
    requires CountersInv(s) && Enabled(s, WakeUp(w))
    ensures s.idle >= 1 && CountersInv(Next(s, WakeUp(w)))
  {
    assert w in Idlers(s);
    var s' := Next(s, WakeUp(w));
    assert Idlers(s') == Idlers(s) - {w};
    if s.scheduled != [] {
      assert s'.workers.Keys == s.workers.Keys;
    } else {
      assert s'.workers.Keys == s.workers.Keys - {w};
    }
  }

  lemma WakeUpContexts(s: State, w: Worker)
    requires ContextsInv(s) && ExclusiveInv(s) && s.idle >= 1 && Enabled(s, WakeUp(w))
    ensures ContextsInv(Next(s, WakeUp(w))) && ExclusiveInv(Next(s, WakeUp(w)))
  {
    SameUsers(s, Next(s, WakeUp(w)));
  }

  lemma WakeUpKeeps(s: State, w: Worker)
    requires Inv(s) && Enabled(s, WakeUp(w))
    ensures Inv(Next(s, WakeUp(w)))
  {
    WakeUpCounts(s, w);
    WakeUpContexts(s, w);
    if s.scheduled != [] { DequeueInOrder(s, w); }
  }

  lemma TakeContextCounts(s: State, w: Worker)
    requires CountersInv(s) && ContextsInv(s) && Enabled(s, TakeContext(w))
    requires FirstSlot(s.slots, true) < |s.slots|
    ensures CountersInv(Next(s, TakeContext(w))) && ContextsInv(Next(s, TakeContext(w)))
  {
    var s' := Next(s, TakeContext(w));
    StockUpdate(s.slots, FirstSlot(s.slots, true), Empty);
    assert Holders(s') == Holders(s) + {w} && w !in Holders(s);
    assert Idlers(s') == Idlers(s) && s'.workers.Keys == s.workers.Keys;
  }

  lemma TakeContextExcludes(s: State, w: Worker)
    requires ExclusiveInv(s) && Enabled(s, TakeContext(w))
    requires FirstSlot(s.slots, true) < |s.slots|
    ensures ExclusiveInv(Next(s, TakeContext(w)))
  {
  }

  lemma TakeContextKeeps(s: State, w: Worker)
    requires Inv(s) && Enabled(s, TakeContext(w))
    ensures Inv(Next(s, TakeContext(w)))
  {
    ContextLeft(s, w);
    TakeContextCounts(s, w);
    TakeContextExcludes(s, w);
  }

  lemma BringBackCounts(s: State, w: Worker)
    requires CountersInv(s) && ContextsInv(s) && Enabled(s, BringBack(w))
    requires FirstSlot(s.slots, false) < |s.slots|
    ensures CountersInv(Next(s, BringBack(w))) && ContextsInv(Next(s, BringBack(w)))
  {
    var s' := Next(s, BringBack(w));
    StockUpdate(s.slots, FirstSlot(s.slots, false), Holding(s.workers[w].ctx));
    assert Holders(s') == Holders(s) - {w} && w in Holders(s);
    assert Idlers(s') == Idlers(s) && s'.workers.Keys == s.workers.Keys;
  }

  lemma BringBackExcludes(s: State, w: Worker)
    requires ExclusiveInv(s) && Enabled(s, BringBack(w))
    requires FirstSlot(s.slots, false) < |s.slots|
    ensures ExclusiveInv(Next(s, BringBack(w)))
  {
    assert w in Holders(s);
  }

  lemma BringBackKeeps(s: State, w: Worker)
    requires Inv(s) && Enabled(s, BringBack(w))
    ensures Inv(Next(s, BringBack(w)))
  {
    RoomLeft(s, w);
    BringBackCounts(s, w);
    BringBackExcludes(s, w);
  }

  lemma StepKeeps(s: State, step: Step)
    requires Inv(s) && Enabled(s, step)
    ensures Inv(Next(s, step))
  {
    match step
    case Schedule(job, w, created) => ScheduleKeeps(s, job, w, created);
    case Enter(w) => EnterKeeps(s, w);
    case WakeUp(w) => WakeUpKeeps(s, w);
    case TakeContext(w) => TakeContextKeeps(s, w);
    case BringBack(w) => BringBackKeeps(s, w);
    case GoAround(w) =>
      PlainMove(s, w, AtTop);
      assert s.workers.Keys + {w} == s.workers.Keys;
    case AskToDie =>
      var s' := Next(s, step);
      assert Idlers(s') == Idlers(s) && Holders(s') == Holders(s);
  }

  lemma {:induction false} InvOverRuns(states: seq<State>, steps: seq<Step>, i: nat)
    requires IsRun(states, steps) && i < |states|
    ensures Inv(states[i])
  {
    if i == 0 {
      InitInv(states[0]);
    } else {
      InvOverRuns(states, steps, i - 1);
      StepKeeps(states[i - 1], steps[i - 1]);
    }
  }
}
