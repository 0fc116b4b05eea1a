/**
 The device network context: the list of port configurations with the entry in use, and the
 verification that tests one entry after the other until one works.
 */
module DeviceNetwork {
  import opened PortConfig
  import opened Compression
  import opened PortConfigList
  import opened Dhcp

  const MAX_RETEST_COUNT: nat := 3

  datatype Outcome = NoChange | Change | Panic

  /** What one attempt to verify the pending entry finds. */
  datatype Probe =
    | InPciBack(usedByApp: bool)     // a port is not available to the device
    | NoAddress                      // no usable address yet
    | Addressed(reachable: bool)     // has an address; is the controller reachable?

  datatype Observation = Observation(probe: Probe, now: Time)

  datatype Result = Fail | Success | Wait | PciWait

  /** The entry in use as an update sees it: an update in place shows through the pointer. */
  function CurrentSeen(list: seq<Config>, next: int, c: Config, delete: bool): Config
    requires 0 <= next < |list|
  {
    var i := Lookup(list, c);
    if !delete && i == next && list[i].timePriority == c.timePriority then c else list[next]
  }

  /** Where the entry in use ends up; -1 if it is gone or did not work when last tested. */
  function AdjustedIndex(list: seq<Config>, current: Config, index: int): int
    requires list != []
  {
    var i := Lookup(list, current);
    if i < 0 then if WasWorking(list[0]) then 0 else -1
    else if i == index then index
    else if WasWorking(list[i]) then i
    else -1
  }

  /** The entry at `i` is the one in use, under its stamp or else its content, or a working first entry. */
  predicate Denotes(list: seq<Config>, current: Config, i: int) {
    && 0 <= i < |list|
    && (SameStamp(list[i], current) || SameContent(list[i], current)
        || (i == 0 && WasWorking(list[0]) && Lookup(list, current) < 0))
  }

  /** The adjusted index is -1 or denotes the entry in use. */
  lemma AdjustedDenotes(list: seq<Config>, current: Config, index: int)
    requires list != []
    ensures var i := AdjustedIndex(list, current, index); i == -1 || Denotes(list, current, i)
  {
  }

  /**
   The list is compressed and its index follows the entry in use: -1 stays -1, and any other
   index denotes the same entry afterwards if and only if it is safe.
   */
  ghost predicate Settled(was: seq<Config>, current: Config, index: int, list: seq<Config>, newIndex: int) {
    && Increasing(Kept(was, index, |was|), |was|)
    && list == Select(was, Kept(was, index, |was|))
    && (index == -1 <==> newIndex == -1)
    && (index != -1 ==>
          && Denotes(was, current, index)
          && (IndexSafe(was, index) <==> 0 <= newIndex < |list| && list[newIndex] == was[index]))
  }

  lemma SettledByCompression(list: seq<Config>, current: Config, index: int)
    requires Unique(list) && (index == -1 || Denotes(list, current, index))
    ensures Increasing(Kept(list, index, |list|), |list|)
    ensures Settled(list, current, index, Select(list, Kept(list, index, |list|)), index - Lowered(list, index, |list|))
  {
    hide Kept, Lowered, IndexSafe;
    KeptIncreasing(list, index, |list|);
    SignSurvives(list, index);
    if index >= 0 { IndexSurvives(list, index); }
  }

  /** An update that would change at most the priority of what is in use already. */
  predicate NothingToDo(list: seq<Config>, next: int, c: Config, delete: bool) {
    var i := Lookup(list, c);
    if delete then i < 0
    else
      && i >= 0 && SameContent(list[i], c)
      && 0 <= next < |list| && list[next].ports == list[i].ports
  }

  /** The entries in the order in which they are probed. */
  ghost function Probes(start: nat, n: nat): (p: seq<nat>)
    requires n > 0
    ensures |p| == n && forall k :: 0 <= k < n ==> p[k] == (start + k) % n
  {
    seq(n, k requires 0 <= k < n => (start + k) % n)
  }

  /** The probe `k` is the first to hit a testable entry; the clock reads `clock(k)` at that probe. */
  ghost predicate FirstHit(list: seq<Config>, probes: seq<nat>, clock: nat -> Time, k: nat)
    requires k < |probes| && forall j :: 0 <= j < |probes| ==> probes[j] < |list|
  {
    && IsTestable(list[probes[k]], clock(k))
    && forall j: nat :: j < k ==> !IsTestable(list[probes[j]], clock(j))
  }

  lemma {:induction false} MulLe(x: nat, y: nat, n: nat)
    requires x <= y
    ensures x * n <= y * n
  {
    if x < y {
      MulLe(x, y - 1, n);
      assert y * n == (y - 1) * n + n;
    }
  }

  lemma DivUnique(n: nat, q: nat, r: nat, q': nat, r': nat)
    requires r < n && r' < n && q * n + r == q' * n + r'
    ensures q == q' && r == r'
  {
    assert (q + 1) * n == q * n + n && (q' + 1) * n == q' * n + n;
    if q < q' {
      MulLe(q + 1, q', n);
    } else if q' < q {
      MulLe(q' + 1, q, n);
    }
  }

  lemma ModUnique(a: nat, n: nat, q: nat, r: nat)
    requires r < n && a == q * n + r
    ensures a % n == r
  {
    assert a == a / n * n + a % n;
    DivUnique(n, a / n, a % n, q, r);
  }

  lemma ModStep(a: nat, n: nat)
    requires n > 0
    ensures (a + 1) % n == (a % n + 1) % n
  {
    var q, r := a / n, a % n;
    assert a == q * n + r;
    if r + 1 < n {
      ModUnique(a + 1, n, q, r + 1);
      ModUnique(r + 1, n, 0, r + 1);
    } else {
      assert a + 1 == (q + 1) * n;
      ModUnique(a + 1, n, q + 1, 0);
      ModUnique(r + 1, n, 1, 0);
    }
  }

  /** Each probe is at the entry behind the one before it, and behind the last entry is the first. */
  ghost predicate Cyclic(probes: seq<nat>, n: nat) {
    && n > 0 && |probes| == n
    && (forall k :: 0 <= k < n ==> probes[k] < n)
    && forall k :: 0 <= k < n - 1 ==> probes[k + 1] == (probes[k] + 1) % n
  }

  lemma ProbesCyclic(start: nat, n: nat)
    requires n > 0
    ensures Cyclic(Probes(start, n), n) && Probes(start, n)[0] == start % n
  {
    var p := Probes(start, n);
    forall k | 0 <= k < n - 1 ensures p[k + 1] == (p[k] + 1) % n {
      ModStep(start + k, n);
    }
  }

  method SearchTestable(list: seq<Config>, first: nat, clock: nat -> Time, ghost probes: seq<nat>)
      returns (index: nat)
    requires Cyclic(probes, |list|) && probes[0] == first
    ensures index < |list|
    ensures forall k: nat :: k < |list| - 1 && FirstHit(list, probes, clock, k) ==> index == probes[k]
    ensures (forall k: nat :: k < |list| - 1 ==> !FirstHit(list, probes, clock, k)) ==> index == 0
  {
    var count := 0;
    index := first;
    while count < |list|
      invariant 0 <= count <= |list|
      invariant count < |list| ==> index == probes[count]
      invariant forall j: nat :: j < count ==> !IsTestable(list[probes[j]], clock(j))
    {
      count := count + 1;
      if IsTestable(list[index], clock(count - 1)) {
        assert FirstHit(list, probes, clock, count - 1);
        break;
      }
      index := (index + 1) % |list|;
    }
    if count == |list| {
      index := 0;
    }
  }

  /**
   The first testable entry in cyclic order, unless only the last of one round's probes hits
   or none does: then entry 0.
   */
  method GetNextTestableIndex(list: seq<Config>, start: nat, clock: nat -> Time) returns (index: nat)
    requires list != []
    ensures index < |list|
    ensures forall k: nat :: k < |list| - 1 && FirstHit(list, Probes(start, |list|), clock, k) ==>
      index == (start + k) % |list|
    ensures (forall k: nat :: k < |list| - 1 ==> !FirstHit(list, Probes(start, |list|), clock, k)) ==> index == 0
    ensures Searches(list, start, clock, index)
  {
    ProbesCyclic(start, |list|);
    index := SearchTestable(list, start % |list|, clock, Probes(start, |list|));
  }

  /** Without ports there is no port to be held and no address to be found. */
  function Seen(ports: seq<Port>, probe: Probe): Probe {
    if ports == [] then NoAddress else probe
  }

  /** The test of the pending entry has to be repeated. */
  predicate Waits(probe: Probe, testCount: nat) {
    match probe
    case InPciBack(usedByApp) => !usedByApp
    case NoAddress => testCount < MAX_RETEST_COUNT
    case Addressed(_) => false
  }

  // ---------- which entries are tested ----------

  function ResultOf(probe: Probe, testCount: nat): Result {
    match probe
    case InPciBack(usedByApp) => if usedByApp then Fail else PciWait
    case NoAddress => if testCount < MAX_RETEST_COUNT then Wait else Fail
    case Addressed(reachable) => if reachable then Success else Fail
  }

  /** The search from `start` finds the entry at `index`. */
  ghost predicate Searches(list: seq<Config>, start: nat, clock: nat -> Time, index: nat)
    requires list != []
  {
    && index < |list|
    && (forall k: nat :: k < |list| - 1 && FirstHit(list, Probes(start, |list|), clock, k) ==>
          index == (start + k) % |list|)
    && ((forall k: nat :: k < |list| - 1 ==> !FirstHit(list, Probes(start, |list|), clock, k)) ==> index == 0)
  }

  /** The entry that is tested first. */
  ghost predicate FirstTested(list: seq<Config>, index: nat) {
    list != [] && exists clock: nat -> Time :: Searches(list, 0, clock, index)
  }

  ghost predicate NotBefore(clock: nat -> Time, now: Time) {
    forall k :: clock(k) >= now
  }

  /** The entry that is tested after the one at `from` failed at `now`: an untested first one, or else the next. */
  ghost predicate NextTested(list: seq<Config>, from: nat, now: Time, index: nat) {
    && list != []
    && if IsUntested(list[0]) then index == 0
       else exists clock: nat -> Time :: NotBefore(clock, now) && Searches(list, from + 1, clock, index)
  }

  lemma FoundFirst(list: seq<Config>, clock: nat -> Time, index: nat)
    requires list != [] && Searches(list, 0, clock, index)
    ensures FirstTested(list, index)
  {
  }

  /** A test of the entry at `index`: what was seen, the result, the entry with it, and the list then. */
  datatype Attempt = Attempt(
    index: nat, entry: Config, o: Observation, testCount: nat, res: Result, tested: Config, after: seq<Config>)

  predicate Pauses(a: Attempt) {
    a.res.Wait? || a.res.PciWait?
  }

  /** What a test makes of the list. */
  predicate Tests(a: Attempt, list: seq<Config>) {
    && a.res == ResultOf(Seen(a.entry.ports, a.o.probe), a.testCount)
    && SameStamp(a.tested, a.entry) && a.tested.ports == a.entry.ports
    && a.after == if Pauses(a) then list else WrittenBack(list, a.tested)
  }

  function Compressed(list: seq<Config>, index: int): seq<Config> {
    KeptIncreasing(list, index, |list|);
    Select(list, Kept(list, index, |list|))
  }

  function IndexAfter(list: seq<Config>, index: int): int {
    index - Lowered(list, index, |list|)
  }

  /** The list with which the verification goes on. */
  function ListAfter(a: Attempt): seq<Config> {
    if a.res.Success? then Compressed(a.after, a.index) else a.after
  }

  /** The verification goes on with the entry at `index`. */
  ghost predicate GoesOnAt(a: Attempt, index: nat) {
    match a.res
    case Fail => NextTested(a.after, a.index, a.o.now, index)
    case Success => ListAfter(a) != [] && IsUntested(ListAfter(a)[0]) && FirstTested(ListAfter(a), index)
    case _ => false
  }

  ghost predicate Then(a: Attempt, b: Attempt) {
    && GoesOnAt(a, b.index) && b.testCount == 0
    && b.index < |ListAfter(a)| && b.entry == ListAfter(a)[b.index]
    && Tests(b, ListAfter(a))
  }

  /** The tests follow one another as they should, and see what is to be seen. */
  ghost predicate Chained(list: seq<Config>, attempts: seq<Attempt>, obs: seq<Observation>) {
    && |attempts| <= |obs|
    && (forall i :: 0 <= i < |attempts| ==> attempts[i].o == obs[i])
    && (attempts != [] ==> Tests(attempts[0], list))
    && (forall i :: 0 <= i < |attempts| - 1 ==> Then(attempts[i], attempts[i + 1]))
  }

  lemma ChainGrows(list: seq<Config>, xs: seq<Attempt>, obs: seq<Observation>, a: Attempt)
    requires Chained(list, xs, obs) && |xs| < |obs| && a.o == obs[|xs|]
    requires if xs == [] then Tests(a, list) else Then(xs[|xs| - 1], a)
    ensures Chained(list, xs + [a], obs)
  {
    hide Then, Tests;
  }

  lemma ChainJoins(list: seq<Config>, xs: seq<Attempt>, obs: seq<Observation>, ys: seq<Attempt>)
    requires xs != [] && |xs| <= |obs| && Chained(list, xs, obs)
    requires Chained(ListAfter(xs[|xs| - 1]), ys, obs[|xs|..]) && (ys != [] ==> Then(xs[|xs| - 1], ys[0]))
    ensures Chained(list, xs + ys, obs)
  {
    hide Then, Tests;
    var all := xs + ys;
    forall i | 0 <= i < |all| - 1 ensures Then(all[i], all[i + 1]) {
      if i >= |xs| { assert all[i] == ys[i - |xs|] && all[i + 1] == ys[i - |xs| + 1]; }
    }
  }

  /** The list and the index after `n` compressions. */
  ghost predicate Compresses(from: seq<Config>, at: int, list: seq<Config>, index: int, n: nat)
    decreases n
  {
    if n == 0 then list == from && index == at
    else Compresses(Compressed(from, at), IndexAfter(from, at), list, index, n - 1)
  }

  lemma {:induction false} OnceMore(from: seq<Config>, at: int, list: seq<Config>, index: int, n: nat)
    requires Compresses(from, at, list, index, n)
    ensures Compresses(from, at, Compressed(list, index), IndexAfter(list, index), n + 1)
    decreases n
  {
    if n > 0 {
      OnceMore(Compressed(from, at), IndexAfter(from, at), list, index, n - 1);
    } else {
      assert Compresses(Compressed(list, index), IndexAfter(list, index), Compressed(list, index),
                        IndexAfter(list, index), 0);
    }
  }

  /** The entry that passed is the one in use, as far as compression lets the index follow it. */
  ghost predicate InUse(a: Attempt, list: seq<Config>, index: int) {
    exists n: nat :: n > 0 && Compresses(a.after, a.index, list, index, n)
  }

  /** Where the list and the verification stand. */
  datatype Stand = Stand(
    list: seq<Config>, current: int, next: int, inProgress: bool, pending: Config, testCount: nat)

  /** Where the verification stands after its last test. */
  ghost predicate StandsAfter(x: Attempt, rest: seq<Observation>, a: Stand) {
    if Pauses(x) then
      a.inProgress && a.next == x.index && a.pending == x.tested
    else if x.res.Fail? || (x.after != [] && IsUntested(x.after[0])) then
      && rest == [] && a.inProgress && a.next >= 0 && GoesOnAt(x, a.next)
      && a.next < |ListAfter(x)| && a.pending == ListAfter(x)[a.next]
    else
      !a.inProgress && a.next == x.index && InUse(x, a.list, a.current)
  }

  /** The verification that is under way goes on with its entry. */
  ghost predicate VerifiedFrom(
    b: Stand, obs: seq<Observation>, attempts: seq<Attempt>, rest: seq<Observation>, a: Stand)
  {
    && |rest| + |attempts| == |obs| && Chained(b.list, attempts, obs)
    && (attempts != [] <==> b.inProgress && obs != [])
    && (attempts == [] ==> a == b)
    && (attempts != [] ==>
          && attempts[0].index == b.next && attempts[0].entry == b.pending && attempts[0].testCount == b.testCount
          && StandsAfter(attempts[|attempts| - 1], rest, a))
  }

  /** The verification starts over, unless one is under way. */
  ghost predicate RestartedFrom(
    b: Stand, obs: seq<Observation>, attempts: seq<Attempt>, first: nat, rest: seq<Observation>, a: Stand)
  {
    && |rest| + |attempts| == |obs| && Chained(b.list, attempts, obs)
    && (b.inProgress ==> attempts == [] && a == b)
    && (!b.inProgress && b.list != [] ==>
          && FirstTested(b.list, first) && first < |b.list|
          && (obs == [] ==> attempts == [] && a.inProgress && a.next == first && a.pending == b.list[first])
          && (obs != [] ==>
                && attempts != [] && attempts[0].index == first && attempts[0].entry == b.list[first]
                && attempts[0].testCount == 0 && StandsAfter(attempts[|attempts| - 1], rest, a)))
  }

  /** A configuration arrives in the list or leaves it. */
  ghost predicate ListChanged(b: Stand, c: Config, delete: bool, r: Outcome, a: Stand) {
    && a == b.(list := a.list, current := a.current)
    && (r.NoChange? <==> NothingToDo(b.list, b.next, c, delete))
    && (r.Panic? <==> delete && |b.list| == 1 && b.next == 0 && Lookup(b.list, c) >= 0)
    && (r.NoChange? ==> a == b)
    && (r.Change? && b.next >= |b.list| ==> a.list == Changed(b.list, c, delete) && a.current == b.current)
    && (r.Change? && 0 <= b.next < |b.list| ==>
          var changed, current := Changed(b.list, c, delete), CurrentSeen(b.list, b.next, c, delete);
          && changed != []
          && Settled(changed, current, AdjustedIndex(changed, current, b.current), a.list, a.current))
  }

  /** The course of an event: what becomes of the list, where that leaves it, and the tests after it. */
  datatype Course = Course(r: Outcome, mid: Stand, attempts: seq<Attempt>, first: nat, rest: seq<Observation>)

  /** What an event does: first to the list, then to the verification. */
  ghost predicate EventDone(b: Stand, e: Event, d: Course, a: Stand) {
    match e
    case Modify(c, hasAddress, obs) =>
      && ListChanged(b, c, false, d.r, d.mid)
      && if d.r.NoChange? && hasAddress && d.mid.current != -1 then a == d.mid
         else RestartedFrom(d.mid, obs, d.attempts, d.first, d.rest, a)
    case Delete(c, obs) =>
      && ListChanged(b, c, true, d.r, d.mid)
      && (d.r.NoChange? ==> a == b)
      && (d.r.Change? ==> RestartedFrom(d.mid, obs, d.attempts, d.first, d.rest, a))
    case Retest(obs) => VerifiedFrom(b, obs, d.attempts, d.rest, a)
    case Restart(obs) => RestartedFrom(b, obs, d.attempts, d.first, d.rest, a)
    case Interfaces(_) => a == b
  }

  /** An event with its course, and where things stood before and after. */
  datatype Step = Step(before: Stand, e: Event, d: Course, after: Stand)

  function EndOf(steps: seq<Step>, from: Stand): Stand {
    if steps == [] then from else steps[|steps| - 1].after
  }

  /** The steps are the events in turn, each with its course, and each from where the last one ended. */
  ghost predicate StepsDone(steps: seq<Step>, events: seq<Event>, from: Stand) {
    && |steps| <= |events|
    && forall i :: 0 <= i < |steps| ==>
         && steps[i].e == events[i] && EventDone(steps[i].before, steps[i].e, steps[i].d, steps[i].after)
         && steps[i].before == EndOf(steps[..i], from)
  }

  lemma NoSteps(events: seq<Event>, from: Stand)
    ensures StepsDone([], events, from)
  {
  }

  lemma StepsGrow(steps: seq<Step>, events: seq<Event>, from: Stand, x: Step)
    requires StepsDone(steps, events, from) && |steps| < |events| && x.e == events[|steps|]
    requires x.before == EndOf(steps, from) && EventDone(x.before, x.e, x.d, x.after)
    ensures StepsDone(steps + [x], events, from)
  {
    hide EventDone;
    var all := steps + [x];
    forall i | 0 <= i < |all| ensures all[..i] == steps[..i] { }
  }

  lemma StillInUse(a: Attempt, list: seq<Config>, index: int)
    ensures InUse(a, list, index) ==> InUse(a, Compressed(list, index), IndexAfter(list, index))
  {
    if InUse(a, list, index) {
      var n: nat :| n > 0 && Compresses(a.after, a.index, list, index, n);
      OnceMore(a.after, a.index, list, index, n);
    }
  }

  /** The entry is in the list under its own stamp. */
  predicate Listed(list: seq<Config>, c: Config) {
    FirstMatch(list, c, true) < |list|
  }

  /** The result would be written over an entry with the same content but another stamp. */
  predicate Misplaced(list: seq<Config>, c: Config) {
    !Listed(list, c) && Lookup(list, c) >= 0
  }

  /** What the code knows when it is called: the list and the verification under way. */
  datatype Moment = Moment(e: Event, list: seq<Config>, pending: Config, inProgress: bool, testCount: nat)

  /** A retest that has a result, which is written over an entry with another stamp. */
  predicate IsLate(m: Moment) {
    && m.e.Retest? && m.inProgress && m.e.obs != []
    && !Waits(Seen(m.pending.ports, m.e.obs[0].probe), m.testCount) && Misplaced(m.list, m.pending)
  }

  /** The priority is between those of the neighbours of the entry that is found. */
  predicate FitsIn(list: seq<Config>, c: Config) {
    var i := Lookup(list, c);
    i >= 0 ==>
      && (i > 0 ==> list[i - 1].timePriority >= c.timePriority)
      && (i + 1 < |list| ==> c.timePriority >= list[i + 1].timePriority)
  }

  /** A late result whose priority does not fit in where it is written. */
  predicate Disorders(m: Moment) {
    IsLate(m) && !FitsIn(m.list, m.pending)
  }

  predicate AnyDisorders(log: seq<Moment>) {
    exists i :: 0 <= i < |log| && Disorders(log[i])
  }

  ghost predicate AllSorted(lists: seq<seq<Config>>) {
    forall i :: 0 <= i < |lists| ==> Sorted(lists[i])
  }

  lemma ListsGrow(lists: seq<seq<Config>>, l: seq<Config>)
    ensures AllSorted(lists + [l]) <==> AllSorted(lists) && Sorted(l)
  {
    var now := lists + [l];
    if AllSorted(now) {
      assert now[|lists|] == l;
      forall i | 0 <= i < |lists| ensures Sorted(lists[i]) { assert now[i] == lists[i]; }
    }
  }

  predicate AnyLate(log: seq<Moment>) {
    exists i :: 0 <= i < |log| && IsLate(log[i])
  }

  lemma LogGrows(log: seq<Moment>, m: Moment)
    ensures AnyLate(log + [m]) <==> AnyLate(log) || IsLate(m)
    ensures AnyDisorders(log + [m]) <==> AnyDisorders(log) || Disorders(m)
  {
    hide IsLate, Disorders;
    var l := log + [m];
    if i :| 0 <= i < |log| && IsLate(log[i]) { assert IsLate(l[i]); }
    if IsLate(m) { assert IsLate(l[|log|]); }
    if i :| 0 <= i < |log| && Disorders(log[i]) { assert Disorders(l[i]); }
    if Disorders(m) { assert Disorders(l[|log|]); }
  }

  /** What writing a result does to the order of all lists so far. */
  lemma WrittenOrder(lists: seq<seq<Config>>, list: seq<Config>, c: Config)
    requires lists != [] && lists[|lists| - 1] == list && Lookup(list, c) >= 0
    ensures AllSorted(lists + [WrittenBack(list, c)]) <==>
            AllSorted(lists) && !(Misplaced(list, c) && !FitsIn(list, c))
  {
    ListsGrow(lists, WrittenBack(list, c));
    if AllSorted(lists) {
      assert Sorted(lists[|lists| - 1]);
      WrittenBackSorted(list, c);
    }
  }

  /** Where a result goes does not depend on the result. */
  lemma SamePlaceFor(list: seq<Config>, c: Config, d: Config)
    requires SameStamp(c, d) && c.ports == d.ports
    ensures Listed(list, c) <==> Listed(list, d)
    ensures Misplaced(list, c) <==> Misplaced(list, d)
    ensures FitsIn(list, c) <==> FitsIn(list, d)
  {
    SameMatch(list, c, d, true);
    SameLookup(list, c, d);
  }

  /** No configuration names an interface twice. */
  ghost predicate AllNamed(list: seq<Config>) {
    forall i :: 0 <= i < |list| ==> UniqueNames(list[i].ports)
  }

  /** No configuration that arrives names an interface twice, and no interface comes or goes. */
  ghost predicate Steady(events: seq<Event>) {
    forall i :: 0 <= i < |events| ==>
      !events[i].Interfaces? && (events[i].Modify? ==> UniqueNames(events[i].c.ports))
  }

  lemma ChangedNamed(list: seq<Config>, c: Config, delete: bool)
    requires AllNamed(list) && (!delete ==> UniqueNames(c.ports))
    ensures AllNamed(Changed(list, c, delete))
  {
    var r := Changed(list, c, delete);
    forall i | 0 <= i < |r| ensures UniqueNames(r[i].ports) {
      if delete {
        var k := Lookup(list, c);
        if k >= 0 { RemovedKeeps(list, list[k]); }
        assert r[i] in list;
      } else {
        ChangedPorts(list, c, delete, r[i]);
      }
    }
  }

  /** What every change of the list keeps. */
  lemma ChangedKeeps(list: seq<Config>, c: Config, delete: bool)
    requires Unique(list)
    ensures Unique(Changed(list, c, delete))
    ensures Sorted(list) ==> Sorted(Changed(list, c, delete))
    ensures AllNamed(list) && (!delete ==> UniqueNames(c.ports)) ==> AllNamed(Changed(list, c, delete))
    ensures Changed(list, c, delete) == [] <==>
            delete && (list == [] || (|list| == 1 && Lookup(list, c) >= 0))
  {
    hide Changed;
    ChangedUnique(list, c, delete);
    if Sorted(list) { ChangedSorted(list, c, delete); }
    ChangedEmpty(list, c, delete);
    if AllNamed(list) && (!delete ==> UniqueNames(c.ports)) { ChangedNamed(list, c, delete); }
  }

  lemma SliceStep(s: seq<Config>, k: nat, i: nat)
    requires k <= i < |s|
    ensures s[k..i + 1] == s[k..i] + [s[i]]
  {
  }

  const NOTHING_PENDING := Config(0, "", 0, 0, 0, "", [])

  class Context {
    const clients: Clients
    var list: seq<Config>
    var currentIndex: int
    var nextIndex: int
    // the verification under way
    var inProgress: bool
    var pending: Config
    /** The ports for which the DHCP clients were last updated. */
    var appliedPorts: seq<Port>
    var testCount: nat
    /** The source would stop with a run-time error. */
    var panicked: bool
    // History: how often the verification was told to wait since it was last set up, whether a
    // result was ever written over an entry with another stamp, and whether one did not fit in
    // there, every list so far, whether no configuration that arrived names an interface twice
    // and no change of the interfaces concerned the ports applied, and the calls so far.
    ghost var waits: nat
    ghost var late: bool
    ghost var misfit: bool
    ghost var lists: seq<seq<Config>>
    ghost var steady: bool
    ghost var log: seq<Moment>

    ghost predicate Valid()
      reads this, clients
    {
      && Unique(list)
      && OrderInv()
      && nextIndex >= 0
      && waits <= testCount <= MAX_RETEST_COUNT
      && (steady ==> PortsInv())
    }

    /** Every list there ever was is in order if and only if every late result fitted in. */
    ghost predicate OrderInv()
      reads this`list, this`lists, this`misfit
    {
      && lists != [] && lists[|lists| - 1] == list
      && (AllSorted(lists) <==> !misfit)
    }

    lemma LastSorted()
      requires OrderInv()
      ensures !misfit ==> Sorted(list)
    {
      if !misfit { assert Sorted(lists[|lists| - 1]); }
    }

    /** Notes the list as it is now. */
    ghost method Note()
      requires lists != [] && (AllSorted(lists) <==> !misfit) && (!misfit ==> Sorted(list))
      modifies this`lists
      ensures OrderInv() && lists == old(lists) + [list]
    {
      ListsGrow(lists, list);
      lists := lists + [list];
    }

    /** Exactly the clients run that the ports last applied ask for, and none was ever in the way. */
    ghost predicate PortsInv()
      reads this`list, this`pending, this`appliedPorts, clients
    {
      && AllNamed(list) && UniqueNames(pending.ports) && UniqueNames(appliedPorts)
      && clients.Match(appliedPorts) && !clients.blocked
    }

    constructor (clients: Clients)
      requires clients.running == map[] && !clients.blocked
      ensures Valid() && this.clients == clients && list == [] && nextIndex == 0 && !panicked && !inProgress
      ensures !late && !misfit && lists == [[]] && steady && log == []
    {
      this.clients := clients;
      list, currentIndex, nextIndex := [], -1, 0;
      inProgress, pending, appliedPorts, testCount := false, NOTHING_PENDING, [], 0;
      panicked, waits, late, misfit, lists, steady, log := false, 0, false, false, [[]], true, [];
    }

    // ---------- the list ----------

    method LookupPortConfig(c: Config) returns (i: int)
      ensures i == Lookup(list, c)
    {
      i := FindFirst(list, c, true);
      if i < 0 {
        i := FindFirst(list, c, false);
      }
    }

    method InsertPortConfig(c: Config)
      modifies this`list
      ensures list == Inserted(old(list), c)
    {
      hide Inserted;
      var newConfig: seq<Config> := [];
      var inserted := false;
      ghost var was := list;
      ghost var k := InsertedSplits(list, c);
      for i := 0 to |list|
        invariant list == was
        invariant inserted <==> k < i
        invariant newConfig == if i <= k then was[..i] else was[..k] + [c] + was[k..i]
      {
        if !inserted && c.timePriority > list[i].timePriority {
          newConfig := newConfig + [c];
          inserted := true;
        }
        newConfig := newConfig + [list[i]];
        if k <= i { SliceStep(was, k, i); } else { SliceStep(was, 0, i); }
      }
      if !inserted {
        newConfig := newConfig + [c];
      }
      assert was[..|was|] == was && was[k..|was|] == was[k..];
      list := newConfig;
    }

    method RemovePortConfig(c: Config)
      modifies this`list
      ensures list == Removed(old(list), c)
    {
      hide Removed;
      var newConfig: seq<Config> := [];
      var removed := false;
      ghost var was := list;
      ghost var k := RemovedSplits(list, c);
      for i := 0 to |list|
        invariant list == was
        invariant removed <==> k < i
        invariant newConfig == if i <= k then was[..i] else was[..k] + was[k + 1..i]
      {
        if !removed && RemovalMatches(list[i], c) {
          removed := true;
        } else {
          newConfig := newConfig + [list[i]];
        }
        if k < i { SliceStep(was, k + 1, i); } else { SliceStep(was, 0, i); }
      }
      assert was[..|was|] == was;
      if !removed {
        return;
      }
      assert was[k + 1..|was|] == was[k + 1..];
      list := newConfig;
    }

    method UpdatePortConfig(i: nat, c: Config)
      requires i < |list|
      modifies this`list
      ensures list == Updated(old(list), i, c)
    {
      if list[i].timePriority == c.timePriority {
        list := list[i := c];
        return;
      }
      var c' := WithHistory(c, list[i]);
      RemovePortConfig(list[i]);
      InsertPortConfig(c');
    }

    /** The list as it is changed before it is compressed; false if nothing is to be done. */
    method ChangeList(c: Config, delete: bool) returns (changed: bool)
      modifies this`list
      ensures changed <==> !NothingToDo(old(list), nextIndex, c, delete)
      ensures list == if changed then Changed(old(list), c, delete) else old(list)
    {
      var i := LookupPortConfig(c);
      if delete {
        if i < 0 { return false; }
        RemovePortConfig(list[i]);
      } else if i >= 0 {
        if SameContent(list[i], c) && 0 <= nextIndex < |list| && list[nextIndex].ports == list[i].ports {
          return false;
        }
        UpdatePortConfig(i, c);
      } else {
        InsertPortConfig(c);
      }
      return true;
    }

    /** Where the entry in use is now. */
    method AdjustIndex(current: Config)
      requires list != []
      modifies this`currentIndex
      ensures currentIndex == AdjustedIndex(list, current, old(currentIndex))
    {
      var newIndex := LookupPortConfig(current);
      if newIndex < 0 {
        currentIndex := if WasWorking(list[0]) then 0 else -1;
      } else if newIndex != currentIndex {
        currentIndex := if WasWorking(list[newIndex]) then newIndex else -1;
      }
    }

    /** Follows the entry in use to its new place, then compresses the list. */
    method FollowCurrent(current: Config)
      requires Valid() && list != []
      modifies this`list, this`lists, this`currentIndex
      ensures Valid() && old(lists) <= lists
      ensures Settled(old(list), current, AdjustedIndex(old(list), current, old(currentIndex)), list, currentIndex)
    {
      hide Unique, OrderInv, PortsInv, AdjustedIndex, Settled, Denotes, Kept, Lowered, Increasing, Select;
      AdjustedDenotes(list, current, currentIndex);
      AdjustIndex(current);
      SettledByCompression(list, current, currentIndex);
      CompressList();
    }

    /** A configuration arrives or is withdrawn. */
    method DoUpdatePortConfigList(c: Config, delete: bool) returns (r: Outcome)
      requires Valid() && (steady && !delete ==> UniqueNames(c.ports))
      modifies this`list, this`lists, this`currentIndex
      ensures Valid() && old(lists) <= lists
      ensures ListChanged(old(Now()), c, delete, r, Now())
    {
      hide Unique, Sorted, AllNamed, UniqueNames, Clients.Match, AdjustedIndex, Settled, Changed, CurrentSeen;
      LastSorted();
      ChangedKeeps(list, c, delete);
      var hasCurrent := 0 <= nextIndex < |list|;
      var current := if hasCurrent then CurrentSeen(list, nextIndex, c, delete) else c;
      var changed := ChangeList(c, delete);
      if !changed {
        return NoChange;
      }
      Note();
      if !hasCurrent {
        return Change;
      }
      if list == [] {
        return Panic;
      }
      FollowCurrent(current);
      return Change;
    }

    // ---------- the verification ----------

    method SetupVerify(index: nat)
      requires Valid() && index < |list|
      modifies this
      ensures Valid() && Listed(list, pending)
      ensures list == old(list) && late == old(late) && panicked == old(panicked) && steady == old(steady)
      ensures misfit == old(misfit) && lists == old(lists) && log == old(log) && appliedPorts == old(appliedPorts)
      ensures nextIndex == currentIndex == index && pending == list[index]
      ensures inProgress && testCount == 0 && waits == 0
    {
      hide Unique, OrderInv, UniqueNames, Clients.Match;
      nextIndex := index;
      currentIndex := nextIndex;
      inProgress := true;
      pending := list[nextIndex];
      testCount, waits := 0, 0;
    }

    /** The DHCP clients follow the pending entry. */
    method ApplyPorts()
      requires Valid()
      modifies this`appliedPorts, clients
      ensures Valid() && appliedPorts == pending.ports
    {
      if pending.ports != appliedPorts {
        clients.UpdateDhcpClient(pending.ports, appliedPorts);
        appliedPorts := pending.ports;
      }
    }

    /** One attempt to verify the pending entry. */
    method VerifyPending(o: Observation) returns (res: Result)
      requires Valid()
      modifies this`pending, this`appliedPorts, this`testCount, this`waits, clients
      ensures Valid() && SameStamp(pending, old(pending)) && pending.ports == old(pending.ports)
      ensures res.Wait? || res.PciWait? <==> Waits(Seen(pending.ports, o.probe), old(testCount))
      ensures res == ResultOf(Seen(pending.ports, o.probe), old(testCount))
      ensures res.Wait? ==> old(testCount) < MAX_RETEST_COUNT && waits == old(waits) + 1
      ensures !res.Wait? ==> waits == old(waits)
      ensures res.Wait? || res.PciWait? ==> pending == old(pending)
      ensures res.Success? <==> Seen(pending.ports, o.probe) == Addressed(true)
      ensures res.Success? ==> pending.lastSucceeded == o.now && pending.lastFailed == old(pending.lastFailed)
      ensures res.Fail? ==> pending.lastFailed == o.now && pending.lastSucceeded == old(pending.lastSucceeded)
      ensures !Seen(pending.ports, o.probe).InPciBack? ==> appliedPorts == pending.ports
    {
      hide Unique, OrderInv, Clients.Match;
      match Seen(pending.ports, o.probe)
      case InPciBack(usedByApp) =>
        if usedByApp {
          pending := pending.(lastError := "port in PCIBack", lastFailed := o.now);
          return Fail;
        }
        return PciWait;
      case NoAddress =>
        ApplyPorts();
        if testCount < MAX_RETEST_COUNT {
          testCount := testCount + 1;
          waits := waits + 1;
          return Wait;
        }
        pending := pending.(lastFailed := o.now, lastError := "no usable address");
        return Fail;
      case Addressed(reachable) =>
        ApplyPorts();
        testCount := MAX_RETEST_COUNT;
        if reachable {
          pending := pending.(lastSucceeded := o.now, lastError := "");
          return Success;
        }
        pending := pending.(lastFailed := o.now, lastError := "failed network test");
        return Fail;
    }

    /** Writes the result of a test into the list; false where the source fails. */
    method WriteBack() returns (ok: bool)
      requires Valid()
      modifies this`list, this`lists, this`late, this`misfit
      ensures Valid() && |list| == |old(list)| && old(lists) <= lists
      ensures list == WrittenBack(old(list), pending)
      ensures old(Listed(list, pending)) ==> ok && Listed(list, pending)
      ensures late == old(late || Misplaced(list, pending))
      ensures misfit == old(misfit || (Misplaced(list, pending) && !FitsIn(list, pending)))
      ensures ok <==> Lookup(old(list), pending) >= 0 || nextIndex < |old(list)|
    {
      hide Clients.Match, AllSorted, Sorted, FitsIn;
      WrittenBackUnique(list, pending);
      var i := LookupPortConfig(pending);
      if i < 0 {
        // the log message looks up the entry at the index
        return nextIndex < |list|;
      }
      WrittenOrder(lists, list, pending);
      late := late || !Listed(list, pending);
      misfit := misfit || (Misplaced(list, pending) && !FitsIn(list, pending));
      list := list[i := pending];
      lists := lists + [list];
      assert SameStamp(list[i], pending);
      return true;
    }

    /** One attempt, whose result goes into the list unless it has to wait. */
    method TestPending(o: Observation) returns (res: Result, ghost a: Attempt)
      requires Valid() && !panicked
      modifies this`pending, this`appliedPorts, this`testCount, this`waits, this`list, this`late, this`panicked
      modifies this`lists, this`misfit, clients
      ensures Valid() && |list| == |old(list)| && old(lists) <= lists
      ensures a == Attempt(nextIndex, old(pending), o, old(testCount), res, pending, list) && Tests(a, old(list))
      ensures Pauses(a) <==> Waits(Seen(old(pending).ports, o.probe), old(testCount))
      ensures Pauses(a) || panicked || list != []
      ensures old(Listed(list, pending)) ==> Listed(list, pending) && !panicked
      ensures late == old(late || (!Waits(Seen(pending.ports, o.probe), testCount) && Misplaced(list, pending)))
      ensures misfit == old(misfit || (!Waits(Seen(pending.ports, o.probe), testCount)
                                       && Misplaced(list, pending) && !FitsIn(list, pending)))
    {
      hide Unique, OrderInv, PortsInv, Misplaced, Listed, FitsIn, Waits, WrittenBack, FirstMatch, ResultOf, Seen;
      ghost var was, count := pending, testCount;
      res := VerifyPending(o);
      SamePlaceFor(list, pending, old(pending));
      if !res.PciWait? && !res.Wait? {
        var ok := WriteBack();
        panicked := !ok;
      }
      a := Attempt(nextIndex, was, o, count, res, pending, list);
    }

    /** Compresses the list; the order, the stamps and the first entry are kept. */
    method CompressList()
      requires Valid()
      modifies this`list, this`lists, this`currentIndex
      ensures Valid() && old(lists) <= lists
      ensures Increasing(Kept(old(list), old(currentIndex), |old(list)|), |old(list)|)
      ensures list == Select(old(list), Kept(old(list), old(currentIndex), |old(list)|))
      ensures currentIndex == old(currentIndex) - Lowered(old(list), old(currentIndex), |old(list)|)
      ensures old(list) != [] ==> list != [] && list[0] == old(list)[0]
      ensures list == Compressed(old(list), old(currentIndex))
      ensures currentIndex == IndexAfter(old(list), old(currentIndex))
    {
      hide Unique, Sorted, UniqueNames, Clients.Match, Kept, Lowered;
      LastSorted();
      CompressedKeeps(list, currentIndex);
      list, currentIndex := Compress(list, currentIndex);
      Note();
    }

    /** After a failure at `now`: a new first entry, or else the next testable one. */
    method MoveOn(now: Time)
      requires Valid() && list != []
      modifies this
      ensures Valid() && Listed(list, pending) && inProgress && testCount == 0
      ensures list == old(list) && late == old(late) && panicked == old(panicked) && steady == old(steady)
      ensures misfit == old(misfit) && lists == old(lists) && log == old(log)
      ensures nextIndex < |list| && pending == list[nextIndex]
      ensures NextTested(list, old(nextIndex), now, nextIndex)
    {
      hide Searches;
      if IsUntested(list[0]) {
        SetupVerify(0);
      } else {
        var clock: nat -> Time := *;
        clock := k => if clock(k) >= now then clock(k) else now;
        var next := GetNextTestableIndex(list, nextIndex + 1, clock);
        assert NotBefore(clock, now);
        SetupVerify(next);
      }
    }

    /** After a success: the entry under test is the one in use. */
    method Accept()
      requires Valid() && list != []
      modifies this`list, this`lists, this`currentIndex, this`inProgress
      ensures Valid() && list != [] && !inProgress && old(lists) <= lists
      ensures list == Compressed(old(list), nextIndex) && currentIndex == IndexAfter(old(list), nextIndex)
      ensures list[0] == old(list)[0]
    {
      currentIndex := nextIndex;
      CompressList();
      inProgress := false;
    }

    function Now(): Stand
      reads this
    {
      Stand(list, currentIndex, nextIndex, inProgress, pending, testCount)
    }

    /** Where the verification stands after its last test. */
    ghost predicate Stands(a: Attempt, rest: seq<Observation>)
      reads this
    {
      StandsAfter(a, rest, Now())
    }

    /** One test, and what comes after it if it fails. */
    method TestOnce(o: Observation) returns (res: Result, ghost a: Attempt)
      requires Valid() && !panicked && inProgress
      modifies this, clients
      ensures Valid() && steady == old(steady) && log == old(log) && old(lists) <= lists
      ensures Tests(a, old(list)) && a.o == o && a.res == res && a.after == list
      ensures a.index == old(nextIndex) && a.entry == old(pending) && a.testCount == old(testCount)
      ensures inProgress && (old(list) != [] ==> list != [])
      ensures old(Listed(list, pending)) ==> !panicked
      ensures late == old(late || (!Waits(Seen(pending.ports, o.probe), testCount) && Misplaced(list, pending)))
      ensures misfit == old(misfit || (!Waits(Seen(pending.ports, o.probe), testCount)
                                       && Misplaced(list, pending) && !FitsIn(list, pending)))
      ensures !panicked && (Pauses(a) || res.Fail?) ==> Stands(a, [])
      ensures !panicked && res.Fail? ==> Listed(list, pending) && testCount == 0
      ensures !panicked && res.Success? ==> list != [] && nextIndex == a.index
    {
      hide Unique, OrderInv, Misplaced, Listed, FitsIn, Waits, PortsInv, NextTested, Tests, Seen;
      res, a := TestPending(o);
      if !panicked && res.Fail? {
        MoveOn(o.now);
      }
    }

    /**
     Tests one entry after the other; `obs` is what the tests find, one after the other, and
     the verification is still under way when it is used up. The entries tested are those that
     the search gives after each failure, up to the first success or wait. A late result is
     written if and only if the entry that is pending at the start gets one while only its
     content is listed.
     */
    method VerifyDevicePortConfig(obs: seq<Observation>)
      returns (rest: seq<Observation>, ghost attempts: seq<Attempt>)
      requires Valid() && !panicked
      modifies this, clients
      ensures Valid() && steady == old(steady) && log == old(log)
      ensures old(list) != [] ==> list != []
      ensures old(Listed(list, pending)) ==> !panicked
      ensures late == old(late || IsLate(Moment(Retest(obs), list, pending, inProgress, testCount)))
      ensures misfit == old(misfit || Disorders(Moment(Retest(obs), list, pending, inProgress, testCount)))
      ensures old(lists) <= lists
      ensures |attempts| <= |obs| && (attempts == [] ==> unchanged(this) && unchanged(clients))
      ensures !panicked ==> VerifiedFrom(old(Now()), obs, attempts, rest, Now())
      decreases |obs|, 0
    {
      hide Unique, OrderInv, Misplaced, Listed, FitsIn, Waits, PortsInv;
      hide NextTested, FirstTested, Tests, InUse, Compressed, Chained, IsLate, Disorders;
      rest, attempts := obs, [];
      NeverLate(Retest(obs), list, pending, inProgress, testCount);
      NothingChained(list, obs);
      if !inProgress || obs == [] {
        return;
      }
      ghost var a;
      var res;
      while rest != []
        invariant Valid() && inProgress && !panicked && steady == old(steady) && log == old(log)
        invariant old(list) != [] ==> list != []
        invariant |attempts| + |rest| == |obs| && rest == obs[|attempts|..]
        invariant attempts == [] ==>
          && list == old(list) && pending == old(pending) && testCount == old(testCount)
          && nextIndex == old(nextIndex) && late == old(late) && misfit == old(misfit)
        invariant attempts != [] ==>
          && Listed(list, pending) && testCount == 0
          && late == old(late || IsLate(Moment(Retest(obs), list, pending, inProgress, testCount)))
          && misfit == old(misfit || Disorders(Moment(Retest(obs), list, pending, inProgress, testCount)))
          && attempts[0].index == old(nextIndex) && attempts[0].entry == old(pending)
          && attempts[0].testCount == old(testCount)
          && attempts[|attempts| - 1].res.Fail?
          && list == attempts[|attempts| - 1].after && Stands(attempts[|attempts| - 1], [])
        invariant old(lists) <= lists
        invariant Chained(old(list), attempts, obs)
        decreases |rest|
      {
        ListedNotMisplaced(list, pending);
        LateAtFirst(obs, list, pending, testCount);
        res, a := TestOnce(rest[0]);
        ChainGrows(old(list), attempts, obs, a);
        attempts, rest := attempts + [a], rest[1..];
        if res.PciWait? || res.Wait? || panicked {
          return;
        }
        if res.Success? {
          ghost var more;
          rest, more := AcceptAndGoOn(a, rest);
          ChainJoins(old(list), attempts, obs, more);
          attempts := attempts + more;
          return;
        }
      }
    }

    /** After a success; a new first entry is tested next. */
    method AcceptAndGoOn(ghost a: Attempt, obs: seq<Observation>)
      returns (rest: seq<Observation>, ghost attempts: seq<Attempt>)
      requires Valid() && !panicked && list != []
      requires a.res.Success? && a.after == list && a.index == nextIndex
      modifies this, clients
      ensures Valid() && steady == old(steady) && log == old(log)
      ensures |rest| + |attempts| == |obs| && list != [] && !panicked
      ensures late == old(late) && misfit == old(misfit) && old(lists) <= lists
      ensures Chained(ListAfter(a), attempts, obs)
      ensures attempts != [] ==> Then(a, attempts[0])
      ensures Stands(if attempts == [] then a else attempts[|attempts| - 1], rest)
      decreases |obs|, 2
    {
      rest, attempts := obs, [];
      Accept();
      assert Compresses(a.after, a.index, list, currentIndex, 1);
      if IsUntested(list[0]) {
        ghost var first;
        rest, attempts, first := RestartVerify(rest);
      }
    }

    /** Starts over at the first testable entry, unless a verification is under way. */
    method RestartVerify(obs: seq<Observation>)
      returns (rest: seq<Observation>, ghost attempts: seq<Attempt>, ghost first: nat)
      requires Valid() && !panicked
      modifies this, clients
      ensures Valid() && steady == old(steady) && log == old(log)
      ensures |rest| + |attempts| == |obs|
      ensures old(list) != [] ==> list != [] && !panicked
      ensures late == old(late) && misfit == old(misfit) && old(lists) <= lists
      ensures old(inProgress) ==> unchanged(this) && unchanged(clients)
      ensures RestartedFrom(old(Now()), obs, attempts, first, rest, Now())
      decreases |obs|, 1
    {
      hide Unique, OrderInv, PortsInv, Searches, NextTested, Compressed, IndexAfter, Tests, Then, Compresses;
      rest, attempts, first := obs, [], 0;
      if inProgress {
        return;
      }
      if list == [] {
        panicked := true;
        return;
      }
      var clock: nat -> Time := *;
      var next := GetNextTestableIndex(list, 0, clock);
      FoundFirst(list, clock, next);
      first := next;
      SetupVerify(next);
      rest, attempts := VerifyDevicePortConfig(obs);
      ghost var l, i := list, currentIndex;
      CompressList();
      if attempts != [] { StillInUse(attempts[|attempts| - 1], l, i); }
    }

    // ---------- runs ----------

    /** Interfaces appear or vanish. */
    method ChangeInterfaces(host: Host)
      requires Valid() && (steady ==> Unconcerned(clients.host, host, appliedPorts))
      modifies clients
      ensures Valid()
    {
      hide Unique, OrderInv, AllNamed, UniqueNames, Unconcerned;
      clients.ChangeHost(host, appliedPorts);
    }

    /** A configuration arrives; the verification starts over unless nothing changed and one is in use. */
    method HandleDPCModify(c: Config, hasAddress: bool, obs: seq<Observation>)
      returns (ghost done: Course)
      requires Valid() && !panicked && (steady ==> UniqueNames(c.ports))
      modifies this, clients
      ensures Valid() && steady == old(steady) && log == old(log)
      ensures late == old(late) && misfit == old(misfit) && old(lists) <= lists
      ensures !panicked ==> EventDone(old(Now()), Modify(c, hasAddress, obs), done, Now())
    {
      hide Unique, OrderInv, PortsInv, UniqueNames, RestartedFrom, ListChanged;
      var r := DoUpdatePortConfigList(c, false);
      done := Course(r, Now(), [], 0, obs);
      if !(r.NoChange? && hasAddress && currentIndex != -1) {
        ghost var attempts, first;
        var rest;
        rest, attempts, first := RestartVerify(obs);
        done := done.(attempts := attempts, first := first, rest := rest);
      }
    }

    /** A configuration is withdrawn; the verification starts over if that changes the list. */
    method HandleDPCDelete(c: Config, obs: seq<Observation>) returns (ghost done: Course)
      requires Valid() && !panicked
      modifies this, clients
      ensures Valid() && steady == old(steady) && log == old(log)
      ensures late == old(late) && misfit == old(misfit) && old(lists) <= lists
      ensures !panicked ==> EventDone(old(Now()), Delete(c, obs), done, Now())
    {
      hide Unique, OrderInv, PortsInv, UniqueNames, RestartedFrom, Settled, AdjustedIndex, Changed, CurrentSeen;
      var r := DoUpdatePortConfigList(c, true);
      done := Course(r, Now(), [], 0, obs);
      if r.Panic? {
        panicked := true;
      } else if r.Change? {
        ghost var attempts, first;
        var rest;
        rest, attempts, first := RestartVerify(obs);
        done := done.(attempts := attempts, first := first, rest := rest);
      }
    }

    /** A call is handled, and logged. */
    method Handle(e: Event) returns (ghost done: Course)
      requires Valid() && !panicked
      modifies this, clients
      ensures Valid() && log == old(log) + [Moment(e, old(list), old(pending), old(inProgress), old(testCount))]
      ensures late == old(late || IsLate(Moment(e, list, pending, inProgress, testCount)))
      ensures misfit == old(misfit || Disorders(Moment(e, list, pending, inProgress, testCount))) && old(lists) <= lists
      ensures steady == (old(steady) && (e.Modify? ==> UniqueNames(e.c.ports))
                           && (e.Interfaces? ==> Unconcerned(old(clients.host), e.host, old(appliedPorts))))
      ensures !panicked ==> EventDone(old(Now()), e, done, Now())
    {
      hide Unique, OrderInv, PortsInv, Misplaced, FitsIn, Waits, UniqueNames, Unconcerned;
      hide RestartedFrom, VerifiedFrom, ListChanged;
      log := log + [Moment(e, list, pending, inProgress, testCount)];
      ghost var attempts, first := [], 0;
      var rest := [];
      match e {
      case Modify(c, hasAddress, obs) =>
        steady := steady && UniqueNames(c.ports);
        done := HandleDPCModify(c, hasAddress, obs);
      case Delete(c, obs) =>
        done := HandleDPCDelete(c, obs);
      case Retest(obs) =>
        rest, attempts := VerifyDevicePortConfig(obs);
        done := Course(NoChange, Now(), attempts, first, rest);
      case Restart(obs) =>
        rest, attempts, first := RestartVerify(obs);
        done := Course(NoChange, Now(), attempts, first, rest);
      case Interfaces(host) =>
        steady := steady && Unconcerned(clients.host, host, appliedPorts);
        ChangeInterfaces(host);
        done := Course(NoChange, Now(), [], 0, []);
      }
    }

    /**
     Any run of arriving, withdrawn and re-stamped configurations, timers and address changes
     keeps the stamps apart and never lets a verification wait more often than it may. Every list
     of the run is in the order of its priorities if and only if every late result that a retest
     wrote fitted in where it was written, so in particular without late results and without
     retests. Exactly the DHCP clients run that the ports last applied ask for, and none was ever
     in the way of a start, if no configuration names an interface twice and no interface comes or
     goes.
     */
    method Run(events: seq<Event>) returns (ghost steps: seq<Step>)
      requires Valid() && !panicked && LogInv()
      modifies this, clients
      ensures Valid() && LogInv() && old(lists) <= lists
      ensures old(log) <= log && forall i :: |old(log)| <= i < |log| ==> log[i].e in events
      ensures |steps| <= |events| && StepsDone(steps, events, old(Now()))
      ensures !panicked ==> |steps| == |events| && Now() == EndOf(steps, old(Now()))
      ensures Unique(list) && waits <= MAX_RETEST_COUNT
      ensures AllSorted(lists) <==> !AnyDisorders(log)
      ensures !AnyLate(log) ==> Sorted(list)
      ensures (forall i :: 0 <= i < |events| ==> !events[i].Retest?) ==>
        (AnyLate(log) <==> old(AnyLate(log))) && (AnyDisorders(log) <==> old(AnyDisorders(log)))
      ensures old(steady) && Steady(events) ==>
        clients.Match(appliedPorts) && !clients.blocked
    {
      hide Unique, AllSorted, Clients.Match, UniqueNames, AllNamed, Misplaced, Waits, FitsIn, AnyLate, AnyDisorders;
      hide EventDone, StepsDone, IsLate, Disorders;
      steps := [];
      NoSteps(events, Now());
      for i := 0 to |events|
        invariant Valid() && !panicked && LogInv() && old(lists) <= lists
        invariant |steps| == i && StepsDone(steps, events, old(Now())) && Now() == EndOf(steps, old(Now()))
        invariant old(log) <= log && forall j :: |old(log)| <= j < |log| ==> log[j].e in events
        invariant (forall j :: 0 <= j < i ==> !events[j].Retest?) ==> late == old(late) && misfit == old(misfit)
        invariant old(steady) && Steady(events) ==> steady
      {
        LogGrows(log, Moment(events[i], list, pending, inProgress, testCount));
        NeverLate(events[i], list, pending, inProgress, testCount);
        ghost var here := Now();
        ghost var done := Handle(events[i]);
        if panicked { break; }
        StepsGrow(steps, events, old(Now()), Step(here, events[i], done, Now()));
        steps := steps + [Step(here, events[i], done, Now())];
      }
      LastSorted();
      NoneLateNoneDisorders(log);
    }

    /** A late result, and one that did not fit in, was written if and only if a call did so. */
    ghost predicate LogInv()
      reads this`late, this`misfit, this`log
    {
      (late <==> AnyLate(log)) && (misfit <==> AnyDisorders(log))
    }
  }

  lemma NoneLateNoneDisorders(log: seq<Moment>)
    ensures AnyDisorders(log) ==> AnyLate(log)
  {
  }

  lemma NothingChained(list: seq<Config>, obs: seq<Observation>)
    ensures Chained(list, [], obs)
  {
  }

  /** Without a test nothing is late. */
  lemma NeverLate(e: Event, list: seq<Config>, pending: Config, inProgress: bool, testCount: nat)
    ensures var m := Moment(e, list, pending, inProgress, testCount);
            !inProgress || !e.Retest? || e.obs == [] ==> !IsLate(m) && !Disorders(m)
  {
  }

  /** Whether a retest is late is decided by its first test. */
  lemma LateAtFirst(obs: seq<Observation>, list: seq<Config>, pending: Config, testCount: nat)
    requires obs != []
    ensures var m := Moment(Retest(obs), list, pending, true, testCount);
      && (IsLate(m) <==> !Waits(Seen(pending.ports, obs[0].probe), testCount) && Misplaced(list, pending))
      && (Disorders(m) <==> IsLate(m) && !FitsIn(list, pending))
  {
  }

  lemma ListedNotMisplaced(list: seq<Config>, c: Config)
    ensures Listed(list, c) ==> !Misplaced(list, c)
  {
  }

  /** What makes the device network code act, with what the tests it starts will find. */
  datatype Event =
    | Modify(c: Config, hasAddress: bool, obs: seq<Observation>)
    | Delete(c: Config, obs: seq<Observation>)
    | Retest(obs: seq<Observation>)
    | Restart(obs: seq<Observation>)
    | Interfaces(host: Host)

  /** The first entry that matches, or -1. */
  method FindFirst(list: seq<Config>, c: Config, byStamp: bool) returns (i: int)
    ensures i == if FirstMatch(list, c, byStamp) < |list| then FirstMatch(list, c, byStamp) else -1
  {
    for k := 0 to |list|
      invariant forall j :: 0 <= j < k ==> !Matches(list[j], c, byStamp)
    {
      if Matches(list[k], c, byStamp) {
        assert FirstMatch(list, c, byStamp) == k;
        return k;
      }
    }
    return -1;
  }
}
