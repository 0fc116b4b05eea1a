/**
 Once publishers stop starting new calls, a connection that does not fail settles: every
 step that publishers or the connection can take lowers a rank, and when none of them can
 take a step the peer agrees with the publication.
 */
module Progress {
  import opened Prelude
  import opened Collection
  import opened Updaters
  import opened Protocol
  import opened Replication
  import Session

  /** The steps that finish what has been started, as far as the connection `c` is concerned. */
  ghost predicate Finishing(step: Step, c: Channel) {
    || step.Commit? || step.TakeLock? || step.NotifyNext? || step.ReleaseLock?
    || (step.OfSession? && step.c == c && !step.e.Fail? && !step.e.Leave?)
  }

  // ---------- the rank ----------

  function Left(pc: PublisherPc, entries: nat): nat {
    match pc
    case Idle => 0
    case Checked(_) => entries + 3
    case Owing => entries + 2
    case Notifying(next) => if next < entries then entries - next + 1 else 1
  }

  /** The steps all publishers' calls have left. */
  ghost function Work(threads: map<Thread, PublisherPc>, entries: nat): nat {
    if threads == map[] then 0
    else
      var t :| t in threads;
      Left(threads[t], entries) + Work(threads - {t}, entries)
  }

  lemma {:induction false} WorkSplit(threads: map<Thread, PublisherPc>, entries: nat, t: Thread)
    requires t in threads
    ensures Work(threads, entries) == Left(threads[t], entries) + Work(threads - {t}, entries)
  {
    var u :| u in threads && Work(threads, entries) == Left(threads[u], entries) + Work(threads - {u}, entries);
    if u != t {
      WorkSplit(threads - {u}, entries, t);
      WorkSplit(threads - {t}, entries, u);
      assert threads - {u} - {t} == threads - {t} - {u};
    }
  }

  lemma WorkUpdate(threads: map<Thread, PublisherPc>, entries: nat, t: Thread, pc: PublisherPc)
    requires t in threads
    ensures Work(threads[t := pc], entries) ==
            Work(threads, entries) - Left(threads[t], entries) + Left(pc, entries)
  {
    WorkSplit(threads, entries, t);
    WorkSplit(threads[t := pc], entries, t);
    assert threads[t := pc] - {t} == threads - {t};
  }

  function Stage(pc: Session.ServerPc): nat {
    match pc
    case Accepted => 2
    case Greeted => 1
    case _ => 0
  }

  function Ahead(pc: Session.ServerPc): nat {
    match pc
    case Registered => 4
    case Sending(_, _) => 3
    case CheckingRestart => 2
    case SendingRestart => 1
    case _ => 0
  }

  function Load(x: Session.State): nat {
    3 * (if x.pc.Sending? then |x.pc.keys| else 0) + 2 * |x.wire| + |x.slot|
  }

  datatype Rank = Rank(stage: nat, work: nat, token: nat, ahead: nat, load: nat)

  ghost function RankOf(s: State, c: Channel): Rank
    requires c in s.sessions
  {
    var x := s.sessions[c];
    Rank(Stage(x.pc), Work(s.threads, |s.servers|), if c in s.full then 1 else 0,
         Ahead(x.pc), Load(x))
  }

  /** Lexicographic order. */
  predicate Below(a: Rank, b: Rank) {
    || a.stage < b.stage
    || (a.stage == b.stage && a.work < b.work)
    || (a.stage == b.stage && a.work == b.work && a.token < b.token)
    || (a.stage == b.stage && a.work == b.work && a.token == b.token && a.ahead < b.ahead)
    || (a.stage == b.stage && a.work == b.work && a.token == b.token && a.ahead == b.ahead
        && a.load < b.load)
  }

  lemma PublisherStepLowers(s: State, step: Step, c: Channel)
    requires Enabled(s, step) && c in s.sessions
    requires step.Commit? || step.TakeLock? || step.NotifyNext? || step.ReleaseLock?
    ensures c in Next(s, step).sessions
    ensures Below(RankOf(Next(s, step), c), RankOf(s, c))
  {
    var s' := Next(s, step);
    WorkUpdate(s.threads, |s.servers|, step.t, s'.threads[step.t]);
  }

  lemma SessionStepLowers(s: State, c: Channel, e: Session.Event)
    requires Enabled(s, OfSession(c, e)) && Finishing(OfSession(c, e), c)
    ensures c in Next(s, OfSession(c, e)).sessions
    ensures Below(RankOf(Next(s, OfSession(c, e)), c), RankOf(s, c))
  {
    hide IsDiff;
  }

  /** Every finishing step lowers the rank, so only finitely many can follow one another. */
  lemma FinishingLowers(s: State, step: Step, c: Channel)
    requires Enabled(s, step) && c in s.sessions && Finishing(step, c)
    ensures c in Next(s, step).sessions
    ensures Below(RankOf(Next(s, step), c), RankOf(s, c))
  {
    match step
    case OfSession(_, e) => SessionStepLowers(s, c, e);
    case _ => PublisherStepLowers(s, step, c);
  }

  // ---------- no deadlock ----------

  lemma Enumerate(keys: set<Key>) returns (list: seq<Key>)
    ensures Distinct(list)
    ensures forall k :: k in list <==> k in keys
  {
    list := [];
    if keys != {} {
      var k :| k in keys;
      var rest := Enumerate(keys - {k});
      list := [k] + rest;
    }
  }

  /** Any two collections have a diff, so a snapshot is always possible. */
  lemma DiffExists(before: Items, after: Items) returns (keys: seq<Key>)
    ensures IsDiff(before, after, keys)
  {
    var gone := Enumerate(before.Keys - after.Keys);
    var changed := Enumerate(set k | k in after && !SameAt(before, after, k));
    keys := gone + changed;
    forall i, j | 0 <= i < j < |keys| ensures keys[i] != keys[j] {
      if i < |gone| <= j { assert keys[i] in gone && keys[j] in changed; }
    }
    assert forall j :: |gone| <= j < |keys| ==> keys[j] in changed;
    assert forall i :: 0 <= i < |gone| ==> keys[i] in gone;
  }

  /** Some publisher's call is under way, so some publisher can take a step. */
  lemma PublisherCanMove(s: State, t: Thread) returns (step: Step)
    requires LockInv(s) && !Pc(s, t).Idle?
    ensures Enabled(s, step)
    ensures step.Commit? || step.TakeLock? || step.NotifyNext? || step.ReleaseLock?
  {
    if s.holder.Some? {
      var u := s.holder.value;
      assert Pc(s, u).Notifying?;
      step := if Pc(s, u).next < |s.servers| then NotifyNext(u) else ReleaseLock(u);
    } else if Pc(s, t).Checked? {
      step := Commit(t);
    } else {
      assert !Pc(s, t).Notifying?;
      step := TakeLock(t);
    }
  }

  lemma NobodyHolds(s: State)
    requires LockInv(s) && forall t: Thread :: Pc(s, t).Idle?
    ensures s.holder.None?
  {
    assert forall h: Thread :: s.holder == Some(h) ==> Pc(s, h).Notifying?;
    if s.holder.Some? { assert false; }
  }

  /** Every call has returned and nothing is on its way to the peer. */
  ghost predicate Settled(s: State, c: Channel) {
    Drained(s, c) && forall t: Thread :: Pc(s, t).Idle?
  }

  lemma QuietIsSettled(s: State, c: Channel)
    requires c in s.sessions && c !in s.full
    requires var x := s.sessions[c]; x.pc.Waiting? && x.slot == [] && x.wire == []
    requires forall t: Thread :: Pc(s, t).Idle?
    ensures Settled(s, c)
  {
    assert forall t :: !Owes(s, t, c);
    assert Session.Pending(s.sessions[c]) == [];
  }

  /**
   No deadlock: as long as a connection that neither end has given up has not settled, a
   publisher or the connection can take a finishing step.
   */
  lemma FinishingPossible(s: State, c: Channel) returns (step: Step)
    requires Inv(s)
    requires c in s.sessions && Session.Live(s.sessions[c].pc) && s.sessions[c].attached
    requires !Settled(s, c)
    ensures Enabled(s, step) && Finishing(step, c)
  {
    var x := s.sessions[c];
    if t :| !Pc(s, t).Idle? {
      step := PublisherCanMove(s, t);
    } else {
      NobodyHolds(s);
      match x.pc
      case Accepted => step := OfSession(c, Session.Greet);
      case Greeted => step := OfSession(c, Session.Register);
      case Registered =>
        var keys := DiffExists(x.sendToPeer, s.items);
        step := OfSession(c, Session.Snapshot(s.items, keys));
      case Sending(_, _) => step := OfSession(c, Session.Send);
      case CheckingRestart => step := OfSession(c, Session.CheckRestart(s.restarted));
      case SendingRestart => step := OfSession(c, Session.SendRestart);
      case Waiting =>
        if c in s.full {
          step := OfSession(c, Session.Consume);
        } else if x.slot != [] {
          step := OfSession(c, Session.Process);
        } else if x.wire != [] {
          step := OfSession(c, Session.Read);
        } else {
          QuietIsSettled(s, c);
          assert false;
        }
    }
  }

  lemma SessionStaysLive(x: Session.State, e: Session.Event)
    requires Session.Enabled(x, e) && !e.Fail? && !e.Leave? && !e.Detach?
    ensures Session.Live(x.pc) ==> Session.Live(Session.Next(x, e).pc)
    ensures Session.Next(x, e).attached == x.attached
  {
  }

  lemma FinishingStaysLive(s: State, step: Step, c: Channel)
    requires Enabled(s, step) && Finishing(step, c)
    requires c in s.sessions && Session.Live(s.sessions[c].pc) && s.sessions[c].attached
    ensures c in Next(s, step).sessions
    ensures var x := Next(s, step).sessions[c]; Session.Live(x.pc) && x.attached
  {
    if step.OfSession? {
      SessionStaysLive(s.sessions[c], step.e);
    }
  }

  /** `states` are the states of a run of finishing steps. */
  ghost predicate Finishes(states: seq<State>, steps: seq<Step>, c: Channel) {
    && |states| == |steps| + 1
    && forall i :: 0 <= i < |steps| ==>
         && Enabled(states[i], steps[i]) && Finishing(steps[i], c)
         && states[i + 1] == Next(states[i], steps[i])
  }

  lemma Prepend(s: State, step: Step, states: seq<State>, steps: seq<Step>, c: Channel)
    requires Finishes(states, steps, c)
    requires Enabled(s, step) && Finishing(step, c) && states[0] == Next(s, step)
    ensures Finishes([s] + states, [step] + steps, c)
  {
    var states', steps' := [s] + states, [step] + steps;
    forall i | 0 <= i < |steps'|
      ensures Enabled(states'[i], steps'[i]) && Finishing(steps'[i], c)
      ensures states'[i + 1] == Next(states'[i], steps'[i])
    {
      if i > 0 { assert states'[i] == states[i - 1] && steps'[i] == steps[i - 1]; }
    }
  }

  /**
   Convergence: from every state of every run, a connection that neither end has given up
   settles through finishing steps alone, and then its peer agrees; whichever of the possible steps
   are taken, the rank shows that no more than finitely many are needed.
   */
  lemma {:induction false} Converges(s: State, c: Channel) returns (states: seq<State>, steps: seq<Step>)
    requires Inv(s)
    requires c in s.sessions && Session.Live(s.sessions[c].pc) && s.sessions[c].attached
    ensures Finishes(states, steps, c) && states[0] == s
    ensures Settled(states[|steps|], c) && Agreement(states[|steps|], c)
    decreases RankOf(s, c).stage, RankOf(s, c).work, RankOf(s, c).token,
              RankOf(s, c).ahead, RankOf(s, c).load
  {
    if Settled(s, c) {
      DrainedAgrees(s, c);
      return [s], [];
    }
    var step := FinishingPossible(s, c);
    var s' := Next(s, step);
    FinishingLowers(s, step, c);
    FinishingStaysLive(s, step, c);
    StepKeeps(s, step);
    var states', steps' := Converges(s', c);
    Prepend(s, step, states', steps', c);
    states, steps := [s] + states', [step] + steps';
  }
}
