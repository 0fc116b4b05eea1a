/**
 What a publication holds: under every key what the last call on that key put there. With
 that, what peers agree with is what was published.
 */
module Publication {
  import opened Prelude
  import opened Collection
  import opened Updaters
  import opened Protocol
  import opened Replication
  import opened Progress
  import Session

  // ---------- one step ----------

  /** A call is skipped if and only if it would change nothing. */
  lemma SkippedExactly(s: State, t: Thread, op: Op)
    requires Pc(s, t).Idle?
    ensures var begun := s.(threads := s.threads[t := Checked(op)]);
      && Enabled(begun, Commit(t))
      && (!Enabled(s, Begin(t, op)) <==>
          Next(begun, Commit(t)).items == s.items && Next(begun, Commit(t)).restarted == s.restarted)
  {
    var begun := s.(threads := s.threads[t := Checked(op)]);
    var s' := Next(begun, Commit(t));
    if op.Put? && Under(s.items, op.key) == Some(op.val) { assert s'.items == s.items; }
    if op.Put? && Under(s.items, op.key) != Some(op.val) { assert Under(s'.items, op.key) != Under(s.items, op.key); }
    if op.Remove? && op.key in s.items { assert op.key !in s'.items; }
    if op.Remove? && op.key !in s.items { assert s'.items == s.items; }
  }

  /** The change of a call is made at once, and is all that happens. */
  lemma CommitPublishes(s: State, t: Thread)
    requires Enabled(s, Commit(t))
    ensures var s' := Next(s, Commit(t));
      && (match Pc(s, t).op
          case Put(k, v) =>
            && k in s'.items && s'.items[k] == v
            && (forall x :: x != k ==> SameAt(s.items, s'.items, x))
            && s'.restarted == s.restarted
          case Remove(k) =>
            && k !in s'.items
            && (forall x :: x != k ==> SameAt(s.items, s'.items, x))
            && s'.restarted == s.restarted
          case SetRestarted(flag) =>
            s'.items == s.items && s'.restarted == flag)
      && s'.sessions == s.sessions && s'.servers == s.servers && s'.full == s.full && s'.holder == s.holder
      && (forall u :: u != t ==> Pc(s', u) == Pc(s, u))
      && (Pc(s', t).Owing? || (Pc(s, t).op == SetRestarted(false) && Pc(s', t).Idle?))
  {
  }

  /** Nothing else changes the collection or the flag. */
  lemma OnlyCommitsPublish(s: State, step: Step)
    requires Enabled(s, step) && !step.Commit?
    ensures Next(s, step).items == s.items && Next(s, step).restarted == s.restarted
  {
  }

  // ---------- runs ----------

  /** The call that a thread began last. */
  function Begun(steps: seq<Step>, i: nat, t: Thread): Option<Op>
    requires i <= |steps|
  {
    if i == 0 then None
    else if steps[i - 1].Begin? && steps[i - 1].t == t then Some(steps[i - 1].op)
    else Begun(steps, i - 1, t)
  }

  /** Only its beginning makes a call one that is checked. */
  lemma CheckedStep(s: State, step: Step, t: Thread)
    requires Enabled(s, step)
    ensures var pc := Pc(Next(s, step), t);
      pc.Checked? ==> if step.Begin? && step.t == t then pc.op == step.op else pc == Pc(s, t)
  {
    hide Removed, Session.Next, Session.Enabled;
  }

  lemma {:induction false} CheckedIsBegun(states: seq<State>, steps: seq<Step>, i: nat, t: Thread)
    requires IsRun(states, steps) && i < |states|
    ensures Pc(states[i], t).Checked? ==> Begun(steps, i, t) == Some(Pc(states[i], t).op)
  {
    if i > 0 {
      hide Next, Enabled;
      CheckedIsBegun(states, steps, i - 1, t);
      CheckedStep(states[i - 1], steps[i - 1], t);
    }
  }

  /** The call that is committed by step `i`. */
  function CommittedAt(steps: seq<Step>, i: nat): Option<Op>
    requires i < |steps|
  {
    if steps[i].Commit? then Begun(steps, i, steps[i].t) else None
  }

  /** What the last committed call on the key among the first `i` steps put there. */
  function LastWritten(initial: Items, steps: seq<Step>, i: nat, k: Key): Option<Value>
    requires i <= |steps|
  {
    if i == 0 then if k in initial then Some(initial[k]) else None
    else
      var op := CommittedAt(steps, i - 1);
      if op.Some? && op.value.Put? && op.value.key == k then Some(op.value.val)
      else if op.Some? && op.value.Remove? && op.value.key == k then None
      else LastWritten(initial, steps, i - 1, k)
  }

  function LastFlag(initial: bool, steps: seq<Step>, i: nat): bool
    requires i <= |steps|
  {
    if i == 0 then initial
    else
      var op := CommittedAt(steps, i - 1);
      if op.Some? && op.value.SetRestarted? then op.value.flag else LastFlag(initial, steps, i - 1)
  }

  function Under(items: Items, k: Key): Option<Value> {
    if k in items then Some(items[k]) else None
  }

  /** In every run the collection holds under every key what was written there last. */
  lemma {:induction false} HoldsLastWritten(states: seq<State>, steps: seq<Step>, i: nat, k: Key)
    requires IsRun(states, steps) && i < |states|
    ensures Under(states[i].items, k) == LastWritten(states[0].items, steps, i, k)
  {
    if i > 0 {
      var s, step := states[i - 1], steps[i - 1];
      HoldsLastWritten(states, steps, i - 1, k);
      if step.Commit? {
        CheckedIsBegun(states, steps, i - 1, step.t);
        CommitPublishes(s, step.t);
      } else {
        OnlyCommitsPublish(s, step);
      }
    }
  }

  lemma {:induction false} HoldsLastFlag(states: seq<State>, steps: seq<Step>, i: nat)
    requires IsRun(states, steps) && i < |states|
    ensures states[i].restarted == LastFlag(states[0].restarted, steps, i)
  {
    if i > 0 {
      var s, step := states[i - 1], steps[i - 1];
      HoldsLastFlag(states, steps, i - 1);
      if step.Commit? {
        CheckedIsBegun(states, steps, i - 1, step.t);
        CommitPublishes(s, step.t);
      } else {
        OnlyCommitsPublish(s, step);
      }
    }
  }

  // ---------- what peers hold ----------

  /** The peer has what was last written under every key that is published, and knows of a restart. */
  ghost predicate HasWritten(x: Session.State, states: seq<State>, steps: seq<Step>, i: nat)
    requires 0 < |states| && i <= |steps|
  {
    && (forall k :: LastWritten(states[0].items, steps, i, k).Some? ==>
          Under(x.peer.items, k) == LastWritten(states[0].items, steps, i, k))
    && (x.base == map[] ==>
          forall k :: Under(x.peer.items, k) == LastWritten(states[0].items, steps, i, k))
    && (LastFlag(states[0].restarted, steps, i) ==> x.peer.restarted)
  }

  /** In every run, a drained connection has brought its peer what was written last. */
  lemma DrainedHasWritten(states: seq<State>, steps: seq<Step>, i: nat, c: Channel)
    requires IsRun(states, steps) && i < |states| && Drained(states[i], c)
    ensures HasWritten(states[i].sessions[c], states, steps, i)
  {
    hide Drained;
    Replicates(states, steps, i, c);
    HoldsLastFlag(states, steps, i);
    forall k ensures Under(states[i].items, k) == LastWritten(states[0].items, steps, i, k) {
      HoldsLastWritten(states, steps, i, k);
    }
  }

  lemma Joined(states: seq<State>, steps: seq<Step>, states': seq<State>, steps': seq<Step>, c: Channel)
    requires IsRun(states, steps) && Finishes(states', steps', c) && states'[0] == states[|steps|]
    ensures IsRun(states + states'[1..], steps + steps')
    ensures (states + states'[1..])[|steps + steps'|] == states'[|steps'|]
  {
    var all, taken := states + states'[1..], steps + steps';
    forall i | 0 <= i < |taken|
      ensures Enabled(all[i], taken[i]) && all[i + 1] == Next(all[i], taken[i])
    {
      if i >= |steps| {
        assert taken[i] == steps'[i - |steps|] && all[i] == states'[i - |steps|];
      }
    }
  }

  /**
   From every state of every run, a connection that neither end has given up settles through
   finishing steps alone, and then its peer has what was written last under every key.
   */
  lemma ConvergesToWritten(states: seq<State>, steps: seq<Step>, c: Channel)
      returns (states': seq<State>, steps': seq<Step>)
    requires IsRun(states, steps)
    requires c in states[|steps|].sessions
    requires var x := states[|steps|].sessions[c]; Session.Live(x.pc) && x.attached
    ensures IsRun(states', steps') && states <= states' && steps <= steps'
    ensures forall i :: |steps| <= i < |steps'| ==> Finishing(steps'[i], c)
    ensures Settled(states'[|steps'|], c)
    ensures HasWritten(states'[|steps'|].sessions[c], states', steps', |steps'|)
  {
    InvOverRuns(states, steps, |steps|);
    var more, taken := Converges(states[|steps|], c);
    Joined(states, steps, more, taken, c);
    states', steps' := states + more[1..], steps + taken;
    DrainedHasWritten(states', steps', |steps'|, c);
  }

  lemma EventKeepsBase(x: Session.State, e: Session.Event)
    requires Session.Enabled(x, e)
    ensures Session.Next(x, e).base == x.base
  {
  }

  lemma StepKeepsBase(s: State, step: Step, c: Channel)
    requires Enabled(s, step) && Finishing(step, c) && c in s.sessions
    ensures var s' := Next(s, step); c in s'.sessions && s'.sessions[c].base == s.sessions[c].base
  {
    hide Session.Next, Session.Enabled, Inv;
    if step.OfSession? {
      EventKeepsBase(s.sessions[c], step.e);
    }
  }

  /** Steps that finish something do not touch what a connection began with. */
  lemma {:induction false} BaseStays(states: seq<State>, steps: seq<Step>, from: nat, i: nat, c: Channel)
    requires IsRun(states, steps) && from <= i < |states| && c in states[from].sessions
    requires forall j :: from <= j < |steps| ==> Finishing(steps[j], c)
    ensures c in states[i].sessions && states[i].sessions[c].base == states[from].sessions[c].base
  {
    hide Next, Enabled, Finishing, Inv;
    if from < i {
      BaseStays(states, steps, from, i - 1, c);
      StepKeepsBase(states[i - 1], steps[i - 1], c);
    }
  }

  /** A run goes on with a new subscriber. */
  lemma ConnectGoesOn(states: seq<State>, steps: seq<Step>, c: Channel)
    requires IsRun(states, steps) && Unused(states[|steps|], c)
    ensures var now := Next(states[|steps|], Connect(c));
      && IsRun(states + [now], steps + [Connect(c)])
      && c in now.sessions && now.sessions[c].base == map[]
      && Session.Live(now.sessions[c].pc) && now.sessions[c].attached
  {
    hide Inv;
    var now := Next(states[|steps|], Connect(c));
    var all, taken := states + [now], steps + [Connect(c)];
    forall i | 0 <= i < |taken|
      ensures Enabled(all[i], taken[i]) && all[i + 1] == Next(all[i], taken[i])
    {
      if i < |steps| {
        assert all[i] == states[i] && taken[i] == steps[i];
      }
    }
  }

  /**
   Whenever a new subscriber connects, finishing steps alone bring it to hold what was last
   written under every key, and nothing else.
   */
  lemma NewcomerHasWritten(states: seq<State>, steps: seq<Step>, c: Channel)
      returns (states': seq<State>, steps': seq<Step>)
    requires IsRun(states, steps) && Unused(states[|steps|], c)
    ensures IsRun(states', steps') && steps + [Connect(c)] <= steps'
    ensures forall i :: |steps| < i < |steps'| ==> Finishing(steps'[i], c)
    ensures c in states'[|steps'|].sessions
    ensures forall k :: Under(states'[|steps'|].sessions[c].peer.items, k)
                        == LastWritten(states[0].items, steps', |steps'|, k)
  {
    hide LastWritten, Next, Settled;
    ConnectGoesOn(states, steps, c);
    var now := Next(states[|steps|], Connect(c));
    states', steps' := ConvergesToWritten(states + [now], steps + [Connect(c)], c);
    BaseStays(states', steps', |steps| + 1, |steps'|, c);
  }
}
