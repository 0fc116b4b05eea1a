/**
 A publication, the threads that publish to it, the process-wide notification list and all
 the sessions of its subscribers, as one state machine. A publisher changes the collection
 and notifies in separate steps, and visits the notification list one entry at a time; all
 parties interleave freely.
 */
module Protocol {
  import opened Prelude
  import opened Collection
  import opened Updaters
  import Session

  type Thread = nat

  /** What a publisher's call changes. */
  datatype Op =
    | Put(key: Key, val: Value)
    | Remove(key: Key)
    | SetRestarted(flag: bool)

  /** Where a publisher's call is. */
  datatype PublisherPc =
    | Idle
    | Checked(op: Op)          // the call would change something; the change is not made yet
    | Owing                    // the change is made, the notification list is not locked yet
    | Notifying(next: nat)     // holds the lock of the notification list

  datatype State = State(
    name: string,                              // of the publication
    items: Items,
    restarted: bool,
    servers: seq<NotifyName>,
    holder: Option<Thread>,                    // of the notification list's lock
    threads: map<Thread, PublisherPc>,
    full: set<Channel>,                        // channels whose slot holds a token
    sessions: map<Channel, Session.State>)     // by the channel of the connection

  datatype Step =
    // a publisher's call
    | Begin(t: Thread, op: Op)
    | Commit(t: Thread)
    | TakeLock(t: Thread)
    | NotifyNext(t: Thread)
    | ReleaseLock(t: Thread)
    // subscribers come and go
    | Connect(c: Channel)
    | Reconnect(was: Channel, c: Channel)
    | OfSession(c: Channel, e: Session.Event)
    // the other publications of the process share the notification list
    | OtherAdd(nn: NotifyName)
    | OtherRemove(ch: Channel)
    | OtherNotify(i: nat)

  function Pc(s: State, t: Thread): PublisherPc {
    if t in s.threads then s.threads[t] else Idle
  }

  function Entry(s: State, c: Channel): NotifyName {
    NotifyName(s.name, c, Some(c))
  }

  /** The comparison a call makes before it changes anything. */
  predicate Changes(s: State, op: Op) {
    match op
    case Put(k, v) => k !in s.items || s.items[k] != v
    case Remove(k) => k in s.items
    case SetRestarted(flag) => s.restarted != flag
  }

  predicate Unused(s: State, c: Channel) {
    c !in s.sessions && forall i :: 0 <= i < |s.servers| ==> s.servers[i].ch != Some(c)
  }

  /** What a session's step needs of the rest of the state. */
  predicate Agrees(s: State, c: Channel, e: Session.Event) {
    match e
    case Register => s.holder.None?
    case Leave => s.holder.None?
    case Snapshot(items, _) => items == s.items
    case CheckRestart(restarted) => restarted == s.restarted
    case Consume => c in s.full
    case Detach => false   // only as part of a reconnect
    case _ => true
  }

  ghost predicate Enabled(s: State, step: Step) {
    match step
    case Begin(t, op) => Pc(s, t).Idle? && Changes(s, op)
    case Commit(t) => Pc(s, t).Checked?
    case TakeLock(t) => Pc(s, t).Owing? && s.holder.None?
    case NotifyNext(t) => Pc(s, t).Notifying? && Pc(s, t).next < |s.servers|
    case ReleaseLock(t) => Pc(s, t).Notifying? && Pc(s, t).next >= |s.servers|
    case Connect(c) => Unused(s, c)
    case Reconnect(was, c) =>
      was in s.sessions && Session.Enabled(s.sessions[was], Session.Detach) && Unused(s, c)
    case OfSession(c, e) =>
      c in s.sessions && Session.Enabled(s.sessions[c], e) && Agrees(s, c, e)
    case OtherAdd(nn) =>
      s.holder.None? && nn.name != s.name && nn.ch.Some? && nn.ch.value !in s.sessions
    case OtherRemove(ch) => s.holder.None? && ch !in s.sessions
    case OtherNotify(i) => i < |s.servers| && s.servers[i].name != s.name && s.servers[i].ch.Some?
  }

  function Committed(s: State, t: Thread, op: Op): State {
    match op
    case Put(k, v) => s.(items := s.items[k := v], threads := s.threads[t := Owing])
    case Remove(k) => s.(items := s.items - {k}, threads := s.threads[t := Owing])
    case SetRestarted(flag) =>
      // clearing the flag notifies nobody
      s.(restarted := flag, threads := s.threads[t := if flag then Owing else Idle])
  }

  /** The part of a session's step that is outside the session. */
  function Outside(s: State, c: Channel, e: Session.Event): State {
    match e
    case Register => s.(servers := s.servers + [Entry(s, c)], full := s.full - {c})
    case Leave => s.(servers := Removed(s.servers, c))
    case Consume => s.(full := s.full - {c})
    case _ => s
  }

  ghost function Next(s: State, step: Step): State
    requires Enabled(s, step)
  {
    match step
    case Begin(t, op) => s.(threads := s.threads[t := Checked(op)])
    case Commit(t) => Committed(s, t, Pc(s, t).op)
    case TakeLock(t) => s.(threads := s.threads[t := Notifying(0)], holder := Some(t))
    case NotifyNext(t) =>
      var n := Pc(s, t).next;
      var nn := s.servers[n];
      s.(threads := s.threads[t := Notifying(n + 1)],
         full := if nn.name == s.name && nn.ch.Some? then s.full + {nn.ch.value} else s.full)
    case ReleaseLock(t) => s.(threads := s.threads[t := Idle], holder := None)
    case Connect(c) =>
      s.(sessions := s.sessions[c := Session.Start(Session.Peer(map[], false, false))])
    case Reconnect(was, c) =>
      var x := s.sessions[was];
      s.(sessions := s.sessions[was := Session.Next(x, Session.Detach)][c := Session.Start(x.peer)])
    case OfSession(c, e) =>
      Outside(s, c, e).(sessions := s.sessions[c := Session.Next(s.sessions[c], e)])
    case OtherAdd(nn) => s.(servers := s.servers + [nn])
    case OtherRemove(ch) => s.(servers := Removed(s.servers, ch))
    case OtherNotify(i) => s.(full := s.full + {s.servers[i].ch.value})
  }

  /** Publishing starts with what a checkpoint held, and with no subscriber. */
  ghost predicate Init(s: State) {
    && s.holder.None?
    && s.threads == map[]
    && s.sessions == map[]
  }

  /** `states` are the states of a run that takes `steps`. */
  ghost predicate IsRun(states: seq<State>, steps: seq<Step>) {
    && |states| == |steps| + 1
    && Init(states[0])
    && forall i :: 0 <= i < |steps| ==>
         Enabled(states[i], steps[i]) && states[i + 1] == Next(states[i], steps[i])
  }

  // ---------- the invariant ----------

  /** Thread `t` has yet to put a token in the channel `c`. */
  ghost predicate Owes(s: State, t: Thread, c: Channel) {
    || Pc(s, t).Owing?
    || (Pc(s, t).Notifying?
        && exists j :: Pc(s, t).next <= j < |s.servers| && s.servers[j] == Entry(s, c))
  }

  /** The connection's channel holds a token, or some publisher has yet to put one in. */
  ghost predicate Due(s: State, c: Channel) {
    c in s.full || exists t :: Owes(s, t, c)
  }

  /** The server has something to tell its peer that it does not know of yet. */
  predicate Behind(s: State, c: Channel)
    requires c in s.sessions
  {
    var x := s.sessions[c];
    || (Session.AfterSnapshot(x.pc) && s.items != x.sendToPeer)
    || (x.pc.Waiting? && s.restarted && !x.sentRestarted)
  }

  ghost predicate SessionsInv(s: State) {
    forall c :: c in s.sessions ==> Session.Inv(s.sessions[c])
  }

  ghost predicate RegisteredInv(s: State) {
    forall c :: c in s.sessions && Session.InList(s.sessions[c].pc) ==> Entry(s, c) in s.servers
  }

  ghost predicate LockInv(s: State) {
    forall t: Thread :: Pc(s, t).Notifying? <==> s.holder == Some(t)
  }

  ghost predicate NoneLost(s: State) {
    forall c :: c in s.sessions && Behind(s, c) ==> Due(s, c)
  }

  ghost predicate Inv(s: State) {
    SessionsInv(s) && RegisteredInv(s) && LockInv(s) && NoneLost(s)
  }

  // ---------- every step keeps it ----------

  /** A publisher's thread takes a step that neither changes the list nor forgets a duty. */
  lemma PublisherKeeps(s: State, t: Thread, s': State)
    requires Inv(s)
    requires s'.sessions == s.sessions && s'.servers == s.servers && s'.name == s.name
    requires s.full <= s'.full
    requires forall u :: u != t ==> Pc(s', u) == Pc(s, u)
    requires forall c :: Owes(s, t, c) ==> c in s'.full || Owes(s', t, c)
    requires LockInv(s')
    requires Pc(s', t).Owing? || (s'.items == s.items && (s'.restarted ==> s.restarted))
    ensures Inv(s')
  {
    forall c | c in s'.sessions && Behind(s', c) ensures Due(s', c) {
      if Pc(s', t).Owing? {
        assert Owes(s', t, c);
      } else if c !in s.full {
        assert Behind(s, c);
        var u :| Owes(s, u, c);
        if u != t { assert Owes(s', u, c); }
      }
    }
  }

  lemma BeginKeeps(s: State, t: Thread, op: Op)
    requires Inv(s) && Enabled(s, Begin(t, op))
    ensures Inv(Next(s, Begin(t, op)))
  {
    PublisherKeeps(s, t, Next(s, Begin(t, op)));
  }

  lemma CommitKeeps(s: State, t: Thread)
    requires Inv(s) && Enabled(s, Commit(t))
    ensures Inv(Next(s, Commit(t)))
  {
    PublisherKeeps(s, t, Next(s, Commit(t)));
  }

  lemma TakeLockKeeps(s: State, t: Thread)
    requires Inv(s) && Enabled(s, TakeLock(t))
    ensures Inv(Next(s, TakeLock(t)))
  {
    var s' := Next(s, TakeLock(t));
    forall c | c in s'.sessions && Behind(s', c) ensures Due(s', c) {
      var i :| 0 <= i < |s.servers| && s.servers[i] == Entry(s, c);
      assert Owes(s', t, c);
    }
  }

  lemma NotifyNextKeeps(s: State, t: Thread)
    requires Inv(s) && Enabled(s, NotifyNext(t))
    ensures Inv(Next(s, NotifyNext(t)))
  {
    var s' := Next(s, NotifyNext(t));
    forall c | Owes(s, t, c) ensures c in s'.full || Owes(s', t, c) {
      var j :| Pc(s, t).next <= j < |s.servers| && s.servers[j] == Entry(s, c);
      assert s'.servers[j] == Entry(s', c);
    }
    PublisherKeeps(s, t, s');
  }

  lemma ReleaseLockKeeps(s: State, t: Thread)
    requires Inv(s) && Enabled(s, ReleaseLock(t))
    ensures Inv(Next(s, ReleaseLock(t)))
  {
    PublisherKeeps(s, t, Next(s, ReleaseLock(t)));
  }

  /** The list changes while nobody holds its lock: what is owed does not depend on it. */
  lemma OwedWithoutHolder(s: State, s': State, c: Channel)
    requires LockInv(s) && s.holder.None?
    requires s'.threads == s.threads
    ensures (exists t :: Owes(s, t, c)) ==> (exists t :: Owes(s', t, c))
  {
    if t :| Owes(s, t, c) {
      assert !Pc(s, t).Notifying?;
      assert Owes(s', t, c);
    }
  }

  lemma OtherListKeeps(s: State, step: Step)
    requires Inv(s) && Enabled(s, step)
    requires step.OtherAdd? || step.OtherRemove?
    ensures Inv(Next(s, step))
  {
    var s' := Next(s, step);
    forall c | c in s.sessions && Session.InList(s.sessions[c].pc)
      ensures Entry(s', c) in s'.servers
    {
      if step.OtherRemove? { RemovalKeepsOthers(s.servers, step.ch); }
    }
    forall c | c in s'.sessions && Behind(s', c) ensures Due(s', c) {
      assert Behind(s, c);
      OwedWithoutHolder(s, s', c);
    }
  }

  lemma OtherNotifyKeeps(s: State, i: nat)
    requires Inv(s) && Enabled(s, OtherNotify(i))
    ensures Inv(Next(s, OtherNotify(i)))
  {
    var s' := Next(s, OtherNotify(i));
    forall c | c in s'.sessions && Behind(s', c) ensures Due(s', c) {
      assert Behind(s, c);
      if t :| Owes(s, t, c) { assert Owes(s', t, c); }
    }
  }

  /** All that matters of a session to the rest: where it is and what it has told its peer. */
  predicate SameOutside(x: Session.State, y: Session.State) {
    x.pc == y.pc && x.sendToPeer == y.sendToPeer && x.sentRestarted == y.sentRestarted
  }

  /** Sessions join that wait for nothing; the old ones look the same from outside. */
  lemma JoinKeeps(s: State, s': State)
    requires RegisteredInv(s) && LockInv(s) && NoneLost(s)
    requires s' == s.(sessions := s'.sessions)
    requires forall c :: c in s'.sessions ==>
      s'.sessions[c].pc.Accepted? || (c in s.sessions && SameOutside(s.sessions[c], s'.sessions[c]))
    ensures RegisteredInv(s') && LockInv(s') && NoneLost(s')
  {
    assert LockInv(s') by { assert forall t: Thread :: Pc(s', t) == Pc(s, t); }
    forall c | c in s'.sessions && Behind(s', c) ensures Due(s', c) {
      assert c in s.sessions && Behind(s, c);
      if t :| Owes(s, t, c) { assert Owes(s', t, c); }
    }
  }

  lemma ConnectKeeps(s: State, c: Channel)
    requires Inv(s) && Enabled(s, Connect(c))
    ensures Inv(Next(s, Connect(c)))
  {
    Session.StartInv(Session.Peer(map[], false, false));
    JoinKeeps(s, Next(s, Connect(c)));
  }

  lemma ReconnectSessions(s: State, was: Channel, c: Channel)
    requires SessionsInv(s) && Enabled(s, Reconnect(was, c))
    ensures SessionsInv(Next(s, Reconnect(was, c)))
  {
    var x := s.sessions[was];
    Session.StartInv(x.peer);
    Session.StepKeeps(x, Session.Detach);
  }

  lemma ReconnectOutside(s: State, was: Channel, c: Channel)
    requires Enabled(s, Reconnect(was, c))
    ensures var s' := Next(s, Reconnect(was, c));
      && s' == s.(sessions := s'.sessions)
      && forall d :: d in s'.sessions ==>
           s'.sessions[d].pc.Accepted? || (d in s.sessions && SameOutside(s.sessions[d], s'.sessions[d]))
  {
  }

  lemma ReconnectKeeps(s: State, was: Channel, c: Channel)
    requires Inv(s) && Enabled(s, Reconnect(was, c))
    ensures Inv(Next(s, Reconnect(was, c)))
  {
    ReconnectSessions(s, was, c);
    ReconnectOutside(s, was, c);
    JoinKeeps(s, Next(s, Reconnect(was, c)));
  }

  /** A session that moves is not behind afterwards, unless it was before and stays due. */
  lemma MoverNotLost(s: State, c: Channel, e: Session.Event)
    requires Enabled(s, OfSession(c, e))
    ensures var s' := Next(s, OfSession(c, e));
            Behind(s', c) ==> Behind(s, c) && !e.Register? && !e.Consume?
  {
  }

  lemma RegistrationKept(s: State, c: Channel, e: Session.Event)
    requires RegisteredInv(s) && Enabled(s, OfSession(c, e))
    ensures RegisteredInv(Next(s, OfSession(c, e)))
  {
    var s' := Next(s, OfSession(c, e));
    forall d | d in s'.sessions && Session.InList(s'.sessions[d].pc)
      ensures Entry(s', d) in s'.servers
    {
      if e.Leave? { RemovalKeepsOthers(s.servers, c); }
    }
  }

  lemma NoneLostKept(s: State, c: Channel, e: Session.Event)
    requires LockInv(s) && NoneLost(s) && Enabled(s, OfSession(c, e))
    ensures NoneLost(Next(s, OfSession(c, e)))
  {
    var s' := Next(s, OfSession(c, e));
    forall d | d in s'.sessions && Behind(s', d) ensures Due(s', d) {
      if d == c { MoverNotLost(s, c, e); }
      assert Behind(s, d);
      if e.Register? || e.Leave? {
        OwedWithoutHolder(s, s', d);
      } else if t :| Owes(s, t, d) {
        assert Owes(s', t, d);
      }
    }
  }

  lemma OfSessionKeeps(s: State, c: Channel, e: Session.Event)
    requires Inv(s) && Enabled(s, OfSession(c, e))
    ensures Inv(Next(s, OfSession(c, e)))
  {
    var s' := Next(s, OfSession(c, e));
    Session.StepKeeps(s.sessions[c], e);
    RegistrationKept(s, c, e);
    NoneLostKept(s, c, e);
    assert forall t: Thread :: Pc(s', t) == Pc(s, t);
  }

  lemma StepKeeps(s: State, step: Step)
    requires Inv(s) && Enabled(s, step)
    ensures Inv(Next(s, step))
  {
    match step
    case Begin(t, op) => BeginKeeps(s, t, op);
    case Commit(t) => CommitKeeps(s, t);
    case TakeLock(t) => TakeLockKeeps(s, t);
    case NotifyNext(t) => NotifyNextKeeps(s, t);
    case ReleaseLock(t) => ReleaseLockKeeps(s, t);
    case Connect(c) => ConnectKeeps(s, c);
    case Reconnect(was, c) => ReconnectKeeps(s, was, c);
    case OfSession(c, e) => OfSessionKeeps(s, c, e);
    case OtherAdd(_) => OtherListKeeps(s, step);
    case OtherRemove(_) => OtherListKeeps(s, step);
    case OtherNotify(i) => OtherNotifyKeeps(s, i);
  }

  lemma {:induction false} InvOverRuns(states: seq<State>, steps: seq<Step>, i: nat)
    requires IsRun(states, steps) && i < |states|
    ensures Inv(states[i])
  {
    if i > 0 {
      InvOverRuns(states, steps, i - 1);
      StepKeeps(states[i - 1], steps[i - 1]);
    }
  }
}
