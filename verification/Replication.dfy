/**
 What the protocol guarantees in every run: no change goes unnoticed, a session starts with
 one snapshot of the collection, and a peer that has drained its connection holds what is
 published.
 */
module Replication {
  import opened Prelude
  import opened Collection
  import opened Updaters
  import opened Protocol
  import Session

  /**
   No lost update: whenever a server has taken its snapshot and is heading for its wait or
   is blocked in it, and the collection is not what it last sent, or it is about to block
   without having announced a restart, then a token is in its channel or some publisher is
   between its change and its visit to this connection's entry, which is in the list.
   */
  lemma NoLostUpdate(states: seq<State>, steps: seq<Step>, i: nat, c: Channel)
    requires IsRun(states, steps) && i < |states|
    requires c in states[i].sessions
    requires var x := states[i].sessions[c];
             || (Session.AfterSnapshot(x.pc) && states[i].items != x.sendToPeer)
             || (x.pc.Waiting? && states[i].restarted && !x.sentRestarted)
    ensures Entry(states[i], c) in states[i].servers
    ensures c in states[i].full || exists t :: Owes(states[i], t, c)
  {
    InvOverRuns(states, steps, i);
    assert Behind(states[i], c);
  }

  /** A connection whose channel is in the list when it leaves is always found there. */
  lemma RemovalFindsItsChannel(states: seq<State>, steps: seq<Step>, i: nat, c: Channel)
    requires IsRun(states, steps) && i < |steps|
    requires steps[i] == OfSession(c, Session.Leave)
    ensures exists j :: 0 <= j < |states[i].servers| && states[i].servers[j].ch == Some(c)
  {
    InvOverRuns(states, steps, i);
    var j :| 0 <= j < |states[i].servers| && states[i].servers[j] == Entry(states[i], c);
  }

  /**
   Replication: while the server has not given up, processing all that is pending would
   bring the peer to the server's view, laid over what the peer held when the session
   began; for a peer that began empty that is the view itself.
   */
  lemma PendingLeadsToView(states: seq<State>, steps: seq<Step>, i: nat, c: Channel)
    requires IsRun(states, steps) && i < |states|
    requires c in states[i].sessions && Session.Live(states[i].sessions[c].pc)
    ensures var x := states[i].sessions[c];
            && ApplyAll(x.peer.items, Session.Pending(x)) == Overlay(x.base, x.seen, x.sendToPeer)
            && (x.base == map[] ==> ApplyAll(x.peer.items, Session.Pending(x)) == x.sendToPeer)
  {
    InvOverRuns(states, steps, i);
    var x := states[i].sessions[c];
    assert Session.CatchesUp(Session.LinkOf(x), Session.Pending(x));
    assert x.base == map[] ==> Overlay(x.base, x.seen, x.sendToPeer) == x.sendToPeer;
  }

  /** Nothing is on its way to the peer: the server is blocked and no token is due. */
  ghost predicate Drained(s: State, c: Channel) {
    && c in s.sessions
    && s.sessions[c].pc.Waiting?
    && Session.Pending(s.sessions[c]) == []
    && !Due(s, c)
  }

  /**
   The peer agrees with the publication: on every published key it has the published
   value, every other key it has is one it held when it connected and that no snapshot of
   this session ever contained, and it knows of a restart.
   */
  ghost predicate Agreement(s: State, c: Channel)
    requires c in s.sessions
  {
    var x := s.sessions[c];
    && (forall k :: k in s.items ==> k in x.peer.items && x.peer.items[k] == s.items[k])
    && (forall k :: k in x.peer.items && k !in s.items ==>
          k in x.base && x.peer.items[k] == x.base[k] && k !in x.seen)
    && (x.base == map[] ==> x.peer.items == s.items)
    && (s.restarted ==> x.peer.restarted)
  }

  lemma DrainedAgrees(s: State, c: Channel)
    requires Inv(s) && Drained(s, c)
    ensures Agreement(s, c)
  {
    var x := s.sessions[c];
    assert !Behind(s, c);
    var l := Session.LinkOf(x);
    assert Session.CatchesUp(l, []) && Session.RestartArrives(l, []);
    assert x.peer.items == Overlay(x.base, x.seen, s.items);
    assert x.base == map[] ==> Overlay(x.base, x.seen, s.items) == s.items;
  }

  /** In every run, a drained connection leaves its peer in agreement. */
  lemma Replicates(states: seq<State>, steps: seq<Step>, i: nat, c: Channel)
    requires IsRun(states, steps) && i < |states|
    requires Drained(states[i], c)
    ensures Agreement(states[i], c)
  {
    InvOverRuns(states, steps, i);
    DrainedAgrees(states[i], c);
  }

  // ---------- how a session starts ----------

  /** A step that gives a session its first snapshot takes the collection of that moment. */
  lemma FirstFromStep(s: State, step: Step, c: Channel)
    requires Enabled(s, step)
    requires c in Next(s, step).sessions && Next(s, step).sessions[c].first.Some?
    ensures c in s.sessions
    ensures var first := Next(s, step).sessions[c].first;
            s.sessions[c].first == first || s.items == first.value
  {
    match step
    case OfSession(d, e) =>
      if d == c {
        var x := s.sessions[c];
        assert Next(s, step).sessions[c] == Session.Next(x, e);
        assert e.Snapshot? || Session.Next(x, e).first == x.first;
      }
    case _ =>
  }

  /** The first snapshot of a session is the whole collection at one moment of the session. */
  lemma {:induction false} FirstIsPast(states: seq<State>, steps: seq<Step>, i: nat, c: Channel)
      returns (j: nat)
    requires IsRun(states, steps) && i < |states|
    requires c in states[i].sessions && states[i].sessions[c].first.Some?
    ensures j < i && c in states[j].sessions
    ensures states[j].items == states[i].sessions[c].first.value
  {
    FirstFromStep(states[i - 1], steps[i - 1], c);
    if states[i - 1].sessions[c].first == states[i].sessions[c].first {
      j := FirstIsPast(states, steps, i - 1, c);
    } else {
      j := i - 1;
    }
  }

  lemma AfterComplete(s: State, c: Channel)
    requires Enabled(s, OfSession(c, Session.Process)) && s.sessions[c].slot == [Complete]
    ensures var x, y := s.sessions[c], Next(s, OfSession(c, Session.Process)).sessions[c];
            y.peer.synchronized && y.peer.items == x.peer.items && y.base == x.base
  {
  }

  /**
   When a peer processes "complete" it holds exactly the collection as it was at one
   earlier moment of this session, laid over what it held when it connected; a fresh peer
   holds exactly that snapshot.
   */
  lemma CompleteMeansOneSnapshot(states: seq<State>, steps: seq<Step>, i: nat, c: Channel)
      returns (j: nat)
    requires IsRun(states, steps) && i < |steps|
    requires steps[i] == OfSession(c, Session.Process)
    requires states[i].sessions[c].slot == [Complete]
    ensures j < i && c in states[j].sessions
    ensures var x, snapshot := states[i + 1].sessions[c], states[j].items;
            && x.peer.synchronized
            && x.peer.items == Overlay(x.base, snapshot.Keys, snapshot)
            && (x.base == map[] ==> x.peer.items == snapshot)
  {
    InvOverRuns(states, steps, i);
    var x := states[i].sessions[c];
    Session.AtComplete(x);
    AfterComplete(states[i], c);
    j := FirstIsPast(states, steps, i, c);
    var snapshot := states[j].items;
    assert x.base == map[] ==> Overlay(x.base, snapshot.Keys, snapshot) == snapshot;
  }
}
