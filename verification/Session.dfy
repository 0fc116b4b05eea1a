/**
 One session between the goroutine that serves a connection and the subscription at its
 other end, as a state machine over the steps the two take. The socket is a reliable FIFO;
 either end may stop at any moment.
 */
module Session {
  import opened Prelude
  import opened Collection

  /** Where the goroutine that serves the connection is. */
  datatype ServerPc =
    | Accepted                                  // the request has been read
    | Greeted                                   // hello is written, no channel is in the list yet
    | Registered                                // about to take a snapshot
    | Sending(keys: seq<Key>, initial: bool)    // snapshot taken, these keys are not yet written
    | CheckingRestart                           // about to look at the publication's restarted flag
    | SendingRestart                            // saw it set for the first time
    | Waiting                                   // blocked on its channel, or about to be
    | Leaving                                   // a write failed; the channel is still in the list
    | Closed

  /** The subscription; it survives the session and is carried over by a reconnect. */
  datatype Peer = Peer(items: Items, restarted: bool, synchronized: bool)

  datatype State = State(
    pc: ServerPc,
    sendToPeer: Items,
    sentRestarted: bool,
    wire: seq<Message>,         // written to the socket and not yet read
    slot: seq<Message>,         // read from the socket and not yet processed: at most one
    attached: bool,             // the subscription still reads from this connection
    peer: Peer,
    // History: what the peer held when the session began, the keys of all snapshots taken so
    // far, the first of these snapshots, and whether the peer has processed "complete".
    base: Items,
    seen: set<Key>,
    first: Option<Items>,
    completed: bool)

  datatype Event =
    | Greet
    | Register
    | Snapshot(items: Items, keys: seq<Key>)
    | Send
    | CheckRestart(restarted: bool)
    | SendRestart
    | Consume
    | Fail
    | Leave
    | Read
    | Process
    | Detach

  function Start(peer: Peer): State {
    State(Accepted, map[], false, [], [], true, peer, peer.items, {}, None, false)
  }

  /** The connection's channel is in the notification list. */
  predicate InList(pc: ServerPc) {
    !pc.Accepted? && !pc.Greeted? && !pc.Closed?
  }

  /** The server has not given up on the connection. */
  predicate Live(pc: ServerPc) {
    !pc.Leaving? && !pc.Closed?
  }

  /** The server has taken a snapshot and is heading for its wait, or is at it. */
  predicate AfterSnapshot(pc: ServerPc) {
    pc.Sending? || pc.CheckingRestart? || pc.SendingRestart? || pc.Waiting?
  }

  /** The peer after it has processed `msg`. */
  function Receive(p: Peer, msg: Message): Peer {
    Peer(Apply(p.items, msg), p.restarted || msg.Restarted?, p.synchronized || msg.Complete?)
  }

  ghost predicate Enabled(x: State, e: Event) {
    match e
    case Greet => x.pc.Accepted?
    case Register => x.pc.Greeted?
    case Snapshot(items, keys) => x.pc.Registered? && IsDiff(x.sendToPeer, items, keys)
    case Send => x.pc.Sending?
    case CheckRestart(_) => x.pc.CheckingRestart?
    case SendRestart => x.pc.SendingRestart?
    case Consume => x.pc.Waiting?
    case Fail => x.pc.Accepted? || x.pc.Sending? || x.pc.SendingRestart?
    case Leave => x.pc.Leaving?
    case Read => x.attached && x.slot == [] && x.wire != []
    case Process => x.attached && x.slot != []
    case Detach => x.attached && x.slot == []
  }

  ghost function Next(x: State, e: Event): State
    requires Enabled(x, e)
  {
    match e
    case Greet => x.(pc := Greeted, wire := x.wire + [Hello])
    case Register => x.(pc := Registered)
    case Snapshot(items, keys) =>
      x.(pc := Sending(keys, x.first.None?),
         sendToPeer := items,
         seen := x.seen + items.Keys,
         first := if x.first.None? then Some(items) else x.first)
    case Send =>
      var keys, initial := x.pc.keys, x.pc.initial;
      if keys != [] then
        x.(pc := Sending(keys[1..], initial), wire := x.wire + [MessageFor(keys[0], x.sendToPeer)])
      else
        x.(pc := CheckingRestart, wire := x.wire + if initial then [Complete] else [])
    case CheckRestart(restarted) =>
      x.(pc := if restarted && !x.sentRestarted then SendingRestart else Waiting)
    case SendRestart => x.(pc := Waiting, wire := x.wire + [Restarted], sentRestarted := true)
    case Consume => x.(pc := Registered)
    case Fail => x.(pc := if InList(x.pc) then Leaving else Closed)
    case Leave => x.(pc := Closed)
    case Read => x.(slot := [x.wire[0]], wire := x.wire[1..])
    case Process =>
      var msg := x.slot[0];
      x.(slot := x.slot[1..],
         peer := Receive(x.peer, msg),
         completed := x.completed || msg.Complete?)
    case Detach => x.(attached := false)
  }

  /** What the server is committed to writing before it looks at the collection again. */
  function Unsent(x: State): seq<Message> {
    match x.pc
    case Sending(keys, initial) => Messages(keys, x.sendToPeer) + if initial then [Complete] else []
    case SendingRestart => [Restarted]
    case _ => []
  }

  /** Everything the peer has yet to process, in order. */
  function Pending(x: State): seq<Message> {
    x.slot + x.wire + Unsent(x)
  }

  /** The messages ahead of the first "complete". */
  function UpToComplete(msgs: seq<Message>): seq<Message> {
    if msgs == [] || msgs[0].Complete? then [] else [msgs[0]] + UpToComplete(msgs[1..])
  }

  /**
   What the invariant says about a session, apart from how the pending messages are spread
   over the server, the socket and the slot.
   */
  datatype Link = Link(
    live: bool, peer: Peer, base: Items, seen: set<Key>, view: Items,
    first: Option<Items>, completed: bool, announced: bool)

  function LinkOf(x: State): Link {
    Link(Live(x.pc), x.peer, x.base, x.seen, x.sendToPeer, x.first, x.completed,
         x.sentRestarted || x.pc.SendingRestart?)
  }

  /** Applying all that is pending brings the peer to the server's current view. */
  ghost predicate CatchesUp(l: Link, q: seq<Message>) {
    && l.view.Keys <= l.seen
    && (l.first.None? ==> l.view == map[] && l.seen == {} && !l.completed)
    && (l.live ==> ApplyAll(l.peer.items, q) == Overlay(l.base, l.seen, l.view))
  }

  /** "complete" is pending at most once, and reaches a peer that holds the first snapshot. */
  ghost predicate StartsWithSnapshot(l: Link, q: seq<Message>) {
    && (forall i, j :: 0 <= i < j < |q| ==> !(q[i].Complete? && q[j].Complete?))
    && (Complete in q ==>
          && l.first.Some?
          && !l.completed
          && ApplyAll(l.peer.items, UpToComplete(q))
             == Overlay(l.base, l.first.value.Keys, l.first.value))
    && (l.live && l.first.Some? && !l.completed ==> Complete in q)
  }

  /** A restart that was announced is pending or has been noticed. */
  ghost predicate RestartArrives(l: Link, q: seq<Message>) {
    l.live && l.announced ==> l.peer.restarted || Restarted in q
  }

  ghost predicate LinkInv(l: Link, q: seq<Message>) {
    CatchesUp(l, q) && StartsWithSnapshot(l, q) && RestartArrives(l, q)
  }

  ghost predicate Inv(x: State) {
    && |x.slot| <= 1
    && (x.pc.Accepted? || x.pc.Greeted? ==> x.first.None?)
    && (AfterSnapshot(x.pc) ==> x.first.Some?)
    && LinkInv(LinkOf(x), Pending(x))
  }

  lemma StartInv(peer: Peer)
    ensures Inv(Start(peer))
  {
    assert Pending(Start(peer)) == [];
  }

  lemma {:induction false} UpToCompleteConcat(a: seq<Message>, b: seq<Message>)
    ensures Complete in a ==> UpToComplete(a + b) == UpToComplete(a)
    ensures Complete !in a ==> UpToComplete(a + b) == a + UpToComplete(b)
  {
    if a == [] {
      assert a + b == b;
    } else {
      assert (a + b)[1..] == a[1..] + b;
      UpToCompleteConcat(a[1..], b);
      assert a == [a[0]] + a[1..];
    }
  }

  /** A message that does not touch the collection is queued. */
  lemma QueueNotice(l: Link, q: seq<Message>, msg: Message)
    requires LinkInv(l, q)
    requires msg.Hello? || msg.Restarted?
    ensures LinkInv(l, q + [msg])
    ensures msg.Restarted? ==> LinkInv(l.(announced := true), q + [msg])
  {
    UpToCompleteConcat(q, [msg]);
    ApplyAllConcat(l.peer.items, q, [msg]);
    var m := ApplyAll(l.peer.items, q);
    assert ApplyAll(m, [msg]) == ApplyAll(Apply(m, msg), []) == m;
    assert Complete in q + [msg] <==> Complete in q;
  }

  /** The messages for a later snapshot are queued. */
  lemma QueueDiff(l: Link, q: seq<Message>, items: Items, keys: seq<Key>)
    requires LinkInv(l, q) && l.first.Some?
    requires IsDiff(l.view, items, keys)
    ensures LinkInv(l.(view := items, seen := l.seen + items.Keys), q + Messages(keys, items))
  {
    var msgs := Messages(keys, items);
    assert Complete !in msgs;
    DiffCatchesUp(l.base, l.seen, l.view, items, keys);
    UpToCompleteConcat(q, msgs);
    ApplyAllConcat(l.peer.items, q, msgs);
    assert Complete in q + msgs <==> Complete in q;
    assert Restarted in q ==> Restarted in q + msgs;
  }

  /** The messages for the first snapshot are queued, with "complete" behind them. */
  lemma QueueFirst(l: Link, q: seq<Message>, items: Items, keys: seq<Key>)
    requires LinkInv(l, q) && l.live && l.first.None?
    requires IsDiff(l.view, items, keys)
    ensures LinkInv(l.(view := items, seen := l.seen + items.Keys, first := Some(items)),
                    q + (Messages(keys, items) + [Complete]))
  {
    var msgs := Messages(keys, items);
    assert Complete !in msgs && Complete !in q;
    var head := q + msgs;
    assert l.seen + items.Keys == items.Keys;
    assert q + (msgs + [Complete]) == head + [Complete];
    DiffCatchesUp(l.base, l.seen, l.view, items, keys);
    ApplyAllConcat(l.peer.items, q, msgs);
    ApplyAllConcat(l.peer.items, head, [Complete]);
    UpToCompleteConcat(head, [Complete]);
    assert UpToComplete([Complete]) == [] && head + [] == head;
    var m := ApplyAll(l.peer.items, head);
    assert ApplyAll(m, [Complete]) == ApplyAll(Apply(m, Complete), []) == m;
    assert Restarted in q ==> Restarted in head + [Complete];
  }

  /** The peer processes the first of the pending messages. */
  lemma Dequeue(l: Link, msg: Message, q: seq<Message>)
    requires LinkInv(l, [msg] + q)
    ensures LinkInv(l.(peer := Receive(l.peer, msg), completed := l.completed || msg.Complete?), q)
  {
    var full := [msg] + q;
    assert full[0] == msg && full[1..] == q;
    assert forall i :: 0 <= i < |q| ==> q[i] == full[i + 1];
    assert Complete in q ==> Complete in full;
    assert Restarted in full ==> msg.Restarted? || Restarted in q;
  }

  /** The server gives up and what it had yet to write is lost. */
  lemma Truncate(l: Link, q: seq<Message>, lost: seq<Message>)
    requires LinkInv(l, q + lost)
    ensures LinkInv(l.(live := false), q)
    ensures LinkInv(l.(live := false, announced := false), q)
  {
    UpToCompleteConcat(q, lost);
    assert Complete in q ==> Complete in q + lost;
    assert forall i :: 0 <= i < |q| ==> q[i] == (q + lost)[i];
  }

  lemma Repack(slot: seq<Message>, wire: seq<Message>, now: seq<Message>, later: seq<Message>)
    ensures slot + wire + (now + later) == slot + (wire + now) + later
  {
  }

  /** A step that leaves what is pending, and what the invariant says of it, as they were. */
  lemma SameLinkKeeps(x: State, y: State)
    requires Inv(x) && |y.slot| <= 1
    requires y.pc.Accepted? || y.pc.Greeted? ==> y.first.None?
    requires AfterSnapshot(y.pc) ==> y.first.Some?
    requires LinkOf(y) == LinkOf(x) && Pending(y) == Pending(x)
    ensures Inv(y)
  {
  }

  lemma UnsentHead(keys: seq<Key>, view: Items, tail: seq<Message>)
    requires keys != []
    ensures Messages(keys, view) + tail == [MessageFor(keys[0], view)] + (Messages(keys[1..], view) + tail)
  {
    assert Messages(keys, view) == [MessageFor(keys[0], view)] + Messages(keys[1..], view);
  }

  /** Writing a message moves it from the server to the socket; nothing else is pending. */
  lemma SendMoves(x: State)
    requires x.pc.Sending? && x.pc.keys != []
    ensures Pending(Next(x, Send)) == Pending(x)
  {
    UnsentHead(x.pc.keys, x.sendToPeer, if x.pc.initial then [Complete] else []);
    Repack(x.slot, x.wire, [MessageFor(x.pc.keys[0], x.sendToPeer)], Unsent(Next(x, Send)));
  }

  lemma LastSendMoves(x: State)
    requires x.pc.Sending? && x.pc.keys == []
    ensures Pending(Next(x, Send)) == Pending(x)
  {
    Repack(x.slot, x.wire, Unsent(x), []);
    assert Unsent(x) == Unsent(x) + [];
  }

  lemma SendIsQuiet(x: State)
    requires Enabled(x, Send)
    ensures var y := Next(x, Send);
            LinkOf(y) == LinkOf(x) && y.slot == x.slot && AfterSnapshot(x.pc) && AfterSnapshot(y.pc)
  {
  }

  lemma SendKeeps(x: State)
    requires Inv(x) && Enabled(x, Send)
    ensures Inv(Next(x, Send))
  {
    if x.pc.keys == [] { LastSendMoves(x); } else { SendMoves(x); }
    SendIsQuiet(x);
    SameLinkKeeps(x, Next(x, Send));
  }

  lemma SendRestartKeeps(x: State)
    requires Inv(x) && Enabled(x, SendRestart)
    ensures Inv(Next(x, SendRestart))
  {
    Repack(x.slot, x.wire, [Restarted], []);
    assert [Restarted] + [] == [Restarted];
    SameLinkKeeps(x, Next(x, SendRestart));
  }

  lemma ReadKeeps(x: State)
    requires Inv(x) && Enabled(x, Read)
    ensures Inv(Next(x, Read))
  {
    assert x.slot + x.wire == [x.wire[0]] + x.wire[1..];
    SameLinkKeeps(x, Next(x, Read));
  }

  lemma QuietKeeps(x: State, e: Event)
    requires Inv(x) && Enabled(x, e)
    requires e.Register? || e.Consume? || e.Leave? || e.Detach?
    ensures Inv(Next(x, e))
  {
    SameLinkKeeps(x, Next(x, e));
  }

  lemma SnapshotKeeps(x: State, items: Items, keys: seq<Key>)
    requires Inv(x) && Enabled(x, Snapshot(items, keys))
    ensures Inv(Next(x, Snapshot(items, keys)))
  {
    var y, l := Next(x, Snapshot(items, keys)), LinkOf(x);
    assert Pending(x) == x.slot + x.wire;
    if x.first.Some? {
      assert Pending(y) == Pending(x) + Messages(keys, items);
      QueueDiff(l, Pending(x), items, keys);
    } else {
      assert Pending(y) == Pending(x) + (Messages(keys, items) + [Complete]);
      QueueFirst(l, Pending(x), items, keys);
    }
  }

  lemma CheckRestartKeeps(x: State, restarted: bool)
    requires Inv(x) && Enabled(x, CheckRestart(restarted))
    ensures Inv(Next(x, CheckRestart(restarted)))
  {
    var y := Next(x, CheckRestart(restarted));
    if y.pc.SendingRestart? {
      assert Pending(y) == Pending(x) + [Restarted];
      QueueNotice(LinkOf(x), Pending(x), Restarted);
    } else {
      assert Pending(y) == Pending(x);
    }
  }

  lemma GreetKeeps(x: State)
    requires Inv(x) && Enabled(x, Greet)
    ensures Inv(Next(x, Greet))
  {
    assert Pending(Next(x, Greet)) == Pending(x) + [Hello];
    QueueNotice(LinkOf(x), Pending(x), Hello);
  }

  lemma ProcessTakes(x: State)
    requires Enabled(x, Process)
    ensures Pending(x) == [x.slot[0]] + Pending(Next(x, Process))
  {
    assert x.slot == [x.slot[0]] + x.slot[1..];
  }

  lemma ProcessKeeps(x: State)
    requires Inv(x) && Enabled(x, Process)
    ensures Inv(Next(x, Process))
  {
    var y := Next(x, Process);
    ProcessTakes(x);
    Dequeue(LinkOf(x), x.slot[0], Pending(y));
  }

  lemma FailKeeps(x: State)
    requires Inv(x) && Enabled(x, Fail)
    ensures Inv(Next(x, Fail))
  {
    var y := Next(x, Fail);
    assert Pending(y) == x.slot + x.wire;
    assert Pending(x) == Pending(y) + Unsent(x);
    Truncate(LinkOf(x), Pending(y), Unsent(x));
  }

  /** A peer about to process "complete" holds the first snapshot over what it began with. */
  lemma AtComplete(x: State)
    requires Inv(x) && x.slot == [Complete]
    ensures x.first.Some?
    ensures x.peer.items == Overlay(x.base, x.first.value.Keys, x.first.value)
  {
    var q := Pending(x);
    assert q[0] == Complete;
    assert UpToComplete(q) == [];
  }

  /** No step of a session, whatever it observes of the publication, breaks the invariant. */
  lemma StepKeeps(x: State, e: Event)
    requires Inv(x) && Enabled(x, e)
    ensures Inv(Next(x, e))
  {
    match e
    case Greet => GreetKeeps(x);
    case Snapshot(items, keys) => SnapshotKeeps(x, items, keys);
    case Send => SendKeeps(x);
    case CheckRestart(restarted) => CheckRestartKeeps(x, restarted);
    case SendRestart => SendRestartKeeps(x);
    case Read => ReadKeeps(x);
    case Process => ProcessKeeps(x);
    case Fail => FailKeeps(x);
    case _ => QuietKeeps(x, e);
  }
}
