/**
 The process-wide list of notification channels. Each connection that serves a subscriber
 adds a one-slot channel; a publisher puts a token in every channel that carries its
 publication's name and whose slot is free.
 */
module Updaters {
  import opened Prelude

  /** A channel is named by a number; the list's zero value holds no channel. */
  type Channel = nat

  datatype NotifyName = NotifyName(name: string, instance: nat, ch: Option<Channel>)

  const ZERO_ENTRY := NotifyName("", 0, None)

  /** The entries that do not carry the channel `ch`, in order. */
  function Without(servers: seq<NotifyName>, ch: Channel): seq<NotifyName> {
    if servers == [] then []
    else if servers[0].ch == Some(ch) then Without(servers[1..], ch)
    else [servers[0]] + Without(servers[1..], ch)
  }

  /**
   The list after a removal. The new list is made with as many zero entries as the old list
   had elements, and the entries that stay are appended behind them.
   */
  function Removed(servers: seq<NotifyName>, ch: Channel): seq<NotifyName> {
    seq(|servers|, _ => ZERO_ENTRY) + Without(servers, ch)
  }

  /** The channels that a notification for `name` reaches among `servers`. */
  function Matching(servers: seq<NotifyName>, name: string): set<Channel> {
    set nn | nn in servers && nn.name == name && nn.ch.Some? :: nn.ch.value
  }

  lemma {:induction false} WithoutMember(servers: seq<NotifyName>, ch: Channel, nn: NotifyName)
    ensures nn in Without(servers, ch) <==> nn in servers && nn.ch != Some(ch)
  {
    if servers != [] {
      WithoutMember(servers[1..], ch, nn);
      assert servers == [servers[0]] + servers[1..];
    }
  }

  lemma {:induction false} WithoutConcat(a: seq<NotifyName>, b: seq<NotifyName>, ch: Channel)
    ensures Without(a + b, ch) == Without(a, ch) + Without(b, ch)
  {
    if a == [] {
      assert a + b == b;
    } else {
      assert (a + b)[1..] == a[1..] + b;
      WithoutConcat(a[1..], b, ch);
    }
  }

  /**
   Removing one channel takes away that channel's entries and no other connection's, in
   spite of the zero entries it adds: they carry no channel, so no notification, whatever
   its name, reaches one channel more or less than before.
   */
  lemma RemovalKeepsOthers(servers: seq<NotifyName>, ch: Channel)
    ensures forall nn: NotifyName :: nn.ch.Some? ==>
      (nn in Removed(servers, ch) <==> nn in servers && nn.ch != Some(ch))
    ensures forall name, other | other != ch ::
      other in Matching(Removed(servers, ch), name) <==> other in Matching(servers, name)
    ensures |Removed(servers, ch)| == |servers| + |Without(servers, ch)|
  {
    forall nn: NotifyName | nn.ch.Some?
      ensures nn in Removed(servers, ch) <==> nn in servers && nn.ch != Some(ch)
    {
      WithoutMember(servers, ch, nn);
    }
  }

  /** A registration is reached by exactly its own name; every other channel as before. */
  lemma AdditionReaches(servers: seq<NotifyName>, nn: NotifyName, name: string)
    requires nn.ch.Some?
    ensures Matching(servers + [nn], name) ==
            Matching(servers, name) + if nn.name == name then {nn.ch.value} else {}
  {
  }

  /** Removing a channel undoes its registration: every name reaches the channels it reached. */
  lemma RemovalUndoesAddition(servers: seq<NotifyName>, nn: NotifyName, name: string)
    requires nn.ch.Some? && forall i :: 0 <= i < |servers| ==> servers[i].ch != nn.ch
    ensures Matching(Removed(servers + [nn], nn.ch.value), name) == Matching(servers, name)
  {
    var ch := nn.ch.value;
    AdditionReaches(servers, nn, name);
    RemovalKeepsOthers(servers + [nn], ch);
    forall other ensures other in Matching(Removed(servers + [nn], ch), name) <==> other in Matching(servers, name) {
      if other == ch {
        assert forall x: NotifyName :: x in Removed(servers + [nn], ch) ==> x.ch != Some(ch);
      }
    }
  }

  class List {
    var servers: seq<NotifyName>
    /** The channels whose slot holds a token. */
    var full: set<Channel>

    constructor ()
      ensures servers == [] && full == {}
    {
      servers, full := [], {};
    }

    method Add(updater: Channel, name: string, instance: nat)
      modifies this`servers
      ensures servers == old(servers) + [NotifyName(name, instance, Some(updater))]
      ensures forall n :: Matching(servers, n) == old(Matching(servers, n)) + if n == name then {updater} else {}
    {
      forall n
        ensures Matching(servers + [NotifyName(name, instance, Some(updater))], n) ==
                Matching(servers, n) + if n == name then {updater} else {}
      {
        AdditionReaches(servers, NotifyName(name, instance, Some(updater)), n);
      }
      servers := servers + [NotifyName(name, instance, Some(updater))];
    }

    /** `found` is false where the source gives up with a fatal error. */
    method Remove(updater: Channel) returns (found: bool)
      modifies this`servers
      ensures found <==> exists i :: 0 <= i < |old(servers)| && old(servers)[i].ch == Some(updater)
      ensures servers == if found then Removed(old(servers), updater) else old(servers)
    {
      var kept := seq(|servers|, _ => ZERO_ENTRY);
      found := false;
      for i := 0 to |servers|
        invariant servers == old(servers)
        invariant kept == seq(|servers|, _ => ZERO_ENTRY) + Without(servers[..i], updater)
        invariant found <==> exists j :: 0 <= j < i && servers[j].ch == Some(updater)
      {
        WithoutConcat(servers[..i], [servers[i]], updater);
        assert servers[..i + 1] == servers[..i] + [servers[i]];
        if servers[i].ch == Some(updater) {
          found := true;
        } else {
          kept := kept + [servers[i]];
        }
      }
      assert servers[..|servers|] == servers;
      if !found { return; }
      servers := kept;
    }

    /** Puts a token in each matching channel that has none; the others keep theirs. */
    method Notify(name: string)
      modifies this`full
      ensures full == old(full) + Matching(servers, name)
    {
      for i := 0 to |servers|
        invariant full == old(full) + Matching(servers[..i], name)
      {
        assert servers[..i + 1] == servers[..i] + [servers[i]];
        var nn := servers[i];
        if nn.name == name && nn.ch.Some? && nn.ch.value !in full {
          full := full + {nn.ch.value};
        }
      }
      assert servers[..|servers|] == servers;
    }
  }
}
