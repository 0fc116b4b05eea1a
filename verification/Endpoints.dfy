/**
 The sequential code at the two ends of a connection: how a server computes and sends the
 changes to a peer, and how a subscription applies what it receives.
 */
module Endpoints {
  import opened Prelude
  import opened Collection

  /** The local state of one goroutine that serves a connection. */
  class Server {
    var sendToPeer: Items
    /** What has been written to the socket. */
    var sock: seq<Message>

    constructor ()
      ensures sendToPeer == map[] && sock == []
    {
      sendToPeer, sock := map[], [];
    }

    method LookupSlave(key: Key) returns (res: Option<Value>)
      ensures res == if key in sendToPeer then Some(sendToPeer[key]) else None
    {
      var todo := sendToPeer.Keys;
      while todo != {}
        invariant todo <= sendToPeer.Keys
        invariant key in sendToPeer ==> key in todo
        decreases |todo|
      {
        var slaveKey :| slaveKey in todo;
        if slaveKey == key {
          return Some(sendToPeer[slaveKey]);
        }
        todo := todo - {slaveKey};
      }
      return None;
    }

    /** The first loop of DetermineDiffs: drops what is no longer published. */
    method DropDeleted(items: Items) returns (keys: seq<Key>)
      modifies this`sendToPeer
      ensures sendToPeer == map k | k in old(sendToPeer) && k in items :: old(sendToPeer)[k]
      ensures Distinct(keys)
      ensures forall k :: k in keys <==> k in old(sendToPeer) && k !in items
    {
      keys := [];
      ghost var before := sendToPeer;
      var todo := sendToPeer.Keys;
      while todo != {}
        invariant todo <= sendToPeer.Keys <= before.Keys
        invariant forall k :: k in sendToPeer ==> sendToPeer[k] == before[k]
        invariant forall k :: k in sendToPeer && k !in todo ==> k in items
        invariant forall k :: k in keys <==> k in before && k !in sendToPeer
        invariant forall k :: k in keys ==> k !in items
        invariant Distinct(keys)
        decreases |todo|
      {
        var slaveKey :| slaveKey in todo;
        todo := todo - {slaveKey};
        if slaveKey !in items {
          sendToPeer := sendToPeer - {slaveKey};
          keys := keys + [slaveKey];
        }
      }
    }

    /** The second loop of DetermineDiffs: takes over what is new or has changed. */
    method TakeChanged(items: Items) returns (keys: seq<Key>)
      requires sendToPeer.Keys <= items.Keys
      modifies this`sendToPeer
      ensures sendToPeer == items
      ensures Distinct(keys)
      ensures forall k :: k in keys <==> k in items && !SameAt(old(sendToPeer), items, k)
    {
      keys := [];
      ghost var before := sendToPeer;
      var todo := items.Keys;
      while todo != {}
        invariant todo <= items.Keys && sendToPeer.Keys <= items.Keys
        invariant forall k :: k in todo ==> SameAt(sendToPeer, before, k)
        invariant forall k :: k in items && k !in todo ==> SameAt(sendToPeer, items, k)
        invariant forall k :: k in keys <==> k in items && k !in todo && !SameAt(before, items, k)
        invariant Distinct(keys)
        decreases |todo|
      {
        var masterKey :| masterKey in todo;
        var master := items[masterKey];
        todo := todo - {masterKey};
        var slave := LookupSlave(masterKey);
        if slave.None? || master != slave.value {
          sendToPeer := sendToPeer[masterKey := master];
          keys := keys + [masterKey];
        }
      }
      assert forall k :: k in items ==> SameAt(sendToPeer, items, k);
    }

    /**
     Moves the local view to `items`, a snapshot of the published collection, and lists the
     keys that changed. The order within the deleted and within the other keys is left
     open, as is the order in which a map is walked.
     */
    method DetermineDiffs(items: Items) returns (keys: seq<Key>)
      modifies this`sendToPeer
      ensures sendToPeer == items
      ensures IsDiff(old(sendToPeer), items, keys)
    {
      var deleted := DropDeleted(items);
      var changed := TakeChanged(items);
      keys := deleted + changed;
      forall i, j | 0 <= i < j < |keys| ensures keys[i] != keys[j] {
        if i < |deleted| <= j {
          assert keys[i] in deleted && keys[j] in changed;
        }
      }
    }

    method Serialize(keys: seq<Key>)
      modifies this`sock
      ensures sock == old(sock) + Messages(keys, sendToPeer)
    {
      for i := 0 to |keys|
        invariant sock == old(sock) + Messages(keys[..i], sendToPeer)
      {
        if keys[i] in sendToPeer {
          sock := sock + [Update(keys[i], sendToPeer[keys[i]])];
        } else {
          sock := sock + [Delete(keys[i])];
        }
        assert Messages(keys[..i + 1], sendToPeer)
            == Messages(keys[..i], sendToPeer) + [MessageFor(keys[i], sendToPeer)];
      }
      assert keys[..|keys|] == keys;
    }
  }

  /** The subscriber's side; handlers the user registers are not modelled. */
  class Subscription {
    var items: Items
    var restarted: bool
    var synchronized: bool

    constructor ()
      ensures items == map[] && !restarted && !synchronized
    {
      items, restarted, synchronized := map[], false, false;
    }

    method HandleModify(key: Key, item: Value)
      modifies this`items
      ensures items == old(items)[key := item]
    {
      if key in items && items[key] == item {
        assert items == items[key := item];
        return;
      }
      items := items[key := item];
    }

    method HandleDelete(key: Key)
      modifies this`items
      ensures items == old(items) - {key}
    {
      if key !in items { return; }
      items := items - {key};
    }

    method ProcessChange(change: Message)
      modifies this
      ensures items == Apply(old(items), change)
      ensures restarted == (old(restarted) || change.Restarted?)
      ensures synchronized == (old(synchronized) || change.Complete?)
    {
      match change
      case Hello =>
      case Complete => synchronized := true;
      case Restarted => restarted := true;
      case Delete(key) => HandleDelete(key);
      case Update(key, val) => HandleModify(key, val);
    }
  }
}
