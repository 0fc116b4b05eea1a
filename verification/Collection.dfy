/**
 The key/value collection that a publication replicates to its subscribers, the messages
 that travel over a connection, and what a subscriber's collection becomes when it applies
 them.
 */
module Collection {
  import opened Prelude

  type Key = seq<byte>

  /** The JSON text of a published item; two items are equal when their texts are. */
  type Value = seq<byte>

  type Items = map<Key, Value>

  /** What the server writes to a connection. */
  datatype Message =
    | Hello
    | Update(key: Key, val: Value)
    | Delete(key: Key)
    | Complete
    | Restarted

  /** The subscriber's collection after it has processed `msg`. */
  function Apply(m: Items, msg: Message): Items {
    match msg
    case Update(k, v) => m[k := v]
    case Delete(k) => m - {k}
    case Hello => m
    case Complete => m
    case Restarted => m
  }

  /** The subscriber's collection after it has processed all of `msgs`, in order. */
  function ApplyAll(m: Items, msgs: seq<Message>): Items
    decreases |msgs|
  {
    if msgs == [] then m else ApplyAll(Apply(m, msgs[0]), msgs[1..])
  }

  /** What is sent for the changed key `k` when the server's view is `view`. */
  function MessageFor(k: Key, view: Items): Message {
    if k in view then Update(k, view[k]) else Delete(k)
  }

  function Messages(keys: seq<Key>, view: Items): seq<Message> {
    seq(|keys|, i requires 0 <= i < |keys| => MessageFor(keys[i], view))
  }

  /** Two collections hold the same thing under `k`. */
  predicate SameAt(a: Items, b: Items, k: Key) {
    && (k in a <==> k in b)
    && (k in a ==> a[k] == b[k])
  }

  ghost predicate Distinct(keys: seq<Key>) {
    forall i, j :: 0 <= i < j < |keys| ==> keys[i] != keys[j]
  }

  /**
   `keys` lists every key on which the two collections differ, each once, with the deleted
   keys ahead of the added and modified ones.
   */
  ghost predicate IsDiff(before: Items, after: Items, keys: seq<Key>) {
    && Distinct(keys)
    && (forall k :: k in keys <==> !SameAt(before, after, k))
    && (forall i, j :: 0 <= i < j < |keys| && keys[j] !in after ==> keys[i] !in after)
  }

  /**
   A subscriber that held `base` when the session began and has caught up with a server
   whose view is `view` and which has mentioned the keys `seen`: it agrees with the view on
   every key seen and still has its old entry under every other key.
   */
  function Overlay(base: Items, seen: set<Key>, view: Items): Items {
    (base - seen) + view
  }

  lemma {:induction false} ApplyAllConcat(m: Items, a: seq<Message>, b: seq<Message>)
    ensures ApplyAll(m, a + b) == ApplyAll(ApplyAll(m, a), b)
    decreases |a|
  {
    if a == [] {
      assert a + b == b;
    } else {
      assert (a + b)[1..] == a[1..] + b;
      ApplyAllConcat(Apply(m, a[0]), a[1..], b);
    }
  }

  /** Sending `keys` moves the receiver to the view on those keys and nowhere else. */
  lemma {:induction false} MessagesMoveKeys(m: Items, keys: seq<Key>, view: Items, k: Key)
    ensures var r := ApplyAll(m, Messages(keys, view));
            if k in keys then SameAt(r, view, k) else SameAt(r, m, k)
    decreases |keys|
  {
    if keys != [] {
      var msg := MessageFor(keys[0], view);
      assert Messages(keys, view)[1..] == Messages(keys[1..], view);
      MessagesMoveKeys(Apply(m, msg), keys[1..], view, k);
    }
  }

  /**
   The heart of replication: a receiver that has caught up with the view `before` catches
   up with `after` by applying the messages for any diff of the two, whatever it held when
   the session started.
   */
  lemma DiffCatchesUp(base: Items, seen: set<Key>, before: Items, after: Items, keys: seq<Key>)
    requires before.Keys <= seen
    requires IsDiff(before, after, keys)
    ensures ApplyAll(Overlay(base, seen, before), Messages(keys, after))
            == Overlay(base, seen + after.Keys, after)
  {
    var m := Overlay(base, seen, before);
    var r := ApplyAll(m, Messages(keys, after));
    var want := Overlay(base, seen + after.Keys, after);
    forall k ensures SameAt(r, want, k) {
      MessagesMoveKeys(m, keys, after, k);
    }
    assert r.Keys == want.Keys by {
      forall k ensures k in r.Keys <==> k in want.Keys { assert SameAt(r, want, k); }
    }
    assert forall k :: k in r ==> SameAt(r, want, k);
  }
}
