/**
 The device's list of port configurations, most desirable first: how entries are looked up,
 inserted, removed and re-stamped, and what every update keeps.
 */
module PortConfigList {
  import opened PortConfig
  import opened Compression

  /** Non-increasing priority. */
  ghost predicate Sorted(list: seq<Config>) {
    forall i, j :: 0 <= i < j < |list| ==> list[i].timePriority >= list[j].timePriority
  }

  /** No two entries with the same version, key and priority. */
  ghost predicate Unique(list: seq<Config>) {
    forall i, j :: 0 <= i < j < |list| ==> !SameStamp(list[i], list[j])
  }

  // ---------- look up ----------

  predicate Matches(a: Config, c: Config, byStamp: bool) {
    if byStamp then SameStamp(a, c) else SameContent(a, c)
  }

  /** The first matching entry, or the length of the list. */
  function FirstMatch(list: seq<Config>, c: Config, byStamp: bool): (i: nat)
    ensures i <= |list|
    ensures i < |list| ==> Matches(list[i], c, byStamp)
    ensures forall j :: 0 <= j < i ==> !Matches(list[j], c, byStamp)
  {
    if list == [] || Matches(list[0], c, byStamp) then 0
    else 1 + FirstMatch(list[1..], c, byStamp)
  }

  /** The entry with `c`'s stamp, or else the first with its content, or else -1. */
  function Lookup(list: seq<Config>, c: Config): int {
    var i := FirstMatch(list, c, true);
    if i < |list| then i
    else
      var j := FirstMatch(list, c, false);
      if j < |list| then j else -1
  }

  // ---------- insert and remove ----------

  /** Ahead of the first entry with a lower priority. */
  function Inserted(list: seq<Config>, c: Config): seq<Config> {
    if list == [] || c.timePriority > list[0].timePriority then [c] + list
    else [list[0]] + Inserted(list[1..], c)
  }

  /** Removal goes by key and priority and does not look at the version. */
  predicate RemovalMatches(a: Config, c: Config) {
    a.key == c.key && a.timePriority == c.timePriority
  }

  function Removed(list: seq<Config>, c: Config): seq<Config> {
    if list == [] then []
    else if RemovalMatches(list[0], c) then list[1..]
    else [list[0]] + Removed(list[1..], c)
  }

  /** An insertion splits the list where the priorities say it should. */
  lemma {:induction false} InsertedSplits(list: seq<Config>, c: Config) returns (k: nat)
    ensures k <= |list|
    ensures Inserted(list, c) == list[..k] + [c] + list[k..]
    ensures forall i :: 0 <= i < k ==> list[i].timePriority >= c.timePriority
    ensures k < |list| ==> c.timePriority > list[k].timePriority
  {
    if list == [] || c.timePriority > list[0].timePriority {
      k := 0;
    } else {
      k := InsertedSplits(list[1..], c);
      k := k + 1;
    }
  }

  /** The entries of a list with one more entry at `k`. */
  lemma SplitAt(list: seq<Config>, k: nat, c: Config, i: nat)
    requires k <= |list| && i <= |list|
    ensures (list[..k] + [c] + list[k..])[i] == if i < k then list[i] else if i == k then c else list[i - 1]
  {
  }

  lemma InsertedInOrder(list: seq<Config>, c: Config)
    requires Sorted(list)
    ensures Sorted(Inserted(list, c))
  {
    var k := InsertedSplits(list, c);
    var r := Inserted(list, c);
    forall i, j | 0 <= i < j < |r| ensures r[i].timePriority >= r[j].timePriority {
      SplitAt(list, k, c, i);
      SplitAt(list, k, c, j);
    }
  }

  lemma InsertedContents(list: seq<Config>, c: Config)
    ensures multiset(Inserted(list, c)) == multiset(list) + multiset{c}
  {
    hide Inserted;
    var k := InsertedSplits(list, c);
    assert list == list[..k] + list[k..];
  }

  lemma InsertedUnique(list: seq<Config>, c: Config)
    requires Unique(list) && forall k :: 0 <= k < |list| ==> !SameStamp(list[k], c)
    ensures Unique(Inserted(list, c))
  {
    var k := InsertedSplits(list, c);
    var r := Inserted(list, c);
    forall i, j | 0 <= i < j < |r| ensures !SameStamp(r[i], r[j]) {
      SplitAt(list, k, c, i);
      SplitAt(list, k, c, j);
    }
  }

  /** A removal takes out the first entry with the same key and priority, or nothing. */
  lemma {:induction false} RemovedSplits(list: seq<Config>, c: Config) returns (k: nat)
    ensures k <= |list|
    ensures forall i :: 0 <= i < k ==> !RemovalMatches(list[i], c)
    ensures k < |list| ==> RemovalMatches(list[k], c) && Removed(list, c) == list[..k] + list[k + 1..]
    ensures k == |list| ==> Removed(list, c) == list
  {
    if list == [] || RemovalMatches(list[0], c) {
      k := 0;
    } else {
      k := RemovedSplits(list[1..], c);
      k := k + 1;
    }
  }

  lemma RemovedKeeps(list: seq<Config>, c: Config)
    ensures Sorted(list) ==> Sorted(Removed(list, c))
    ensures Unique(list) ==> Unique(Removed(list, c))
    ensures forall x :: x in Removed(list, c) ==> x in list
    ensures |Removed(list, c)| >= |list| - 1
  {
    var k := RemovedSplits(list, c);
  }

  /**
   Removing an entry of the list takes out that entry if and only if no entry ahead of it
   has the same key and priority, which then differs in its version.
   */
  lemma RemovesTheRightOne(list: seq<Config>, i: nat)
    requires Unique(list) && i < |list|
    ensures Removed(list, list[i]) == list[..i] + list[i + 1..] <==>
            forall j :: 0 <= j < i ==>
              !(list[j].key == list[i].key && list[j].timePriority == list[i].timePriority)
  {
    var k := RemovedSplits(list, list[i]);
    if k < i {
      assert Removed(list, list[i])[k] == list[k + 1];
      assert (list[..i] + list[i + 1..])[k] == list[k];
      assert !SameStamp(list[k], list[k + 1]);
    }
  }

  /** Two versions with one key and priority: removing the second removes the first. */
  lemma RemovesTheWrongVersion()
    ensures exists list: seq<Config> ::
      Sorted(list) && Unique(list) && |list| == 2 && Removed(list, list[1]) == [list[1]]
  {
    var a, b := Config(0, "k", 5, 0, 0, "", []), Config(1, "k", 5, 0, 0, "", []);
    var list := [a, b];
    assert Sorted(list) && Unique(list);
    assert Removed(list, list[1]) == [b];
  }

  // ---------- update ----------

  function WithHistory(c: Config, of: Config): Config {
    c.(lastFailed := of.lastFailed, lastError := of.lastError, lastSucceeded := of.lastSucceeded)
  }

  /** `c` takes the place of the entry at `i`, which moves if the priority changed. */
  function Updated(list: seq<Config>, i: nat, c: Config): seq<Config>
    requires i < |list|
  {
    if list[i].timePriority == c.timePriority then list[i := c]
    else Inserted(Removed(list, list[i]), WithHistory(c, list[i]))
  }

  /** The list after a modification or a deletion, before it is compressed. */
  function Changed(list: seq<Config>, c: Config, delete: bool): seq<Config> {
    var i := Lookup(list, c);
    if delete then if i < 0 then list else Removed(list, list[i])
    else if i < 0 then Inserted(list, c)
    else Updated(list, i, c)
  }

  /** Every modification and deletion keeps the order. */
  lemma ChangedSorted(list: seq<Config>, c: Config, delete: bool)
    requires Sorted(list)
    ensures Sorted(Changed(list, c, delete))
  {
    var i := Lookup(list, c);
    if delete {
      if i >= 0 { RemovedKeeps(list, list[i]); }
    } else if i < 0 {
      InsertedInOrder(list, c);
    } else if list[i].timePriority != c.timePriority {
      RemovedKeeps(list, list[i]);
      InsertedInOrder(Removed(list, list[i]), WithHistory(c, list[i]));
    }
  }

  /** Every modification and deletion keeps the stamps apart, in any order of the entries. */
  lemma ChangedUnique(list: seq<Config>, c: Config, delete: bool)
    requires Unique(list)
    ensures Unique(Changed(list, c, delete))
  {
    var i := Lookup(list, c);
    if delete {
      if i >= 0 { RemovedKeeps(list, list[i]); }
    } else if i < 0 {
      InsertedUnique(list, c);
    } else if list[i].timePriority != c.timePriority {
      var rest, c' := Removed(list, list[i]), WithHistory(c, list[i]);
      RemovedKeeps(list, list[i]);
      assert forall k :: 0 <= k < |list| ==> !SameStamp(list[k], c');
      forall k | 0 <= k < |rest| ensures !SameStamp(rest[k], c') { assert rest[k] in list; }
      InsertedUnique(rest, c');
    }
  }

  /** Only deleting the sole entry empties a list. */
  lemma ChangedEmpty(list: seq<Config>, c: Config, delete: bool)
    ensures Changed(list, c, delete) == [] <==>
            delete && (list == [] || (|list| == 1 && Lookup(list, c) >= 0))
  {
    var i := Lookup(list, c);
    if delete && i >= 0 {
      var k := RemovedSplits(list, list[i]);
    } else if !delete && i < 0 {
      var k := InsertedSplits(list, c);
    } else if !delete && list[i].timePriority != c.timePriority {
      var k := InsertedSplits(Removed(list, list[i]), WithHistory(c, list[i]));
    }
  }

  /**
   A configuration that comes with a new priority and nothing else new ends up in the list
   under that priority with the test results it had.
   */
  lemma RestampedKeepsHistory(list: seq<Config>, c: Config)
    requires Lookup(list, c) >= 0 && list[Lookup(list, c)].timePriority != c.timePriority
    ensures var was := list[Lookup(list, c)];
            && c.(lastFailed := was.lastFailed, lastError := was.lastError,
                  lastSucceeded := was.lastSucceeded) in Changed(list, c, false)
            && SameContent(was, c)
  {
    var i := Lookup(list, c);
    InsertedContents(Removed(list, list[i]), WithHistory(c, list[i]));
    assert WithHistory(c, list[i]) in multiset(Changed(list, c, false));
  }

  /**
   With an unchanged priority the newcomer's own test results replace the old ones: nothing
   else is left under its stamp, and the other entries stay as they are.
   */
  lemma SameStampForgets(list: seq<Config>, c: Config)
    requires Unique(list) && FirstMatch(list, c, true) < |list|
    ensures c in Changed(list, c, false)
    ensures forall x :: x in Changed(list, c, false) && SameStamp(x, c) ==> x == c
    ensures forall x :: !SameStamp(x, c) ==> (x in Changed(list, c, false) <==> x in list)
  {
    var i := FirstMatch(list, c, true);
    var r := Changed(list, c, false);
    assert r == list[i := c] && r[i] == c;
    forall x | !SameStamp(x, c) ensures x in r <==> x in list {
      if x in list {
        var j :| 0 <= j < |list| && list[j] == x;
        assert r[j] == x;
      }
    }
  }

  /** No configuration brings ports that were not there or are not its own. */
  lemma ChangedPorts(list: seq<Config>, c: Config, delete: bool, x: Config)
    requires x in Changed(list, c, delete)
    ensures x.ports == c.ports || exists y :: y in list && y.ports == x.ports
  {
    var i := Lookup(list, c);
    if delete {
      if i >= 0 { RemovedKeeps(list, list[i]); }
    } else if i < 0 {
      InsertedMember(list, c, x);
    } else if list[i].timePriority != c.timePriority {
      RemovedKeeps(list, list[i]);
      InsertedMember(Removed(list, list[i]), WithHistory(c, list[i]), x);
    }
  }

  lemma InsertedMember(list: seq<Config>, c: Config, x: Config)
    ensures x in Inserted(list, c) <==> x == c || x in list
  {
    InsertedContents(list, c);
    assert x in Inserted(list, c) <==> x in multiset(Inserted(list, c));
    assert x in list <==> x in multiset(list);
  }

  // ---------- test results ----------

  /** The verification writes its result over the entry it finds for the pending one. */
  function WrittenBack(list: seq<Config>, c: Config): seq<Config> {
    var i := Lookup(list, c);
    if i >= 0 then list[i := c] else list
  }

  lemma WrittenBackUnique(list: seq<Config>, c: Config)
    requires Unique(list)
    ensures Unique(WrittenBack(list, c))
  {
  }

  /**
   Writing a result back keeps the order if and only if the entry found has the pending
   priority, or the pending priority also fits between the entry's neighbours.
   */
  lemma WrittenBackSorted(list: seq<Config>, c: Config)
    requires Sorted(list) && Lookup(list, c) >= 0
    ensures var i := Lookup(list, c);
            Sorted(WrittenBack(list, c)) <==>
            && (i > 0 ==> list[i - 1].timePriority >= c.timePriority)
            && (i + 1 < |list| ==> c.timePriority >= list[i + 1].timePriority)
    ensures FirstMatch(list, c, true) < |list| ==> Sorted(WrittenBack(list, c))
  {
    var i := Lookup(list, c);
    var r := WrittenBack(list, c);
    if Sorted(r) {
      assert i > 0 ==> r[i - 1].timePriority >= r[i].timePriority;
      assert i + 1 < |list| ==> r[i].timePriority >= r[i + 1].timePriority;
    } else {
      var a, b :| 0 <= a < b < |r| && r[a].timePriority < r[b].timePriority;
      assert a == i || b == i;
      assert a < i ==> list[a].timePriority >= list[i - 1].timePriority;
      assert b > i ==> list[i + 1].timePriority >= list[b].timePriority;
    }
  }

  /** A result has the stamp and the content of what was tested, so it is found where that is. */
  lemma {:induction false} SameMatch(list: seq<Config>, a: Config, b: Config, byStamp: bool)
    requires SameStamp(a, b) && a.ports == b.ports
    ensures FirstMatch(list, a, byStamp) == FirstMatch(list, b, byStamp)
  {
    if list != [] && !Matches(list[0], a, byStamp) { SameMatch(list[1..], a, b, byStamp); }
  }

  lemma SameLookup(list: seq<Config>, a: Config, b: Config)
    requires SameStamp(a, b) && a.ports == b.ports
    ensures Lookup(list, a) == Lookup(list, b)
  {
    SameMatch(list, a, b, true);
    SameMatch(list, a, b, false);
  }

  /** Compression keeps the order, the uniqueness and the most desirable entry. */
  lemma CompressedKeeps(list: seq<Config>, current: int)
    ensures Increasing(Kept(list, current, |list|), |list|)
    ensures var r := Select(list, Kept(list, current, |list|));
            && (Sorted(list) ==> Sorted(r))
            && (Unique(list) ==> Unique(r))
            && (list != [] ==> r != [] && r[0] == list[0])
  {
    KeptIncreasing(list, current, |list|);
    if list != [] { FirstStays(list, current, |list|); }
  }

  /**
   Without the condition of `IndexSafe` the index may even leave a list that is in order: four
   failed entries between the best one and the one in use leave three entries and the index 3.
   */
  lemma IndexCanLeaveTheList()
    ensures exists list: seq<Config>, current: nat ::
      && Sorted(list) && Unique(list) && (forall i, j :: 0 <= i < j < |list| ==> list[i].ports != list[j].ports)
      && current < |list| && !Droppable(list, current)
      && current - Lowered(list, current, |list|) >= |Kept(list, current, |list|)|
  {
    hide Sorted, Unique, Droppable;
    ManyFailedInOrder();
    ManyFailedDiffer();
    ManyFailedDrop();
    var list := MANY_FAILED;
    OneMore(list, 5, 0);
    OneMore(list, 5, 1);
    OneMore(list, 5, 2);
    OneMore(list, 5, 3);
    OneMore(list, 5, 4);
    OneMore(list, 5, 5);
    KeptCount(list, 5, 6);
  }

  const MANY_FAILED: seq<Config> :=
    [Failed(9, "a"), Failed(8, "b"), Failed(7, "c"), Failed(6, "d"), Failed(5, "e"),
     Failed(4, "f").(lastSucceeded := 2)]

  lemma ManyFailedInOrder()
    ensures Sorted(MANY_FAILED) && Unique(MANY_FAILED)
  {
  }

  lemma ManyFailedDiffer()
    ensures forall i, j :: 0 <= i < j < |MANY_FAILED| ==> MANY_FAILED[i].ports != MANY_FAILED[j].ports
  {
    var l := MANY_FAILED;
    forall i, j | 0 <= i < j < |l| ensures l[i].ports != l[j].ports {
      assert l[i].ports[0].attributes[0] != l[j].ports[0].attributes[0];
    }
  }

  lemma ManyFailedDrop()
    ensures var l := MANY_FAILED;
      && !Droppable(l, 0) && Droppable(l, 1) && Droppable(l, 2) && Droppable(l, 3) && Droppable(l, 4)
      && !Droppable(l, 5)
  {
    assert MANY_FAILED[0].key == ZEDAGENT;
  }

  /** An entry of the controller that failed. */
  function Failed(priority: Time, attributes: string): Config {
    Config(0, ZEDAGENT, priority, 1, 0, "", [Port("eth0", DhcpConfig(Client, "", ""), attributes)])
  }
}
