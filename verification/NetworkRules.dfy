/**
 What the list of port configurations and its verification promise, said of the entries.
 */
module NetworkRules {
  import opened Prelude
  import opened PortConfig
  import opened Compression
  import opened PortConfigList
  import opened DeviceNetwork
  import Dhcp

  /** The entry that stands for `c`: the first with its stamp, or else the first with its content. */
  ghost predicate StandsFor(list: seq<Config>, c: Config, i: int) {
    && 0 <= i < |list|
    && if exists j :: 0 <= j < |list| && SameStamp(list[j], c)
       then SameStamp(list[i], c) && forall j :: 0 <= j < i ==> !SameStamp(list[j], c)
       else SameContent(list[i], c) && forall j :: 0 <= j < i ==> !SameContent(list[j], c)
  }

  ghost predicate Unknown(list: seq<Config>, c: Config) {
    forall j :: 0 <= j < |list| ==> !SameStamp(list[j], c) && !SameContent(list[j], c)
  }

  lemma LookupExactly(list: seq<Config>, c: Config)
    ensures forall i :: StandsFor(list, c, i) <==> 0 <= i && Lookup(list, c) == i
    ensures Unknown(list, c) <==> Lookup(list, c) == -1
  {
    var s, m := FirstMatch(list, c, true), FirstMatch(list, c, false);
    if s < |list| { assert SameStamp(list[s], c); }
    if m < |list| { assert SameContent(list[m], c); }
    assert s == |list| ==> forall j :: 0 <= j < |list| ==> !Matches(list[j], c, true);
    assert m == |list| ==> forall j :: 0 <= j < |list| ==> !Matches(list[j], c, false);
    forall i: int ensures StandsFor(list, c, i) <==> (0 <= i && Lookup(list, c) == i) {
      if StandsFor(list, c, i) {
        if s < |list| {
          assert !(i < s) by { assert i < s ==> !Matches(list[i], c, true); }
        } else {
          assert !(i < m) by { assert i < m ==> !Matches(list[i], c, false); }
        }
      }
    }
  }

  /**
   The index of the entry in use follows the entry; it stays if the entry did not move, and is
   lost if it moved and did not work when last tested. If the entry is gone, a first entry that
   works takes its place.
   */
  lemma AdjustedExactly(list: seq<Config>, current: Config, index: int)
    requires list != []
    ensures forall i :: StandsFor(list, current, i) ==>
      AdjustedIndex(list, current, index) == if i == index || WasWorking(list[i]) then i else -1
    ensures Unknown(list, current) ==>
      AdjustedIndex(list, current, index) == if WasWorking(list[0]) then 0 else -1
    ensures Unknown(list, current) || exists i :: StandsFor(list, current, i)
  {
    LookupExactly(list, current);
    if !Unknown(list, current) { assert StandsFor(list, current, Lookup(list, current)); }
  }

  /**
   An update is ignored exactly if it withdraws what is unknown, or if its content is listed and
   its ports are in use.
   */
  lemma IgnoredExactly(list: seq<Config>, next: nat, c: Config, delete: bool)
    ensures NothingToDo(list, next, c, delete) <==>
      if delete then Unknown(list, c)
      else next < |list| && list[next].ports == c.ports && exists i :: StandsFor(list, c, i) && SameContent(list[i], c)
  {
    LookupExactly(list, c);
    var i := Lookup(list, c);
    if i >= 0 { assert StandsFor(list, c, i); }
  }

  /** What arrives is in the list afterwards, with its stamp and its ports. */
  lemma ArrivalIsListed(list: seq<Config>, c: Config)
    ensures exists x :: x in Changed(list, c, false) && SameStamp(x, c) && x.ports == c.ports
  {
    var i := Lookup(list, c);
    if i < 0 {
      InsertedContents(list, c);
      assert c in multiset(Inserted(list, c));
    } else if list[i].timePriority == c.timePriority {
      assert Changed(list, c, false)[i] == c;
    } else {
      InsertedContents(Removed(list, list[i]), WithHistory(c, list[i]));
      assert WithHistory(c, list[i]) in multiset(Changed(list, c, false));
    }
  }

  /** What is withdrawn takes one entry with it: one with the key and priority of the entry that stands for it. */
  lemma WithdrawalTakesOne(list: seq<Config>, c: Config)
    ensures Unknown(list, c) ==> Changed(list, c, true) == list
    ensures forall i :: StandsFor(list, c, i) ==>
      exists k :: 0 <= k < |list| && list[k].key == list[i].key && list[k].timePriority == list[i].timePriority
                  && Changed(list, c, true) == list[..k] + list[k + 1..]
  {
    LookupExactly(list, c);
    forall i | StandsFor(list, c, i)
      ensures exists k :: 0 <= k < |list| && list[k].key == list[i].key && list[k].timePriority == list[i].timePriority
                          && Changed(list, c, true) == list[..k] + list[k + 1..]
    {
      var k := RemovedSplits(list, list[i]);
      assert RemovalMatches(list[i], list[i]);
    }
  }

  // ---------- the search ----------

  /** What the search finds is testable, unless it is the first entry, and everything it passes is not. */
  lemma SearchFindsTestable(list: seq<Config>, start: nat, clock: nat -> Time, index: nat)
    requires list != [] && Searches(list, start, clock, index) && index != 0
    ensures exists k: nat ::
      && k < |list| - 1 && index == (start + k) % |list| && IsTestable(list[index], clock(k))
      && forall j: nat :: j < k ==> !IsTestable(list[(start + j) % |list|], clock(j))
  {
    var k: nat :| k < |list| - 1 && FirstHit(list, Probes(start, |list|), clock, k);
    assert forall j: nat :: j < k ==> Probes(start, |list|)[j] == (start + j) % |list|;
    assert index == (start + k) % |list|;
  }

  /** An entry that failed is not tested again within a minute, unless it has succeeded since. */
  lemma FailedNeedsAMinute(c: Config, now: Time)
    requires c.lastFailed != 0 && c.lastSucceeded <= c.lastFailed
    ensures IsTestable(c, now) <==> now >= c.lastFailed + 61 * SECOND
  {
  }

  // ---------- the tests ----------

  /** The result of a test goes to the entry that was tested. */
  lemma TestedInPlace(list: seq<Config>, a: Attempt)
    requires Unique(list) && Tests(a, list) && !Pauses(a)
    requires a.index < |list| && a.entry == list[a.index]
    ensures a.after == list[a.index := a.tested]
  {
    var s := FirstMatch(list, a.tested, true);
    assert Matches(list[a.index], a.tested, true);
    if s != a.index {
      assert SameStamp(list[s], list[a.index]);
    }
  }

  /** An entry that passed is the one in use, if and only if compression can follow it. */
  lemma PassedIsInUse(a: Attempt)
    requires a.index < |a.after| && Unique(a.after)
    ensures var list, index := Compressed(a.after, a.index), IndexAfter(a.after, a.index);
      IndexSafe(a.after, a.index) <==> 0 <= index < |list| && list[index] == a.after[a.index]
  {
    hide Kept, Lowered, IndexSafe;
    KeptIncreasing(a.after, a.index, |a.after|);
    IndexSurvives(a.after, a.index);
  }

  // ---------- DHCP ----------

  /**
   Where no interface occurs twice, a port has its client, with its own settings, if and only if it
   asks for DHCP or has a static address that can be read, and its interface exists and is not "wwan0".
   */
  lemma RunsExactly(host: Dhcp.Host, ports: seq<Port>, i: nat)
    requires i < |ports| && Dhcp.UniqueNames(ports)
    ensures var p, client := ports[i], Dhcp.ClientFor(host, ports, ports[i].ifName);
      && (client == Some(p.dhcpConfig) <==>
          && p.ifName in host.interfaces && p.ifName != "wwan0"
          && (p.dhcpConfig.dhcp == Client
              || (p.dhcpConfig.dhcp == Static && p.dhcpConfig.addrSubnet in host.cidrs - {""})))
      && (client.None? || client == Some(p.dhcpConfig))
  {
    assert ports[i] in ports;
  }

  // ---------- entries from the controller ----------

  predicate FromController(c: Config) {
    c.key == ZEDAGENT
  }

  /** Another entry from the controller, which has not failed since it last succeeded or is taken for the one in use. */
  predicate Extra(list: seq<Config>, current: int, p: nat)
    requires p < |list|
  {
    && FromController(list[p]) && (exists j :: 0 <= j < p && FromController(list[j]))
    && (list[p].lastFailed == 0 || list[p].lastSucceeded > list[p].lastFailed || p + Drops(list, p) == current)
  }

  ghost predicate TwoExtra(list: seq<Config>, current: int) {
    exists p, q :: 0 <= p < q < |list| && Extra(list, current, p) && Extra(list, current, q)
  }

  predicate ThreeLeft(list: seq<Config>) {
    exists i, j, k :: 0 <= i < j < k < |list|
      && FromController(list[i]) && FromController(list[j]) && FromController(list[k])
  }

  /** The place of an entry that stays. */
  lemma PlaceOf(list: seq<Config>, current: int, p: nat) returns (i: nat)
    requires p < |list| && (!Droppable(list, p) || p + Drops(list, p) == current)
    ensures i < |Kept(list, current, |list|)| && Kept(list, current, |list|)[i] == p
  {
    KeptExactly(list, current, |list|, p);
    i :| 0 <= i < |Kept(list, current, |list|)| && Kept(list, current, |list|)[i] == p;
  }

  /** Where an entry from the controller is, there is a first one. */
  lemma {:induction false} FirstFrom(list: seq<Config>, n: nat) returns (f: nat)
    requires n <= |list| && exists j :: 0 <= j < n && FromController(list[j])
    ensures f < n && FromController(list[f]) && forall j :: 0 <= j < f ==> !FromController(list[j])
  {
    if exists j :: 0 <= j < n - 1 && FromController(list[j]) {
      f := FirstFrom(list, n - 1);
    } else {
      f := n - 1;
    }
  }

  /** One that stays behind another is an extra one. */
  lemma LeftIsExtra(list: seq<Config>, current: int, i: nat, j: nat)
    requires i < j < |Kept(list, current, |list|)|
    requires FromController(Compressed(list, current)[i]) && FromController(Compressed(list, current)[j])
    ensures var kept := Kept(list, current, |list|);
            kept[i] < kept[j] < |list| && Extra(list, current, kept[j])
  {
    hide Drops;
    KeptIncreasing(list, current, |list|);
    KeptExactly(list, current, |list|, Kept(list, current, |list|)[j]);
  }

  /** Of three that stay, the two behind the first are extra ones. */
  lemma LeftAreExtra(list: seq<Config>, current: int)
    requires ThreeLeft(Compressed(list, current))
    ensures TwoExtra(list, current)
  {
    hide Drops, Kept, Extra;
    var r := Compressed(list, current);
    var i, j, k :| 0 <= i < j < k < |r| && FromController(r[i]) && FromController(r[j]) && FromController(r[k]);
    LeftIsExtra(list, current, i, j);
    LeftIsExtra(list, current, j, k);
  }

  /** Two entries that stay keep their order. */
  lemma PlacesInOrder(list: seq<Config>, current: int, i: nat, j: nat)
    requires i < |Kept(list, current, |list|)| && j < |Kept(list, current, |list|)|
    requires Kept(list, current, |list|)[i] < Kept(list, current, |list|)[j]
    ensures i < j
  {
    KeptIncreasing(list, current, |list|);
  }

  /** Two extra ones stay, and so does the first. */
  lemma ExtraAreLeft(list: seq<Config>, current: int)
    requires TwoExtra(list, current)
    ensures ThreeLeft(Compressed(list, current))
  {
    hide Drops, Kept;
    var p, q :| 0 <= p < q < |list| && Extra(list, current, p) && Extra(list, current, q);
    var f := FirstFrom(list, p);
    var i := PlaceOf(list, current, f);
    var j := PlaceOf(list, current, p);
    var k := PlaceOf(list, current, q);
    PlacesInOrder(list, current, i, j);
    PlacesInOrder(list, current, j, k);
    var r := Compressed(list, current);
    assert FromController(r[i]) && FromController(r[j]) && FromController(r[k]);
  }

  /**
   Compression is meant to leave at most two entries from the controller. It leaves more if and
   only if two behind the first one have not failed or are taken for the one in use.
   */
  lemma MoreThanTwoExactly(list: seq<Config>, current: int)
    ensures ThreeLeft(Compressed(list, current)) <==> TwoExtra(list, current)
  {
    if ThreeLeft(Compressed(list, current)) {
      LeftAreExtra(list, current);
    }
    if TwoExtra(list, current) {
      ExtraAreLeft(list, current);
    }
  }

  /** Three entries that were never tested all stay. */
  lemma ThreeCanStay()
    ensures exists list: seq<Config> :: Sorted(list) && Unique(list) && ThreeLeft(Compressed(list, -1))
  {
    var list := [NeverTested(9, "a"), NeverTested(8, "b"), NeverTested(7, "c")];
    assert Sorted(list) && Unique(list);
    assert FromController(list[0]);
    assert Extra(list, -1, 1) && Extra(list, -1, 2);
    MoreThanTwoExactly(list, -1);
  }

  function NeverTested(priority: Time, attributes: string): Config {
    Failed(priority, attributes).(lastFailed := 0)
  }
}
