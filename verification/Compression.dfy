/**
 Thinning the list of port configurations: entries from the controller that failed are
 dropped, except the most desirable one. The index of the entry in use is adjusted on the
 way, but it is compared with positions in the original list after it has been lowered.
 */
module Compression {
  import opened PortConfig

  const ZEDAGENT := "zedagent"

  /** From the controller, not the first such entry, and failed since it last succeeded. */
  predicate Droppable(list: seq<Config>, i: nat)
    requires i < |list|
  {
    && list[i].key == ZEDAGENT
    && (exists j :: 0 <= j < i && list[j].key == ZEDAGENT)
    && list[i].lastFailed != 0
    && !(list[i].lastSucceeded > list[i].lastFailed)
  }

  /** How many of the first `n` entries are droppable. */
  function Drops(list: seq<Config>, n: nat): nat
    requires n <= |list|
  {
    if n == 0 then 0 else Drops(list, n - 1) + if Droppable(list, n - 1) then 1 else 0
  }

  /** The droppable entry at `i` is mistaken for the entry in use. */
  predicate Mistaken(list: seq<Config>, current: int, i: nat)
    requires i < |list|
  {
    i + Drops(list, i) == current
  }

  /** The positions that stay among the first `n`. */
  function Kept(list: seq<Config>, current: int, n: nat): seq<nat>
    requires n <= |list|
  {
    if n == 0 then []
    else if Droppable(list, n - 1) && !Mistaken(list, current, n - 1) then Kept(list, current, n - 1)
    else Kept(list, current, n - 1) + [n - 1]
  }

  /** How often the index has been lowered within the first `n` entries. */
  function Lowered(list: seq<Config>, current: int, n: nat): nat
    requires n <= |list|
  {
    if n == 0 then 0
    else
      Lowered(list, current, n - 1)
      + if Droppable(list, n - 1) && n - 1 + Drops(list, n - 1) < current then 1 else 0
  }

  function Select(list: seq<Config>, positions: seq<nat>): seq<Config>
    requires forall k :: 0 <= k < |positions| ==> positions[k] < |list|
  {
    seq(|positions|, k requires 0 <= k < |positions| => list[positions[k]])
  }

  /** Positions below `n`, in order, each once. */
  predicate Increasing(positions: seq<nat>, n: nat) {
    && (forall k :: 0 <= k < |positions| ==> positions[k] < n)
    && (forall j, k :: 0 <= j < k < |positions| ==> positions[j] < positions[k])
  }

  lemma {:induction false} KeptIncreasing(list: seq<Config>, current: int, n: nat)
    requires n <= |list|
    ensures Increasing(Kept(list, current, n), n)
  {
    if n > 0 {
      KeptIncreasing(list, current, n - 1);
      var before := Kept(list, current, n - 1);
      assert Kept(list, current, n) == before || Kept(list, current, n) == before + [n - 1];
    }
  }

  /**
   What stays: every entry that is not droppable, and of the droppable ones at most the one
   that is taken for the entry in use.
   */
  lemma {:induction false} KeptExactly(list: seq<Config>, current: int, n: nat, i: nat)
    requires n <= |list| && i < n
    ensures i in Kept(list, current, n) <==> !Droppable(list, i) || Mistaken(list, current, i)
  {
    KeptIncreasing(list, current, n - 1);
    var before := Kept(list, current, n - 1);
    assert n - 1 !in before;
    if i < n - 1 {
      KeptExactly(list, current, n - 1, i);
      assert Kept(list, current, n) == before || Kept(list, current, n) == before + [n - 1];
    }
  }

  /** A droppable entry puts all later ones at least two further ahead. */
  lemma {:induction false} DropsGrow(list: seq<Config>, i: nat, j: nat)
    requires i <= j <= |list|
    ensures Drops(list, i) <= Drops(list, j) <= Drops(list, i) + (j - i)
    ensures i < j && Droppable(list, i) ==> Drops(list, i) + 1 <= Drops(list, j)
    decreases j - i
  {
    if i < j { DropsGrow(list, i, j - 1); }
  }

  /** As long as the next entry is not past the entry in use, every drop has lowered the index. */
  lemma {:induction false} LoweredIsDrops(list: seq<Config>, current: int, n: nat)
    requires n <= |list|
    ensures n + Drops(list, n) <= current ==> Lowered(list, current, n) == Drops(list, n)
    ensures Lowered(list, current, n) <= Drops(list, n)
  {
    if n > 0 { LoweredIsDrops(list, current, n - 1); }
  }

  /** The three ways the loop's comparison of a droppable position with the index can go. */
  lemma {:induction false} Comparison(list: seq<Config>, current: int, n: nat)
    requires n < |list|
    ensures Droppable(list, n) ==>
      var c := current - Lowered(list, current, n);
      && (n < c <==> n + Drops(list, n) < current)
      && (n == c <==> n + Drops(list, n) == current)
  {
    LoweredIsDrops(list, current, n);
    if Droppable(list, n) && n + Drops(list, n) > current {
      PastTheIndex(list, current, n);
    }
  }

  /** Once past the entry in use, the index is below the position and stays there. */
  lemma {:induction false} PastTheIndex(list: seq<Config>, current: int, n: nat)
    requires n <= |list| && n + Drops(list, n) > current
    ensures current - Lowered(list, current, n) < n
  {
    if n == 0 {
    } else if n - 1 + Drops(list, n - 1) > current {
      PastTheIndex(list, current, n - 1);
    } else {
      LoweredIsDrops(list, current, n - 1);
    }
  }

  /** The compressed list and index. */
  method Compress(list: seq<Config>, current: int) returns (newList: seq<Config>, newIndex: int)
    ensures Increasing(Kept(list, current, |list|), |list|)
    ensures newList == Select(list, Kept(list, current, |list|))
    ensures newIndex == current - Lowered(list, current, |list|)
  {
    newList := [];
    newIndex := current;
    var deleteFailedZedagent := false;
    KeptIncreasing(list, current, |list|);
    for i := 0 to |list|
      invariant deleteFailedZedagent <==> exists j :: 0 <= j < i && list[j].key == ZEDAGENT
      invariant Increasing(Kept(list, current, i), i)
      invariant newList == Select(list, Kept(list, current, i))
      invariant newIndex == current - Lowered(list, current, i)
    {
      KeptIncreasing(list, current, i + 1);
      Comparison(list, current, i);
      var dpc := list[i];
      if dpc.key != ZEDAGENT {
        newList := newList + [dpc];
        continue;
      }
      if !deleteFailedZedagent {
        newList := newList + [dpc];
        deleteFailedZedagent := true;
        continue;
      }
      if dpc.lastFailed == 0 {
        newList := newList + [dpc];
        continue;
      }
      if dpc.lastSucceeded > dpc.lastFailed {
        newList := newList + [dpc];
        continue;
      }
      if newIndex == i {
        newList := newList + [dpc];
        continue;
      }
      if i < newIndex {
        newIndex := newIndex - 1;
      }
    }
  }

  // ---------- does the index still point at the entry in use? ----------

  /** How many of the first `n` entries are dropped without lowering the index. */
  function Missed(list: seq<Config>, current: int, n: nat): nat
    requires n <= |list|
  {
    if n == 0 then 0
    else
      Missed(list, current, n - 1)
      + if Droppable(list, n - 1) && n - 1 + Drops(list, n - 1) > current then 1 else 0
  }

  /**
   The index survives: no droppable entry ahead of the entry in use lies beyond the lowered
   index, and the entry in use is not itself droppable once others ahead of it are.
   */
  predicate IndexSafe(list: seq<Config>, current: nat)
    requires current < |list|
  {
    && (forall i :: 0 <= i < current && Droppable(list, i) ==> i + Drops(list, i) <= current)
    && (Droppable(list, current) ==> Drops(list, current) == 0)
  }

  lemma {:induction false} KeptCount(list: seq<Config>, current: int, n: nat)
    requires n <= |list|
    ensures |Kept(list, current, n)| == n - Lowered(list, current, n) - Missed(list, current, n)
  {
    if n > 0 { KeptCount(list, current, n - 1); }
  }

  lemma {:induction false} LoweredStops(list: seq<Config>, current: nat, n: nat)
    requires current <= n <= |list|
    ensures Lowered(list, current, n) == Lowered(list, current, current)
  {
    if n > current { LoweredStops(list, current, n - 1); }
  }

  lemma {:induction false} MissedNone(list: seq<Config>, current: int, n: nat)
    requires n <= |list|
    ensures Missed(list, current, n) == 0 <==>
            forall i :: 0 <= i < n && Droppable(list, i) ==> i + Drops(list, i) <= current
  {
    if n > 0 { MissedNone(list, current, n - 1); }
  }

  lemma {:induction false} KeptPrefix(list: seq<Config>, current: int, m: nat, n: nat)
    requires m <= n <= |list|
    ensures Kept(list, current, m) <= Kept(list, current, n)
  {
    if m < n { KeptPrefix(list, current, m, n - 1); }
  }

  /**
   The compressed index denotes the entry that was in use if and only if the index was safe;
   this can be checked before compressing.
   */
  lemma IndexSurvives(list: seq<Config>, current: nat)
    requires current < |list|
    ensures var kept, index := Kept(list, current, |list|), current - Lowered(list, current, |list|);
            0 <= index < |kept| && kept[index] == current <==> IndexSafe(list, current)
  {
    var kept, index := Kept(list, current, |list|), current - Lowered(list, current, |list|);
    var place := |Kept(list, current, current)|;
    KeptIncreasing(list, current, |list|);
    KeptExactly(list, current, |list|, current);
    KeptCount(list, current, current);
    LoweredStops(list, current, |list|);
    MissedNone(list, current, current);
    KeptPrefix(list, current, current + 1, |list|);
    if !Droppable(list, current) || Mistaken(list, current, current) {
      assert Kept(list, current, current + 1)[place] == current;
      assert kept[place] == current;
    }
  }

  /** With up to two droppable entries ahead, an entry that is not droppable stays in use. */
  lemma FewDropsAreSafe(list: seq<Config>, current: nat)
    requires current < |list|
    requires Drops(list, current) <= 2 && !Droppable(list, current)
    ensures IndexSafe(list, current)
  {
    forall i | 0 <= i < current && Droppable(list, i) ensures i + Drops(list, i) <= current {
      DropsGrow(list, i, current);
    }
  }

  /** An index of -1, for no entry in use, stays; any other index stays non-negative. */
  lemma SignSurvives(list: seq<Config>, current: int)
    ensures current < 0 ==> Lowered(list, current, |list|) == 0
    ensures current >= 0 ==> current - Lowered(list, current, |list|) >= 0
  {
    LoweredBound(list, current, |list|);
  }

  lemma {:induction false} LoweredBound(list: seq<Config>, current: int, n: nat)
    requires n <= |list|
    ensures current < 0 ==> Lowered(list, current, n) == 0
    ensures current >= 0 ==> Lowered(list, current, n) <= current
  {
    if n > 0 {
      LoweredBound(list, current, n - 1);
      LoweredIsDrops(list, current, n - 1);
    }
  }

  /** The counts after one more entry. */
  lemma OneMore(list: seq<Config>, current: int, n: nat)
    requires n < |list|
    ensures Drops(list, 0) == Lowered(list, current, 0) == Missed(list, current, 0) == 0
    ensures Drops(list, n + 1) == Drops(list, n) + if Droppable(list, n) then 1 else 0
    ensures Lowered(list, current, n + 1) == Lowered(list, current, n)
            + if Droppable(list, n) && n + Drops(list, n) < current then 1 else 0
    ensures Missed(list, current, n + 1) == Missed(list, current, n)
            + if Droppable(list, n) && n + Drops(list, n) > current then 1 else 0
  {
  }

  /** Without entries of the controller nothing is dropped. */
  lemma {:induction false} NothingDropped(list: seq<Config>, current: int, n: nat)
    requires n <= |list| && forall i :: 0 <= i < n ==> list[i].key != ZEDAGENT
    ensures Kept(list, current, n) == seq(n, i => i) && Lowered(list, current, n) == 0
  {
    if n > 0 {
      NothingDropped(list, current, n - 1);
      assert seq(n, i => i) == seq(n - 1, i => i) + [n - 1];
    }
  }

  lemma NothingCompressed(list: seq<Config>, current: int)
    requires forall i :: 0 <= i < |list| ==> list[i].key != ZEDAGENT
    ensures Increasing(Kept(list, current, |list|), |list|) && Select(list, Kept(list, current, |list|)) == list
    ensures Lowered(list, current, |list|) == 0
  {
    NothingDropped(list, current, |list|);
  }

  // ---------- what compression keeps of the list ----------

  /** The first entry always stays, so the list never becomes empty. */
  lemma {:induction false} FirstStays(list: seq<Config>, current: int, n: nat)
    requires 0 < n <= |list|
    ensures |Kept(list, current, n)| > 0 && Kept(list, current, n)[0] == 0
  {
    if n > 1 {
      FirstStays(list, current, n - 1);
    } else {
      assert Kept(list, current, 0) == [];
    }
  }
}
