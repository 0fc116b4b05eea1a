/**
 The pool of JavaScript contexts, one per worker thread: an array whose slots are emptied
 when a worker takes a context and refilled when it brings one back.
 */
module ContextPool {

  datatype Slot = Empty | Holding(ctx: nat)

  /** The first slot for which `Holding?` is `full`, or the number of slots. */
  function FirstSlot(slots: seq<Slot>, full: bool): (i: nat)
    ensures i <= |slots|
    ensures i < |slots| ==> slots[i].Holding? == full
    ensures forall j :: 0 <= j < i ==> slots[j].Holding? != full
  {
    if slots == [] || slots[0].Holding? == full then 0
    else 1 + FirstSlot(slots[1..], full)
  }

  /** The number of contexts in the pool. */
  function Stock(slots: seq<Slot>): nat {
    if slots == [] then 0 else (if slots[0].Holding? then 1 else 0) + Stock(slots[1..])
  }

  lemma {:induction false} StockUpdate(slots: seq<Slot>, i: nat, slot: Slot)
    requires i < |slots|
    ensures Stock(slots[i := slot]) ==
            Stock(slots) - (if slots[i].Holding? then 1 else 0) + (if slot.Holding? then 1 else 0)
  {
    if i > 0 {
      StockUpdate(slots[1..], i - 1, slot);
      assert slots[i := slot][1..] == slots[1..][i - 1 := slot];
    } else {
      assert slots[i := slot][1..] == slots[1..];
    }
  }

  /** A search fails only in a pool with nothing to take, or with no room. */
  lemma {:induction false} SearchFails(slots: seq<Slot>)
    ensures FirstSlot(slots, true) == |slots| <==> Stock(slots) == 0
    ensures FirstSlot(slots, false) == |slots| <==> Stock(slots) == |slots|
    ensures Stock(slots) <= |slots|
  {
    if slots != [] { SearchFails(slots[1..]); }
  }

  /** Yields no context where the source's assertion fails. */
  method PopContext(slots: array<Slot>) returns (taken: Slot)
    modifies slots
    ensures var i := FirstSlot(old(slots[..]), true);
            if i < slots.Length
            then taken == old(slots[..])[i] && slots[..] == old(slots[..])[i := Empty]
            else taken == Empty && slots[..] == old(slots[..])
  {
    ghost var was := slots[..];
    for i := 0 to slots.Length
      invariant slots[..] == was
      invariant forall j :: 0 <= j < i ==> !was[j].Holding?
    {
      if slots[i].Holding? {
        taken := slots[i];
        assert FirstSlot(was, true) == i;
        slots[i] := Empty;
        return;
      }
    }
    taken := Empty;
  }

  /** `stored` is false where the source's assertion fails. */
  method PushContext(slots: array<Slot>, ctx: nat) returns (stored: bool)
    modifies slots
    ensures var i := FirstSlot(old(slots[..]), false);
            if i < slots.Length
            then stored && slots[..] == old(slots[..])[i := Holding(ctx)]
            else !stored && slots[..] == old(slots[..])
  {
    ghost var was := slots[..];
    for i := 0 to slots.Length
      invariant slots[..] == was
      invariant forall j :: 0 <= j < i ==> was[j].Holding?
    {
      if slots[i].Empty? {
        assert FirstSlot(was, false) == i;
        slots[i] := Holding(ctx);
        return true;
      }
    }
    return false;
  }
}
