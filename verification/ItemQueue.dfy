/**
 The thread pool's queue: a singly linked list with pointers to its first and last cell.
 */
module ItemQueue {
  import opened Prelude

  class Item<T> {
    var closure: T
    var next: Item?<T>

    constructor (closure: T)
      ensures this.closure == closure && next == null
    {
      this.closure, next := closure, null;
    }
  }

  /** `cells` are pairwise different and linked in this order, the last one to null. */
  ghost predicate Linked<T>(cells: seq<Item<T>>)
    reads cells
  {
    && (forall i, j :: 0 <= i < j < |cells| ==> cells[i] != cells[j])
    && (forall i :: 0 <= i < |cells| - 1 ==> cells[i].next == cells[i + 1])
    && (|cells| > 0 ==> cells[|cells| - 1].next == null)
  }

  ghost function Closures<T>(cells: seq<Item<T>>): seq<T>
    reads cells
  {
    seq(|cells|, i requires 0 <= i < |cells| reads cells => cells[i].closure)
  }

  class Queue<T> {
    var first: Item?<T>
    var last: Item?<T>
    /** The cells in the queue, oldest first. */
    ghost var cells: seq<Item<T>>

    ghost predicate Valid()
      reads this, cells
    {
      && Linked(cells)
      && first == (if cells == [] then null else cells[0])
      && last == (if cells == [] then null else cells[|cells| - 1])
    }

    /** The closures in the queue, oldest first. */
    ghost function Contents(): seq<T>
      reads this, cells
    {
      Closures(cells)
    }

    constructor ()
      ensures Valid() && cells == []
    {
      first, last, cells := null, null, [];
    }

    method Enqueue(item: Item<T>)
      requires Valid() && item !in cells
      modifies this, item`next, cells
      ensures Valid()
      ensures cells == old(cells) + [item]
      ensures Contents() == old(Contents()) + [item.closure]
      ensures forall c :: c in cells ==> c.closure == old(c.closure)
    {
      item.next := null;
      if last != null {
        last.next := item;
      } else {
        first := item;
      }
      last := item;
      cells := cells + [item];
    }

    /** The oldest cell, which the caller then owns, or null if there is none. */
    method Dequeue() returns (item: Item?<T>)
      requires Valid()
      modifies this
      ensures Valid()
      ensures item == null <==> old(Contents()) == []
      ensures item == null ==> cells == old(cells)
      ensures item != null ==>
        && item == old(cells)[0] && cells == old(cells)[1..] && item !in cells
        && item.closure == old(Contents())[0]
        && Contents() == old(Contents())[1..]
    {
      if first == null {
        return null;
      }
      item := first;
      first := item.next;
      if item.next == null {
        last := null;
      }
      cells := cells[1..];
    }

    /** Takes the whole list away; the queue is empty afterwards. */
    method Detach() returns (items: Item?<T>, ghost batch: seq<Item<T>>)
      requires Valid()
      modifies this
      ensures Valid() && cells == []
      ensures batch == old(cells) && Linked(batch)
      ensures items == if batch == [] then null else batch[0]
      ensures Closures(batch) == old(Contents())
    {
      items, batch := first, cells;
      first := null;
      last := null;
      cells := [];
    }
  }

  /** Walks a detached list; `ran` lists the closures in the order they are called. */
  method RunAll<T>(head: Item?<T>, ghost batch: seq<Item<T>>) returns (ran: seq<T>)
    requires Linked(batch)
    requires head == if batch == [] then null else batch[0]
    ensures ran == Closures(batch)
  {
    ran := [];
    var items := head;
    ghost var n := 0;
    while items != null
      invariant 0 <= n <= |batch|
      invariant items == if n < |batch| then batch[n] else null
      invariant ran == Closures(batch)[..n]
      decreases |batch| - n
    {
      var cell := items;
      items := items.next;
      ran := ran + [cell.closure];
      n := n + 1;
    }
  }

  datatype Op<+T> = Put(closure: T) | Take | TakeAll

  /** The closures that `ops` put into the queue, in order. */
  function PutBy<T>(ops: seq<Op<T>>): seq<T> {
    if ops == [] then []
    else PutBy(ops[..|ops| - 1]) + match ops[|ops| - 1] { case Put(x) => [x] case _ => [] }
  }

  /** One operation: what it puts in goes behind what is queued, what it takes was ahead. */
  method Operate<T>(q: Queue<T>, op: Op<T>) returns (got: seq<T>)
    requires q.Valid()
    modifies q, q.cells
    ensures q.Valid()
    ensures forall k :: 0 <= k < |q.cells| ==> q.cells[k] in old(q.cells) || fresh(q.cells[k])
    ensures got + q.Contents() == old(q.Contents()) + PutBy([op])
  {
    assert [op][..0] == [];
    got := [];
    match op
    case Put(x) =>
      var item := new Item(x);
      q.Enqueue(item);
    case Take =>
      var item := q.Dequeue();
      if item != null {
        got := [item.closure];
      }
    case TakeAll =>
      var items, batch := q.Detach();
      got := RunAll(items, batch);
  }

  lemma {:induction false} PutByConcat<T>(a: seq<Op<T>>, b: seq<Op<T>>)
    ensures PutBy(a + b) == PutBy(a) + PutBy(b)
    decreases |b|
  {
    if b == [] {
      assert a + b == a;
    } else {
      assert (a + b)[..|a + b| - 1] == a + b[..|b| - 1];
      PutByConcat(a, b[..|b| - 1]);
    }
  }

  /**
   Any mix of scheduling, taking one item and running the whole list: what has been taken is
   what was put in, each item once and in the same order, and the rest is still queued.
   */
  method RunMix<T>(q: Queue<T>, ops: seq<Op<T>>) returns (taken: seq<T>)
    requires q.Valid() && q.cells == []
    modifies q
    ensures q.Valid()
    ensures taken + q.Contents() == PutBy(ops)
  {
    taken := [];
    for i := 0 to |ops|
      invariant q.Valid() && fresh(q.cells)
      invariant taken + q.Contents() == PutBy(ops[..i])
    {
      ghost var before := q.Contents();
      var got := Operate(q, ops[i]);
      assert ops[..i + 1] == ops[..i] + [ops[i]];
      PutByConcat(ops[..i], [ops[i]]);
      Regroup(taken, before, PutBy([ops[i]]));
      Regroup(taken, got, q.Contents());
      taken := taken + got;
    }
    assert ops[..|ops|] == ops;
  }
}
