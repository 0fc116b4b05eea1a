/**
 What several threads did, in the order in which they did it.
 */
module Histories {

  datatype Tagged = Tagged(who: nat, what: nat)

  /** What one of them did, in order. */
  function By(h: seq<Tagged>, who: nat): seq<nat> {
    if h == [] then []
    else
      var last := h[|h| - 1];
      By(h[..|h| - 1], who) + if last.who == who then [last.what] else []
  }

  /** What was done, by whomever. */
  function All(h: seq<Tagged>): seq<nat> {
    seq(|h|, i requires 0 <= i < |h| => h[i].what)
  }

  function Tag(who: nat, s: seq<nat>): seq<Tagged> {
    seq(|s|, i requires 0 <= i < |s| => Tagged(who, s[i]))
  }

  lemma {:induction false} ByConcat(a: seq<Tagged>, b: seq<Tagged>, who: nat)
    ensures By(a + b, who) == By(a, who) + By(b, who)
    decreases |b|
  {
    if b == [] {
      assert a + b == a;
    } else {
      var front := b[..|b| - 1];
      assert (a + b)[..|a + b| - 1] == a + front;
      ByConcat(a, front, who);
    }
  }

  lemma {:induction false} ByTag(who: nat, s: seq<nat>, u: nat)
    ensures By(Tag(who, s), u) == if u == who then s else []
    decreases |s|
  {
    if s != [] {
      var front := s[..|s| - 1];
      assert Tag(who, s)[..|s| - 1] == Tag(who, front);
      ByTag(who, front, u);
      assert front + [s[|s| - 1]] == s;
    }
  }

  lemma AllConcat(a: seq<Tagged>, b: seq<Tagged>)
    ensures All(a + b) == All(a) + All(b)
  {
  }

  lemma AllTag(who: nat, s: seq<nat>)
    ensures All(Tag(who, s)) == s
  {
  }

  /** How often one of them did something. */
  lemma {:induction false} CountBy(h: seq<Tagged>, who: nat, what: nat)
    ensures multiset(h)[Tagged(who, what)] == multiset(By(h, who))[what]
    decreases |h|
  {
    if h != [] {
      var front := h[..|h| - 1];
      assert h == front + [h[|h| - 1]];
      CountBy(front, who, what);
    }
  }

  /** What each of them did as often was done as often altogether. */
  lemma SameByAll(a: seq<Tagged>, b: seq<Tagged>)
    requires forall who :: By(a, who) == By(b, who)
    ensures multiset(All(a)) == multiset(All(b))
  {
    forall x ensures multiset(a)[x] == multiset(b)[x] {
      CountBy(a, x.who, x.what);
      CountBy(b, x.who, x.what);
    }
    SameTagsAll(a, b);
  }

  function Dropped(b: seq<Tagged>, j: nat): (r: seq<Tagged>)
    requires j < |b|
    ensures |r| == |b| - 1
  {
    b[..j] + b[j + 1..]
  }

  lemma Without(b: seq<Tagged>, j: nat)
    requires j < |b|
    ensures multiset(b) == multiset(Dropped(b, j)) + multiset{b[j]}
    ensures multiset(All(b)) == multiset(All(Dropped(b, j))) + multiset{b[j].what}
  {
    assert b == b[..j] + [b[j]] + b[j + 1..];
    var c := All(b);
    assert c == c[..j] + [c[j]] + c[j + 1..];
    assert All(Dropped(b, j)) == c[..j] + c[j + 1..];
  }

  lemma Cancel<T>(a: multiset<T>, b: multiset<T>, x: T)
    requires a + multiset{x} == b + multiset{x}
    ensures a == b
  {
    assert a == (a + multiset{x}) - multiset{x} == (b + multiset{x}) - multiset{x} == b;
  }

  lemma {:induction false} SameTagsAll(a: seq<Tagged>, b: seq<Tagged>)
    requires multiset(a) == multiset(b)
    ensures multiset(All(a)) == multiset(All(b))
    decreases |a|
  {
    if a == [] {
      assert |multiset(b)| == 0;
    } else {
      hide All, Dropped;
      assert a[0] in multiset(b);
      var j :| 0 <= j < |b| && b[j] == a[0];
      Without(a, 0);
      Without(b, j);
      Cancel(multiset(Dropped(a, 0)), multiset(Dropped(b, j)), a[0]);
      SameTagsAll(Dropped(a, 0), Dropped(b, j));
    }
  }

  lemma Swap(a: seq<nat>, b: seq<nat>, x: seq<nat>, y: seq<nat>, z: seq<nat>, x': seq<nat>)
    requires a == b + x && x + y == z + x'
    ensures a + y == b + z + x'
  {
    assert a + y == b + (x + y) == b + z + x';
  }
}
