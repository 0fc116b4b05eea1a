/**
 Splitting a line into fields at any of a set of separators.
 */
module Fields {

  datatype Span = Span(start: nat, end: nat)

  predicate IsSep(c: char, t: string) {
    c in t
  }

  /** `s[a..b]` is a maximal run without separators. */
  ghost predicate IsField(s: string, t: string, a: nat, b: nat) {
    && a < b <= |s|
    && (forall i :: a <= i < b ==> !IsSep(s[i], t))
    && (a == 0 || IsSep(s[a - 1], t))
    && (b == |s| || IsSep(s[b], t))
  }

  /** The end of the run that starts at `a`. */
  function RunEnd(s: string, t: string, a: nat): (b: nat)
    requires a <= |s|
    ensures a <= b <= |s|
    ensures forall i :: a <= i < b ==> !IsSep(s[i], t)
    ensures b == |s| || IsSep(s[b], t)
    decreases |s| - a
  {
    if a == |s| || IsSep(s[a], t) then a else RunEnd(s, t, a + 1)
  }

  /** The bounds of the non-empty runs from `a` on, in order. */
  function Spans(s: string, t: string, a: nat): seq<Span>
    requires a <= |s|
    decreases |s| - a
  {
    if a == |s| then []
    else if IsSep(s[a], t) then Spans(s, t, a + 1)
    else [Span(a, RunEnd(s, t, a))] + Spans(s, t, RunEnd(s, t, a))
  }

  /** A span list is in order and free of overlap. */
  predicate InOrder(spans: seq<Span>) {
    forall i, j :: 0 <= i < j < |spans| ==> spans[i].end < spans[j].start
  }

  /** Where a search may start: not inside a run. */
  predicate Starts(s: string, t: string, a: nat) {
    a <= |s| && (a == 0 || a == |s| || IsSep(s[a - 1], t) || IsSep(s[a], t))
  }

  /** Every span is a maximal run without separators, and the spans are in order. */
  lemma {:induction false} SpansAreFields(s: string, t: string, a: nat)
    requires Starts(s, t, a)
    ensures forall i :: 0 <= i < |Spans(s, t, a)| ==>
      a <= Spans(s, t, a)[i].start && IsField(s, t, Spans(s, t, a)[i].start, Spans(s, t, a)[i].end)
    ensures InOrder(Spans(s, t, a))
    decreases |s| - a
  {
    if a == |s| {
    } else if IsSep(s[a], t) {
      SpansAreFields(s, t, a + 1);
    } else {
      var b := RunEnd(s, t, a);
      SpansAreFields(s, t, b);
      var rest := Spans(s, t, b);
      assert IsField(s, t, a, b);
      forall i | 0 <= i < |rest| ensures b < rest[i].start {
        assert IsField(s, t, rest[i].start, rest[i].end);
      }
    }
  }

  /** Every maximal run without separators is a span. */
  lemma {:induction false} FieldIsSpan(s: string, t: string, a: nat, x: nat, y: nat)
    requires Starts(s, t, a) && a <= x && IsField(s, t, x, y)
    ensures Span(x, y) in Spans(s, t, a)
    decreases |s| - a
  {
    if IsSep(s[a], t) {
      FieldIsSpan(s, t, a + 1, x, y);
    } else {
      var b := RunEnd(s, t, a);
      if x < b {
        SameRun(s, t, a, b, x, y);
      } else {
        FieldIsSpan(s, t, b, x, y);
      }
    }
  }

  /** The spans are exactly the maximal runs without separators, each once and in order. */
  lemma SpansExact(s: string, t: string)
    ensures forall i :: 0 <= i < |Spans(s, t, 0)| ==>
      IsField(s, t, Spans(s, t, 0)[i].start, Spans(s, t, 0)[i].end)
    ensures forall x: nat, y: nat :: IsField(s, t, x, y) ==> Span(x, y) in Spans(s, t, 0)
    ensures InOrder(Spans(s, t, 0))
  {
    SpansAreFields(s, t, 0);
    forall x: nat, y: nat | IsField(s, t, x, y) ensures Span(x, y) in Spans(s, t, 0) {
      FieldIsSpan(s, t, 0, x, y);
    }
  }

  lemma SameRun(s: string, t: string, a: nat, b: nat, x: nat, y: nat)
    requires a <= |s| && a <= x < b && b == RunEnd(s, t, a) && IsField(s, t, x, y)
    requires a == 0 || IsSep(s[a - 1], t)
    ensures x == a && y == b
  {
  }

  predicate Within(s: string, spans: seq<Span>) {
    forall i :: 0 <= i < |spans| ==> spans[i].start <= spans[i].end <= |s|
  }

  /** What the text has at the spans. */
  function Cut(s: string, spans: seq<Span>): seq<string>
    requires Within(s, spans)
  {
    if spans == [] then []
    else
      var last := spans[|spans| - 1];
      Cut(s, spans[..|spans| - 1]) + [s[last.start..last.end]]
  }

  /** How many separators the text contains. */
  function SepCount(s: string, t: string): nat {
    if s == "" then 0 else SepCount(s[..|s| - 1], t) + if IsSep(s[|s| - 1], t) then 1 else 0
  }

  method CountAnyByte(s: string, t: string) returns (n: nat)
    ensures n == SepCount(s, t)
  {
    n := 0;
    for i := 0 to |s|
      invariant n == SepCount(s[..i], t)
    {
      assert s[..i + 1][..i] == s[..i];
      if IsSep(s[i], t) {
        n := n + 1;
      }
    }
    assert s[..|s|] == s;
  }

  /** A run that reaches from `last` to a separator or the end is the next span. */
  lemma NextSpan(s: string, t: string, last: nat, i: nat)
    requires last <= i <= |s|
    requires forall k :: last <= k < i ==> !IsSep(s[k], t)
    requires i == |s| || IsSep(s[i], t)
    ensures Spans(s, t, last) ==
            (if last < i then [Span(last, i)] else []) + SpansAfter(s, t, i)
  {
    RunEndUnique(s, t, last, i);
  }

  lemma RunEndUnique(s: string, t: string, a: nat, b: nat)
    requires a <= b <= |s|
    requires forall k :: a <= k < b ==> !IsSep(s[k], t)
    requires b == |s| || IsSep(s[b], t)
    ensures RunEnd(s, t, a) == b
  {
  }

  method Put(a: array<string>, n: nat, field: string)
    requires n < a.Length
    modifies a
    ensures a[..n + 1] == old(a[..n]) + [field]
  {
    a[n] := field;
  }

  /**
   The fields are what the maximal runs contain; the array that is sized by the number of
   separators always has room for them.
   */
  method SplitAtBytes(s: string, t: string) returns (fields: seq<string>)
    ensures Within(s, Spans(s, t, 0))
    ensures fields == Cut(s, Spans(s, t, 0))
  {
    var count := CountAnyByte(s, t);
    var a := new string[1 + count](_ => "");
    var n: nat, last: nat := 0, 0;
    ghost var done: seq<Span> := [];
    ScanStart(s, t);
    for i := 0 to |s|
      invariant Scanned(s, t, done, last, i) && n == |done|
      invariant a[..n] == Cut(s, done)
    {
      n, last, done := ScanByte(s, t, a, n, last, i, done);
    }
    ScanEnd(s, t, done, last);
    if last < |s| {
      Put(a, n, s[last..]);
      n := n + 1;
      done := done + [Span(last, |s|)];
    }
    return a[..n];
  }

  /** One round of the loop. */
  method ScanByte(s: string, t: string, a: array<string>, n: nat, last: nat, i: nat, ghost done: seq<Span>)
      returns (n': nat, last': nat, ghost done': seq<Span>)
    requires i < |s| && Scanned(s, t, done, last, i) && n == |done|
    requires a.Length == 1 + SepCount(s, t) && a[..n] == Cut(s, done)
    modifies a
    ensures Scanned(s, t, done', last', i + 1) && n' == |done'|
    ensures a[..n'] == Cut(s, done')
  {
    ScanOne(s, t, done, last, i);
    n', last', done' := n, last, done;
    if IsSep(s[i], t) {
      if last < i {
        Put(a, n, s[last..i]);
        n' := n + 1;
        done' := done + [Span(last, i)];
      }
      last' := i + 1;
    }
  }

  /** The state of the loop: no more spans than separators, and the rest of the search. */
  ghost predicate Scanned(s: string, t: string, done: seq<Span>, last: nat, i: nat) {
    && last <= i <= |s|
    && (forall k :: last <= k < i ==> !IsSep(s[k], t))
    && |done| <= SepCount(s[..i], t) <= SepCount(s, t)
    && Progress(s, t, done, last)
  }

  lemma ScanStart(s: string, t: string)
    ensures Scanned(s, t, [], 0, 0) && Cut(s, []) == []
  {
    SepCountMonotone(s, t, 0);
  }

  lemma ScanOne(s: string, t: string, done: seq<Span>, last: nat, i: nat)
    requires Scanned(s, t, done, last, i) && i < |s|
    ensures !IsSep(s[i], t) ==> Scanned(s, t, done, last, i + 1)
    ensures IsSep(s[i], t) && last == i ==> Scanned(s, t, done, i + 1, i + 1)
    ensures IsSep(s[i], t) && last < i ==>
            && Within(s, done + [Span(last, i)])
            && Cut(s, done + [Span(last, i)]) == Cut(s, done) + [s[last..i]]
            && Scanned(s, t, done + [Span(last, i)], i + 1, i + 1)
  {
    SepCountStep(s, t, i);
    if IsSep(s[i], t) {
      Advance(s, t, done, last, i);
    }
  }

  lemma ScanEnd(s: string, t: string, done: seq<Span>, last: nat)
    requires Scanned(s, t, done, last, |s|)
    ensures last == |s| ==> Spans(s, t, 0) == done
    ensures last < |s| ==>
            && Within(s, done + [Span(last, |s|)])
            && Cut(s, done + [Span(last, |s|)]) == Cut(s, done) + [s[last..]]
            && Spans(s, t, 0) == done + [Span(last, |s|)]
  {
    assert s[..|s|] == s;
    Advance(s, t, done, last, |s|);
  }

  /** The spans `done` have been found and the search goes on at `last`. */
  ghost predicate Progress(s: string, t: string, done: seq<Span>, last: nat) {
    last <= |s| && Within(s, done) && Spans(s, t, 0) == done + Spans(s, t, last)
  }

  lemma Advance(s: string, t: string, done: seq<Span>, last: nat, i: nat)
    requires Progress(s, t, done, last) && last <= i <= |s|
    requires forall k :: last <= k < i ==> !IsSep(s[k], t)
    requires i == |s| || IsSep(s[i], t)
    ensures last < i ==> Within(s, done + [Span(last, i)])
    ensures last < i ==> Cut(s, done + [Span(last, i)]) == Cut(s, done) + [s[last..i]]
    ensures last < i ==> Spans(s, t, 0) == done + [Span(last, i)] + SpansAfter(s, t, i)
    ensures last == i ==> Spans(s, t, 0) == done + SpansAfter(s, t, i)
  {
    NextSpan(s, t, last, i);
    if last < i {
      var more := done + [Span(last, i)];
      assert more[..|more| - 1] == done;
      assert done + ([Span(last, i)] + SpansAfter(s, t, i)) == more + SpansAfter(s, t, i);
    }
  }

  /** The spans behind the separator at `i`. */
  function SpansAfter(s: string, t: string, i: nat): seq<Span> {
    if i < |s| then Spans(s, t, i + 1) else []
  }

  lemma SepCountStep(s: string, t: string, i: nat)
    requires i < |s|
    ensures SepCount(s[..i + 1], t) == SepCount(s[..i], t) + if IsSep(s[i], t) then 1 else 0
    ensures SepCount(s[..i + 1], t) <= SepCount(s, t)
  {
    assert s[..i + 1][..i] == s[..i];
    SepCountMonotone(s, t, i + 1);
  }

  lemma {:induction false} SepCountMonotone(s: string, t: string, i: nat)
    requires i <= |s|
    ensures SepCount(s[..i], t) <= SepCount(s, t)
    decreases |s|
  {
    if i < |s| {
      SepCountMonotone(s[..|s| - 1], t, i);
      assert s[..|s| - 1][..i] == s[..i];
    } else {
      assert s[..i] == s;
    }
  }
}
