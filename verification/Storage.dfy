/**
 What the base OS manager knows of the images of a configuration, and the references it
 holds against the downloader.
 */
module Storage {
  import opened Zboot

  /** Progress of an image; 0 for a status that has none yet. */
  type SwState = nat

  const INITIAL: SwState := 1
  const DOWNLOAD_STARTED: SwState := 2
  const DOWNLOADED: SwState := 3
  const DELIVERED: SwState := 4
  const INSTALLED: SwState := 5
  const MAXSTATE: SwState := 12

  datatype ObjType = BaseOsObj | CertObj

  datatype Config = Config(name: string, sha: string, datastoreId: string)

  /** Where an image is to be installed. */
  datatype Dir = NoDir | PartitionDir(p: Partition) | CertificateDir

  datatype Status = Status(
    name: string,
    sha: string,
    state: SwState,
    finalDir: Dir,
    hasDownloaderRef: bool,
    hasVerifierRef: bool,
    missingDatastore: bool,
    progress: nat)

  function NewStatus(c: Config, dir: Dir): Status {
    Status(c.name, c.sha, 0, dir, false, false, false, 0)
  }

  function Replaced(url: string): string {
    if url == "" then "" else [if url[0] == '/' then ' ' else url[0]] + Replaced(url[1..])
  }

  /** The key under which the downloader and the verifier know an image. */
  function Safename(name: string, sha: string): string {
    Replaced(name) + "." + if sha != "" then sha else "sha"
  }

  function SafenameOf(ss: Status): string {
    Safename(ss.name, ss.sha)
  }

  /** The configured images are those the status has, as far as the configuration goes. */
  predicate Matching(configs: seq<Config>, list: seq<Status>) {
    && |configs| <= |list|
    && forall i :: 0 <= i < |configs| ==> configs[i].name == list[i].name && configs[i].sha == list[i].sha
  }

  // ---------- references against the downloader ----------

  /** The reference counts the manager publishes to the downloader. */
  type Downloads = map<(ObjType, string), nat>

  const UINT_MAX: nat := 0xFFFF_FFFF_FFFF_FFFF

  function CountOf(d: Downloads, obj: ObjType, safename: string): nat {
    if (obj, safename) in d then d[(obj, safename)] else 0
  }

  /** The counts with one reference more. */
  function CountedUp(d: Downloads, obj: ObjType, safename: string): Downloads {
    d[(obj, safename) := CountOf(d, obj, safename) + 1]
  }

  type Uuid = nat
  type Lists = map<Uuid, seq<Status>>

  /** The storage entries, by configuration and position, that hold a reference. */
  ghost function Refs(lists: Lists, safename: string): set<(Uuid, nat)> {
    set u, i | u in lists && 0 <= i < |lists[u]|
               && lists[u][i].hasDownloaderRef && SafenameOf(lists[u][i]) == safename :: (u, i)
  }

  /** Every count is the number of entries that hold a reference. */
  ghost predicate Conserved(lists: Lists, d: Downloads, obj: ObjType) {
    forall n :: CountOf(d, obj, n) == |Refs(lists, n)|
  }

  /** What matters of an entry to the references. */
  datatype RefEntry = RefEntry(name: string, sha: string, held: bool)

  function EntryOf(ss: Status): RefEntry {
    RefEntry(ss.name, ss.sha, ss.hasDownloaderRef)
  }

  function RefView(list: seq<Status>): seq<RefEntry> {
    seq(|list|, i requires 0 <= i < |list| => EntryOf(list[i]))
  }

  /** The same entries hold the same references. */
  predicate SameRefs(a: seq<Status>, b: seq<Status>) {
    RefView(a) == RefView(b)
  }

  lemma SameRefsAt(a: seq<Status>, b: seq<Status>)
    ensures SameRefs(a, b) <==> |a| == |b| && forall i :: 0 <= i < |a| ==> EntryOf(a[i]) == EntryOf(b[i])
  {
    if SameRefs(a, b) {
      assert |RefView(a)| == |RefView(b)|;
      forall i | 0 <= i < |a| ensures EntryOf(a[i]) == EntryOf(b[i]) {
        assert RefView(a)[i] == RefView(b)[i];
      }
    }
  }

  /** Nothing holds a reference. */
  predicate NoRefs(a: seq<Status>) {
    forall i :: 0 <= i < |a| ==> !a[i].hasDownloaderRef
  }

  lemma SameRefsConserved(lists: Lists, u: Uuid, b: seq<Status>, d: Downloads, obj: ObjType)
    requires u in lists && SameRefs(lists[u], b) && Conserved(lists, d, obj)
    ensures Conserved(lists[u := b], d, obj)
  {
    SameRefsAt(lists[u], b);
    forall n ensures CountOf(d, obj, n) == |Refs(lists[u := b], n)| {
      assert Refs(lists[u := b], n) == Refs(lists, n);
    }
  }

  /** An entry without references joins or leaves. */
  lemma NoRefsConserved(lists: Lists, u: Uuid, b: seq<Status>, d: Downloads, obj: ObjType)
    requires Conserved(lists, d, obj) && NoRefs(b)
    requires u in lists ==> NoRefs(lists[u])
    ensures Conserved(lists[u := b], d, obj)
    ensures Conserved(lists - {u}, d, obj)
  {
    forall n
      ensures CountOf(d, obj, n) == |Refs(lists[u := b], n)|
      ensures CountOf(d, obj, n) == |Refs(lists - {u}, n)|
    {
      assert Refs(lists[u := b], n) == Refs(lists, n);
      assert Refs(lists - {u}, n) == Refs(lists, n);
    }
  }

  function Flagged(list: seq<Status>, i: nat, flag: bool): seq<Status>
    requires i < |list|
  {
    list[i := list[i].(hasDownloaderRef := flag)]
  }

  lemma RefsTaken(lists: Lists, u: Uuid, list: seq<Status>, i: nat, n: string)
    requires i < |list| && !list[i].hasDownloaderRef
    ensures Refs(lists[u := Flagged(list, i, true)], n) ==
            Refs(lists[u := list], n) + if SafenameOf(list[i]) == n then {(u, i)} else {}
    ensures (u, i) !in Refs(lists[u := list], n)
  {
  }

  lemma RefsDropped(lists: Lists, u: Uuid, list: seq<Status>, i: nat, n: string)
    requires i < |list| && list[i].hasDownloaderRef
    ensures Refs(lists[u := Flagged(list, i, false)], n) ==
            Refs(lists[u := list], n) - if SafenameOf(list[i]) == n then {(u, i)} else {}
    ensures (u, i) in Refs(lists[u := list], n) <==> SafenameOf(list[i]) == n
  {
  }

  lemma CountAfter(d: Downloads, obj: ObjType, k: string, count: nat, n: string)
    ensures CountOf(d[(obj, k) := count], obj, n) == if n == k then count else CountOf(d, obj, n)
  {
  }

  lemma OneMoreRef(lists: Lists, u: Uuid, list: seq<Status>, i: nat, n: string)
    requires i < |list| && !list[i].hasDownloaderRef
    ensures |Refs(lists[u := Flagged(list, i, true)], n)| ==
            |Refs(lists[u := list], n)| + if SafenameOf(list[i]) == n then 1 else 0
  {
    RefsTaken(lists, u, list, i, n);
  }

  /** The entry at `i` gets a reference and the count goes up by one. */
  lemma TakeRef(lists: Lists, u: Uuid, list: seq<Status>, i: nat, d: Downloads, obj: ObjType)
    requires Conserved(lists[u := list], d, obj)
    requires i < |list| && !list[i].hasDownloaderRef
    ensures var n := SafenameOf(list[i]);
            Conserved(lists[u := Flagged(list, i, true)], d[(obj, n) := CountOf(d, obj, n) + 1], obj)
  {
    var k := SafenameOf(list[i]);
    var d' := d[(obj, k) := CountOf(d, obj, k) + 1];
    forall n ensures CountOf(d', obj, n) == |Refs(lists[u := Flagged(list, i, true)], n)| {
      OneMoreRef(lists, u, list, i, n);
      CountAfter(d, obj, k, CountOf(d, obj, k) + 1, n);
    }
  }

  /** An entry that holds a reference is counted: there is a count, and it is not zero. */
  lemma RefIsCounted(lists: Lists, u: Uuid, list: seq<Status>, i: nat, d: Downloads, obj: ObjType)
    requires Conserved(lists[u := list], d, obj)
    requires i < |list| && list[i].hasDownloaderRef
    ensures (obj, SafenameOf(list[i])) in d && d[(obj, SafenameOf(list[i]))] >= 1
  {
    var k := SafenameOf(list[i]);
    RefsDropped(lists, u, list, i, k);
    assert CountOf(d, obj, k) == |Refs(lists[u := list], k)|;
    assert |Refs(lists[u := list], k)| > 0;
  }

  lemma OneRefLess(lists: Lists, u: Uuid, list: seq<Status>, i: nat, n: string)
    requires i < |list| && list[i].hasDownloaderRef
    ensures |Refs(lists[u := Flagged(list, i, false)], n)| ==
            |Refs(lists[u := list], n)| - if SafenameOf(list[i]) == n then 1 else 0
  {
    RefsDropped(lists, u, list, i, n);
  }

  /** The entry at `i` gives up its reference and the count goes down by one. */
  lemma DropRef(lists: Lists, u: Uuid, list: seq<Status>, i: nat, d: Downloads, d': Downloads, obj: ObjType)
    requires Conserved(lists[u := list], d, obj)
    requires i < |list| && list[i].hasDownloaderRef
    requires var n := SafenameOf(list[i]);
             (obj, n) in d && d[(obj, n)] >= 1 && d' == d[(obj, n) := d[(obj, n)] - 1]
    ensures Conserved(lists[u := Flagged(list, i, false)], d', obj)
  {
    var k := SafenameOf(list[i]);
    forall n ensures CountOf(d', obj, n) == |Refs(lists[u := Flagged(list, i, false)], n)| {
      OneRefLess(lists, u, list, i, n);
      CountAfter(d, obj, k, d[(obj, k)] - 1, n);
    }
  }

  /** Counts of zero may come and go. */
  lemma ZeroCounts(lists: Lists, d: Downloads, obj: ObjType, o: ObjType, n: string)
    requires Conserved(lists, d, obj)
    ensures (o, n) !in d ==> Conserved(lists, d[(o, n) := 0], obj)
    ensures (o, n) in d && d[(o, n)] == 0 ==> Conserved(lists, d - {(o, n)}, obj)
  {
    if (o, n) !in d {
      assert forall k :: CountOf(d[(o, n) := 0], obj, k) == CountOf(d, obj, k);
    } else if d[(o, n)] == 0 {
      assert forall k :: CountOf(d - {(o, n)}, obj, k) == CountOf(d, obj, k);
    }
  }

  /** The counts for one kind of object are the same. */
  ghost predicate SameCounts(d: Downloads, d': Downloads, obj: ObjType) {
    forall n :: CountOf(d', obj, n) == CountOf(d, obj, n)
  }

  lemma OtherCounts(d: Downloads, d': Downloads, obj: ObjType, n: string)
    requires d' == d || ((obj, n) in d' && d' == d[(obj, n) := d'[(obj, n)]])
    ensures forall o | o != obj :: SameCounts(d, d', o)
  {
  }

  lemma SameCountsTwice(a: Downloads, b: Downloads, c: Downloads, obj: ObjType)
    requires forall o | o != obj :: SameCounts(a, b, o)
    requires forall o | o != obj :: SameCounts(b, c, o)
    ensures forall o | o != obj :: SameCounts(a, c, o)
  {
    forall o | o != obj ensures SameCounts(a, c, o) {
      assert SameCounts(a, b, o) && SameCounts(b, c, o);
    }
  }

  /** What happens to the counts of one kind of object does not concern the other kind. */
  lemma OtherKind(lists: Lists, d: Downloads, d': Downloads, obj: ObjType)
    requires Conserved(lists, d, obj)
    requires SameCounts(d, d', obj)
    ensures Conserved(lists, d', obj)
  {
  }

  /** Another list under the same key, with the same references. */
  lemma SwapSameRefs(lists: Lists, u: Uuid, a: seq<Status>, b: seq<Status>, d: Downloads, obj: ObjType)
    requires Conserved(lists[u := a], d, obj) && SameRefs(a, b)
    ensures Conserved(lists[u := b], d, obj)
  {
    SameRefsConserved(lists[u := a], u, b, d, obj);
    assert lists[u := a][u := b] == lists[u := b];
  }

  /** An entry changes; if it takes a reference, the count follows. */
  lemma CountFollows(
    lists: Lists, u: Uuid, list: seq<Status>, i: nat, ss: Status, d: Downloads, d': Downloads, obj: ObjType)
    requires Conserved(lists[u := list], d, obj)
    requires i < |list| && ss.name == list[i].name && ss.sha == list[i].sha
    requires if ss.hasDownloaderRef == list[i].hasDownloaderRef then d' == d
             else
               && ss.hasDownloaderRef
               && d' == CountedUp(d, obj, SafenameOf(list[i]))
    ensures Conserved(lists[u := list[i := ss]], d', obj)
  {
    if ss.hasDownloaderRef == list[i].hasDownloaderRef {
      SameRefsAt(list, list[i := ss]);
      SwapSameRefs(lists, u, list, list[i := ss], d, obj);
    } else {
      TakeRef(lists, u, list, i, d, obj);
      SameRefsAt(Flagged(list, i, true), list[i := ss]);
      SwapSameRefs(lists, u, Flagged(list, i, true), list[i := ss], d', obj);
    }
  }
}
