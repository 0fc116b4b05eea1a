/**
 What the base OS manager makes of the images of a configuration: how far their download and
 their verification are, and which of them an installation writes.
 */
module Images {
  import opened Prelude
  import opened Zboot
  import opened Storage

  datatype DownloaderStatus = DownloaderStatus(
    refCount: nat, expired: bool, state: SwState, pending: bool, progress: nat, failed: bool)

  datatype VerifierStatus = VerifierStatus(
    sha: string, state: SwState, pending: bool, failed: bool, refCount: nat, expired: bool)

  /** The verifier's reports, by safename. */
  type Reports = map<string, VerifierStatus>

  /** The files from which images are installed. */
  datatype File = PendingFile(safename: string) | VerifiedFile(sha: string, safename: string)

  /**
   What the manager finds on the device: the files with the version of the image in each, the
   partitions that have a device, and the images whose certificates are installed or, for
   certificates, which are in their directory already.
   */
  datatype Host = Host(
    files: map<File, string>, devices: set<Partition>, certified: set<string>, placed: set<string>)

  /** Everything that the manager is told. */
  datatype Facts = Facts(
    downloader: map<(ObjType, string), DownloaderStatus>,
    verifier: Reports,
    datastores: set<string>,
    host: Host)

  function SafenameFor(sc: Config): string {
    Safename(sc.name, sc.sha)
  }

  // ---------- how far all images together are ----------

  /** What an image does to the state of the whole. */
  datatype Mark = Overwrite(state: SwState) | Lower(state: SwState) | Skip

  function Marked(m: SwState, mark: Mark): SwState {
    match mark
    case Overwrite(s) => s
    case Lower(s) => if m > s then s else m
    case Skip => m
  }

  datatype Effect = Effect(mark: Mark, changed: bool, failed: bool, waiting: bool, missing: bool)

  /** What a look at all images of a configuration yields. */
  datatype Ret = Ret(changed: bool, minState: SwState, waitingForCerts: bool, missingDatastore: bool, failed: bool)

  const NOTHING := Ret(false, MAXSTATE, false, false, false)

  function Absorb(r: Ret, e: Effect): Ret {
    Ret(r.changed || e.changed, Marked(r.minState, e.mark), r.waitingForCerts || e.waiting,
        r.missingDatastore || e.missing, r.failed || e.failed)
  }

  function Summary(effects: seq<Effect>): Ret {
    if effects == [] then NOTHING
    else Absorb(Summary(effects[..|effects| - 1]), effects[|effects| - 1])
  }

  lemma SummaryGrows(effects: seq<Effect>, e: Effect)
    ensures Summary(effects + [e]) == Absorb(Summary(effects), e)
  {
    assert (effects + [e])[..|effects|] == effects;
  }

  /** The image holds the whole back below `k`. */
  predicate Short(e: Effect, k: SwState) {
    !e.mark.Skip? && e.mark.state < k
  }

  /** The image lifts the whole to `k`, whatever the images ahead of it say. */
  predicate Lifts(e: Effect, k: SwState) {
    e.mark.Overwrite? && e.mark.state >= k
  }

  predicate Lifted(effects: seq<Effect>, i: nat, k: SwState) {
    exists j :: i < j < |effects| && Lifts(effects[j], k)
  }

  /** Every image that is short of `k` has a later one that lifts the whole to it. */
  predicate AllLifted(effects: seq<Effect>, k: SwState) {
    forall i :: 0 <= i < |effects| && Short(effects[i], k) ==> Lifted(effects, i, k)
  }

  /**
   The state of the whole is no minimum: it reaches `k` if and only if every image that is
   short of it has a later one that overwrites it.
   */
  lemma {:induction false} ReachesExactly(effects: seq<Effect>, k: SwState)
    requires k <= MAXSTATE
    ensures Summary(effects).minState >= k <==> AllLifted(effects, k)
  {
    if effects != [] {
      var n := |effects| - 1;
      ReachesExactly(effects[..n], k);
      if Lifts(effects[n], k) {
        assert forall i :: 0 <= i < n ==> Lifted(effects, i, k);
      } else if Short(effects[n], k) {
        assert !Lifted(effects, n, k);
      } else {
        SameLifts(effects, k);
      }
    }
  }

  /** A last image that neither holds back nor lifts makes no difference. */
  lemma SameLifts(effects: seq<Effect>, k: SwState)
    requires effects != [] && !Lifts(effects[|effects| - 1], k) && !Short(effects[|effects| - 1], k)
    ensures AllLifted(effects[..|effects| - 1], k) <==> AllLifted(effects, k)
  {
    var n := |effects| - 1;
    var init := effects[..n];
    forall i | 0 <= i < n ensures Lifted(init, i, k) <==> Lifted(effects, i, k) {
      if j :| i < j < n && Lifts(init[j], k) { assert Lifts(effects[j], k); }
      if j :| i < j < |effects| && Lifts(effects[j], k) { assert Lifts(init[j], k); }
    }
    assert forall i :: 0 <= i < n ==> init[i] == effects[i];
  }

  lemma {:induction false} SummaryFails(effects: seq<Effect>)
    ensures Summary(effects).failed <==> exists i :: 0 <= i < |effects| && effects[i].failed
    ensures Summary(effects).waitingForCerts <==> exists i :: 0 <= i < |effects| && effects[i].waiting
    ensures Summary(effects).changed <==> exists i :: 0 <= i < |effects| && effects[i].changed
    ensures Summary(effects).missingDatastore <==> exists i :: 0 <= i < |effects| && effects[i].missing
  {
    if effects != [] {
      SummaryFails(effects[..|effects| - 1]);
    }
  }

  // ---------- the verifier's reports ----------

  /** A look-up goes by the safename, or else finds some report with the checksum. */
  ghost predicate Finds(reports: Reports, safename: string, sha: string, r: Option<VerifierStatus>) {
    if safename in reports then r == Some(reports[safename])
    else if r.Some? then exists k :: k in reports && reports[k] == r.value && r.value.sha == sha
    else forall k :: k in reports ==> reports[k].sha != sha
  }

  /** The verifier reports the image delivered, with no error and nothing pending. */
  ghost predicate Reported(reports: Reports, ss: Status) {
    exists k :: k in reports && (k == SafenameOf(ss) || reports[k].sha == ss.sha)
      && !reports[k].pending && !reports[k].failed && reports[k].state == DELIVERED
  }

  // ---------- download ----------

  /** Which way an image goes when its download is looked at. */
  datatype Way = Ready | InPlace | Proven | NoStore | Fetch

  function WayOf(facts: Facts, obj: ObjType, sc: Config, ss: Status, found: Option<VerifierStatus>): Way {
    if ss.state == INSTALLED then Ready
    else if obj.CertObj? && ss.finalDir != NoDir && SafenameFor(sc) in facts.host.placed then InPlace
    else if sc.sha != "" && found.Some? && !found.value.pending && found.value.state == DELIVERED then Proven
    else if !ss.hasDownloaderRef && Storeless(facts, sc) then NoStore
    else Fetch
  }

  predicate Storeless(facts: Facts, sc: Config) {
    sc.datastoreId == "" || sc.datastoreId !in facts.datastores
  }

  function DownloadOf(facts: Facts, obj: ObjType, sc: Config): Option<DownloaderStatus> {
    if (obj, SafenameFor(sc)) in facts.downloader then Some(facts.downloader[(obj, SafenameFor(sc))]) else None
  }

  /** A downloaded image that still needs the verifier. */
  predicate NeedsVerifier(ds: DownloaderStatus, sc: Config, ss: Status) {
    !ds.pending && ds.state == DOWNLOADED && sc.sha != "" && !ss.hasVerifierRef
  }

  function Followed(facts: Facts, obj: ObjType, sc: Config, ss: Status): Status {
    match DownloadOf(facts, obj, sc)
    case None => ss.(state := DOWNLOAD_STARTED)
    case Some(ds) =>
      ss.(state := ds.state, progress := ds.progress,
          hasVerifierRef := ss.hasVerifierRef
            || (NeedsVerifier(ds, sc, ss) && SafenameFor(sc) in facts.host.certified))
  }

  function FollowEffect(facts: Facts, obj: ObjType, sc: Config, ss: Status): Effect {
    match DownloadOf(facts, obj, sc)
    case None => Effect(Overwrite(DOWNLOAD_STARTED), true, false, false, false)
    case Some(ds) =>
      var needs, certified := NeedsVerifier(ds, sc, ss), SafenameFor(sc) in facts.host.certified;
      var fails := !ds.pending && ds.failed;
      Effect(Lower(ds.state),
             ds.state != ss.state || ds.progress != ss.progress || fails || (needs && certified),
             fails, needs && !certified, false)
  }

  /** The image once its download has been looked at. */
  function Downloaded(facts: Facts, obj: ObjType, sc: Config, ss: Status, found: Option<VerifierStatus>): Status {
    match WayOf(facts, obj, sc, ss, found)
    case Ready => ss
    case InPlace => ss
    case Proven =>
      ss.(hasVerifierRef := true, state := DELIVERED,
          progress := if ss.state == DELIVERED then ss.progress else 100)
    case NoStore => AfterFetch(facts, obj, sc, ss)
    case Fetch => AfterFetch(facts, obj, sc, ss)
  }

  function AfterFetch(facts: Facts, obj: ObjType, sc: Config, ss: Status): Status {
    if !ss.hasDownloaderRef && Storeless(facts, sc) then ss.(missingDatastore := true)
    else Followed(facts, obj, sc, Referring(ss))
  }

  function FetchEffect(facts: Facts, obj: ObjType, sc: Config, ss: Status): Effect {
    if !ss.hasDownloaderRef && Storeless(facts, sc) then Effect(Skip, true, true, false, true)
    else
      var e := FollowEffect(facts, obj, sc, Referring(ss));
      e.(changed := e.changed || !ss.hasDownloaderRef)
  }

  /** The image with a reference against the downloader. */
  function Referring(ss: Status): Status {
    if ss.hasDownloaderRef then ss else ss.(hasDownloaderRef := true, missingDatastore := false)
  }

  predicate TakesRef(facts: Facts, obj: ObjType, sc: Config, ss: Status, found: Option<VerifierStatus>) {
    WayOf(facts, obj, sc, ss, found).Fetch? && !ss.hasDownloaderRef
  }

  function DownloadEffect(facts: Facts, obj: ObjType, sc: Config, ss: Status, found: Option<VerifierStatus>): Effect {
    match WayOf(facts, obj, sc, ss, found)
    case Ready => Effect(Overwrite(INSTALLED), false, false, false, false)
    case InPlace => Effect(Overwrite(INSTALLED), false, false, false, false)
    case Proven => Effect(Lower(DELIVERED), !ss.hasVerifierRef || ss.state != DELIVERED, false, false, false)
    case NoStore => FetchEffect(facts, obj, sc, ss)
    case Fetch => FetchEffect(facts, obj, sc, ss)
  }

  /** The report was looked up, if the image comes that far. */
  ghost predicate LookedForDownload(
    facts: Facts, obj: ObjType, sc: Config, ss: Status, found: Option<VerifierStatus>)
  {
    sc.sha != "" && ss.state != INSTALLED && !WayOf(facts, obj, sc, ss, found).InPlace? ==>
      Finds(facts.verifier, SafenameFor(sc), sc.sha, found)
  }

  function DownloadedAll(
    facts: Facts, obj: ObjType, configs: seq<Config>, list: seq<Status>, found: seq<Option<VerifierStatus>>
  ): seq<Status>
    requires |found| <= |configs| && |found| <= |list|
  {
    seq(|list|, i requires 0 <= i < |list| =>
      if i < |found| then Downloaded(facts, obj, configs[i], list[i], found[i]) else list[i])
  }

  function DownloadEffects(
    facts: Facts, obj: ObjType, configs: seq<Config>, list: seq<Status>, found: seq<Option<VerifierStatus>>
  ): seq<Effect>
    requires |found| <= |configs| && |found| <= |list|
  {
    seq(|found|, i requires 0 <= i < |found| => DownloadEffect(facts, obj, configs[i], list[i], found[i]))
  }

  function DownloadRet(effects: seq<Effect>): Ret {
    var r := Summary(effects);
    if r.minState == MAXSTATE then r.(minState := DOWNLOADED, changed := true) else r
  }

  lemma DownloadGrows(
    facts: Facts, obj: ObjType, configs: seq<Config>, list: seq<Status>,
    found: seq<Option<VerifierStatus>>, f: Option<VerifierStatus>)
    requires |found| < |configs| && |found| < |list|
    ensures DownloadEffects(facts, obj, configs, list, found + [f])
            == DownloadEffects(facts, obj, configs, list, found)
               + [DownloadEffect(facts, obj, configs[|found|], list[|found|], f)]
    ensures DownloadedAll(facts, obj, configs, list, found + [f])
            == DownloadedAll(facts, obj, configs, list, found)[
                 |found| := Downloaded(facts, obj, configs[|found|], list[|found|], f)]
  {
  }

  lemma DownloadNothing(facts: Facts, obj: ObjType, configs: seq<Config>, list: seq<Status>)
    ensures DownloadedAll(facts, obj, configs, list, []) == list
  {
  }

  lemma DownloadKeepsName(facts: Facts, obj: ObjType, sc: Config, ss: Status, found: Option<VerifierStatus>)
    ensures var r := Downloaded(facts, obj, sc, ss, found); r.name == ss.name && r.sha == ss.sha
  {
  }

  /** Where nothing is reported as changed, no reference was taken. */
  lemma UnchangedSameRefs(
    facts: Facts, obj: ObjType, configs: seq<Config>, list: seq<Status>, found: seq<Option<VerifierStatus>>)
    requires |found| <= |configs| && |found| <= |list|
    requires !Summary(DownloadEffects(facts, obj, configs, list, found)).changed
    ensures SameRefs(list, DownloadedAll(facts, obj, configs, list, found))
  {
    var effects := DownloadEffects(facts, obj, configs, list, found);
    var r := DownloadedAll(facts, obj, configs, list, found);
    SummaryFails(effects);
    forall i | 0 <= i < |list| ensures EntryOf(list[i]) == EntryOf(r[i]) {
      if i < |found| { assert !effects[i].changed; }
    }
    SameRefsAt(list, r);
  }

  predicate DownloadsDone(r: Ret) {
    !r.failed && r.minState >= DOWNLOADED && !r.waitingForCerts
  }

  // ---------- verification ----------

  /** The verifier has nothing to say of the image, or nothing good enough. */
  predicate Unshown(ss: Status, found: Option<VerifierStatus>) {
    ss.state != INSTALLED && (found.None? || found.value.pending || found.value.state < DELIVERED)
  }

  predicate Faulty(ss: Status, found: Option<VerifierStatus>) {
    ss.state != INSTALLED && found.Some? && !found.value.pending && found.value.failed
  }

  function Verified(ss: Status, found: Option<VerifierStatus>): Status {
    if ss.state == INSTALLED || found.None? || found.value.pending then ss else ss.(state := found.value.state)
  }

  function VerifyEffect(ss: Status, found: Option<VerifierStatus>): Effect {
    if ss.state == INSTALLED then Effect(Overwrite(INSTALLED), false, false, false, false)
    else if found.None? || found.value.pending then Effect(Overwrite(DOWNLOADED), false, false, false, false)
    else
      var vs := found.value;
      Effect(Lower(vs.state), vs.state != ss.state || vs.failed || vs.state != INITIAL, vs.failed, false, false)
  }

  function VerifiedAll(list: seq<Status>, found: seq<Option<VerifierStatus>>): seq<Status>
    requires |found| <= |list|
  {
    seq(|list|, i requires 0 <= i < |list| => if i < |found| then Verified(list[i], found[i]) else list[i])
  }

  function VerifyEffects(list: seq<Status>, found: seq<Option<VerifierStatus>>): seq<Effect>
    requires |found| <= |list|
  {
    seq(|found|, i requires 0 <= i < |found| => VerifyEffect(list[i], found[i]))
  }

  lemma VerifyGrows(list: seq<Status>, found: seq<Option<VerifierStatus>>, f: Option<VerifierStatus>)
    requires |found| < |list|
    ensures VerifyEffects(list, found + [f]) == VerifyEffects(list, found) + [VerifyEffect(list[|found|], f)]
    ensures VerifiedAll(list, found + [f]) == VerifiedAll(list, found)[|found| := Verified(list[|found|], f)]
  {
  }

  lemma VerifyNothing(list: seq<Status>)
    ensures VerifiedAll(list, []) == list
  {
  }

  lemma VerifiedSameRefs(list: seq<Status>, found: seq<Option<VerifierStatus>>)
    requires |found| <= |list|
    ensures SameRefs(list, VerifiedAll(list, found))
  {
    SameRefsAt(list, VerifiedAll(list, found));
  }

  function VerifyRet(effects: seq<Effect>): Ret {
    var r := Summary(effects);
    if r.minState == MAXSTATE then r.(minState := DELIVERED) else r
  }

  /** All images were looked up that are not installed yet. */
  ghost predicate LookedForVerifier(
    reports: Reports, configs: seq<Config>, list: seq<Status>, found: seq<Option<VerifierStatus>>)
    requires |found| == |configs| <= |list|
  {
    forall i :: 0 <= i < |found| && list[i].state != INSTALLED ==>
      Finds(reports, SafenameFor(configs[i]), configs[i].sha, found[i])
  }

  /** A later image is installed already. */
  predicate Overshadowed(list: seq<Status>, i: nat, n: nat)
    requires n <= |list|
  {
    exists j :: i < j < n && list[j].state == INSTALLED
  }

  /** No report is a failure, and an image without a good report has an installed one behind it. */
  predicate GoesAhead(list: seq<Status>, found: seq<Option<VerifierStatus>>)
    requires |found| <= |list|
  {
    && (forall i :: 0 <= i < |found| ==> !Faulty(list[i], found[i]))
    && (forall i :: 0 <= i < |found| && Unshown(list[i], found[i]) ==> Overshadowed(list, i, |found|))
  }

  /** The verification lets an installation go ahead if and only if this holds. */
  lemma GoesAheadExactly(list: seq<Status>, found: seq<Option<VerifierStatus>>)
    requires |found| <= |list|
    ensures var r := VerifyRet(VerifyEffects(list, found));
            r.minState >= DELIVERED && !r.failed <==> GoesAhead(list, found)
  {
    var effects := VerifyEffects(list, found);
    ReachesExactly(effects, DELIVERED);
    SummaryFails(effects);
    assert forall i :: 0 <= i < |found| ==> effects[i].failed == Faulty(list[i], found[i]);
    forall i | 0 <= i < |found|
      ensures Lifted(effects, i, DELIVERED) <==> Overshadowed(list, i, |found|)
    {
      if j :| i < j < |effects| && Lifts(effects[j], DELIVERED) { assert list[j].state == INSTALLED; }
      if j :| i < j < |found| && list[j].state == INSTALLED { assert Lifts(effects[j], DELIVERED); }
    }
    assert forall i :: 0 <= i < |found| ==> Short(effects[i], DELIVERED) == Unshown(list[i], found[i]);
  }

  // ---------- installation ----------

  /** An image that an installation copies, if it finds the file and a place for it. */
  predicate Installable(ss: Status) {
    ss.state == DELIVERED || (ss.state == DOWNLOADED && ss.sha == "")
  }

  function SourceOf(ss: Status): File {
    if ss.state == DELIVERED then VerifiedFile(ss.sha, SafenameOf(ss)) else PendingFile(SafenameOf(ss))
  }

  predicate Installs(host: Host, p: Partition, ss: Status) {
    Installable(ss) && SourceOf(ss) in host.files && ss.finalDir == PartitionDir(p) && p in host.devices
  }

  function Installed(host: Host, p: Partition, ss: Status): Status {
    if Installs(host, p, ss) then ss.(state := INSTALLED) else ss
  }

  function InstalledAll(host: Host, p: Partition, list: seq<Status>): seq<Status> {
    seq(|list|, i requires 0 <= i < |list| => Installed(host, p, list[i]))
  }

  predicate AllInstalled(list: seq<Status>) {
    forall i :: 0 <= i < |list| ==> list[i].state == INSTALLED
  }

  /** The version in the partition after the first `n` images. */
  function VersionAfter(host: Host, p: Partition, list: seq<Status>, n: nat, version: string): string
    requires n <= |list|
  {
    if n == 0 then version
    else if Installs(host, p, list[n - 1]) then host.files[SourceOf(list[n - 1])]
    else VersionAfter(host, p, list, n - 1, version)
  }

  /** What a partition was when an installation started: its state, its version, and the one published. */
  datatype Former = Former(state: PartitionState, version: string, published: string)

  /** What a configuration asks for: a version, and so many images. */
  datatype Wish = Wish(version: string, count: nat)

  /**
   An image write: the table at that moment, the partition written, what it was when the
   installation started, all images of the status, which of them is written, what the
   configuration asks for, whether the verifier reports the image delivered, and whether the
   installation leaves no image behind.
   */
  datatype Write = Write(
    table: Table, target: Partition, before: Former, images: seq<Status>, at: nat,
    configured: Wish, verified: bool, whole: bool)

  /** The write of the image at `i`. */
  ghost function WriteAt(
    facts: Facts, table: Table, before: Former, images: seq<Status>, configured: Wish, i: nat
  ): Write
    requires i < |images|
  {
    var p := Other(table.current);
    Write(table, p, before, images, i, configured, Reported(facts.verifier, images[i]),
          AllInstalled(InstalledAll(facts.host, p, images)))
  }

  /** What an installation of the first `n` images writes. */
  ghost function WritesOf(
    facts: Facts, table: Table, before: Former, images: seq<Status>, configured: Wish, n: nat
  ): seq<Write>
    requires n <= |images|
  {
    if n == 0 then []
    else
      WritesOf(facts, table, before, images, configured, n - 1)
      + if Installs(facts.host, Other(table.current), images[n - 1])
        then [WriteAt(facts, table, before, images, configured, n - 1)]
        else []
  }

  /** An image that would be installed although the verifier does not report it delivered. */
  ghost predicate Unproven(reports: Reports, ss: Status) {
    Installable(ss) && !Reported(reports, ss)
  }

  /** Only images beyond the configuration, or ahead of an installed one, may be unproven. */
  ghost predicate Accounted(reports: Reports, list: seq<Status>, n: nat)
    requires n <= |list|
  {
    forall i :: 0 <= i < |list| && Unproven(reports, list[i]) ==> n <= i || Overshadowed(list, i, n)
  }

  lemma ShownIsReported(reports: Reports, sc: Config, ss: Status, found: Option<VerifierStatus>)
    requires sc.name == ss.name && sc.sha == ss.sha && ss.state != INSTALLED
    requires Finds(reports, SafenameFor(sc), sc.sha, found)
    requires !Unshown(ss, found) && !Faulty(ss, found)
    ensures !Unproven(reports, Verified(ss, found))
  {
    if found.value.state == DELIVERED {
      var k :| k in reports && reports[k] == found.value && (k == SafenameFor(sc) || found.value.sha == sc.sha);
    }
  }

  /**
   When the verification lets an installation go ahead, an image that the verifier has not
   delivered is up for installation if and only if the status has one beyond the configuration,
   or one without a good report ahead of an image that is installed already.
   */
  lemma UnprovenExactly(
    reports: Reports, configs: seq<Config>, list: seq<Status>, found: seq<Option<VerifierStatus>>)
    requires Matching(configs, list) && |found| == |configs|
    requires LookedForVerifier(reports, configs, list, found) && GoesAhead(list, found)
    ensures Accounted(reports, VerifiedAll(list, found), |configs|)
    ensures
      (exists i :: 0 <= i < |list| && Unproven(reports, VerifiedAll(list, found)[i]))
      <==>
      || (exists i :: |configs| <= i < |list| && Unproven(reports, list[i]))
      || (exists i :: 0 <= i < |configs| && Unshown(list[i], found[i]) && Overshadowed(list, i, |configs|)
                      && Unproven(reports, Verified(list[i], found[i])))
  {
    var r := VerifiedAll(list, found);
    forall i | 0 <= i < |configs| && Unproven(reports, r[i])
      ensures Unshown(list[i], found[i]) && Overshadowed(list, i, |configs|) && Overshadowed(r, i, |configs|)
    {
      if !Unshown(list[i], found[i]) {
        ShownIsReported(reports, configs[i], list[i], found[i]);
        assert false;
      }
      var j :| i < j < |configs| && list[j].state == INSTALLED;
      assert r[j].state == INSTALLED;
    }
    if i :| 0 <= i < |configs| && Unshown(list[i], found[i]) && Overshadowed(list, i, |configs|)
            && Unproven(reports, Verified(list[i], found[i])) {
      assert Unproven(reports, r[i]);
    }
    if i :| |configs| <= i < |list| && Unproven(reports, list[i]) {
      assert Unproven(reports, r[i]);
    }
  }

  /** A write of one of the first `n` images, which is installed. */
  ghost predicate IsWrite(
    facts: Facts, table: Table, before: Former, images: seq<Status>, configured: Wish, n: nat, w: Write)
    requires n <= |images|
  {
    && w.at < n
    && Installs(facts.host, Other(table.current), images[w.at])
    && w == WriteAt(facts, table, before, images, configured, w.at)
  }

  /** Every write is of an image that is installed. */
  lemma {:induction false} WriteInstalls(
    facts: Facts, table: Table, before: Former, images: seq<Status>, configured: Wish, n: nat, k: nat)
    requires n <= |images| && k < |WritesOf(facts, table, before, images, configured, n)|
    ensures IsWrite(facts, table, before, images, configured, n,
                    WritesOf(facts, table, before, images, configured, n)[k])
  {
    if k < |WritesOf(facts, table, before, images, configured, n - 1)| {
      WriteInstalls(facts, table, before, images, configured, n - 1, k);
    }
  }

  /** Every image that is installed is written. */
  lemma {:induction false} InstallWrites(
    facts: Facts, table: Table, before: Former, images: seq<Status>, configured: Wish, n: nat, i: nat)
    returns (k: nat)
    requires i < n <= |images| && Installs(facts.host, Other(table.current), images[i])
    ensures k < |WritesOf(facts, table, before, images, configured, n)|
    ensures WritesOf(facts, table, before, images, configured, n)[k].at == i
  {
    if i < n - 1 {
      k := InstallWrites(facts, table, before, images, configured, n - 1, i);
    } else {
      k := |WritesOf(facts, table, before, images, configured, n - 1)|;
    }
  }

  /** An image that was never delivered is written if and only if one is installed unproven. */
  lemma UnverifiedWriteExactly(
    facts: Facts, table: Table, before: Former, images: seq<Status>, configured: Wish)
    ensures var ws := WritesOf(facts, table, before, images, configured, |images|);
      (exists k :: 0 <= k < |ws| && !ws[k].verified) <==>
      (exists i :: 0 <= i < |images| && Installs(facts.host, Other(table.current), images[i])
                   && Unproven(facts.verifier, images[i]))
  {
    var ws := WritesOf(facts, table, before, images, configured, |images|);
    if k :| 0 <= k < |ws| && !ws[k].verified {
      WriteInstalls(facts, table, before, images, configured, |images|, k);
      assert Unproven(facts.verifier, images[ws[k].at]);
    }
    if i :| 0 <= i < |images| && Installs(facts.host, Other(table.current), images[i])
            && Unproven(facts.verifier, images[i]) {
      var k := InstallWrites(facts, table, before, images, configured, |images|, i);
      WriteInstalls(facts, table, before, images, configured, |images|, k);
      assert !ws[k].verified;
    }
  }

  /** No image behind it is written. */
  predicate LastWritten(host: Host, p: Partition, list: seq<Status>, i: nat) {
    i < |list| && Installs(host, p, list[i]) && forall j :: i < j < |list| ==> !Installs(host, p, list[j])
  }

  /** The last image that is written brings another version. */
  predicate Renews(host: Host, p: Partition, list: seq<Status>, version: string) {
    exists i :: 0 <= i < |list| && LastWritten(host, p, list, i) && host.files[SourceOf(list[i])] != version
  }

  /** Some image is neither installed already nor written. */
  predicate LeavesBehind(host: Host, p: Partition, list: seq<Status>) {
    exists i :: 0 <= i < |list| && list[i].state != INSTALLED && !Installs(host, p, list[i])
  }

  lemma LeavesBehindExactly(host: Host, p: Partition, list: seq<Status>)
    ensures LeavesBehind(host, p, list) <==> !AllInstalled(InstalledAll(host, p, list))
  {
    var r := InstalledAll(host, p, list);
    if LeavesBehind(host, p, list) {
      var i :| 0 <= i < |list| && list[i].state != INSTALLED && !Installs(host, p, list[i]);
      assert r[i].state != INSTALLED;
    }
  }

  /** The version after the first `n` images is that of the last one written, if there is one. */
  lemma {:induction false} LastBringsVersion(
    host: Host, p: Partition, list: seq<Status>, n: nat, i: nat, version: string)
    requires i < n <= |list| && Installs(host, p, list[i])
    requires forall j :: i < j < n ==> !Installs(host, p, list[j])
    ensures VersionAfter(host, p, list, n, version) == host.files[SourceOf(list[i])]
  {
    if i < n - 1 { LastBringsVersion(host, p, list, n - 1, i, version); }
  }

  lemma {:induction false} LastExists(host: Host, p: Partition, list: seq<Status>, n: nat) returns (i: nat)
    requires n <= |list| && exists j :: 0 <= j < n && Installs(host, p, list[j])
    ensures i < n && Installs(host, p, list[i]) && forall j :: i < j < n ==> !Installs(host, p, list[j])
  {
    if Installs(host, p, list[n - 1]) {
      i := n - 1;
    } else {
      i := LastExists(host, p, list, n - 1);
    }
  }

  /** The version changes if and only if the last image that is written brings another one. */
  lemma RenewsExactly(host: Host, p: Partition, list: seq<Status>, version: string)
    ensures Renews(host, p, list, version) <==> VersionAfter(host, p, list, |list|, version) != version
  {
    if exists j :: 0 <= j < |list| && Installs(host, p, list[j]) {
      var i := LastExists(host, p, list, |list|);
      LastBringsVersion(host, p, list, |list|, i, version);
      assert LastWritten(host, p, list, i);
    } else {
      NothingWritten(host, p, list, |list|, version);
    }
  }

  lemma {:induction false} NothingWritten(host: Host, p: Partition, list: seq<Status>, n: nat, version: string)
    requires n <= |list| && forall i :: 0 <= i < n ==> !Installs(host, p, list[i])
    ensures VersionAfter(host, p, list, n, version) == version
  {
    if n > 0 { NothingWritten(host, p, list, n - 1, version); }
  }
}
