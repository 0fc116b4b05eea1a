/**
 What one look at a base OS configuration does, as a function of what the manager sees: how
 far the status gets, what becomes of the partitions, and which images are written.
 */
module OsUpdate {
  import opened Prelude
  import opened Zboot
  import opened Storage
  import opened Images

  datatype OsConfig = OsConfig(version: string, images: seq<Config>, activate: bool, testComplete: bool)

  datatype OsStatus = OsStatus(
    version: string,
    activated: bool,
    reboot: bool,
    testComplete: bool,
    tooEarly: bool,
    images: seq<Status>,
    part: Option<Partition>,
    state: SwState,
    missingDatastore: bool,
    failed: bool)

  datatype ZbootStatus = ZbootStatus(state: PartitionState, version: string, current: bool)

  /** What the manager is told, the partitions as they are, and what it has published of them. */
  datatype View = View(facts: Facts, table: Table, versions: Versions, cache: map<Partition, ZbootStatus>)

  predicate Complete(v: View) {
    forall p: Partition :: p in v.cache
  }

  function Report(v: View, p: Partition): ZbootStatus {
    ZbootStatus(StateOf(v.table, p), VersionOf(v.versions, p), p == v.table.current)
  }

  function Publish(v: View, p: Partition): View {
    v.(cache := v.cache[p := Report(v, p)])
  }

  /** What is published of a partition is what it is, except perhaps for its version. */
  predicate TrueOf(v: View, p: Partition) {
    && p in v.cache
    && v.cache[p].state == StateOf(v.table, p)
    && v.cache[p].current == (p == v.table.current)
  }

  /** Nothing published is false, except perhaps the version of the other partition. */
  predicate CacheTrue(v: View) {
    && Complete(v)
    && (forall p: Partition :: TrueOf(v, p))
    && v.cache[v.table.current].version == VersionOf(v.versions, v.table.current)
  }

  /** The published version of the other partition is the one it has. */
  predicate Fresh(v: View)
    requires Complete(v)
  {
    v.cache[Other(v.table.current)].version == VersionOf(v.versions, Other(v.table.current))
  }

  lemma FreshIsExact(v: View)
    requires CacheTrue(v) && Fresh(v)
    ensures forall p: Partition :: p in v.cache && v.cache[p] == Report(v, p)
  {
    forall p: Partition ensures v.cache[p] == Report(v, p) { assert TrueOf(v, p); }
  }

  function Running(v: View): string {
    VersionOf(v.versions, v.table.current)
  }

  // ---------- statuses ----------

  /** All images get a state, or a directory, and nothing else changes. */
  function WithProgress(list: seq<Status>, state: SwState): (r: seq<Status>)
    ensures SameRefs(list, r)
  {
    seq(|list|, i requires 0 <= i < |list| => list[i].(state := state, progress := 100))
  }

  function Directed(list: seq<Status>, dir: Dir): (r: seq<Status>)
    ensures SameRefs(list, r)
  {
    seq(|list|, i requires 0 <= i < |list| => list[i].(finalDir := dir))
  }

  function Done(st: OsStatus, state: SwState): OsStatus {
    st.(state := state, images := WithProgress(st.images, state))
  }

  function Assigned(st: OsStatus, p: Partition): OsStatus {
    st.(part := Some(p), images := Directed(st.images, PartitionDir(p)))
  }

  /** The same version in the same place, with the same references. */
  predicate SameOs(a: OsStatus, b: OsStatus) {
    a.version == b.version && a.part == b.part && SameRefs(a.images, b.images)
  }

  predicate SamePlace(a: OsStatus, b: OsStatus) {
    a.version == b.version && a.part == b.part
  }

  /** A status is assigned to the running partition exactly if that runs its version. */
  predicate LabelOk(v: View, st: OsStatus) {
    st.part.Some? ==> (st.part.value == v.table.current <==> st.version == Running(v))
  }

  /** Whether the version is running, and whether that is more than a test. */
  function Activation(v: View, st: OsStatus): OsStatus
    requires Complete(v)
  {
    st.(activated := st.part.Some? && v.cache[st.part.value].current && v.cache[v.table.current].state.Active?)
  }

  /** The version may be in the other partition already. */
  function Noted(v: View, st: OsStatus): (r: OsStatus)
    ensures |r.images| == |st.images| && r.version == st.version
    ensures r.part == if st.part.None? && st.version == VersionOf(v.versions, Other(v.table.current))
                      then Some(Other(v.table.current)) else st.part
  {
    var other := Other(v.table.current);
    if st.part.None? && st.version == VersionOf(v.versions, other)
    then Done(Assigned(st, other), DOWNLOADED).(activated := false)
    else st
  }

  /** Nothing is under test, the other partition is no fallback, and the version has not failed there. */
  predicate MayInstall(v: View, config: OsConfig)
    requires Complete(v)
  {
    var cur, other := v.cache[v.table.current], v.cache[Other(v.table.current)];
    && !(other.state.InProgress? && other.version == config.version)
    && !cur.state.InProgress?
    && !other.state.Active?
  }

  function Refused(v: View, config: OsConfig, st: OsStatus): OsStatus
    requires Complete(v)
  {
    var other := v.cache[Other(v.table.current)];
    if other.state.InProgress? && other.version == config.version then st.(failed := true)
    else st.(tooEarly := true, failed := st.failed || other.version != config.version)
  }

  function Allotted(v: View, config: OsConfig, st: OsStatus): (r: OsStatus)
    ensures |r.images| == |st.images| && r.version == st.version
    ensures r.part == if config.activate && st.part.None? then Some(Other(v.table.current)) else st.part
  {
    if config.activate && st.part.None? then Assigned(st, Other(v.table.current)) else st
  }

  /** The status as it is when its images are looked at. */
  function Placed(v: View, config: OsConfig, was: OsStatus): (r: OsStatus)
    ensures |r.images| == |was.images|
  {
    Allotted(v, config, Noted(v, was))
  }

  // ---------- the images ----------

  /** The verifier's reports that are found for the configured images, in two rounds. */
  datatype Exam = Exam(down: seq<Option<VerifierStatus>>, veri: seq<Option<VerifierStatus>>)

  predicate Fits(config: OsConfig, st: OsStatus, exam: Exam) {
    |exam.down| == |exam.veri| == |config.images| <= |st.images|
  }

  function FetchRet(facts: Facts, config: OsConfig, st: OsStatus, down: seq<Option<VerifierStatus>>): Ret
    requires |down| == |config.images| <= |st.images|
  {
    DownloadRet(DownloadEffects(facts, BaseOsObj, config.images, st.images, down))
  }

  function Fetched(facts: Facts, config: OsConfig, st: OsStatus, down: seq<Option<VerifierStatus>>): (r: OsStatus)
    requires |down| == |config.images| <= |st.images|
    ensures SamePlace(st, r) && r.activated == st.activated && |r.images| == |st.images|
  {
    var r := FetchRet(facts, config, st, down);
    st.(images := DownloadedAll(facts, BaseOsObj, config.images, st.images, down),
        state := r.minState, missingDatastore := r.missingDatastore, failed := st.failed || r.failed)
  }

  function ExamRet(facts: Facts, config: OsConfig, st: OsStatus, exam: Exam): Ret
    requires Fits(config, st, exam)
  {
    VerifyRet(VerifyEffects(Fetched(facts, config, st, exam.down).images, exam.veri))
  }

  function Examined(facts: Facts, config: OsConfig, st: OsStatus, exam: Exam): (r: OsStatus)
    requires Fits(config, st, exam)
    ensures SamePlace(st, r) && r.activated == st.activated && |r.images| == |st.images|
  {
    var f := Fetched(facts, config, st, exam.down);
    if !DownloadsDone(FetchRet(facts, config, st, exam.down)) then f
    else
      var r := ExamRet(facts, config, st, exam);
      f.(images := VerifiedAll(f.images, exam.veri), state := r.minState, failed := f.failed || r.failed)
  }

  /** All images are downloaded, and the verification lets the installation go ahead. */
  predicate Passes(facts: Facts, config: OsConfig, st: OsStatus, exam: Exam)
    requires Fits(config, st, exam)
  {
    && DownloadsDone(FetchRet(facts, config, st, exam.down))
    && GoesAhead(Fetched(facts, config, st, exam.down).images, exam.veri)
  }

  predicate ExamChanges(facts: Facts, config: OsConfig, st: OsStatus, exam: Exam)
    requires Fits(config, st, exam)
  {
    var r := FetchRet(facts, config, st, exam.down);
    r.changed || (DownloadsDone(r) && ExamRet(facts, config, st, exam).changed)
  }

  /** The reports of an examination are those that are there. */
  ghost predicate Looked(facts: Facts, config: OsConfig, st: OsStatus, exam: Exam) {
    && Fits(config, st, exam)
    && (forall i :: 0 <= i < |config.images| ==>
          LookedForDownload(facts, BaseOsObj, config.images[i], st.images[i], exam.down[i]))
    && (DownloadsDone(FetchRet(facts, config, st, exam.down)) ==>
          LookedForVerifier(facts.verifier, config.images, Fetched(facts, config, st, exam.down).images, exam.veri))
  }

  // ---------- the whole ----------

  /**
   What comes of it: the status and whether it is reported as changed, what is published of
   it on the way, the partitions and what is published of them, the tables in between, and
   the images written.
   */
  datatype Turn = Turn(
    st: OsStatus, changed: bool, shown: Option<OsStatus>, after: View, tables: seq<Table>, writes: seq<Write>)

  function Unmoved(v: View, st: OsStatus, changed: bool): Turn {
    Turn(st, changed, None, v, [], [])
  }

  /** The other partition is marked for the update, and that is published. */
  function Prepared(v: View): View {
    var other := Other(v.table.current);
    Publish(v.(table := WithState(v.table, other, Updating)), other)
  }

  /** The images are written; once all are there the version is published. */
  function Rewritten(v: View, images: seq<Status>): View {
    var other := Other(v.table.current);
    var version := VersionAfter(v.facts.host, other, images, |images|, VersionOf(v.versions, other));
    var w := v.(versions := WithVersion(v.versions, other, version));
    if AllInstalled(InstalledAll(v.facts.host, other, images)) then Publish(w, other) else w
  }

  function Written(host: Host, p: Partition, st: OsStatus): OsStatus {
    var images := InstalledAll(host, p, st.images);
    if AllInstalled(images) then Assigned(Done(st.(images := images), INSTALLED), p) else st.(images := images)
  }

  function RebootAsked(st: OsStatus): OsStatus {
    st.(reboot := st.reboot || st.state == INSTALLED)
  }

  function WishOf(config: OsConfig): Wish {
    Wish(config.version, |config.images|)
  }

  function FormerOf(v: View, p: Partition): Former {
    Former(StateOf(v.table, p), VersionOf(v.versions, p), if p in v.cache then v.cache[p].version else "")
  }

  /** The other partition is prepared, the images are written into it and a reboot is asked for. */
  ghost function Overwritten(v: View, configured: Wish, st: OsStatus): (t: Turn)
    ensures SamePlace(t.st, st.(part := Some(Other(v.table.current))))
    ensures t.shown.Some? && SamePlace(t.shown.value, t.st)
  {
    var other := Other(v.table.current);
    var ready, placed := Prepared(v), Assigned(st, other);
    var images := InstalledAll(v.facts.host, other, placed.images);
    var written := Written(v.facts.host, other, placed);
    Turn(RebootAsked(written),
         AllInstalled(images) || RebootAsked(written) != written,
         Some(if AllInstalled(images) then written else placed),
         Rewritten(ready, placed.images),
         [ready.table],
         WritesOf(v.facts, ready.table, FormerOf(v, other), placed.images, configured, |placed.images|))
  }

  ghost function ActivateTurn(v: View, configured: Wish, st: OsStatus): (t: Turn)
    requires Complete(v)
    ensures SamePlace(t.st, st) && (t.shown.Some? ==> SamePlace(t.shown.value, st))
  {
    var other := Other(v.table.current);
    if st.part != Some(other) then Unmoved(v, st, false)
    else if v.cache[other].state.Active? then Unmoved(v, st.(failed := true), true)
    else Overwritten(v, configured, st)
  }

  /** The status has been looked at; its images are installed if it has passed and is to be activated. */
  ghost function FinishTurn(v: View, config: OsConfig, st: OsStatus, changed: bool, passes: bool): (t: Turn)
    requires Complete(v)
    ensures SamePlace(t.st, st) && (t.shown.Some? ==> SamePlace(t.shown.value, st))
  {
    if !passes then Unmoved(v, st, changed)
    else if !config.activate then Unmoved(v, st, changed || st.activated)
    else if st.activated then Unmoved(v, st, changed)
    else ActivateTurn(v, WishOf(config), st)
  }

  ghost function InstallTurn(v: View, config: OsConfig, st: OsStatus, exam: Exam, changed: bool): (t: Turn)
    requires Complete(v) && Fits(config, st, exam)
    ensures SamePlace(t.st, st) && (t.shown.Some? ==> SamePlace(t.shown.value, st))
  {
    FinishTurn(v, config, Examined(v.facts, config, st, exam),
               changed || ExamChanges(v.facts, config, st, exam), Passes(v.facts, config, st, exam))
  }

  /** The examination is of the images the configuration and the status agree on. */
  predicate Sized(config: OsConfig, st: OsStatus, exam: Exam) {
    Matching(config.images, st.images) ==> Fits(config, st, exam)
  }

  /** What the attempt to install comes to, before anything is written. */
  ghost predicate InstallResult(
    v: View, config: OsConfig, was: OsStatus, exam: Exam, st: OsStatus, changed: bool, passes: bool)
    requires Complete(v)
  {
    && Sized(config, was, exam)
    && if !Matching(config.images, was.images) then st == was.(failed := true) && changed && !passes
       else if !MayInstall(v, config) then st == Refused(v, config, was) && changed && !passes
       else
         var placed := Allotted(v, config, was);
         && Looked(v.facts, config, placed, exam)
         && st == Examined(v.facts, config, placed, exam)
         && passes == Passes(v.facts, config, placed, exam)
         && changed == (placed.part != was.part || ExamChanges(v.facts, config, placed, exam))
  }

  lemma InstallFinishes(
    v: View, config: OsConfig, was: OsStatus, exam: Exam, noted: bool, st: OsStatus, changed: bool, passes: bool)
    requires Complete(v) && InstallResult(v, config, was, exam, st, changed, passes)
    ensures Sized(config, was, exam)
    ensures NotedTurn(v, config, was, exam, noted) == FinishTurn(v, config, st, noted || changed, passes)
    ensures Matching(config.images, was.images) && MayInstall(v, config) ==>
      Looked(v.facts, config, Allotted(v, config, was), exam)
    ensures passes && config.activate && was.part.Some? ==> st.part == was.part
    ensures passes && config.activate && was.part.None? ==> st.part == Some(Other(v.table.current))
  {
  }

  /** Where a status is assigned after a turn. */
  function PartAfter(v: View, config: OsConfig, was: OsStatus): Option<Partition>
    requires Complete(v)
  {
    if was.version == Running(v) then Some(v.table.current)
    else if was.part.Some? then was.part
    else if was.version == VersionOf(v.versions, Other(v.table.current)) then Some(Other(v.table.current))
    else if Reaches(v, config, was) && config.activate then Some(Other(v.table.current))
    else None
  }

  /** A version that is not running yet, and may be in the other partition. */
  ghost function NotedTurn(v: View, config: OsConfig, noted: OsStatus, exam: Exam, changed: bool): (t: Turn)
    requires Complete(v) && Sized(config, noted, exam)
    ensures t.st.version == noted.version
    ensures t.st.part ==
            if noted.part.None? && Matching(config.images, noted.images) && MayInstall(v, config) && config.activate
            then Some(Other(v.table.current)) else noted.part
    ensures t.shown.Some? ==> SamePlace(t.shown.value, t.st)
  {
    if !Matching(config.images, noted.images) then Unmoved(v, noted.(failed := true), true)
    else if !MayInstall(v, config) then Unmoved(v, Refused(v, config, noted), true)
    else
      var st := Allotted(v, config, noted);
      InstallTurn(v, config, st, exam, changed || st.part != noted.part)
  }

  ghost function TurnOf(v: View, config: OsConfig, was: OsStatus, exam: Exam): (t: Turn)
    requires Complete(v) && Sized(config, was, exam)
    ensures t.st.version == was.version && t.st.part == PartAfter(v, config, was)
    ensures t.shown.Some? ==> SamePlace(t.shown.value, t.st)
  {
    if was.version == Running(v) then
      Unmoved(v, Done(Assigned(was, v.table.current), INSTALLED).(activated := true), true)
    else
      var noted := Noted(v, was);
      NotedMatching(v, config, was);
      NotedTurn(v, config, noted, exam, noted.part != was.part)
  }

  lemma NotedMatching(v: View, config: OsConfig, st: OsStatus)
    ensures Matching(config.images, Noted(v, st).images) <==> Matching(config.images, st.images)
  {
  }

  /** The images are looked at. */
  predicate Reaches(v: View, config: OsConfig, was: OsStatus)
    requires Complete(v)
  {
    was.version != Running(v) && Matching(config.images, was.images) && MayInstall(v, config)
  }

  /** The examination behind a turn is of the reports that are there. */
  ghost predicate Legit(v: View, config: OsConfig, was: OsStatus, exam: Exam)
    requires Complete(v)
  {
    && Sized(config, was, exam)
    && (Reaches(v, config, was) ==> Looked(v.facts, config, Placed(v, config, was), exam))
  }

  /** A turn that the manager can take. */
  ghost predicate Turns(v: View, config: OsConfig, was: OsStatus, t: Turn)
    requires Complete(v)
  {
    exists exam :: Legit(v, config, was, exam) && t == TurnOf(v, config, was, exam)
  }

  // ---------- what a turn keeps ----------

  /**
   A write into the other partition, which was no fallback and is marked for the update, while
   the running one is active; of a version that has not failed there, unless what is published
   of the partition was out of date; and of a delivered image, unless the image is beyond the
   configuration or ahead of an image that is installed already.
   */
  ghost predicate GoodWrite(w: Write) {
    && w.target == Other(w.table.current)
    && StateOf(w.table, w.target).Updating?
    && !w.before.state.Active?
    && (w.before.state.InProgress? && w.before.version == w.configured.version ==>
          w.before.published != w.before.version)
    && CurrentState(w.table).Active?
    && w.configured.count <= |w.images| && w.at < |w.images|
    && (w.verified || w.configured.count <= w.at || Overshadowed(w.images, w.at, w.configured.count))
  }

  /** Some image was written that the verifier did not report delivered. */
  ghost predicate Unverified(writes: seq<Write>) {
    exists k :: 0 <= k < |writes| && !writes[k].verified
  }

  /** Some installation wrote an image and left another one behind. */
  ghost predicate Partial(writes: seq<Write>) {
    exists k :: 0 <= k < |writes| && !writes[k].whole
  }

  /** What was published of the partition when the installation started was its version. */
  ghost predicate Informed(w: Write) {
    w.before.published == w.before.version
  }

  /** All writes are good, and on true information unless some installation left an image behind. */
  ghost predicate GoodWrites(writes: seq<Write>) {
    && (forall k :: 0 <= k < |writes| ==> GoodWrite(writes[k]))
    && ((forall k :: 0 <= k < |writes| ==> Informed(writes[k])) || Partial(writes))
  }

  lemma GoodWritesGrow(writes: seq<Write>, more: seq<Write>)
    requires GoodWrites(writes) && forall k :: 0 <= k < |more| ==> GoodWrite(more[k])
    requires (forall k :: 0 <= k < |more| ==> Informed(more[k])) || Partial(writes)
    ensures GoodWrites(writes + more)
    ensures Partial(writes) || Partial(more) ==> Partial(writes + more)
  {
    hide GoodWrite, Informed;
    var all := writes + more;
    if k :| 0 <= k < |writes| && !writes[k].whole { assert !all[k].whole; }
    if k :| 0 <= k < |more| && !more[k].whole { assert !all[|writes| + k].whole; }
  }

  /** A version that failed is not written again, unless some installation left an image behind. */
  lemma FailedNotRewritten(writes: seq<Write>)
    requires GoodWrites(writes)
    ensures forall k :: 0 <= k < |writes| ==> GoodWrite(writes[k])
    ensures !Partial(writes) ==>
      forall k :: 0 <= k < |writes| && writes[k].before.state.InProgress? ==>
        writes[k].before.version != writes[k].configured.version
  {
    if !Partial(writes) {
      forall k | 0 <= k < |writes| && writes[k].before.state.InProgress?
        ensures writes[k].before.version != writes[k].configured.version
      {
        assert GoodWrite(writes[k]) && Informed(writes[k]);
      }
    }
  }

  lemma PlacedAccounted(reports: Reports, st: OsStatus, p: Partition, n: nat)
    requires n <= |st.images| && Accounted(reports, st.images, n)
    ensures Accounted(reports, Assigned(st, p).images, n)
  {
    var list := Assigned(st, p).images;
    forall i | 0 <= i < |list| && Unproven(reports, list[i]) ensures n <= i || Overshadowed(list, i, n) {
      assert Unproven(reports, st.images[i]) by {
        assert SafenameOf(list[i]) == SafenameOf(st.images[i]);
      }
      if i < n {
        var j :| i < j < n && st.images[j].state == INSTALLED;
        assert list[j].state == INSTALLED;
      }
    }
  }

  lemma OverwriteIsGood(v: View, configured: Wish, st: OsStatus)
    requires CurrentState(v.table).Active? && !OtherState(v.table).Active?
    requires configured.count <= |st.images| && Accounted(v.facts.verifier, st.images, configured.count)
    requires var was := FormerOf(v, Other(v.table.current));
             !(was.state.InProgress? && was.version == was.published == configured.version)
    ensures var t := Overwritten(v, configured, st); forall k :: 0 <= k < |t.writes| ==> GoodWrite(t.writes[k])
  {
    var t := Overwritten(v, configured, st);
    var other := Other(v.table.current);
    var images := Assigned(st, other).images;
    PlacedAccounted(v.facts.verifier, st, other, configured.count);
    forall k | 0 <= k < |t.writes| ensures GoodWrite(t.writes[k]) {
      WriteInstalls(v.facts, Prepared(v).table, FormerOf(v, other), images, configured, |images|, k);
    }
  }

  lemma OverwriteIsInformed(v: View, configured: Wish, st: OsStatus)
    requires Complete(v)
    ensures var t := Overwritten(v, configured, st);
            Fresh(v) ==> forall k :: 0 <= k < |t.writes| ==> Informed(t.writes[k])
  {
    var t := Overwritten(v, configured, st);
    var other := Other(v.table.current);
    var images := Assigned(st, other).images;
    forall k | 0 <= k < |t.writes| ensures t.writes[k].before == FormerOf(v, other) {
      WriteInstalls(v.facts, Prepared(v).table, FormerOf(v, other), images, configured, |images|, k);
    }
  }

  /**
   The published version is out of date if and only if some image is neither installed already
   nor written, and the last one that is written brings another version.
   */
  lemma StaleExactly(v: View, configured: Wish, st: OsStatus)
    requires Complete(v)
    ensures var t, other := Overwritten(v, configured, st), Other(v.table.current);
      && Complete(t.after)
      && (!Fresh(t.after) <==>
          && LeavesBehind(v.facts.host, other, Directed(st.images, PartitionDir(other)))
          && Renews(v.facts.host, other, Directed(st.images, PartitionDir(other)), VersionOf(v.versions, other)))
  {
    hide LeavesBehind, Renews, Installs;
    var t, other := Overwritten(v, configured, st), Other(v.table.current);
    LeavesBehindExactly(v.facts.host, other, Directed(st.images, PartitionDir(other)));
    RenewsExactly(v.facts.host, other, Directed(st.images, PartitionDir(other)), VersionOf(v.versions, other));
    forall p: Partition ensures p in t.after.cache { assert p in v.cache; }
  }

  lemma StaleIsPartial(v: View, configured: Wish, st: OsStatus)
    requires Complete(v)
    ensures var t := Overwritten(v, configured, st);
            Complete(t.after) && (Fresh(t.after) || Partial(t.writes))
  {
    var t := Overwritten(v, configured, st);
    var other := Other(v.table.current);
    var images := Assigned(st, other).images;
    StaleExactly(v, configured, st);
    if !Fresh(t.after) {
      var i :| 0 <= i < |images| && LastWritten(v.facts.host, other, images, i);
      var k := InstallWrites(v.facts, Prepared(v).table, FormerOf(v, other), images, configured, |images|, i);
      WriteInstalls(v.facts, Prepared(v).table, FormerOf(v, other), images, configured, |images|, k);
      LeavesBehindExactly(v.facts.host, other, images);
      assert !t.writes[k].whole;
    }
  }

  /** What an overwrite keeps of the partitions and of what is published of them. */
  lemma OverwriteKeepsView(v: View, configured: Wish, st: OsStatus)
    requires CacheTrue(v) && CurrentState(v.table).Active?
    ensures var t := Overwritten(v, configured, st);
      && t.after.facts == v.facts && CacheTrue(t.after) && Safe(t.after.table)
      && t.after.table.current == v.table.current && Running(t.after) == Running(v)
      && CurrentState(t.after.table).Active? && t.tables == [t.after.table]
  {
    var t := Overwritten(v, configured, st);
    var other := Other(v.table.current);
    forall p: Partition ensures TrueOf(t.after, p) {
      assert TrueOf(v, p);
      assert p == other || p == v.table.current;
    }
  }

  lemma InstalledSameRefs(host: Host, p: Partition, list: seq<Status>)
    ensures SameRefs(list, InstalledAll(host, p, list))
  {
    SameRefsAt(list, InstalledAll(host, p, list));
  }

  lemma OverwriteKeepsStatus(v: View, configured: Wish, st: OsStatus)
    requires st.part == Some(Other(v.table.current))
    ensures var t := Overwritten(v, configured, st); SameOs(st, t.st) && t.shown.Some? && SameOs(st, t.shown.value)
  {
    InstalledSameRefs(v.facts.host, Other(v.table.current), Assigned(st, Other(v.table.current)).images);
  }

  /** The images of the status are to be written. */
  predicate Installing(v: View, config: OsConfig, st: OsStatus, exam: Exam)
    requires Complete(v) && Fits(config, st, exam)
  {
    && Passes(v.facts, config, st, exam)
    && config.activate && !st.activated
    && st.part == Some(Other(v.table.current)) && !v.cache[Other(v.table.current)].state.Active?
  }

  predicate Still(v: View, t: Turn) {
    t.after == v && t.tables == [] && t.writes == [] && t.shown == None
  }

  lemma InstallTurnMoves(v: View, config: OsConfig, st: OsStatus, exam: Exam, changed: bool)
    requires Complete(v) && Fits(config, st, exam)
    ensures var t := InstallTurn(v, config, st, exam, changed);
            if Installing(v, config, st, exam)
            then t == Overwritten(v, WishOf(config), Examined(v.facts, config, st, exam))
            else Still(v, t)
  {
  }

  /** The turn gets to the installation. */
  predicate Overwrites(v: View, config: OsConfig, was: OsStatus, exam: Exam)
    requires Complete(v) && Sized(config, was, exam)
  {
    Reaches(v, config, was) && Installing(v, config, Placed(v, config, was), exam)
  }

  /** The status with which it gets there. */
  function Candidate(v: View, config: OsConfig, was: OsStatus, exam: Exam): OsStatus
    requires Complete(v) && Matching(config.images, was.images) && Fits(config, was, exam)
  {
    Examined(v.facts, config, Placed(v, config, was), exam)
  }

  /** A turn changes the partitions if and only if it gets to the installation. */
  lemma TurnMoves(v: View, config: OsConfig, was: OsStatus, exam: Exam)
    requires Complete(v) && Sized(config, was, exam)
    ensures var t := TurnOf(v, config, was, exam);
      if Overwrites(v, config, was, exam)
      then t == Overwritten(v, WishOf(config), Candidate(v, config, was, exam))
      else Still(v, t)
  {
    NotedMatching(v, config, was);
    if Reaches(v, config, was) {
      var noted, st := Noted(v, was), Placed(v, config, was);
      InstallTurnMoves(v, config, st, exam, noted.part != was.part || st.part != noted.part);
    }
  }

  /** A status that does not pass is only looked at. */
  lemma TurnHeldBack(v: View, config: OsConfig, was: OsStatus, exam: Exam)
    requires Complete(v) && Sized(config, was, exam) && Reaches(v, config, was)
    requires !Passes(v.facts, config, Placed(v, config, was), exam)
    ensures var t, st := TurnOf(v, config, was, exam), Placed(v, config, was);
      && t.st == Examined(v.facts, config, st, exam) && Still(v, t)
      && (ExamChanges(v.facts, config, st, exam) ==> t.changed)
  {
    hide Passes, Examined, ExamChanges;
    NotedMatching(v, config, was);
  }

  lemma FetchedMatching(facts: Facts, config: OsConfig, st: OsStatus, down: seq<Option<VerifierStatus>>)
    requires |down| == |config.images| && Matching(config.images, st.images)
    ensures Matching(config.images, Fetched(facts, config, st, down).images)
  {
    forall i | 0 <= i < |config.images|
      ensures var r := Fetched(facts, config, st, down).images[i];
              r.name == config.images[i].name && r.sha == config.images[i].sha
    {
      DownloadKeepsName(facts, BaseOsObj, config.images[i], st.images[i], down[i]);
    }
  }

  lemma PlacedMatching(v: View, config: OsConfig, was: OsStatus)
    requires Matching(config.images, was.images)
    ensures Matching(config.images, Placed(v, config, was).images)
  {
  }

  /** An image that is up for installation has passed the verifier, or there is an excuse for it. */
  lemma PassingAccounted(facts: Facts, config: OsConfig, st: OsStatus, exam: Exam)
    requires Matching(config.images, st.images) && Looked(facts, config, st, exam)
    requires Passes(facts, config, st, exam)
    ensures Accounted(facts.verifier, Examined(facts, config, st, exam).images, |config.images|)
  {
    FetchedMatching(facts, config, st, exam.down);
    UnprovenExactly(facts.verifier, config.images, Fetched(facts, config, st, exam.down).images, exam.veri);
  }

  lemma CandidateAccounted(v: View, config: OsConfig, was: OsStatus, exam: Exam)
    requires Complete(v) && Legit(v, config, was, exam) && Overwrites(v, config, was, exam)
    ensures var st := Candidate(v, config, was, exam);
            |config.images| <= |st.images| && Accounted(v.facts.verifier, st.images, |config.images|)
  {
    var st := Placed(v, config, was);
    PlacedMatching(v, config, was);
    PassingAccounted(v.facts, config, st, exam);
  }

  /** What the partitions and the writes owe to a turn. */
  ghost predicate Keeps(v: View, t: Turn) {
    && Complete(t.after)
    && t.after.facts == v.facts
    && (t.tables == [] ==> t.after == v && t.writes == [] && t.shown.None?)
    && (t.tables != [] ==>
          && t.tables == [t.after.table] && CacheTrue(t.after) && CurrentState(t.after.table).Active?
          && t.after.table.current == v.table.current && Running(t.after) == Running(v)
          && (Fresh(t.after) || Partial(t.writes)))
    && (forall k :: 0 <= k < |t.writes| ==> GoodWrite(t.writes[k]))
    && (Complete(v) && Fresh(v) ==> forall k :: 0 <= k < |t.writes| ==> Informed(t.writes[k]))
  }

  /**
   Every turn keeps the partitions safe and what is published of them true, leaves the running
   version alone and writes only what may be written.
   */
  lemma TurnKeeps(v: View, config: OsConfig, was: OsStatus, exam: Exam)
    requires CacheTrue(v) && RunsBootable(v.table) && Legit(v, config, was, exam)
    ensures Keeps(v, TurnOf(v, config, was, exam))
  {
    TurnMoves(v, config, was, exam);
    if Overwrites(v, config, was, exam) {
      var st := Candidate(v, config, was, exam);
      assert TrueOf(v, v.table.current) && TrueOf(v, Other(v.table.current));
      CandidateAccounted(v, config, was, exam);
      OverwriteIsGood(v, WishOf(config), st);
      OverwriteKeepsView(v, WishOf(config), st);
      StaleIsPartial(v, WishOf(config), st);
      OverwriteIsInformed(v, WishOf(config), st);
    }
  }

  /** The image at `i` can be written although the verifier does not report it delivered. */
  ghost predicate Slips(v: View, st: OsStatus, i: nat)
    requires i < |st.images|
  {
    && Installs(v.facts.host, Other(v.table.current), st.images[i].(finalDir := PartitionDir(Other(v.table.current))))
    && !Reported(v.facts.verifier, st.images[i])
  }

  lemma OverwriteUnverified(v: View, configured: Wish, st: OsStatus)
    ensures var t := Overwritten(v, configured, st);
      Unverified(t.writes) <==>
      (exists i :: 0 <= i < |st.images| && Slips(v, st, i))
  {
    var other := Other(v.table.current);
    var images := Assigned(st, other).images;
    UnverifiedWriteExactly(v.facts, Prepared(v).table, FormerOf(v, other), images, configured);
    forall i | 0 <= i < |images|
      ensures Installs(v.facts.host, other, images[i]) && Unproven(v.facts.verifier, images[i]) <==> Slips(v, st, i)
    {
      assert SafenameOf(images[i]) == SafenameOf(st.images[i]);
    }
    if i :| 0 <= i < |st.images| && Slips(v, st, i) {
      assert Installs(v.facts.host, other, images[i]) && Unproven(v.facts.verifier, images[i]);
    }
    if i :| 0 <= i < |images| && Installs(v.facts.host, other, images[i]) && Unproven(v.facts.verifier, images[i]) {
      assert Slips(v, st, i);
    }
  }

  /**
   A turn writes an image that the verifier has not delivered if and only if it gets to the
   installation with one that can be written, beyond the configuration or ahead of an image
   that is installed already.
   */
  lemma UnverifiedExactly(v: View, config: OsConfig, was: OsStatus, exam: Exam)
    requires Complete(v) && Legit(v, config, was, exam)
    ensures var t := TurnOf(v, config, was, exam);
      Unverified(t.writes) <==>
      && Overwrites(v, config, was, exam)
      && var st := Candidate(v, config, was, exam);
         exists i :: 0 <= i < |st.images| && Slips(v, st, i)
           && (|config.images| <= i || Overshadowed(st.images, i, |config.images|))
  {
    TurnMoves(v, config, was, exam);
    if Overwrites(v, config, was, exam) {
      CandidateAccounted(v, config, was, exam);
      OverwriteUnverified(v, WishOf(config), Candidate(v, config, was, exam));
    }
  }
}
