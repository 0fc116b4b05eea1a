/**
 Runs of the base OS manager that end where one would not expect: with an image written that
 nobody verified, with a published version that is out of date, and without a fallback.
 */
module BaseOsRuns {
  import opened Prelude
  import opened Zboot
  import opened Storage
  import opened Images
  import opened OsUpdate
  import opened OsEvents
  import opened BaseOsMgr

  const STORE := "store"
  const FIRST := Config("a", "", STORE)
  const SECOND := Config("b", "", STORE)
  const FETCHED := DownloaderStatus(1, false, DOWNLOADED, false, 100, false)

  /** The file of the first image is there and contains version 2; the second partition has a device. */
  const HOST := Host(map[PendingFile(SafenameFor(FIRST)) := "2"], {IMGB}, {}, {})

  /** What the manager is told: the store, and that the first image is downloaded. */
  const TOLD := Facts(map[(BaseOsObj, SafenameFor(FIRST)) := FETCHED], map[], {STORE}, HOST)

  /** A device that runs version 1 from its first partition and has something old in the second. */
  predicate Running1(v: View) {
    && CacheTrue(v) && Fresh(v) && v.table == Table(IMGA, Active, Unused) && v.versions == Versions("1", "0")
  }

  function Wanted(images: seq<Config>): OsConfig {
    OsConfig("2", images, true, false)
  }

  /** The images are there, as far as the downloader knows, and the verifier has said nothing. */
  predicate Arrived(st: OsStatus, n: nat) {
    && st.version == "2" && st.part == Some(IMGB) && !st.activated && n > 0 && |st.images| == n
    && st.images[0].name == "a" && st.images[0].sha == "" && st.images[0].state == DOWNLOADED
    && forall i :: 0 < i < n ==> st.images[i].state == DOWNLOAD_STARTED
  }

  lemma MayInstall2(v: View, images: seq<Config>)
    requires Running1(v)
    ensures Complete(v) && MayInstall(v, Wanted(images)) && Running(v) == "1"
  {
    assert TrueOf(v, IMGA) && TrueOf(v, IMGB);
  }

  /** A new status on its way to the second partition. */
  lemma NewIsPlaced(v: View, images: seq<Config>, was: OsStatus)
    requires Running1(v)
    requires was.version == "2" && was.part.None? && was.images == NewStatuses(images, NoDir)
    ensures var st := Placed(v, Wanted(images), was);
      && SamePlace(st, was.(part := Some(IMGB))) && st.activated == was.activated
      && st.images == NewStatuses(images, PartitionDir(IMGB))
  {
    var st := Placed(v, Wanted(images), was);
    assert forall i :: 0 <= i < |images| ==> st.images[i] == NewStatuses(images, PartitionDir(IMGB))[i];
  }

  /** What comes of the first image: it is downloaded, and has a reference now. */
  lemma FirstArrives(found: Option<VerifierStatus>)
    ensures var ss := NewStatus(FIRST, PartitionDir(IMGB));
      && Downloaded(TOLD, BaseOsObj, FIRST, ss, found)
         == ss.(state := DOWNLOADED, progress := 100, hasDownloaderRef := true)
      && DownloadEffect(TOLD, BaseOsObj, FIRST, ss, found) == Effect(Lower(DOWNLOADED), true, false, false, false)
  {
  }

  /** A configuration with the first image: it arrives, and waits for the verifier. */
  lemma OneArrives(v: View, was: OsStatus, t: Turn)
    requires Running1(v) && v.facts == TOLD
    requires was.version == "2" && was.part.None? && !was.activated && was.images == NewStatuses([FIRST], NoDir)
    requires Turns(v, Wanted([FIRST]), was, t)
    ensures t.changed && Still(v, t) && Arrived(t.st, 1)
  {
    hide TurnOf, CacheTrue, Placed, MayInstall, Looked;
    var config := Wanted([FIRST]);
    MayInstall2(v, [FIRST]);
    NewIsPlaced(v, [FIRST], was);
    var exam :| Legit(v, config, was, exam) && t == TurnOf(v, config, was, exam);
    var st := Placed(v, config, was);
    OneExamined(config, st, exam);
    TurnHeldBack(v, config, was, exam);
  }

  lemma OneExamined(config: OsConfig, st: OsStatus, exam: Exam)
    requires config == Wanted([FIRST]) && st.images == NewStatuses([FIRST], PartitionDir(IMGB))
    requires st.version == "2" && st.part == Some(IMGB) && !st.activated && Fits(config, st, exam)
    requires Looked(TOLD, config, st, exam)
    ensures Arrived(Examined(TOLD, config, st, exam), 1)
    ensures !Passes(TOLD, config, st, exam) && ExamChanges(TOLD, config, st, exam)
  {
    hide Downloaded, DownloadEffect;
    FirstArrives(exam.down[0]);
    var effects := DownloadEffects(TOLD, BaseOsObj, config.images, st.images, exam.down);
    assert effects == [] + [Effect(Lower(DOWNLOADED), true, false, false, false)];
    SummaryGrows([], Effect(Lower(DOWNLOADED), true, false, false, false));
    var f := Fetched(TOLD, config, st, exam.down);
    assert f.images[0].state == DOWNLOADED;
    assert exam.veri[0] == None;
    assert Unshown(f.images[0], exam.veri[0]) && !Overshadowed(f.images, 0, 1);
    assert Examined(TOLD, config, st, exam).images[0] == f.images[0];
  }

  /** A rejected configuration with both images: the first arrives, the second is on its way. */
  lemma TwoArrive(v: View, was: OsStatus, t: Turn)
    requires Running1(v) && v.facts == TOLD
    requires was.version == "2" && was.part.None? && !was.activated && was.images == NewStatuses([FIRST, SECOND], NoDir)
    requires Turns(v, Wanted([FIRST, SECOND]), was, t)
    ensures t.changed && Still(v, t) && Arrived(t.st, 2)
  {
    hide TurnOf, CacheTrue, Placed, MayInstall, Looked;
    var config := Wanted([FIRST, SECOND]);
    MayInstall2(v, [FIRST, SECOND]);
    NewIsPlaced(v, [FIRST, SECOND], was);
    var exam :| Legit(v, config, was, exam) && t == TurnOf(v, config, was, exam);
    TwoExamined(config, Placed(v, config, was), exam);
    TurnHeldBack(v, config, was, exam);
  }

  lemma SecondIsFetched(found: Option<VerifierStatus>)
    ensures var ss := NewStatus(SECOND, PartitionDir(IMGB));
      && Downloaded(TOLD, BaseOsObj, SECOND, ss, found) == ss.(state := DOWNLOAD_STARTED, hasDownloaderRef := true)
      && DownloadEffect(TOLD, BaseOsObj, SECOND, ss, found)
         == Effect(Overwrite(DOWNLOAD_STARTED), true, false, false, false)
  {
    assert SafenameFor(FIRST)[0] == 'a' && SafenameFor(SECOND)[0] == 'b';
  }

  lemma TwoExamined(config: OsConfig, st: OsStatus, exam: Exam)
    requires config == Wanted([FIRST, SECOND]) && st.images == NewStatuses([FIRST, SECOND], PartitionDir(IMGB))
    requires st.version == "2" && st.part == Some(IMGB) && !st.activated && Fits(config, st, exam)
    ensures Arrived(Examined(TOLD, config, st, exam), 2)
    ensures !Passes(TOLD, config, st, exam) && ExamChanges(TOLD, config, st, exam)
  {
    hide Downloaded, DownloadEffect;
    FirstArrives(exam.down[0]);
    SecondIsFetched(exam.down[1]);
    var one := Effect(Lower(DOWNLOADED), true, false, false, false);
    var two := Effect(Overwrite(DOWNLOAD_STARTED), true, false, false, false);
    assert DownloadEffects(TOLD, BaseOsObj, config.images, st.images, exam.down) == [one] + [two] == [one, two];
    SummaryGrows([], one);
    SummaryGrows([one], two);
    assert [] + [one] == [one];
  }

  lemma NothingExamined(v: View, was: OsStatus, exam: Exam)
    requires Running1(v) && was.version == "2" && was.part == Some(IMGB) && !was.activated
    requires Complete(v) && Legit(v, Wanted([]), was, exam)
    ensures Overwrites(v, Wanted([]), was, exam)
    ensures Candidate(v, Wanted([]), was, exam) == was.(state := DELIVERED, missingDatastore := false)
  {
    var config := Wanted([]);
    MayInstall2(v, []);
    assert TrueOf(v, IMGB);
    assert Placed(v, config, was) == was;
    DownloadNothing(v.facts, BaseOsObj, [], was.images);
    VerifyNothing(was.images);
    assert DownloadEffects(v.facts, BaseOsObj, [], was.images, []) == [];
    assert VerifyEffects(was.images, []) == [];
    assert exam == Exam([], []);
  }

  lemma FirstSlips(v: View, st: OsStatus, n: nat)
    requires Running1(v) && v.facts == TOLD && Arrived(st, n)
    ensures Slips(v, st, 0)
  {
  }

  /** The configuration loses its images: nothing holds the status back any more. */
  lemma NothingToWaitFor(v: View, was: OsStatus, n: nat, t: Turn)
    requires Running1(v) && v.facts == TOLD && Arrived(was, n) && Turns(v, Wanted([]), was, t)
    ensures t == Overwritten(v, WishOf(Wanted([])), was.(state := DELIVERED, missingDatastore := false))
    ensures Unverified(t.writes)
  {
    hide TurnOf, CacheTrue, MayInstall, Overwritten;
    var config := Wanted([]);
    MayInstall2(v, []);
    var exam :| Legit(v, config, was, exam) && t == TurnOf(v, config, was, exam);
    NothingExamined(v, was, exam);
    FirstSlips(v, was.(state := DELIVERED, missingDatastore := false), n);
    TurnMoves(v, config, was, exam);
    OverwriteUnverified(v, WishOf(Wanted([])), was.(state := DELIVERED, missingDatastore := false));
  }

  /** The second image is left behind, so that the version of the first is not published. */
  lemma LeftBehind(v: View, st: OsStatus)
    requires Running1(v) && v.facts == TOLD && Arrived(st, 2)
    ensures var t := Overwritten(v, WishOf(Wanted([])), st); Complete(t.after) && !Fresh(t.after)
  {
    StaleExactly(v, WishOf(Wanted([])), st);
    var images := Assigned(st, IMGB).images;
    assert Installs(HOST, IMGB, images[0]) && !Installs(HOST, IMGB, images[1]);
    assert VersionAfter(HOST, IMGB, images, 1, "0") == "2";
    assert VersionAfter(HOST, IMGB, images, 2, "0") == "2";
    assert InstalledAll(HOST, IMGB, images)[1].state == DOWNLOAD_STARTED;
    assert !AllInstalled(InstalledAll(HOST, IMGB, images));
  }

  // ---------- the runs ----------

  method Start() returns (m: Manager)
    ensures fresh(m) && fresh(m.zboot) && m.Valid() && Running1(m.Sight()) && m.facts == Facts(map[], map[], {}, HOST)
    ensures m.osStatuses == map[] && m.osConfigs == map[] && m.writes == []
  {
    var d := new Device(Table(IMGA, Active, Unused), Versions("1", "0"));
    m := new Manager(d, HOST);
  }

  lemma SameDevice(v: View, facts: Facts)
    requires Running1(v)
    ensures Running1(v.(facts := facts))
  {
    forall p: Partition ensures TrueOf(v.(facts := facts), p) { assert TrueOf(v, p); }
  }

  /** The manager is told of the store and that the first image is there. */
  method TellOf(m: Manager)
    requires m.Valid() && Running1(m.Sight()) && m.facts == Facts(map[], map[], {}, HOST)
    requires m.osStatuses == map[] && m.osConfigs == map[]
    modifies m, m.zboot
    ensures m.Valid() && Running1(m.Sight()) && m.facts == TOLD && m.writes == old(m.writes)
    ensures m.osStatuses == map[] && m.osConfigs == map[]
  {
    hide Manager.ZbootInv, Manager.LabelsInv, Manager.RefsInv, Moves, Running1;
    SameDevice(m.Sight(), TOLD);
    m.HandleDatastoreConfigModify(STORE);
    ghost var moved := m.UpdateDownloaderStatus(BaseOsObj, SafenameFor(FIRST), FETCHED);
    assert m.facts == TOLD;
  }

  /** A configuration with one image is accepted; the image arrives. */
  method ArriveOne(m: Manager)
    requires m.Valid() && Running1(m.Sight()) && m.facts == TOLD && m.osStatuses == map[] && m.osConfigs == map[]
    modifies m, m.zboot
    ensures m.Valid() && m.Sight() == old(m.Sight()) && m.osConfigs.Keys == {0}
    ensures 0 in m.osStatuses && Arrived(m.osStatuses[0], 1)
  {
    hide Manager.ZbootInv, Manager.LabelsInv, Manager.RefsInv, Running1, Turns, Arrived;
    ghost var v := m.Sight();
    ghost var mid, t := m.HandleBaseOsConfigModify(0, Wanted([FIRST]));
    OneArrives(v, Activation(v, NewOsStatus(Wanted([FIRST]))), t.value);
  }

  /** A configuration with two images is refused; the first one arrives nevertheless. */
  method ArriveTwo(m: Manager)
    requires m.Valid() && Running1(m.Sight()) && m.facts == Facts(map[], map[], {}, HOST)
    requires m.osStatuses == map[] && m.osConfigs == map[]
    modifies m, m.zboot
    ensures m.Valid() && Running1(m.Sight()) && m.facts == TOLD && m.osConfigs.Keys == {0}
    ensures 0 in m.osStatuses && Arrived(m.osStatuses[0], 2)
  {
    hide Manager.ZbootInv, Manager.LabelsInv, Manager.RefsInv, Running1, Turns, Arrived;
    SameDevice(m.Sight(), TOLD);
    m.HandleDatastoreConfigModify(STORE);
    ghost var mid, none := m.HandleBaseOsConfigModify(0, Wanted([FIRST, SECOND]));
    assert Names([FIRST, SECOND], SafenameFor(FIRST)) by { assert [FIRST, SECOND][0] == FIRST; }
    ghost var was, v := m.osStatuses[0], m.Sight().(facts := TOLD);
    ghost var moved := m.UpdateDownloaderStatus(BaseOsObj, SafenameFor(FIRST), FETCHED);
    assert m.facts == TOLD && moved.value.u == 0;
    TwoArrive(v, Activation(v, was), moved.value.t);
  }

  lemma ArrivedStays(v: View, st: OsStatus, n: nat)
    requires Running1(v) && Arrived(st, n)
    ensures Complete(v) && Arrived(Activation(v, st), n)
  {
    assert TrueOf(v, IMGB);
  }

  /** The configuration loses its images, and that is accepted. */
  method LoseImages(m: Manager, ghost n: nat)
    requires m.Valid() && Running1(m.Sight()) && m.facts == TOLD && m.osConfigs.Keys == {0}
    requires 0 in m.osStatuses && Arrived(m.osStatuses[0], n)
    modifies m, m.zboot
    ensures m.Valid() && Unverified(m.writes)
    ensures n == 2 ==> !Fresh(m.Sight())
  {
    hide Manager.ZbootInv, Manager.LabelsInv, Manager.RefsInv, Running1, Turns, Overwritten, Fresh;
    ghost var v, was := m.Sight(), m.osStatuses[0];
    assert m.osConfigs[0 := Wanted([])].Keys == {0} && |m.osConfigs[0 := Wanted([])]| == 1;
    ghost var mid, t := m.HandleBaseOsConfigModify(0, Wanted([]));
    ArrivedStays(v, was, n);
    NothingToWaitFor(v, Activation(v, was), n, t.value);
    if n == 2 { LeftBehind(v, Activation(v, was).(state := DELIVERED, missingDatastore := false)); }
    ghost var k :| 0 <= k < |t.value.writes| && !t.value.writes[k].verified;
    assert !m.writes[|old(m.writes)| + k].verified;
  }

  /**
   An image is written that the verifier never saw, although every configuration was accepted:
   it is downloaded without a checksum, and then the configuration loses its images.
   */
  method UnverifiedRun() returns (m: Manager)
    ensures m.Valid() && Unverified(m.writes)
  {
    m := Start();
    TellOf(m);
    ArriveOne(m);
    LoseImages(m, 1);
  }

  /**
   The published version of the other partition is out of date: a configuration with two
   images is refused, but the downloader's report moves its status on nevertheless.
   */
  method StaleRun() returns (m: Manager)
    ensures m.Valid() && !Fresh(m.Sight()) && Partial(m.writes)
  {
    m := Start();
    ArriveTwo(m);
    LoseImages(m, 2);
  }

  /**
   The fallback is lost: after a reboot into a new version, the configuration of the old one
   arrives and is deleted before the new one has proved itself.
   */
  method FallbackRun() returns (m: Manager)
    ensures m.Valid() && !HasActive(m.zboot.table) && m.fallbackLost
  {
    hide Manager.LabelsInv, Manager.RefsInv, Turns, Manager.PartitionsInv, Manager.WritesInv;
    var d := new Device(Table(IMGA, Active, Updating), Versions("1", "2"));
    m := new Manager(d, HOST);
    m.Reboot();
    ghost var v := m.Sight();
    FreshIsExact(v);
    var config := OsConfig("1", [], true, false);
    ghost var mid, t := m.HandleBaseOsConfigModify(0, config);
    OldVersionNoted(v, config, Activation(v, NewOsStatus(config)), t.value);
    RemovalExactly(v, m.osStatuses[0]);
    m.HandleBaseOsConfigDelete(0);
  }

  /** The version in the other partition is noted there, and left alone while another is under test. */
  lemma OldVersionNoted(v: View, config: OsConfig, was: OsStatus, t: Turn)
    requires CacheTrue(v) && CurrentState(v.table).InProgress? && was.version != Running(v)
    requires was.part.None? && was.version == VersionOf(v.versions, Other(v.table.current))
    requires Turns(v, config, was, t)
    ensures t.changed && Still(v, t) && t.st.version == was.version && t.st.part == Some(Other(v.table.current))
  {
    var exam :| Legit(v, config, was, exam) && t == TurnOf(v, config, was, exam);
    assert TrueOf(v, v.table.current);
    TurnMoves(v, config, was, exam);
  }
}
