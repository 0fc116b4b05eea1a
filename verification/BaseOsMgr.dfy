/**
 The base OS manager: it takes a base OS image through download, verification and
 installation into the partition that is not running, and confirms an update that proved
 itself. Its handlers run one after the other, each to its end.
 */
module BaseOsMgr {
  import opened Prelude
  import opened Zboot
  import opened Storage
  import opened Images
  import opened OsUpdate
  import opened OsEvents

  /** An event that is handled to its end, or until the power fails after so many tables were written. */
  datatype Occurrence = Whole(e: Event) | Cut(e: Event, tables: nat, version: string)

  /** An event that was handled, and the state before and after. */
  datatype Entry = Entry(e: Event, before: Snap, after: Snap)

  predicate LosesAt(e: Event, v: View, statuses: map<Uuid, OsStatus>) {
    e.DeleteOs? && e.u in statuses && LosesFallback(v, statuses[e.u])
  }

  predicate Loses(x: Entry) {
    LosesAt(x.e, x.before.view, x.before.statuses)
  }

  function OsImages(m: map<Uuid, OsStatus>): Lists {
    map u | u in m :: m[u].images
  }

  function CertImages(m: map<Uuid, CertStatus>): Lists {
    map u | u in m :: m[u].images
  }

  /** What is published of a status on the way. */
  function Announced(m: map<Uuid, OsStatus>, u: Uuid, shown: Option<OsStatus>): map<Uuid, OsStatus> {
    if shown.Some? then m[u := shown.value] else m
  }

  class Manager {
    const zboot: Device
    // what the manager publishes
    var zbootStatus: map<Partition, ZbootStatus>
    var osStatuses: map<Uuid, OsStatus>
    var certStatuses: map<Uuid, CertStatus>
    var downloads: Downloads
    var verifiers: Verifiers
    // what it subscribes to and what it finds on the device
    var osConfigs: map<Uuid, OsConfig>
    var certConfigs: map<Uuid, CertConfig>
    var facts: Facts
    /** The source would end the process. */
    var crashed: bool
    // History: all image writes, whether some table had no active partition, and the events
    // handled so far.
    ghost var writes: seq<Write>
    ghost var fallbackLost: bool
    ghost var log: seq<Entry>

    // ---------- what every handler keeps ----------

    /** The whole state, for saying what an event does. */
    ghost function Snapshot(): Snap
      reads this, zboot
    {
      Snap(Sight(), zboot.history, writes, osStatuses, osConfigs, certStatuses, certConfigs, downloads, verifiers)
    }

    function Sight(): View
      reads this`facts, this`zbootStatus, zboot
    {
      View(facts, zboot.table, zboot.versions, zbootStatus)
    }

    /** Every table there ever was runs something bootable, and all have a fallback or one was lost. */
    ghost predicate PartitionsInv()
      reads this`fallbackLost, zboot
    {
      zboot.Valid() && AllBootable(zboot.history) && (fallbackLost <==> !AllActive(zboot.history))
    }

    /** What is published of the partitions is what they are. */
    ghost predicate CacheInv()
      reads this`facts, this`zbootStatus, zboot
    {
      CacheTrue(Sight())
    }

    /** Every write was good, and all that is published is exact unless some image was left behind. */
    ghost predicate WritesInv()
      reads this`writes, this`facts, this`zbootStatus, zboot
    {
      && GoodWrites(writes)
      && Complete(Sight())
      && (Fresh(Sight()) || Partial(writes))
    }

    ghost predicate ZbootInv()
      reads this`fallbackLost, this`writes, this`facts, this`zbootStatus, zboot
    {
      PartitionsInv() && CacheInv() && WritesInv()
    }

    ghost predicate LabelsInv()
      reads this`osStatuses, this`facts, this`zbootStatus, zboot
    {
      forall u :: u in osStatuses ==> LabelOk(Sight(), osStatuses[u])
    }

    ghost function OsLists(): Lists
      reads this`osStatuses
    {
      OsImages(osStatuses)
    }

    ghost function CertLists(): Lists
      reads this`certStatuses
    {
      CertImages(certStatuses)
    }

    /** The reference counts are the numbers of published entries that hold a reference. */
    ghost predicate RefsInv()
      reads this`osStatuses, this`certStatuses, this`downloads
    {
      Conserved(OsLists(), downloads, BaseOsObj) && Conserved(CertLists(), downloads, CertObj)
    }

    ghost predicate Valid()
      reads this, zboot
    {
      Complete(Sight()) && ZbootInv() && LabelsInv() && RefsInv()
    }

    /**
     The same partition with the same version is running, an active partition is left if there
     was one, and what is active stays active while it runs.
     */
    ghost predicate SameBoot(v: View, tables: seq<Table>)
      reads this`facts, this`zbootStatus, zboot
    {
      && tables <= zboot.history
      && zboot.table.current == v.table.current && Running(Sight()) == Running(v)
      && (HasActive(v.table) ==> HasActive(zboot.table))
      && (CurrentState(v.table).Active? ==> CurrentState(zboot.table).Active?)
    }

    /** A device that boots; the manager starts with nothing but the state of the partitions. */
    constructor (zboot: Device, host: Host)
      requires zboot.Valid() && forall i :: 0 <= i < |zboot.history| ==> Safe(zboot.history[i])
      ensures Valid() && this.zboot == zboot && !fallbackLost && writes == [] && log == [] && !crashed
      ensures osStatuses == map[] && osConfigs == map[] && downloads == map[]
      ensures facts == Facts(map[], map[], {}, host) && Fresh(Sight())
    {
      this.zboot := zboot;
      zbootStatus := map p: Partition | true ::
        ZbootStatus(StateOf(zboot.table, p), VersionOf(zboot.versions, p), p == zboot.table.current);
      osStatuses, certStatuses, downloads, verifiers := map[], map[], map[], map[];
      osConfigs, certConfigs, facts, crashed := map[], map[], Facts(map[], map[], {}, host), false;
      writes, fallbackLost, log := [], false, [];
      new;
      NoListsNoRefs();
    }

    lemma NoListsNoRefs()
      requires osStatuses == map[] && certStatuses == map[] && downloads == map[]
      ensures RefsInv()
    {
      assert forall n :: Refs(OsLists(), n) == {} && Refs(CertLists(), n) == {};
    }

    // ---------- publishing ----------

    /**
     What is published of the partition is what it is; what is published of the other one is
     as true as it was.
     */
    method PublishZbootPartitionStatus(p: Partition)
      modifies this`zbootStatus
      ensures Sight() == Publish(old(Sight()), p)
      ensures TrueOf(Sight(), p) && zbootStatus[p].version == VersionOf(zboot.versions, p)
      ensures forall q :: q != p ==> (TrueOf(Sight(), q) <==> old(TrueOf(Sight(), q)))
    {
      zbootStatus := zbootStatus[p := Report(Sight(), p)];
    }

    method PublishOsStatus(u: Uuid, st: OsStatus)
      modifies this`osStatuses
      ensures osStatuses == old(osStatuses)[u := st]
    {
      osStatuses := osStatuses[u := st];
    }

    // ---------- references against the downloader ----------

    method CreateDownloaderConfig(obj: ObjType, safename: string)
      modifies this`downloads
      ensures downloads == old(downloads)[(obj, safename) := CountOf(old(downloads), obj, safename) + 1]
    {
      if (obj, safename) in downloads {
        downloads := downloads[(obj, safename) := downloads[(obj, safename)] + 1];
      } else {
        downloads := downloads[(obj, safename) := 1];
      }
    }

    /** The count is unsigned: taking one from zero would wrap around. */
    method RemoveDownloaderConfig(obj: ObjType, safename: string)
      modifies this`downloads
      ensures (obj, safename) !in old(downloads) ==> downloads == old(downloads)
      ensures (obj, safename) in old(downloads) ==>
        downloads == old(downloads)[(obj, safename) :=
          if old(downloads)[(obj, safename)] == 0 then UINT_MAX else old(downloads)[(obj, safename)] - 1]
    {
      if (obj, safename) !in downloads {
        return;
      }
      var n := downloads[(obj, safename)];
      downloads := downloads[(obj, safename) := if n == 0 then UINT_MAX else n - 1];
    }

    // ---------- download and verification of the images ----------

    /** The verifier's report for an image, found by its safename or else by its checksum. */
    method LookupVerificationStatusAny(safename: string, sha: string)
      returns (r: Option<VerifierStatus>, key: string)
      ensures Finds(facts.verifier, safename, sha, r)
      ensures r.Some? ==> key in facts.verifier && facts.verifier[key] == r.value
    {
      if safename in facts.verifier {
        return Some(facts.verifier[safename]), safename;
      }
      if k :| k in facts.verifier && facts.verifier[k].sha == sha {
        return Some(facts.verifier[k]), k;
      }
      return None, safename;
    }

    /** One more reference against the verifier, which has only base OS images to look at. */
    method CreateVerifierConfig(obj: ObjType, safename: string, sha: string)
      modifies this`crashed, this`verifiers
      ensures crashed == (old(crashed) || obj.CertObj?)
      ensures verifiers == if obj.CertObj? then old(verifiers) else Asked(old(verifiers), safename, sha)
    {
      if obj.CertObj? {
        crashed := true;
        return;
      }
      var m := if safename in verifiers then verifiers[safename] else VerifierConfig(sha, 0);
      verifiers := verifiers[safename := m.(refCount := if m.refCount == UINT_MAX then 0 else m.refCount + 1)];
    }

    /**
     One reference less for some entry with the checksum. The count is unsigned, so that it
     wraps around if and only if the entry that is found has no reference.
     */
    method MaybeRemoveVerifierConfigSha256(sha: string) returns (ghost picked: Option<string>)
      modifies this`verifiers
      ensures picked.None? <==> forall k :: k in old(verifiers) ==> old(verifiers)[k].sha != sha
      ensures picked.None? ==> verifiers == old(verifiers)
      ensures picked.Some? ==>
        && picked.value in old(verifiers) && old(verifiers)[picked.value].sha == sha
        && verifiers == Released(old(verifiers), picked.value)
    {
      if k :| k in verifiers && verifiers[k].sha == sha {
        var n := verifiers[k].refCount;
        verifiers := verifiers[k := VerifierConfig(sha, if n == 0 then UINT_MAX else n - 1)];
        return Some(k);
      }
      return None;
    }

    /** One image of a configuration: does it still have to be downloaded? */
    method CheckDownload(obj: ObjType, sc: Config, was: Status)
      returns (ss: Status, e: Effect, ghost found: Option<VerifierStatus>)
      requires sc.name == was.name && sc.sha == was.sha
      modifies this`downloads, this`crashed, this`verifiers
      ensures LookedForDownload(facts, obj, sc, was, found)
      ensures ss == Downloaded(facts, obj, sc, was, found) && e == DownloadEffect(facts, obj, sc, was, found)
      ensures downloads ==
        if TakesRef(facts, obj, sc, was, found) then CountedUp(old(downloads), obj, SafenameOf(was)) else old(downloads)
    {
      hide AfterFetch, FetchEffect, Finds, CountedUp;
      if was.state == INSTALLED
         || (obj.CertObj? && was.finalDir != NoDir && SafenameFor(sc) in facts.host.placed)
      {
        return was, Effect(Overwrite(INSTALLED), false, false, false, false), None;
      }
      ss, e, found := ObtainImage(obj, sc, was);
    }

    /** The part of CheckDownload for an image that is not there yet. */
    method ObtainImage(obj: ObjType, sc: Config, was: Status)
      returns (ss: Status, e: Effect, ghost found: Option<VerifierStatus>)
      requires sc.name == was.name && sc.sha == was.sha && was.state != INSTALLED
      requires !(obj.CertObj? && was.finalDir != NoDir && SafenameFor(sc) in facts.host.placed)
      modifies this`downloads, this`crashed, this`verifiers
      ensures LookedForDownload(facts, obj, sc, was, found)
      ensures ss == Downloaded(facts, obj, sc, was, found) && e == DownloadEffect(facts, obj, sc, was, found)
      ensures downloads ==
        if TakesRef(facts, obj, sc, was, found) then CountedUp(old(downloads), obj, SafenameOf(was)) else old(downloads)
    {
      hide AfterFetch, FetchEffect, Finds, CountedUp, Asked, Storeless, SafenameOf;
      found := None;
      if sc.sha != "" {
        var vs, key := LookupVerificationStatusAny(SafenameFor(sc), sc.sha);
        found := vs;
        if vs.Some? && !vs.value.pending && vs.value.state == DELIVERED {
          ss, e := TakeVerified(obj, key, was);
          return;
        }
      }
      ss, e := FetchImage(obj, sc, was);
    }

    /** The part of CheckDownload for an image that is verified already. */
    method TakeVerified(obj: ObjType, key: string, was: Status) returns (ss: Status, e: Effect)
      modifies this`crashed, this`verifiers
      ensures ss == was.(hasVerifierRef := true, state := DELIVERED,
                         progress := if was.state == DELIVERED then was.progress else 100)
      ensures e == Effect(Lower(DELIVERED), !was.hasVerifierRef || was.state != DELIVERED, false, false, false)
      ensures verifiers == if was.hasVerifierRef || obj.CertObj? then old(verifiers)
                           else Asked(old(verifiers), key, was.sha)
    {
      ss, e := was, Effect(Lower(DELIVERED), false, false, false, false);
      if !ss.hasVerifierRef {
        CreateVerifierConfig(obj, key, was.sha);
        ss, e := ss.(hasVerifierRef := true), e.(changed := true);
      }
      if ss.state != DELIVERED {
        ss, e := ss.(state := DELIVERED, progress := 100), e.(changed := true);
      }
    }

    /** The part of CheckDownload for an image that has to be downloaded. */
    method FetchImage(obj: ObjType, sc: Config, was: Status) returns (ss: Status, e: Effect)
      requires sc.name == was.name && sc.sha == was.sha
      modifies this`downloads, this`crashed, this`verifiers
      ensures ss == AfterFetch(facts, obj, sc, was) && e == FetchEffect(facts, obj, sc, was)
      ensures downloads == if was.hasDownloaderRef || Storeless(facts, sc) then old(downloads)
                           else CountedUp(old(downloads), obj, SafenameOf(was))
    {
      if was.hasDownloaderRef {
        ss, e := FollowDownload(obj, sc, was);
        return;
      }
      if sc.datastoreId == "" || sc.datastoreId !in facts.datastores {
        return was.(missingDatastore := true), Effect(Skip, true, true, false, true);
      }
      CreateDownloaderConfig(obj, SafenameFor(sc));
      ss, e := FollowDownload(obj, sc, was.(missingDatastore := false, hasDownloaderRef := true));
      e := e.(changed := true);
    }

    /** The part of CheckDownload that looks at the downloader's report. */
    method FollowDownload(obj: ObjType, sc: Config, was: Status) returns (ss: Status, e: Effect)
      modifies this`crashed, this`verifiers
      ensures ss == Followed(facts, obj, sc, was) && e == FollowEffect(facts, obj, sc, was)
      ensures verifiers == if ss.hasVerifierRef == was.hasVerifierRef || obj.CertObj? then old(verifiers)
                           else Asked(old(verifiers), SafenameFor(sc), sc.sha)
    {
      var safename := SafenameFor(sc);
      if (obj, safename) !in facts.downloader {
        return was.(state := DOWNLOAD_STARTED), Effect(Overwrite(DOWNLOAD_STARTED), true, false, false, false);
      }
      var ds := facts.downloader[(obj, safename)];
      ss := was.(state := ds.state, progress := ds.progress);
      e := Effect(Lower(ds.state), ds.state != was.state || ds.progress != was.progress, false, false, false);
      if ds.pending {
        return;
      }
      if ds.failed { e := e.(failed := true, changed := true); }
      if ss.state == DOWNLOADED && sc.sha != "" && !ss.hasVerifierRef {
        if safename in facts.host.certified {
          CreateVerifierConfig(obj, safename, sc.sha);
          ss, e := ss.(hasVerifierRef := true), e.(changed := true);
        } else {
          e := e.(waiting := true);
        }
      }
    }

    /**
     All images of a configuration. The references taken are counted, and a status that got
     one is reported as changed, so that its owner publishes it.
     */
    method CheckStorageDownloadStatus(obj: ObjType, u: Uuid, configs: seq<Config>, was: seq<Status>,
                                      ghost lists: Lists)
      returns (list: seq<Status>, ret: Ret, ghost found: seq<Option<VerifierStatus>>)
      requires Matching(configs, was)
      requires Conserved(lists[u := was], downloads, obj)
      modifies this`downloads, this`crashed, this`verifiers
      ensures |found| == |configs|
      ensures forall i :: 0 <= i < |configs| ==> LookedForDownload(facts, obj, configs[i], was[i], found[i])
      ensures list == DownloadedAll(facts, obj, configs, was, found)
      ensures ret == DownloadRet(DownloadEffects(facts, obj, configs, was, found))
      ensures Conserved(lists[u := list], downloads, obj)
      ensures forall o | o != obj :: SameCounts(old(downloads), downloads, o)
    {
      hide Downloaded, DownloadEffect, LookedForDownload, Conserved, Absorb;
      list, ret, found := was, NOTHING, [];
      DownloadNothing(facts, obj, configs, was);
      for i := 0 to |configs|
        invariant |found| == i
        invariant forall j :: 0 <= j < i ==> LookedForDownload(facts, obj, configs[j], was[j], found[j])
        invariant list == DownloadedAll(facts, obj, configs, was, found)
        invariant ret == Summary(DownloadEffects(facts, obj, configs, was, found))
        invariant Conserved(lists[u := list], downloads, obj)
        invariant forall o | o != obj :: SameCounts(old(downloads), downloads, o)
      {
        ghost var f, d := None, downloads;
        list, ret, f := CheckCounted(obj, u, configs[i], list, i, ret, lists);
        DownloadGrows(facts, obj, configs, was, found, f);
        SummaryGrows(DownloadEffects(facts, obj, configs, was, found),
                     DownloadEffect(facts, obj, configs[i], was[i], f));
        SameCountsTwice(old(downloads), d, downloads, obj);
        found := found + [f];
      }
      if ret.minState == MAXSTATE {
        ret := ret.(minState := DOWNLOADED, changed := true);
      }
    }

    /** One image of a list, with its reference counted. */
    method CheckCounted(obj: ObjType, u: Uuid, sc: Config, was: seq<Status>, i: nat, sofar: Ret, ghost lists: Lists)
      returns (list: seq<Status>, ret: Ret, ghost found: Option<VerifierStatus>)
      requires i < |was| && sc.name == was[i].name && sc.sha == was[i].sha
      requires Conserved(lists[u := was], downloads, obj)
      modifies this`downloads, this`crashed, this`verifiers
      ensures LookedForDownload(facts, obj, sc, was[i], found)
      ensures list == was[i := Downloaded(facts, obj, sc, was[i], found)]
      ensures ret == Absorb(sofar, DownloadEffect(facts, obj, sc, was[i], found))
      ensures Conserved(lists[u := list], downloads, obj)
      ensures forall o | o != obj :: SameCounts(old(downloads), downloads, o)
    {
      var ss, e;
      ss, e, found := CheckDownload(obj, sc, was[i]);
      list, ret := was[i := ss], Absorb(sofar, e);
      DownloadKeepsName(facts, obj, sc, was[i], found);
      CountFollows(lists, u, was, i, ss, old(downloads), downloads, obj);
      OtherCounts(old(downloads), downloads, obj, SafenameOf(was[i]));
    }

    /** All images of a configuration: has the verifier delivered them? */
    method CheckStorageVerifierStatus(configs: seq<Config>, was: seq<Status>)
      returns (list: seq<Status>, ret: Ret, ghost found: seq<Option<VerifierStatus>>)
      requires Matching(configs, was)
      ensures |found| == |configs| && LookedForVerifier(facts.verifier, configs, was, found)
      ensures list == VerifiedAll(was, found) && SameRefs(was, list)
      ensures ret == VerifyRet(VerifyEffects(was, found))
      ensures ret.minState >= DELIVERED && !ret.failed <==> GoesAhead(was, found)
    {
      list, ret, found := was, NOTHING, [];
      VerifyNothing(was);
      for i := 0 to |configs|
        invariant |found| == i
        invariant forall j :: 0 <= j < i && was[j].state != INSTALLED ==>
          Finds(facts.verifier, SafenameFor(configs[j]), configs[j].sha, found[j])
        invariant list == VerifiedAll(was, found)
        invariant ret == Summary(VerifyEffects(was, found))
      {
        assert list[i] == was[i];
        var ss, e;
        ghost var f;
        ss, e, f := CheckVerified(configs[i], list[i]);
        list, ret := list[i := ss], Absorb(ret, e);
        SummaryGrows(VerifyEffects(was, found), VerifyEffect(was[i], f));
        VerifyGrows(was, found, f);
        found := found + [f];
      }
      if ret.minState == MAXSTATE {
        ret := ret.(minState := DELIVERED);
      }
      GoesAheadExactly(was, found);
      VerifiedSameRefs(was, found);
    }

    /** One image of a configuration: has the verifier delivered it? */
    method CheckVerified(sc: Config, was: Status)
      returns (ss: Status, e: Effect, ghost found: Option<VerifierStatus>)
      ensures was.state != INSTALLED ==> Finds(facts.verifier, SafenameFor(sc), sc.sha, found)
      ensures ss == Verified(was, found) && e == VerifyEffect(was, found)
    {
      if was.state == INSTALLED {
        return was, Effect(Overwrite(INSTALLED), false, false, false, false), None;
      }
      var vs, key := LookupVerificationStatusAny(SafenameFor(sc), sc.sha);
      found := vs;
      if vs.None? || vs.value.pending {
        return was, Effect(Overwrite(DOWNLOADED), false, false, false, false), found;
      }
      ss := was.(state := vs.value.state);
      e := Effect(Lower(vs.value.state), vs.value.state != was.state, false, false, false);
      if vs.value.failed {
        e := e.(failed := true, changed := true);
      } else if vs.value.state != INITIAL {
        e := e.(changed := true);
      }
    }

    // ---------- installation ----------

    /** Copies the image at `i` into its partition, if it is ready, its file is there and it has a place. */
    method InstallImage(images: seq<Status>, i: nat, ghost before: Former, ghost configured: Wish)
      returns (ss: Status)
      requires zboot.Valid() && i < |images|
      modifies zboot`versions, this`writes, this`crashed
      ensures zboot.Valid()
      ensures ss == Installed(facts.host, Other(zboot.table.current), images[i])
      ensures var p := Other(zboot.table.current);
        if Installs(facts.host, p, images[i]) then
          && zboot.versions == WithVersion(old(zboot.versions), p, facts.host.files[SourceOf(images[i])])
          && writes == old(writes) + [WriteAt(facts, zboot.table, before, images, configured, i)]
        else zboot.versions == old(zboot.versions) && writes == old(writes)
      ensures crashed <==>
        || old(crashed)
        || (Installable(images[i]) && (SourceOf(images[i]) !in facts.host.files || images[i].finalDir.CertificateDir?))
    {
      ss := images[i];
      if !(ss.state == DELIVERED || (ss.state == DOWNLOADED && ss.sha == "")) {
        return;
      }
      if SourceOf(ss) !in facts.host.files {
        crashed := true;
        return;
      }
      match ss.finalDir
      case NoDir =>
      case CertificateDir => crashed := true;
      case PartitionDir(p) =>
        var r := zboot.WriteToPartition(p, p in facts.host.devices, WholeCopy(facts.host.files[SourceOf(ss)]));
        if r.CopyDone? {
          writes := writes + [WriteAt(facts, zboot.table, before, images, configured, i)];
          ss := ss.(state := INSTALLED);
        }
    }

    /** Installs what can be installed; `all` tells whether every image is installed afterwards. */
    method InstallDownloadedObjects(was: seq<Status>, ghost before: Former, ghost configured: Wish)
      returns (list: seq<Status>, all: bool)
      requires zboot.Valid()
      modifies zboot`versions, this`writes, this`crashed
      ensures zboot.Valid()
      ensures list == InstalledAll(facts.host, Other(zboot.table.current), was) && all == AllInstalled(list)
      ensures var p := Other(zboot.table.current);
        zboot.versions == WithVersion(old(zboot.versions), p,
          VersionAfter(facts.host, p, was, |was|, VersionOf(old(zboot.versions), p)))
      ensures writes == old(writes) + WritesOf(facts, zboot.table, before, was, configured, |was|)
    {
      list, all := was, true;
      ghost var p := Other(zboot.table.current);
      for i := 0 to |was|
        invariant |list| == |was| && zboot.Valid()
        invariant forall j :: 0 <= j < |was| ==> list[j] == if j < i then Installed(facts.host, p, was[j]) else was[j]
        invariant all <==> forall j :: 0 <= j < i ==> list[j].state == INSTALLED
        invariant zboot.versions == WithVersion(old(zboot.versions), p,
          VersionAfter(facts.host, p, was, i, VersionOf(old(zboot.versions), p)))
        invariant writes == old(writes) + WritesOf(facts, zboot.table, before, was, configured, i)
      {
        var ss := InstallImage(was, i, before, configured);
        list := list[i := ss];
        if ss.state != INSTALLED {
          all := false;
        }
      }
    }

    /** Marks the other partition for the update, before anything is written to it. */
    method PrepareOther(u: Uuid, was: OsStatus) returns (st: OsStatus)
      requires zboot.Valid() && was.part == Some(Other(zboot.table.current))
      modifies zboot`table, zboot`history, this`zbootStatus, this`osStatuses
      ensures zboot.Valid() && Sight() == Prepared(old(Sight()))
      ensures zboot.history == old(zboot.history) + [zboot.table]
      ensures st == Assigned(was, was.part.value) && osStatuses == old(osStatuses)[u := st]
    {
      var p := was.part.value;
      zboot.SetPartitionState(Other(zboot.table.current), Updating);
      PublishZbootPartitionStatus(p);
      st := Assigned(was, p);
      PublishOsStatus(u, st);
    }

    /** Writes the images and, once all are there, publishes the version and the status. */
    method WriteOther(u: Uuid, was: OsStatus, ghost before: Former, ghost configured: Wish)
      returns (st: OsStatus, all: bool)
      requires zboot.Valid() && was.part == Some(Other(zboot.table.current))
      modifies zboot`versions, this`zbootStatus, this`osStatuses, this`writes, this`crashed
      ensures zboot.Valid() && Sight() == Rewritten(old(Sight()), was.images)
      ensures st == Written(facts.host, Other(zboot.table.current), was)
      ensures all == AllInstalled(InstalledAll(facts.host, Other(zboot.table.current), was.images))
      ensures osStatuses == if all then old(osStatuses)[u := st] else old(osStatuses)
      ensures writes == old(writes) + WritesOf(facts, zboot.table, before, was.images, configured, |was.images|)
    {
      var images;
      images, all := InstallDownloadedObjects(was.images, before, configured);
      st := was.(images := images);
      if all {
        st := Done(st, INSTALLED);
        PublishZbootPartitionStatus(was.part.value);
        st := Assigned(st, was.part.value);
        PublishOsStatus(u, st);
      }
    }

    /** Prepares the other partition, writes the images into it and asks for a reboot. */
    method UpdateOther(u: Uuid, was: OsStatus, ghost configured: Wish) returns (st: OsStatus, changed: bool)
      requires zboot.Valid() && was.part == Some(Other(zboot.table.current))
      modifies zboot, this`zbootStatus, this`osStatuses, this`writes, this`crashed
      ensures zboot.Valid()
      ensures Took(old(zboot.history), old(writes), Overwritten(old(Sight()), configured, was))
      ensures var t := Overwritten(old(Sight()), configured, was);
              st == t.st && changed == t.changed && osStatuses == Announced(old(osStatuses), u, t.shown)
    {
      hide WritesOf, InstalledAll, AllInstalled, Rewritten, Written;
      st := PrepareOther(u, was);
      ghost var placed := st;
      st, changed := WriteOther(u, st, FormerOf(old(Sight()), was.part.value), configured);
      assert old(osStatuses)[u := placed][u := st] == old(osStatuses)[u := st];
      if st.state == INSTALLED && !st.reboot {
        st := st.(reboot := true);
        changed := true;
      }
    }

    /** The partitions, what is published of them and the writes are as a turn leaves them. */
    ghost predicate Took(tables: seq<Table>, ws: seq<Write>, t: Turn)
      reads this`facts, this`zbootStatus, this`writes, zboot
    {
      Sight() == t.after && zboot.history == tables + t.tables && writes == ws + t.writes
    }

    method DoBaseOsActivate(u: Uuid, was: OsStatus, ghost configured: Wish) returns (st: OsStatus, changed: bool)
      requires zboot.Valid() && Complete(Sight())
      modifies zboot, this`zbootStatus, this`osStatuses, this`writes, this`crashed
      ensures zboot.Valid()
      ensures Took(old(zboot.history), old(writes), ActivateTurn(old(Sight()), configured, was))
      ensures var t := ActivateTurn(old(Sight()), configured, was);
              st == t.st && changed == t.changed && osStatuses == Announced(old(osStatuses), u, t.shown)
    {
      if was.part.None? || was.part.value != Other(zboot.table.current) {
        return was, false;
      }
      if zbootStatus[was.part.value].state.Active? {
        return was.(failed := true), true;
      }
      st, changed := UpdateOther(u, was, configured);
    }

    // ---------- from a configuration to an installed image ----------

    /** Whether the version is running, and whether that is more than a test. */
    method BaseOsGetActivationStatus(was: OsStatus) returns (st: OsStatus, changed: bool)
      requires Complete(Sight())
      ensures st == Activation(Sight(), was) && (st != was ==> changed)
    {
      var act := was.part.Some? && zbootStatus[was.part.value].current
                 && zbootStatus[zboot.table.current].state.Active?;
      var otherwise: bool := *;   // the copies of the partition's state and device changed
      st, changed := was.(activated := act), was.activated != act || otherwise;
    }

    /**
     Refuses a version that failed before, and any version while one is under test or while
     the other partition is the fallback; otherwise assigns the other partition.
     */
    method ValidateAndAssignPartition(config: OsConfig, was: OsStatus)
      returns (st: OsStatus, changed: bool, proceed: bool)
      requires Complete(Sight())
      ensures var cur, other := zbootStatus[zboot.table.current], zbootStatus[Other(zboot.table.current)];
        var failedThere := other.state.InProgress? && other.version == config.version;
        && (proceed <==> !failedThere && !cur.state.InProgress? && !other.state.Active?)
        && (failedThere ==> st == was.(failed := true))
        && (!failedThere && !proceed ==>
              st == was.(tooEarly := true, failed := was.failed || other.version != config.version))
      ensures proceed && !(config.activate && was.part.None?) ==> st == was
      ensures proceed && config.activate && was.part.None? ==>
        && st.part == Some(Other(zboot.table.current)) && |st.images| == |was.images|
        && forall i :: 0 <= i < |was.images| ==>
             st.images[i] == was.images[i].(finalDir := PartitionDir(Other(zboot.table.current)))
      ensures proceed == MayInstall(Sight(), config)
      ensures st == if proceed then Allotted(Sight(), config, was) else Refused(Sight(), config, was)
      ensures changed == (!proceed || st.part != was.part)
      ensures SameRefs(was.images, st.images)
    {
      st, changed, proceed := was, false, false;
      var cur := zbootStatus[zboot.table.current];
      var other := zbootStatus[Other(zboot.table.current)];
      if other.state.InProgress? && other.version == config.version {
        return st.(failed := true), true, false;
      }
      if cur.state.InProgress? || other.state.Active? {
        st := st.(tooEarly := true);
        if other.version != config.version { st := st.(failed := true); }
        return st, true, false;
      }
      if config.activate && st.part.None? {
        st := Assigned(st, Other(zboot.table.current));
        changed := true;
      }
      proceed := true;
    }

    /** Do the images of the status still belong to the configuration? A longer one is a run-time error. */
    method ImagesMatch(configs: seq<Config>, list: seq<Status>) returns (ok: bool)
      modifies this`crashed
      ensures ok <==> Matching(configs, list)
    {
      for i := 0 to |configs|
        invariant i <= |list|
        invariant forall j :: 0 <= j < i ==> configs[j].name == list[j].name && configs[j].sha == list[j].sha
      {
        if i >= |list| {
          crashed := true;
          return false;
        }
        if configs[i].name != list[i].name || configs[i].sha != list[i].sha {
          return false;
        }
      }
      return true;
    }

    /** The images are downloaded and verified. */
    method DownloadAndVerify(u: Uuid, config: OsConfig, was: OsStatus)
      returns (st: OsStatus, changed: bool, proceed: bool, ghost exam: Exam)
      requires Matching(config.images, was.images)
      requires Conserved(OsLists()[u := was.images], downloads, BaseOsObj)
      modifies this`downloads, this`crashed, this`verifiers
      ensures Fits(config, was, exam) && Looked(facts, config, was, exam)
      ensures st == Examined(facts, config, was, exam)
      ensures changed == ExamChanges(facts, config, was, exam) && proceed == Passes(facts, config, was, exam)
      ensures Conserved(OsLists()[u := st.images], downloads, BaseOsObj)
      ensures SameCounts(old(downloads), downloads, CertObj)
      ensures !changed ==> SameRefs(was.images, st.images)
    {
      var ret;
      ghost var down, veri := [], seq(|config.images|, _ => None);
      st, ret, down := FetchImages(u, config, was);
      exam, changed, proceed := Exam(down, veri), ret.changed, false;
      if ret.failed || ret.minState < DOWNLOADED || ret.waitingForCerts {
        return;
      }
      FetchedMatching(facts, config, was, down);
      ghost var downloaded := st.images;
      st, changed, proceed, veri := VerifyImages(config, st, changed);
      exam := Exam(down, veri);
      SwapSameRefs(OsLists(), u, downloaded, st.images, downloads, BaseOsObj);
    }

    /** The first half: how far the downloads are. */
    method FetchImages(u: Uuid, config: OsConfig, was: OsStatus)
      returns (st: OsStatus, ret: Ret, ghost down: seq<Option<VerifierStatus>>)
      requires Matching(config.images, was.images)
      requires Conserved(OsLists()[u := was.images], downloads, BaseOsObj)
      modifies this`downloads, this`crashed, this`verifiers
      ensures |down| == |config.images|
      ensures forall i :: 0 <= i < |config.images| ==>
        LookedForDownload(facts, BaseOsObj, config.images[i], was.images[i], down[i])
      ensures st == Fetched(facts, config, was, down) && ret == FetchRet(facts, config, was, down)
      ensures Conserved(OsLists()[u := st.images], downloads, BaseOsObj)
      ensures SameCounts(old(downloads), downloads, CertObj)
      ensures !ret.changed ==> SameRefs(was.images, st.images)
    {
      var images;
      images, ret, down := CheckStorageDownloadStatus(BaseOsObj, u, config.images, was.images, OsLists());
      st := was.(images := images, state := ret.minState, missingDatastore := ret.missingDatastore);
      if ret.failed {
        st := st.(failed := true);
      }
      if !ret.changed { UnchangedSameRefs(facts, BaseOsObj, config.images, was.images, down); }
    }

    /** The second half: the images are downloaded and have to pass the verifier. */
    method VerifyImages(config: OsConfig, was: OsStatus, before: bool)
      returns (st: OsStatus, changed: bool, proceed: bool, ghost veri: seq<Option<VerifierStatus>>)
      requires Matching(config.images, was.images)
      ensures |veri| == |config.images| && LookedForVerifier(facts.verifier, config.images, was.images, veri)
      ensures var r := VerifyRet(VerifyEffects(was.images, veri));
        && st == was.(images := VerifiedAll(was.images, veri), state := r.minState, failed := was.failed || r.failed)
        && changed == (before || r.changed)
      ensures proceed == GoesAhead(was.images, veri)
      ensures SameRefs(was.images, st.images)
    {
      var images, ret;
      images, ret, veri := CheckStorageVerifierStatus(config.images, was.images);
      st := was.(images := images, state := ret.minState);
      changed, proceed := before || ret.changed, false;
      if ret.failed {
        st := st.(failed := true);
        return;
      }
      proceed := ret.minState >= DELIVERED;
    }

    method DoBaseOsInstall(u: Uuid, config: OsConfig, was: OsStatus)
      returns (st: OsStatus, changed: bool, proceed: bool, ghost exam: Exam)
      requires Complete(Sight())
      requires Conserved(OsLists()[u := was.images], downloads, BaseOsObj)
      modifies this`downloads, this`crashed, this`verifiers
      ensures InstallResult(Sight(), config, was, exam, st, changed, proceed)
      ensures Conserved(OsLists()[u := st.images], downloads, BaseOsObj)
      ensures SameCounts(old(downloads), downloads, CertObj)
      ensures !changed ==> SameRefs(was.images, st.images)
    {
      hide Examined, Passes, ExamChanges, Looked, Conserved, Refused, MayInstall;
      exam := Exam(seq(|config.images|, _ => None), seq(|config.images|, _ => None));
      st := was;
      var ok := ImagesMatch(config.images, was.images);
      if !ok {
        return st.(failed := true), true, false, exam;
      }
      st, changed, proceed := ValidateAndAssignPartition(config, st);
      SwapSameRefs(OsLists(), u, was.images, st.images, downloads, BaseOsObj);
      if !proceed {
        return;
      }
      StillMatching(config.images, was.images, st.images);
      var c;
      st, c, proceed, exam := DownloadAndVerify(u, config, st);
      changed := changed || c;
    }

    /** The version is in the other partition already; it may have to be written again. */
    method NoteOther(was: OsStatus) returns (st: OsStatus, changed: bool)
      ensures st == Noted(Sight(), was) && changed == (st.part != was.part)
      ensures SameRefs(was.images, st.images)
    {
      st, changed := was, false;
      if st.part.None? && st.version == VersionOf(zboot.versions, Other(zboot.table.current)) {
        st := Done(Assigned(st, Other(zboot.table.current)), DOWNLOADED).(activated := false);
        changed := true;
      }
    }

    /**
     Moves a status as far as it gets. References it takes are counted; it is reported as
     changed, or what is published holds the same references.
     */
    method DoBaseOsStatusUpdate(u: Uuid, config: OsConfig, was: OsStatus)
      returns (st: OsStatus, changed: bool, ghost exam: Exam)
      requires zboot.Valid() && Complete(Sight()) && LabelOk(Sight(), was) && u in osStatuses
      requires SameRefs(osStatuses[u].images, was.images)
      requires Conserved(OsLists()[u := was.images], downloads, BaseOsObj)
      modifies zboot, this`zbootStatus, this`osStatuses, this`writes, this`crashed, this`verifiers, this`downloads
      ensures zboot.Valid() && Legit(old(Sight()), config, was, exam)
      ensures var t := TurnOf(old(Sight()), config, was, exam);
        && st == t.st && changed == t.changed && osStatuses == Announced(old(osStatuses), u, t.shown)
        && Took(old(zboot.history), old(writes), t)
      ensures Conserved(OsImages(old(osStatuses))[u := st.images], downloads, BaseOsObj)
      ensures SameCounts(old(downloads), downloads, CertObj)
      ensures u in osStatuses && (changed || SameRefs(osStatuses[u].images, st.images))
      ensures was.version == Running(old(Sight())) ==> SameRefs(was.images, st.images)
    {
      hide NotedTurn, Looked, Conserved, MayInstall, Done, Assigned, Noted;
      if was.version == zboot.Running() {
        st := NoteRunning(was);
        SwapSameRefs(OsLists(), u, was.images, st.images, downloads, BaseOsObj);
        exam := Exam(seq(|config.images|, _ => None), seq(|config.images|, _ => None));
        return st, true, exam;
      }
      var noted;
      st, noted := NoteOther(was);
      SwapSameRefs(OsLists(), u, was.images, st.images, downloads, BaseOsObj);
      NotedMatching(Sight(), config, was);
      st, changed, exam := InstallAndActivate(u, config, st, noted);
    }

    /** The version is running already. */
    method NoteRunning(was: OsStatus) returns (st: OsStatus)
      ensures st == Done(Assigned(was, zboot.table.current), INSTALLED).(activated := true)
      ensures SameRefs(was.images, st.images)
    {
      st := Done(Assigned(was, zboot.table.current), INSTALLED).(activated := true);
    }

    /** The status of a version that is not running: installed, if it comes that far. */
    method InstallAndActivate(u: Uuid, config: OsConfig, was: OsStatus, noted: bool)
      returns (st: OsStatus, changed: bool, ghost exam: Exam)
      requires zboot.Valid() && Complete(Sight()) && u in osStatuses
      requires was.part.Some? ==> was.part.value == Other(zboot.table.current)
      requires SameRefs(osStatuses[u].images, was.images)
      requires Conserved(OsLists()[u := was.images], downloads, BaseOsObj)
      modifies zboot, this`zbootStatus, this`osStatuses, this`writes, this`crashed, this`verifiers, this`downloads
      ensures zboot.Valid() && Sized(config, was, exam)
      ensures Matching(config.images, was.images) && MayInstall(old(Sight()), config) ==>
        Looked(old(facts), config, Allotted(old(Sight()), config, was), exam)
      ensures var t := NotedTurn(old(Sight()), config, was, exam, noted);
        && st == t.st && changed == t.changed && osStatuses == Announced(old(osStatuses), u, t.shown)
        && Took(old(zboot.history), old(writes), t)
      ensures Conserved(OsImages(old(osStatuses))[u := st.images], downloads, BaseOsObj)
      ensures SameCounts(old(downloads), downloads, CertObj)
      ensures u in osStatuses && (changed || SameRefs(osStatuses[u].images, st.images))
    {
      hide InstallResult, NotedTurn, FinishTurn, Looked, Conserved, SameRefs, MayInstall, Took, Announced;
      var c, proceed;
      st, c, proceed, exam := DoBaseOsInstall(u, config, was);
      InstallFinishes(Sight(), config, was, exam, noted, st, c, proceed);
      ghost var installed := st;
      st, changed := Finish(u, config, st, noted || c, proceed, was.images);
      SwapSameRefs(OsImages(old(osStatuses)), u, installed.images, st.images, downloads, BaseOsObj);
    }

    /** The status has been looked at; its images are installed if it has passed and is to be activated. */
    method Finish(u: Uuid, config: OsConfig, was: OsStatus, before: bool, proceed: bool, ghost published: seq<Status>)
      returns (st: OsStatus, changed: bool)
      requires zboot.Valid() && Complete(Sight()) && u in osStatuses
      requires SameRefs(osStatuses[u].images, published) && (before || SameRefs(published, was.images))
      requires proceed && config.activate ==> was.part == Some(Other(zboot.table.current))
      modifies zboot, this`zbootStatus, this`osStatuses, this`writes, this`crashed
      ensures zboot.Valid()
      ensures var t := FinishTurn(old(Sight()), config, was, before, proceed);
        && st == t.st && changed == t.changed && osStatuses == Announced(old(osStatuses), u, t.shown)
        && Took(old(zboot.history), old(writes), t)
      ensures SameRefs(was.images, st.images)
      ensures u in osStatuses && (changed || SameRefs(osStatuses[u].images, st.images))
    {
      hide ActivateTurn;
      st, changed := was, before;
      if !proceed {
        return;
      }
      if !config.activate {
        changed := changed || st.activated;
        return;
      }
      if st.activated {
        return;
      }
      ActivateKeepsRefs(Sight(), WishOf(config), st);
      st, changed := DoBaseOsActivate(u, st, WishOf(config));
    }

    /** A status is moved on and published if it changed. */
    method BaseOsHandleStatusUpdate(u: Uuid, config: OsConfig, was: OsStatus) returns (ghost t: Turn)
      requires Valid() && LabelOk(Sight(), was) && u in osStatuses && SameRefs(osStatuses[u].images, was.images)
      modifies zboot, this`zbootStatus, this`osStatuses, this`writes, this`crashed, this`verifiers, this`downloads
      ensures Valid() && SameBoot(old(Sight()), old(zboot.history))
      ensures Turns(old(Sight()), config, Activation(old(Sight()), was), t)
      ensures Took(old(zboot.history), old(writes), t)
      ensures u in osStatuses && osStatuses == old(osStatuses)[u := osStatuses[u]]
      ensures t.changed ==> osStatuses[u] == t.st
      ensures !t.changed ==> osStatuses[u] == t.st || osStatuses == Announced(old(osStatuses), u, t.shown)
      ensures was.version == Running(old(Sight())) ==> SameRefs(was.images, osStatuses[u].images)
    {
      hide TurnOf, Looked, Keeps, Conserved, CacheTrue, Fresh, GoodWrites, GoodWrite, Partial, AllActive, HasActive;
      assert Conserved(OsLists()[u := was.images], downloads, BaseOsObj) by {
        SameRefsConserved(OsLists(), u, was.images, downloads, BaseOsObj);
      }
      ghost var v := Sight();
      var st, changed := BaseOsGetActivationStatus(was);
      var c;
      ghost var start, exam := st, Exam([], []);
      st, c, exam := DoBaseOsStatusUpdate(u, config, st);
      t := TurnOf(v, config, start, exam);
      changed := changed || c;
      if changed {
        PublishOsStatus(u, st);
      }
      Settle(old(osStatuses), osStatuses, u, st.images, downloads);
      OtherKind(CertLists(), old(downloads), downloads, CertObj);
      TurnKeeps(v, config, start, exam);
      KeptByTurn(v, old(zboot.history), old(writes), t);
      forall x | x in osStatuses ensures LabelOk(Sight(), osStatuses[x]) {
        assert x != u ==> LabelOk(v, old(osStatuses)[x]);
      }
    }

    /** What a turn keeps is kept. */
    lemma KeptByTurn(v: View, tables: seq<Table>, ws: seq<Write>, t: Turn)
      requires zboot.Valid() && AllBootable(tables) && (fallbackLost <==> !AllActive(tables)) && tables != []
      requires tables[|tables| - 1] == v.table
      requires CacheTrue(v) && GoodWrites(ws) && (Fresh(v) || Partial(ws))
      requires Keeps(v, t) && Took(tables, ws, t)
      ensures ZbootInv() && SameBoot(v, tables)
    {
      if t.tables == [] {
        assert tables + t.tables == tables && ws + t.writes == ws;
      } else {
        hide GoodWrites, GoodWrite, Partial;
        HistoryGrows(tables, t.after.table);
        GoodWritesGrow(ws, t.writes);
      }
    }

    // ---------- removal ----------

    /** Gives up the references of all images; no count wraps around. */
    method DropReferences(obj: ObjType, u: Uuid, was: seq<Status>, ghost lists: Lists)
      returns (list: seq<Status>, dropped: bool)
      requires Conserved(lists[u := was], downloads, obj)
      modifies this`downloads
      ensures NoRefs(list) && |list| == |was|
      ensures forall i :: 0 <= i < |was| ==> list[i] == was[i].(hasDownloaderRef := false)
      ensures Conserved(lists[u := list], downloads, obj)
      ensures forall o | o != obj :: SameCounts(old(downloads), downloads, o)
      ensures dropped <==> !NoRefs(was)
    {
      list, dropped := was, false;
      for i := 0 to |list|
        invariant |list| == |was|
        invariant forall j :: 0 <= j < |was| ==> list[j] == if j < i then was[j].(hasDownloaderRef := false) else was[j]
        invariant Conserved(lists[u := list], downloads, obj)
        invariant forall o | o != obj :: SameCounts(old(downloads), downloads, o)
        invariant dropped <==> exists j :: 0 <= j < i && was[j].hasDownloaderRef
      {
        ghost var d := downloads;
        var c;
        list, c := DropReference(obj, u, list, i, lists);
        SameCountsTwice(old(downloads), d, downloads, obj);
        dropped := dropped || c;
      }
    }

    method DropReference(obj: ObjType, u: Uuid, was: seq<Status>, i: nat, ghost lists: Lists)
      returns (list: seq<Status>, dropped: bool)
      requires i < |was| && Conserved(lists[u := was], downloads, obj)
      modifies this`downloads
      ensures list == was[i := was[i].(hasDownloaderRef := false)] && dropped == was[i].hasDownloaderRef
      ensures Conserved(lists[u := list], downloads, obj)
      ensures forall o | o != obj :: SameCounts(old(downloads), downloads, o)
    {
      list, dropped := was, was[i].hasDownloaderRef;
      if dropped {
        RefIsCounted(lists, u, was, i, downloads, obj);
        RemoveDownloaderConfig(obj, SafenameOf(was[i]));
        DropRef(lists, u, was, i, old(downloads), downloads, obj);
        OtherCounts(old(downloads), downloads, obj, SafenameOf(was[i]));
        list := was[i := was[i].(hasDownloaderRef := false)];
      }
    }

    /** Gives up the references against the verifier. */
    method DropVerifierRefs(was: seq<Status>) returns (list: seq<Status>, dropped: bool)
      modifies this`verifiers
      ensures list == Unverifying(was) && SameRefs(was, list)
      ensures dropped <==> exists i :: 0 <= i < |was| && was[i].hasVerifierRef
    {
      list, dropped := was, false;
      for i := 0 to |list|
        invariant |list| == |was|
        invariant forall j :: 0 <= j < |was| ==> list[j] == if j < i then was[j].(hasVerifierRef := false) else was[j]
        invariant dropped <==> exists j :: 0 <= j < i && was[j].hasVerifierRef
      {
        if list[i].hasVerifierRef {
          ghost var picked := MaybeRemoveVerifierConfigSha256(list[i].sha);
          list := list[i := list[i].(hasVerifierRef := false)];
          dropped := true;
        }
      }
      SameRefsAt(was, list);
    }

    /** Gives up all references of a base OS status. */
    method DropImages(u: Uuid, was: seq<Status>, ghost lists: Lists) returns (list: seq<Status>, dropped: bool)
      requires Conserved(lists[u := was], downloads, BaseOsObj)
      modifies this`downloads, this`verifiers
      ensures NoRefs(list) && |list| == |was|
      ensures forall i :: 0 <= i < |was| ==>
        list[i] == was[i].(hasDownloaderRef := false, hasVerifierRef := false)
      ensures Conserved(lists[u := list], downloads, BaseOsObj)
      ensures SameCounts(old(downloads), downloads, CertObj)
      ensures !dropped ==> NoRefs(was)
    {
      hide Conserved;
      var unverified;
      list, unverified := DropVerifierRefs(was);
      SwapSameRefs(lists, u, was, list, downloads, BaseOsObj);
      NoRefsShared(was, list);
      list, dropped := DropReferences(BaseOsObj, u, list, lists);
      dropped := dropped || unverified;
    }

    /** Gives up what is in the other partition. */
    method MarkOtherUnused()
      requires ZbootInv()
      modifies zboot`table, zboot`history, this`zbootStatus, this`fallbackLost
      ensures ZbootInv() && Sight() == GivenUp(old(Sight()))
      ensures AtMostOneMore(old(zboot.history), zboot.history)
      ensures fallbackLost == old(fallbackLost || !CurrentState(zboot.table).Active?)
    {
      hide GoodWrites, GoodWrite;
      ghost var was, v := zboot.history, Sight();
      fallbackLost := fallbackLost || !CurrentState(zboot.table).Active?;
      zboot.SetPartitionState(Other(zboot.table.current), Unused);
      PublishZbootPartitionStatus(Other(zboot.table.current));
      HistoryGrows(was, zboot.table);
      assert was[|was| - 1] == v.table && RunsBootable(v.table);
      forall p: Partition ensures TrueOf(Sight(), p) {
        assert TrueOf(v, p);
      }
    }

    /**
     The other partition is marked unused if it holds the version that is removed. That takes
     away the only fallback if and only if the running version is still under test.
     */
    method GiveUpOther(st: OsStatus) returns (marked: bool)
      requires ZbootInv() && st.part.Some?
      modifies zboot`table, zboot`history, this`zbootStatus, this`fallbackLost
      ensures ZbootInv() && marked == MarksUnused(old(Sight()), st)
      ensures AtMostOneMore(old(zboot.history), zboot.history)
      ensures Sight() == if marked then GivenUp(old(Sight())) else old(Sight())
      ensures fallbackLost == old(fallbackLost || LosesFallback(Sight(), st))
    {
      var status := zbootStatus[st.part.value];
      marked := st.version == status.version && !status.current;
      if marked {
        MarkOtherUnused();
      }
    }

    method UnassignPartition(u: Uuid, was: OsStatus) returns (st: OsStatus)
      requires ZbootInv() && was.part.Some?
      modifies zboot`table, zboot`history, this`zbootStatus, this`osStatuses, this`fallbackLost
      ensures ZbootInv() && Sight() == Removing(old(Sight()), was)
      ensures AtMostOneMore(old(zboot.history), zboot.history)
      ensures fallbackLost == old(fallbackLost || LosesFallback(Sight(), was))
      ensures st.part.None? && st.version == was.version && SameRefs(was.images, st.images)
      ensures |st.images| == |was.images| && forall i :: 0 <= i < |was.images| ==> st.images[i].sha == was.images[i].sha
      ensures osStatuses == old(osStatuses)
        || (osStatuses == old(osStatuses)[u := Assigned(was, was.part.value)])
    {
      hide GoodWrites, GoodWrite, CacheTrue, Fresh, AllActive, AllBootable;
      st := was;
      var marked := GiveUpOther(st);
      if marked {
        st := Assigned(st, st.part.value);
        PublishOsStatus(u, st);
      }
      st := st.(part := None);
    }

    /** Whether the status can be unpublished; the references are gone in any case. */
    method DoBaseOsUninstall(u: Uuid, was: OsStatus) returns (st: OsStatus, changed: bool, del: bool)
      requires ZbootInv() && RefsInv() && u in osStatuses && osStatuses[u] == was
      modifies zboot, this`zbootStatus, this`osStatuses, this`fallbackLost, this`downloads, this`verifiers
      ensures ZbootInv() && Sight() == Removing(old(Sight()), was)
      ensures AtMostOneMore(old(zboot.history), zboot.history)
      ensures fallbackLost == old(fallbackLost || LosesFallback(Sight(), was))
      ensures st.part.None? && NoRefs(st.images)
      ensures osStatuses == old(osStatuses)
        || (was.part.Some? && osStatuses == old(osStatuses)[u := Assigned(was, was.part.value)])
      ensures Conserved(OsImages(old(osStatuses))[u := st.images], downloads, BaseOsObj)
      ensures SameCounts(old(downloads), downloads, CertObj)
      ensures !changed ==> NoRefs(osStatuses[u].images) && osStatuses[u].part.None?
      ensures del <==> !StillReported(facts, was.images)
    {
      hide GoodWrites, GoodWrite, CacheTrue, Fresh, AllActive, AllBootable, Conserved, Assigned, GivenUp, SameCounts;
      st, changed := was, false;
      if st.part.Some? {
        st := UnassignPartition(u, st);
        changed := true;
      }
      assert OsImages(old(osStatuses))[u := was.images] == OsImages(old(osStatuses));
      SwapSameRefs(OsImages(old(osStatuses)), u, was.images, st.images, downloads, BaseOsObj);
      NoRefsShared(was.images, st.images);
      var images, dropped := DropImages(u, st.images, OsImages(old(osStatuses)));
      st := st.(images := images);
      changed := changed || dropped;
      // the downloader's report is looked up under the checksum
      assert forall i :: 0 <= i < |was.images| ==> st.images[i].sha == was.images[i].sha;
      del := !StillReported(facts, st.images);
    }

    method RemoveBaseOsStatus(u: Uuid)
      requires Valid()
      modifies zboot, this`zbootStatus, this`osStatuses, this`fallbackLost, this`downloads, this`verifiers
      ensures Valid() && AtMostOneMore(old(zboot.history), zboot.history)
      ensures Sight() == if u in old(osStatuses) then Removing(old(Sight()), old(osStatuses)[u]) else old(Sight())
      ensures fallbackLost == old(fallbackLost || (u in osStatuses && LosesFallback(Sight(), osStatuses[u])))
      ensures u in osStatuses <==> u in old(osStatuses) && StillReported(facts, old(osStatuses)[u].images)
      ensures osStatuses - {u} == old(osStatuses) - {u}
      ensures u in osStatuses ==> NoRefs(osStatuses[u].images) && osStatuses[u].part.None?
    {
      hide GoodWrites, GoodWrite, CacheTrue, Fresh, AllActive, AllBootable, Conserved, SameCounts;
      hide Removing, LosesFallback, StillReported, Partial;
      if u !in osStatuses {
        return;
      }
      ghost var was, v := osStatuses, Sight();
      var st, changed, del := DoBaseOsUninstall(u, osStatuses[u]);
      if changed {
        PublishOsStatus(u, st);
      }
      RemovalKeepsLabels(v, was, u, osStatuses);
      SettleEmpty(was, osStatuses, u, st.images, downloads);
      OtherKind(CertLists(), old(downloads), downloads, CertObj);
      if del {
        osStatuses := osStatuses - {u};
      }
    }

    // ---------- confirming an update ----------

    method PublishZbootPartitionStatusAll()
      modifies this`zbootStatus
      ensures CacheInv() && Fresh(Sight())
      ensures Sight() == old(Sight()).(cache := zbootStatus)
      ensures forall p: Partition :: zbootStatus[p] == Report(Sight(), p)
    {
      PublishZbootPartitionStatus(IMGA);
      PublishZbootPartitionStatus(IMGB);
      forall p: Partition ensures p in zbootStatus && zbootStatus[p] == Report(Sight(), p) && TrueOf(Sight(), p) {
        assert p.IMGA? || p.IMGB?;
      }
    }

    /** Every published status is renewed; versions, places and references stay. */
    method UpdateAndPublishBaseOsStatusAll()
      modifies this`osStatuses
      ensures osStatuses == RenewedAll(old(osStatuses))
    {
      var items := osStatuses;
      var todo := items.Keys;
      while todo != {}
        invariant todo <= items.Keys == osStatuses.Keys
        invariant forall u :: u in items ==> osStatuses[u] == if u in todo then items[u] else Renewed(items[u])
        decreases |todo|
      {
        var u :| u in todo;
        todo := todo - {u};
        if items[u].part.Some? {
          PublishOsStatus(u, Assigned(items[u], items[u].part.value));
        }
      }
    }

    method MaybeRetryInstall()
      requires Valid()
      modifies zboot, this`zbootStatus, this`osStatuses, this`writes, this`crashed, this`verifiers, this`downloads
      ensures Valid() && SameBoot(old(Sight()), old(zboot.history))
      ensures osStatuses.Keys == old(osStatuses.Keys) && old(writes) <= writes
      ensures forall u :: u in osStatuses && old(osStatuses)[u].version == Running(old(Sight())) ==>
        SameRefs(old(osStatuses)[u].images, osStatuses[u].images)
      ensures Retried(old(Sight()), osConfigs, old(osStatuses), osStatuses)
    {
      hide ZbootInv, LabelsInv, RefsInv, RefView, RetriedOne, SameBoot;
      SameBootAtFirst();
      var items := osStatuses;
      var todo := items.Keys;
      while todo != {}
        invariant Valid() && SameBoot(old(Sight()), old(zboot.history))
        invariant todo <= items.Keys == osStatuses.Keys
        invariant forall u :: u in todo ==> osStatuses[u] == items[u]
        invariant forall u :: u in items && items[u].version == Running(old(Sight())) ==>
          SameRefs(items[u].images, osStatuses[u].images)
        invariant forall u :: u in items && u !in todo ==> RetriedOne(old(Sight()), u, items[u], osStatuses[u])
        invariant old(writes) <= writes
        decreases |todo|
      {
        var u :| u in todo;
        todo := todo - {u};
        RetryInstall(u, items[u], old(Sight()), old(zboot.history));
      }
      AllRetried(old(Sight()), items, osStatuses);
    }

    /** One status is tried again if it was refused as too early. */
    ghost predicate RetriedOne(w: View, u: Uuid, was: OsStatus, st: OsStatus)
      reads this`osConfigs
    {
      if was.tooEarly && u in osConfigs
      then MovedOn(w, osConfigs[u], was.(tooEarly := false, failed := false), st)
      else st == was
    }

    lemma RetriedEarlier(w: View, v: View, u: Uuid, was: OsStatus, st: OsStatus)
      requires SameMachine(w, v) && RetriedOne(v, u, was, st)
      ensures RetriedOne(w, u, was, st)
    {
      if was.tooEarly && u in osConfigs {
        MovedOnFrom(w, v, osConfigs[u], was.(tooEarly := false, failed := false), st);
      }
    }

    lemma AllRetried(w: View, before: map<Uuid, OsStatus>, after: map<Uuid, OsStatus>)
      requires after.Keys == before.Keys && forall u :: u in before ==> RetriedOne(w, u, before[u], after[u])
      ensures Retried(w, osConfigs, before, after)
    {
      hide MovedOn;
    }

    lemma SameBootAtFirst()
      ensures SameBoot(Sight(), zboot.history)
    {
    }

    method RetryInstall(u: Uuid, was: OsStatus, ghost w: View, ghost tables: seq<Table>)
      requires Valid() && u in osStatuses && osStatuses[u] == was && SameBoot(w, tables) && facts == w.facts
      modifies zboot, this`zbootStatus, this`osStatuses, this`writes, this`crashed, this`verifiers, this`downloads
      ensures Valid() && SameBoot(w, tables)
      ensures u in osStatuses && osStatuses == old(osStatuses)[u := osStatuses[u]] && old(writes) <= writes
      ensures was.version == Running(w) ==> SameRefs(was.images, osStatuses[u].images)
      ensures RetriedOne(w, u, was, osStatuses[u])
    {
      hide ZbootInv, RefsInv, TurnOf, Turns, Legit, HasActive;
      if was.tooEarly && u in osConfigs {
        ghost var v := Sight();
        ghost var t := BaseOsHandleStatusUpdate(u, osConfigs[u], was.(tooEarly := false, failed := false));
        RetriedEarlier(w, v, u, was, osStatuses[u]);
      }
    }

    /** Marks the running partition active and publishes what came of it. */
    method ConfirmCurrent(u: Uuid, was: OsStatus) returns (ok: bool, st: OsStatus)
      requires ZbootInv()
      modifies zboot`table, zboot`history, this`zbootStatus, this`osStatuses
      ensures ZbootInv() && SameBoot(old(Sight()), old(zboot.history)) && facts == old(facts)
      ensures old(CurrentState(zboot.table)).InProgress? ==>
        && Sight() == ProvenView(old(Sight())) && CurrentState(zboot.table).Active?
        && (ok <==> old(OtherState(zboot.table)).Active? || old(OtherState(zboot.table)).InProgress?)
      ensures st == was.(testComplete := true, failed := was.failed || !ok)
      ensures osStatuses == old(osStatuses)[u := st]
    {
      hide GoodWrites, GoodWrite;
      ghost var h, v := zboot.history, Sight();
      ok := zboot.MarkCurrentPartitionStateActive();
      ghost var marked := WithState(v.table, v.table.current, Active);
      HistoryGrows(h, marked);
      HistoryGrows(h + [marked], zboot.table);
      assert h + [marked, zboot.table] == h + [marked] + [zboot.table];
      assert RunsBootable(h[|h| - 1]);
      st := was.(testComplete := true, failed := was.failed || !ok);
      PublishOsStatus(u, st);
      PublishZbootPartitionStatusAll();
    }

    /** Renews every published status after one of them was published. */
    method RenewAll(u: Uuid, ghost was: map<Uuid, OsStatus>)
      requires u in osStatuses && u in was && osStatuses == was[u := osStatuses[u]]
      requires SameRefs(was[u].images, osStatuses[u].images)
      requires Conserved(OsImages(was), downloads, BaseOsObj)
      modifies this`osStatuses
      ensures osStatuses == RenewedAll(old(osStatuses))
      ensures Conserved(OsLists(), downloads, BaseOsObj)
    {
      hide Conserved;
      ghost var published := osStatuses;
      assert OsImages(was)[u := was[u].images] == OsImages(was);
      Settle(was, published, u, was[u].images, downloads);
      UpdateAndPublishBaseOsStatusAll();
      RenewedConserved(published, downloads);
    }

    /** The version under test has proved itself. */
    method DoPartitionStateTransition(u: Uuid, was: OsStatus)
      requires Valid() && LabelOk(Sight(), was) && u in osStatuses && SameRefs(osStatuses[u].images, was.images)
      modifies zboot, this`zbootStatus, this`osStatuses, this`writes, this`crashed, this`verifiers, this`downloads
      ensures Valid() && SameBoot(old(Sight()), old(zboot.history))
      ensures u in osStatuses && SameRefs(osStatuses[u].images, was.images)
      ensures was.part == Some(old(zboot.table.current)) && was.version == Running(old(Sight()))
              && old(CurrentState(zboot.table)).InProgress? ==>
        var freed := old(OtherState(zboot.table)).Active? || old(OtherState(zboot.table)).InProgress?;
        var renewed := RenewedAll(old(osStatuses)[u := was.(testComplete := true, failed := was.failed || !freed)]);
        && CurrentState(zboot.table).Active? && old(writes) <= writes
        && (freed ==> Retried(ProvenView(old(Sight())), osConfigs, renewed, osStatuses))
        && (!freed ==> Sight() == ProvenView(old(Sight())) && osStatuses == renewed && writes == old(writes)
                       && downloads == old(downloads) && verifiers == old(verifiers))
      ensures was.part != Some(old(zboot.table.current)) || was.version != Running(old(Sight())) ==>
        Snapshot() == old(Snapshot())
    {
      hide WritesInv, PartitionsInv, Conserved, RefView, Assigned, Fresh, Retried, ProvenView, HasActive;
      if was.part != Some(zboot.table.current) || was.version != zbootStatus[zboot.table.current].version {
        return;
      }
      ghost var v := Sight();
      var ok, st := ConfirmCurrent(u, was);
      RenewAll(u, old(osStatuses));
      RenewedLabels(v, old(osStatuses)[u := st], Sight());
      RenewedSameRefs(st);
      ghost var w, images := Sight(), osStatuses[u].images;
      if ok {
        assert osStatuses[u].version == Running(w);
        MaybeRetryInstall();
        SameRefsTwice(was.images, images, osStatuses[u].images);
      }
    }

    method HandleBaseOsTestComplete(u: Uuid, config: OsConfig, was: OsStatus)
      requires Valid() && LabelOk(Sight(), was) && u in osStatuses && SameRefs(osStatuses[u].images, was.images)
      modifies zboot, this`zbootStatus, this`osStatuses, this`writes, this`crashed, this`verifiers, this`downloads
      ensures Valid() && SameBoot(old(Sight()), old(zboot.history))
      ensures u in osStatuses && SameRefs(osStatuses[u].images, was.images)
      ensures if config.testComplete == was.testComplete then Snapshot() == old(Snapshot())
              else Confirmed(old(Snapshot()), Snapshot(), u, config, was)
    {
      hide WritesInv, PartitionsInv, Conserved, RefView, Assigned, Fresh;
      if config.testComplete == was.testComplete {
        return;
      }
      if config.testComplete {
        assert TrueOf(Sight(), zboot.table.current);
        if zbootStatus[zboot.table.current].state.InProgress? {
          DoPartitionStateTransition(u, was);
        }
        return;
      }
      PublishOsStatus(u, was.(testComplete := false));
      RenewAll(u, old(osStatuses));
      RenewedLabels(Sight(), old(osStatuses)[u := was.(testComplete := false)], Sight());
      RenewedSameRefs(was.(testComplete := false));
    }

    // ---------- base OS configurations come, change and go ----------

    /** Publishing a status with the references that are already counted. */
    method PublishCounted(u: Uuid, st: OsStatus)
      requires Valid() && LabelOk(Sight(), st)
      requires if u in osStatuses then SameRefs(osStatuses[u].images, st.images) else NoRefs(st.images)
      modifies this`osStatuses
      ensures Valid() && osStatuses == old(osStatuses)[u := st]
    {
      hide ZbootInv, Conserved;
      if u in osStatuses {
        assert OsImages(osStatuses)[u := osStatuses[u].images] == OsImages(osStatuses);
        Settle(osStatuses, osStatuses[u := st], u, osStatuses[u].images, downloads);
      } else {
        NoRefsConserved(OsLists(), u, st.images, downloads, BaseOsObj);
        assert OsImages(osStatuses[u := st]) == OsLists()[u := st.images];
      }
      PublishOsStatus(u, st);
    }

    /** A status is published as it is and then moved on. */
    method PublishAndMove(u: Uuid, config: OsConfig, was: OsStatus, ghost from: OsStatus) returns (ghost t: Turn)
      requires Valid() && LabelOk(Sight(), was) && Activation(Sight(), was) == Activation(Sight(), from)
      requires if u in osStatuses then SameRefs(osStatuses[u].images, was.images) else NoRefs(was.images)
      modifies zboot, this`zbootStatus, this`osStatuses, this`writes, this`crashed, this`verifiers, this`downloads
      ensures Valid() && SameBoot(old(Sight()), old(zboot.history))
      ensures Moves(old(Snapshot()), Snapshot(), u, config, from, t)
    {
      hide ZbootInv, RefsInv, Turns, LabelsInv;
      PublishCounted(u, was);
      t := BaseOsHandleStatusUpdate(u, config, was);
    }

    method HandleBaseOsCreate2(u: Uuid, config: OsConfig, was: OsStatus) returns (ghost t: Option<Turn>)
      requires Valid() && LabelOk(Sight(), was)
      requires if u in osStatuses then SameRefs(osStatuses[u].images, was.images) else NoRefs(was.images)
      modifies zboot, this`zbootStatus, this`osStatuses, this`writes, this`crashed, this`verifiers, this`downloads
      ensures Valid() && SameBoot(old(Sight()), old(zboot.history))
      ensures u in osStatuses && osStatuses == old(osStatuses)[u := osStatuses[u]]
      ensures t.Some? <==> !TooMuch(osConfigs, config)
      ensures t.Some? ==>
        Moves(old(Snapshot()), Snapshot(), u, config, was, t.value)
      ensures t.None? ==>
        Snapshot() == old(Snapshot()).(statuses := old(osStatuses)[u := was.(failed := true)])
    {
      hide WritesInv, PartitionsInv, RefsInv, Took, Turns, LabelsInv, CacheTrue;
      if TooMuch(osConfigs, config) {
        PublishCounted(u, was.(failed := true));
        return None;
      }
      var st, changed := BaseOsGetActivationStatus(was);
      ghost var turn := PublishAndMove(u, config, st, was);
      return Some(turn);
    }

    method HandleBaseOsModify(u: Uuid, config: OsConfig, was: OsStatus) returns (ghost mid: Snap, ghost t: Option<Turn>)
      requires Valid() && u in osStatuses && was == osStatuses[u]
      modifies zboot, this`zbootStatus, this`osStatuses, this`writes, this`crashed, this`verifiers, this`downloads
      ensures Valid() && SameBoot(old(Sight()), old(zboot.history))
      ensures if Confirming(config, was) then Confirmed(old(Snapshot()), mid, u, config, was)
              else mid == old(Snapshot())
      ensures t.Some? <==> !TooMuch(osConfigs, config)
      ensures t.Some? ==> Moves(mid, Snapshot(), u, config, was, t.value)
      ensures t.None? ==> Snapshot() == mid.(statuses := mid.statuses[u := was.(failed := true)])
    {
      hide ZbootInv, RefsInv, Moves, Confirmed;
      t := None;
      if config.testComplete != was.testComplete && was.activated {
        HandleBaseOsTestComplete(u, config, was);
      }
      mid := Snapshot();
      // goes on with the status as it was before
      if TooMuch(osConfigs, config) {
        PublishCounted(u, was.(failed := true));
        return;
      }
      ghost var turn := PublishAndMove(u, config, was, was);
      t := Some(turn);
    }

    method HandleBaseOsConfigModify(u: Uuid, config: OsConfig) returns (ghost mid: Snap, ghost t: Option<Turn>)
      requires Valid()
      modifies zboot, this`zbootStatus, this`osStatuses, this`writes, this`crashed, this`downloads, this`osConfigs
      modifies this`verifiers
      ensures Valid() && SameBoot(old(Sight()), old(zboot.history))
      ensures ModifiedOs(old(Snapshot()), Snapshot(), u, config, mid, t)
    {
      hide ZbootInv, RefsInv, Moves, Confirmed;
      osConfigs := osConfigs[u := config];
      if u in osStatuses {
        mid, t := HandleBaseOsModify(u, config, osStatuses[u]);
      } else {
        mid := Snapshot();
        t := HandleBaseOsCreate2(u, config, NewOsStatus(config));
      }
    }

    method HandleBaseOsConfigDelete(u: Uuid)
      requires Valid()
      modifies zboot, this`zbootStatus, this`osStatuses, this`fallbackLost, this`downloads, this`osConfigs
      modifies this`verifiers
      ensures Valid() && AtMostOneMore(old(zboot.history), zboot.history)
      ensures Sight() == if u in old(osStatuses) then Removing(old(Sight()), old(osStatuses)[u]) else old(Sight())
      ensures fallbackLost == old(fallbackLost || (u in osStatuses && LosesFallback(Sight(), osStatuses[u])))
      ensures DeletedOs(old(Snapshot()), Snapshot(), u)
    {
      hide ZbootInv, RefsInv, LabelsInv, Removing;
      osConfigs := osConfigs - {u};
      RemoveBaseOsStatus(u);
    }

    /** A datastore arrives that some configuration was waiting for. */
    method CheckAndRecreateBaseOs(id: string)
      requires Valid()
      modifies zboot, this`zbootStatus, this`osStatuses, this`writes, this`crashed, this`verifiers, this`downloads
      ensures Valid() && SameBoot(old(Sight()), old(zboot.history))
      ensures osStatuses.Keys == old(osStatuses.Keys)
      ensures forall u :: u in osStatuses ==>
        Restarts(old(Sight()), osConfigs, u, old(osStatuses)[u], osStatuses[u], id)
      ensures (forall u :: u in old(osStatuses) ==> !Awaits(osConfigs, old(osStatuses)[u], u, id)) ==>
        Snapshot() == old(Snapshot())
    {
      hide ZbootInv, RefsInv, LabelsInv, Awaits, Restarts, SameBoot;
      SameBootAtFirst();
      var items := osStatuses;
      var todo := items.Keys;
      ghost var w := Sight();
      while todo != {}
        invariant Valid() && SameBoot(old(Sight()), old(zboot.history))
        invariant todo <= items.Keys == osStatuses.Keys
        invariant forall u :: u in todo ==> osStatuses[u] == items[u]
        invariant forall u :: u in items && u !in todo ==>
          Restarts(w, osConfigs, u, items[u], osStatuses[u], id)
        invariant (forall u :: u in items ==> !Awaits(osConfigs, items[u], u, id)) ==> Snapshot() == old(Snapshot())
        decreases |todo|
      {
        var u :| u in todo;
        todo := todo - {u};
        NotRestarted(w, osConfigs, u, items[u], id);
        if Awaits(osConfigs, items[u], u, id) {
          Recreate(u, items[u], id, w, old(zboot.history));
        }
      }
    }

    method HandleDatastoreConfigModify(id: string)
      requires Valid()
      modifies zboot, this`zbootStatus, this`osStatuses, this`writes, this`crashed, this`downloads, this`facts
      modifies this`verifiers
      ensures Valid() && SameBoot(old(Sight()), old(zboot.history))
      ensures AddedStore(old(Snapshot()), Snapshot(), id)
    {
      hide ZbootInv, RefsInv, LabelsInv, Awaits, Restarts, HasActive;
      Learn(facts.(datastores := facts.datastores + {id}));
      CheckAndRecreateBaseOs(id);
    }

    method Recreate(u: Uuid, was: OsStatus, ghost id: string, ghost w: View, ghost tables: seq<Table>)
      requires Valid() && u in osStatuses && osStatuses[u] == was && Awaits(osConfigs, was, u, id)
      requires SameBoot(w, tables) && facts == w.facts
      modifies zboot, this`zbootStatus, this`osStatuses, this`writes, this`crashed, this`verifiers, this`downloads
      ensures Valid() && SameBoot(w, tables)
      ensures u in osStatuses && osStatuses == old(osStatuses)[u := osStatuses[u]]
      ensures Restarts(w, osConfigs, u, was, osStatuses[u], id)
    {
      hide ZbootInv, RefsInv, Turns, HasActive;
      ghost var v := Sight();
      ghost var t := HandleBaseOsCreate2(u, osConfigs[u], was.(failed := false));
      RestartsEarlier(w, v, osConfigs, u, was, osStatuses[u], id);
    }

    /** Some configuration with an image of that name, if it has a status, is moved on. */
    method BaseOsHandleStatusUpdateSafename(safename: string) returns (ghost moved: Option<Move>)
      requires Valid()
      modifies zboot, this`zbootStatus, this`osStatuses, this`writes, this`crashed, this`verifiers, this`downloads
      ensures Valid() && SameBoot(old(Sight()), old(zboot.history))
      ensures MovesOne(old(Snapshot()), Snapshot(), moved)
      ensures moved.Some? ==> Names(osConfigs[moved.value.u].images, safename)
      ensures moved.None? ==> Snapshot() == old(Snapshot()) && NoneToMove(Snapshot(), safename)
    {
      hide ZbootInv, RefsInv, Turns;
      moved := None;
      if u :| u in osConfigs && Names(osConfigs[u].images, safename) {
        if u in osStatuses {
          ghost var t := BaseOsHandleStatusUpdate(u, osConfigs[u], osStatuses[u]);
          moved := Some(Move(u, t));
        }
      }
    }

    // ---------- certificates ----------

    /** Copies the certificates to their directory; some may not be ready. */
    method InstallCerts(was: seq<Status>) returns (list: seq<Status>, all: bool)
      modifies this`crashed
      ensures SameRefs(was, list)
    {
      list, all := was, true;
      for i := 0 to |was|
        invariant |list| == |was| && SameRefs(was, list)
      {
        var installed: bool, missing: bool := *, *;
        if missing { crashed := true; }
        if list[i].state != INSTALLED && installed {
          ghost var before := list;
          list := list[i := list[i].(state := INSTALLED)];
          SameRefsAt(before, list);
        }
        all := all && list[i].state == INSTALLED;
      }
    }

    method DoCertObjInstall(u: Uuid, config: CertConfig, was: CertStatus)
      returns (st: CertStatus, changed: bool, proceed: bool)
      requires RefsInv() && u in certStatuses && SameRefs(certStatuses[u].images, was.images)
      modifies this`downloads, this`crashed, this`verifiers, this`certStatuses
      ensures u in certStatuses && certStatuses == old(certStatuses)[u := certStatuses[u]]
      ensures changed || SameRefs(certStatuses[u].images, st.images)
      ensures st.version == was.version
      ensures certStatuses[u] == old(certStatuses)[u] || certStatuses[u].version == was.version
      ensures Conserved(CertImages(old(certStatuses))[u := st.images], downloads, CertObj)
      ensures SameCounts(old(downloads), downloads, BaseOsObj)
    {
      hide DownloadedAll, DownloadEffects, DownloadRet, LookedForDownload, Conserved;
      SameRefsConserved(CertLists(), u, was.images, downloads, CertObj);
      st := was;
      if |config.images| != |was.images| {
        return st.(failed := true), false, false;
      }
      var ok := ImagesMatch(config.images, was.images);
      if !ok {
        return st.(failed := true), true, false;
      }
      var images, ret := CheckCerts(u, config, was.images);
      st := st.(images := images, state := ret.minState, failed := ret.failed);
      if ret.failed || ret.minState < DOWNLOADED || ret.waitingForCerts {
        return st, ret.changed, false;
      }
      ghost var checked := images;
      var all;
      images, all := InstallCerts(images);
      SwapSameRefs(CertLists(), u, checked, images, downloads, CertObj);
      st := st.(images := images, state := if all then INSTALLED else st.state);
      certStatuses := certStatuses[u := st];
      return st, all, true;
    }

    /** How far the downloads of the certificates are. */
    method CheckCerts(u: Uuid, config: CertConfig, was: seq<Status>) returns (list: seq<Status>, ret: Ret)
      requires Matching(config.images, was) && Conserved(CertLists()[u := was], downloads, CertObj)
      modifies this`downloads, this`crashed, this`verifiers
      ensures Conserved(CertLists()[u := list], downloads, CertObj)
      ensures SameCounts(old(downloads), downloads, BaseOsObj)
      ensures !ret.changed ==> SameRefs(was, list)
    {
      ghost var found;
      list, ret, found := CheckStorageDownloadStatus(CertObj, u, config.images, was, CertLists());
      if !ret.changed { UnchangedSameRefs(facts, CertObj, config.images, was, found); }
    }

    method CertObjHandleStatusUpdate(u: Uuid, config: CertConfig, was: CertStatus) returns (ghost moved: Option<Move>)
      requires Valid() && u in certStatuses && SameRefs(certStatuses[u].images, was.images)
      modifies zboot, this`zbootStatus, this`osStatuses, this`writes, this`crashed, this`downloads, this`certStatuses
      modifies this`verifiers
      ensures Valid() && SameBoot(old(Sight()), old(zboot.history))
      ensures MovesOne(old(Snapshot()), Snapshot(), moved) && (moved.Some? ==> moved.value.u == u)
      ensures u in certStatuses && certStatuses == old(certStatuses)[u := certStatuses[u]]
      ensures old(certStatuses)[u].version == was.version ==> certStatuses[u].version == was.version
    {
      hide ZbootInv, Conserved, SameCounts, Turns;
      moved := None;
      var st, changed, proceed := DoCertObjInstall(u, config, was);
      if changed {
        certStatuses := certStatuses[u := st];
      }
      SettleCerts(old(certStatuses), certStatuses, u, st.images, downloads);
      OtherKind(OsLists(), old(downloads), downloads, BaseOsObj);
      // the certificates may be what a base OS image was waiting for
      if proceed && u in osConfigs && u in osStatuses {
        ghost var t := BaseOsHandleStatusUpdate(u, osConfigs[u], osStatuses[u]);
        moved := Some(Move(u, t));
      }
    }

    /** A status is published with the references that are already counted. */
    method PublishCert(u: Uuid, st: CertStatus)
      requires Valid()
      requires if u in certStatuses then SameRefs(certStatuses[u].images, st.images) else NoRefs(st.images)
      modifies this`certStatuses
      ensures Valid() && certStatuses == old(certStatuses)[u := st]
    {
      hide ZbootInv, LabelsInv, Conserved;
      if u in certStatuses {
        assert CertImages(certStatuses)[u := certStatuses[u].images] == CertImages(certStatuses);
        SettleCerts(certStatuses, certStatuses[u := st], u, certStatuses[u].images, downloads);
      } else {
        NoRefsConserved(CertLists(), u, st.images, downloads, CertObj);
        assert CertImages(certStatuses[u := st]) == CertLists()[u := st.images];
      }
      certStatuses := certStatuses[u := st];
    }

    method HandleCertObjConfigModify(u: Uuid, config: CertConfig) returns (ghost t: Option<Turn>)
      requires Valid()
      modifies zboot, this`zbootStatus, this`osStatuses, this`writes, this`crashed, this`downloads, this`certStatuses
      modifies this`verifiers, this`certConfigs
      ensures Valid() && SameBoot(old(Sight()), old(zboot.history))
      ensures ModifiedCert(old(Snapshot()), Snapshot(), u, config, t)
    {
      hide ZbootInv, LabelsInv, RefsInv, Turns;
      t := None;
      certConfigs := certConfigs[u := config];
      var st;
      if u in certStatuses {
        st := certStatuses[u];
        if st.version == config.version {
          return;
        }
        st := st.(version := config.version);
      } else {
        var images := NewStatuses(config.images, CertificateDir);
        st := CertStatus(config.version, images, 0, false);
      }
      PublishCert(u, st);
      ghost var moved := CertObjHandleStatusUpdate(u, config, st);
      t := if moved.Some? then Some(moved.value.t) else None;
    }

    /** The references are given up; the status itself stays published. */
    method HandleCertObjConfigDelete(u: Uuid)
      requires Valid()
      modifies this`downloads, this`certStatuses, this`certConfigs
      ensures Valid()
      ensures DeletedCert(old(Snapshot()), Snapshot(), u)
    {
      hide ZbootInv, LabelsInv, Conserved, SameCounts;
      certConfigs := certConfigs - {u};
      if u !in certStatuses {
        return;
      }
      assert CertLists()[u := certStatuses[u].images] == CertLists();
      var images, dropped := DropReferences(CertObj, u, certStatuses[u].images, CertLists());
      OtherKind(OsLists(), old(downloads), downloads, BaseOsObj);
      if dropped {
        certStatuses := certStatuses[u := certStatuses[u].(images := images, state := INITIAL)];
        assert CertLists() == CertImages(old(certStatuses))[u := images];
      } else {
        NoRefsConserved(CertLists()[u := images], u, certStatuses[u].images, downloads, CertObj);
        assert CertLists()[u := images][u := certStatuses[u].images] == CertLists();
      }
    }

    method CertObjHandleStatusUpdateSafename(safename: string) returns (ghost moved: Option<Move>)
      requires Valid()
      modifies zboot, this`zbootStatus, this`osStatuses, this`writes, this`crashed, this`downloads, this`certStatuses
      modifies this`verifiers
      ensures Valid() && SameBoot(old(Sight()), old(zboot.history))
      ensures MovesOne(old(Snapshot()), Snapshot(), moved)
      ensures moved.Some? ==>
        moved.value.u in certConfigs && Names(certConfigs[moved.value.u].images, safename)
    {
      hide ZbootInv, LabelsInv, RefsInv, Moves;
      moved := None;
      if u :| u in certConfigs && Names(certConfigs[u].images, safename) {
        if u in certStatuses {
          moved := CertObjHandleStatusUpdate(u, certConfigs[u], certStatuses[u]);
        }
      }
    }

    // ---------- reports of the downloader and the verifier ----------

    /** The manager is told something. */
    method Learn(now: Facts)
      requires Valid()
      modifies this`facts
      ensures Valid() && facts == now && Sight() == old(Sight()).(facts := now)
    {
      ghost var v := Sight();
      facts := now;
      forall p: Partition ensures TrueOf(Sight(), p) { assert TrueOf(v, p); }
    }

    /**
     A report of the downloader: the echo of a file without references, the end of a file
     that expired, or progress. A count is taken away only if nothing refers to it.
     */
    method UpdateDownloaderStatus(obj: ObjType, safename: string, status: DownloaderStatus)
      returns (ghost moved: Option<Move>)
      requires Valid()
      modifies zboot, this`zbootStatus, this`osStatuses, this`writes, this`crashed, this`downloads, this`certStatuses
      modifies this`verifiers, this`facts
      ensures Valid() && SameBoot(old(Sight()), old(zboot.history))
      ensures ReportedDownload(old(Snapshot()), Snapshot(), obj, safename, status, moved)
      ensures (obj, safename) in old(downloads) && (obj, safename) !in downloads ==>
        Refs(if obj.BaseOsObj? then OsLists() else CertLists(), safename) == {}
    {
      hide ZbootInv, LabelsInv, RefsInv, Moves, NoneToMove, Refs;
      moved := None;
      Learn(facts.(downloader := facts.downloader[(obj, safename) := status]));
      ghost var told := Snapshot();
      var answered := AnswerDownloader(obj, safename, status);
      if answered {
        AbsentIsUnreferenced(obj, safename);
        return;
      }
      moved := MoveOn(obj, safename);
      AbsentIsUnreferenced(obj, safename);
      assert told == Told(old(Snapshot()), facts);
      if moved.None? && obj.BaseOsObj? { NoneToMoveOnceTold(old(Snapshot()), facts, safename); }
    }

    /** What has no entry has no reference. */
    lemma AbsentIsUnreferenced(obj: ObjType, safename: string)
      requires RefsInv()
      ensures (obj, safename) !in downloads ==>
        Refs(if obj.BaseOsObj? then OsLists() else CertLists(), safename) == {}
    {
      if (obj, safename) !in downloads { assert CountOf(downloads, obj, safename) == 0; }
    }

    /** The two cases in which a report only concerns the count. */
    method AnswerDownloader(obj: ObjType, safename: string, status: DownloaderStatus) returns (answered: bool)
      requires Valid()
      modifies this`downloads
      ensures Valid()
      ensures (obj, safename) !in old(downloads) && status.refCount == 0 ==>
        answered && downloads == old(downloads)[(obj, safename) := 0]
      ensures (obj, safename) in old(downloads) && old(downloads)[(obj, safename)] == 0 && status.expired ==>
        answered && downloads == old(downloads) - {(obj, safename)}
      ensures answered <==>
        || ((obj, safename) !in old(downloads) && status.refCount == 0)
        || ((obj, safename) in old(downloads) && old(downloads)[(obj, safename)] == 0 && status.expired)
      ensures !answered ==> downloads == old(downloads)
    {
      hide ZbootInv, LabelsInv;
      ZeroCounts(OsLists(), downloads, BaseOsObj, obj, safename);
      ZeroCounts(CertLists(), downloads, CertObj, obj, safename);
      if (obj, safename) !in downloads && status.refCount == 0 {
        downloads := downloads[(obj, safename) := 0];
        return true;
      }
      if (obj, safename) in downloads && downloads[(obj, safename)] == 0 && status.expired {
        downloads := downloads - {(obj, safename)};
        return true;
      }
      return false;
    }

    /** The normal update work for an image. */
    method MoveOn(obj: ObjType, safename: string) returns (ghost moved: Option<Move>)
      requires Valid()
      modifies zboot, this`zbootStatus, this`osStatuses, this`writes, this`crashed, this`downloads, this`certStatuses
      modifies this`verifiers
      ensures Valid() && SameBoot(old(Sight()), old(zboot.history))
      ensures MovesOne(old(Snapshot()), Snapshot(), moved)
      ensures obj.BaseOsObj? ==>
        && certStatuses == old(certStatuses)
        && (moved.Some? ==> Names(osConfigs[moved.value.u].images, safename))
        && (moved.None? ==> Snapshot() == old(Snapshot()) && NoneToMove(Snapshot(), safename))
      ensures obj.CertObj? && moved.Some? ==>
        moved.value.u in certConfigs && Names(certConfigs[moved.value.u].images, safename)
    {
      hide ZbootInv, LabelsInv, RefsInv, Moves, NoneToMove;
      match obj
      case BaseOsObj => moved := BaseOsHandleStatusUpdateSafename(safename);
      case CertObj => moved := CertObjHandleStatusUpdateSafename(safename);
    }

    /** A report of the verifier; nothing is moved on by one that is pending. */
    method UpdateVerifierStatus(safename: string, status: VerifierStatus) returns (ghost moved: Option<Move>)
      requires Valid()
      modifies zboot, this`zbootStatus, this`osStatuses, this`writes, this`crashed, this`downloads, this`facts
      modifies this`verifiers
      ensures Valid() && SameBoot(old(Sight()), old(zboot.history))
      ensures ReportedVerification(old(Snapshot()), Snapshot(), safename, status, moved)
    {
      hide ZbootInv, LabelsInv, RefsInv, Moves, NoneToMove;
      Learn(facts.(verifier := facts.verifier[safename := status]));
      if status.pending {
        return None;
      }
      if safename !in verifiers && status.refCount == 0 {
        verifiers := verifiers[safename := VerifierConfig(status.sha, 0)];
        return None;
      }
      if safename in verifiers && verifiers[safename].refCount == 0 && status.expired {
        verifiers := verifiers - {safename};
        return None;
      }
      ghost var told := Snapshot();
      moved := BaseOsHandleStatusUpdateSafename(safename);
      assert told == Told(old(Snapshot()), facts);
      if moved.None? { NoneToMoveOnceTold(old(Snapshot()), facts, safename); }
    }

    // ---------- runs ----------

    /** Nothing that was published or subscribed to survives a reboot. */
    method Forget()
      modifies this`osStatuses, this`certStatuses, this`downloads, this`osConfigs, this`certConfigs,
               this`facts, this`crashed, this`verifiers
      ensures RefsInv() && osStatuses == map[] && osConfigs == map[] && downloads == map[] && !crashed
      ensures certStatuses == map[] && certConfigs == map[] && verifiers == map[]
      ensures facts == Facts(map[], map[], {}, old(facts).host)
    {
      osStatuses, certStatuses, downloads, verifiers := map[], map[], map[], map[];
      osConfigs, certConfigs, facts, crashed := map[], map[], Facts(map[], map[], {}, facts.host), false;
      NoListsNoRefs();
    }

    /** The boot loader picks a partition, and the manager starts again. */
    method Reboot()
      requires PartitionsInv() && CanBoot(zboot.table)
      requires GoodWrites(writes)
      modifies this, zboot
      ensures Valid() && Fresh(Sight()) && Boots(old(zboot.table), zboot.table)
      ensures zboot.history == old(zboot.history) + [zboot.table] && zboot.versions == old(zboot.versions)
      ensures fallbackLost == old(fallbackLost) && writes == old(writes) && log == old(log) && !crashed
      ensures osStatuses == map[] && osConfigs == map[] && downloads == map[]
      ensures certStatuses == map[] && certConfigs == map[] && verifiers == map[]
      ensures facts == Facts(map[], map[], {}, old(facts).host)
    {
      hide GoodWrites, GoodWrite, Partial, RefsInv, Boots, AllBootable, HasActive, RunsBootable;
      BootKeepsRunning(zboot.table);
      zboot.Boot();
      HistoryGrows(old(zboot.history), zboot.table);
      Forget();
      PublishZbootPartitionStatusAll();
    }

    /** An event is handled to its end. */
    method Dispatch(e: Event)
      requires Valid()
      modifies this, zboot
      ensures Valid() && log == old(log) && old(zboot.history) <= zboot.history
      ensures e.DeleteOs? ==> AtMostOneMore(old(zboot.history), zboot.history)
      ensures LossExactly(old(Sight()), old(osStatuses), e, old(fallbackLost))
      ensures Handled(old(Snapshot()), e, Snapshot())
    {
      hide ZbootInv, LabelsInv, RefsInv, Removing, LosesFallback, Boots, HasActive;
      hide ModifiedOs, DeletedOs, ModifiedCert, DeletedCert, PoweredUp;
      match e
      case ModifyOs(u, config) => ghost var mid, t := HandleBaseOsConfigModify(u, config);
      case DeleteOs(u) => HandleDeletion(u);
      case ModifyCert(u, config) => ghost var t := HandleCertObjConfigModify(u, config);
      case DeleteCert(u) => HandleCertObjConfigDelete(u);
      case PowerCycle => PowerUp();
      case _ => HandleReport(e);
    }

    method HandleDeletion(u: Uuid)
      requires Valid()
      modifies this, zboot
      ensures Valid() && log == old(log) && AtMostOneMore(old(zboot.history), zboot.history)
      ensures LossExactly(old(Sight()), old(osStatuses), DeleteOs(u), old(fallbackLost))
      ensures DeletedOs(old(Snapshot()), Snapshot(), u)
    {
      hide ZbootInv, LabelsInv, RefsInv, Removing, LosesFallback, HasActive, DeletedOs, AtMostOneMore;
      ghost var v, statuses := Sight(), osStatuses;
      CurrentIsBootable();
      HandleBaseOsConfigDelete(u);
      if u in statuses { RemovalExactly(v, statuses[u]); }
    }

    /** Something else becomes known: a datastore, a report or what is on the host. */
    method HandleReport(e: Event)
      requires Valid()
      requires !e.ModifyOs? && !e.DeleteOs? && !e.ModifyCert? && !e.DeleteCert? && !e.PowerCycle?
      modifies this, zboot
      ensures Valid() && SameBoot(old(Sight()), old(zboot.history))
      ensures log == old(log) && fallbackLost == old(fallbackLost)
      ensures Handled(old(Snapshot()), e, Snapshot())
    {
      hide ZbootInv, LabelsInv, RefsInv, AddedStore, ReportedDownload, ReportedVerification, HasActive;
      match e
      case AddDatastore(id) => HandleDatastoreConfigModify(id);
      case RemoveDatastore(id) => Learn(facts.(datastores := facts.datastores - {id}));
      case DownloaderReport(obj, safename, status) =>
        ghost var m := UpdateDownloaderStatus(obj, safename, status);
      case DownloaderGone(obj, safename) =>
        Learn(facts.(downloader := facts.downloader - {(obj, safename)}));
      case VerifierReport(safename, status) =>
        ghost var m := UpdateVerifierStatus(safename, status);
      case VerifierGone(safename) => Learn(facts.(verifier := facts.verifier - {safename}));
      case HostChanges(host) => Learn(facts.(host := host));
    }

    method PowerUp()
      requires Valid()
      modifies this, zboot
      ensures Valid() && log == old(log) && old(zboot.history) <= zboot.history
      ensures fallbackLost == old(fallbackLost) && (HasActive(old(zboot.table)) ==> HasActive(zboot.table))
      ensures PoweredUp(old(Snapshot()), Snapshot())
    {
      if CanBoot(zboot.table) {
        hide LabelsInv, RefsInv;
        BootKeepsRunning(zboot.table);
        Reboot();
        FreshIsExact(Sight());
      }
    }

    lemma CurrentIsBootable()
      requires Valid()
      ensures RunsBootable(zboot.table)
    {
      assert RunsBootable(zboot.history[|zboot.history| - 1]);
    }

    /**
     An active partition is lost if and only if the event is a deletion that gives up the
     fallback of a version under test.
     */
    ghost predicate LossExactly(v: View, statuses: map<Uuid, OsStatus>, e: Event, lost: bool)
      reads this`fallbackLost, zboot
    {
      var loses := LosesAt(e, v, statuses);
      && (fallbackLost <==> lost || loses)
      && (HasActive(v.table) ==> (HasActive(zboot.table) <==> !loses))
    }

    /** An event is handled to its end, and logged. */
    method Handle(e: Event)
      requires Valid() && LogInv()
      modifies this, zboot
      ensures Valid() && LogInv() && old(zboot.history) <= zboot.history
      ensures log == old(log) + [Entry(e, old(Snapshot()), Snapshot())] && Handled(old(Snapshot()), e, Snapshot())
      ensures LossExactly(old(Sight()), old(osStatuses), e, old(fallbackLost))
      ensures e.DeleteOs? ==> AtMostOneMore(old(zboot.history), zboot.history)
    {
      hide ZbootInv, LabelsInv, RefsInv, Handled, HasActive;
      ghost var before := Snapshot();
      Dispatch(e);
      ghost var entry := Entry(e, before, Snapshot());
      LogGrows(log, entry);
      log := log + [entry];
    }

    /** Every event did what it does, and a fallback was lost if and only if one of them loses it. */
    ghost predicate LogInv()
      reads this`log, this`fallbackLost
    {
      (fallbackLost <==> AnyLoses(log)) && AllHandled(log)
    }

    /**
     The power fails while an event is handled, or the copy of an image does and ends the
     process, when the handler has written `n` tables or after all of them, and the device boots
     from the table it has then. An event that is cut short is not logged: what it had done to
     the tables by then is safe.
     */
    method HandleCut(e: Event, n: nat, version: string)
      requires Valid() && LogInv()
      modifies this, zboot
      ensures Valid() && LogInv()
      ensures log == old(log) || exists a :: log == old(log) + [Entry(e, old(Snapshot()), a)]
    {
      hide LabelsInv, RefsInv, CacheTrue, GoodWrites, GoodWrite, Fresh, AllBootable, HasActive;
      hide Handled, Snapshot, Removing, LosesFallback, AtMostOneMore;
      var h := zboot.history;
      Handle(e);
      var k := if |h| + n < |zboot.history| then |h| + n else |zboot.history|;
      if CanBoot(zboot.history[k - 1]) {
        CutIsSafe(h, zboot.history, k);
        if k < |zboot.history| {
          log := old(log);
          fallbackLost := old(fallbackLost);
        }
        zboot.Rewind(k, version);
        Reboot();
      }
    }

    /**
     Any run of events, each handled to its end or cut short by a loss of power. Every table of
     the run, also between the writes of one handler, is safe, and the device can always boot,
     if and only if no deletion that was handled gave up the fallback of a version under test;
     so they are if deletions only happen while the running partition is active. Every image
     write obeys the rules, the counts are right, and what is published of the partitions is
     exact unless some installation left an image behind.
     */
    method Run(run: seq<Occurrence>)
      requires Valid() && LogInv()
      modifies this, zboot
      ensures Valid() && LogInv()
      ensures old(log) <= log && forall i :: |old(log)| <= i < |log| ==> Occurs(run, log[i].e)
      ensures forall i :: 0 <= i < |log| ==> Handled(log[i].before, log[i].e, log[i].after)
      ensures (forall i :: 0 <= i < |run| ==> run[i].Whole?) ==>
        Linked(log[|old(log)|..], old(Snapshot()), Snapshot())
      ensures AllSafe(zboot.history) <==> !AnyLoses(log)
      ensures AllSafe(zboot.history) ==> CanBoot(zboot.table)
      ensures old(AllSafe(zboot.history)) && DeletesOnlyWhileActive(log[|old(log)|..]) ==> AllSafe(zboot.history)
      ensures forall k :: 0 <= k < |writes| ==> GoodWrite(writes[k])
      ensures !Partial(writes) ==>
        forall k :: 0 <= k < |writes| && writes[k].before.state.InProgress? ==>
          writes[k].before.version != writes[k].configured.version
      ensures !Partial(writes) ==> forall p: Partition :: p in zbootStatus && zbootStatus[p] == Report(Sight(), p)
    {
      hide LabelsInv, RefsInv, GoodWrites, GoodWrite, Handled, Linked, Snapshot;
      LinkedNothing(Snapshot());
      assert log[|old(log)|..] == [];
      for i := 0 to |run|
        invariant Valid() && LogInv() && old(log) <= log
        invariant forall j :: |old(log)| <= j < |log| ==> Occurs(run, log[j].e)
        invariant (forall j :: 0 <= j < i ==> run[j].Whole?) ==>
          Linked(log[|old(log)|..], old(Snapshot()), Snapshot())
      {
        assert Occurs(run, run[i].e);
        ghost var so, here := log, Snapshot();
        HandleNext(run[i]);
        if run[i].Whole? && log != so {
          assert log[|old(log)|..] == so[|old(log)|..] + [Entry(run[i].e, here, Snapshot())];
          if Linked(so[|old(log)|..], old(Snapshot()), here) {
            LinkedGrows(so[|old(log)|..], old(Snapshot()), Entry(run[i].e, here, Snapshot()));
          }
        }
      }
      SafeHistory(zboot.history);
      SafeHistory(old(zboot.history));
      LosesSplit(old(log), log);
      FailedNotRewritten(writes);
      if !Partial(writes) { FreshIsExact(Sight()); }
    }

    method HandleNext(o: Occurrence)
      requires Valid() && LogInv()
      modifies this, zboot
      ensures Valid() && LogInv()
      ensures log == old(log) || exists a :: log == old(log) + [Entry(o.e, old(Snapshot()), a)]
      ensures o.Whole? ==>
        || log == old(log) + [Entry(o.e, old(Snapshot()), Snapshot())]
        || (log == old(log) && Snapshot() == old(Snapshot()))
    {
      hide ZbootInv, LabelsInv, RefsInv, Handled, Snapshot, HasActive;
      if crashed && !(o.Whole? && o.e.PowerCycle?) {
        // nothing is handled any more; without power the device starts again
        if o.Cut? { PowerUp(); }
      } else if o.Whole? {
        Handle(o.e);
      } else {
        HandleCut(o.e, o.tables, o.version);
      }
    }
  }

  lemma StillMatching(configs: seq<Config>, a: seq<Status>, b: seq<Status>)
    requires Matching(configs, a) && SameRefs(a, b)
    ensures Matching(configs, b)
    ensures |a| == |b|
  {
    SameRefsAt(a, b);
  }

  /** An activation keeps the references, and what it publishes on the way has them too. */
  lemma ActivateKeepsRefs(v: View, configured: Wish, st: OsStatus)
    requires Complete(v)
    ensures var t := ActivateTurn(v, configured, st);
      && SameRefs(st.images, t.st.images) && (t.shown.Some? ==> SameRefs(t.shown.value.images, t.st.images))
      && (st.part == Some(Other(v.table.current)) ==> t.changed || t.shown.Some?)
  {
    if st.part == Some(Other(v.table.current)) {
      OverwriteKeepsStatus(v, configured, st);
    }
  }

  function Unverifying(list: seq<Status>): seq<Status> {
    seq(|list|, i requires 0 <= i < |list| => list[i].(hasVerifierRef := false))
  }

  /** The places of all statuses stay right when one of them is removed. */
  lemma RemovalKeepsLabels(v: View, was: map<Uuid, OsStatus>, u: Uuid, now: map<Uuid, OsStatus>)
    requires u in was && forall x :: x in was ==> LabelOk(v, was[x])
    requires u in now && now == was[u := now[u]]
    requires now[u].part.None? || (now[u].part == was[u].part && now[u].version == was[u].version)
    ensures forall x :: x in now ==> LabelOk(Removing(v, was[u]), now[x])
  {
  }

  lemma NoRefsShared(a: seq<Status>, b: seq<Status>)
    ensures SameRefs(a, b) ==> (NoRefs(a) <==> NoRefs(b))
  {
    SameRefsAt(a, b);
    if SameRefs(a, b) {
      forall i | 0 <= i < |a| ensures a[i].hasDownloaderRef == b[i].hasDownloaderRef {
        assert EntryOf(a[i]) == EntryOf(b[i]);
      }
    }
  }

  /** A status without references may be published, and unpublished, at any time. */
  lemma SettleEmpty(was: map<Uuid, OsStatus>, now: map<Uuid, OsStatus>, u: Uuid, counted: seq<Status>, d: Downloads)
    requires u in now && now == was[u := now[u]] && NoRefs(counted) && NoRefs(now[u].images)
    requires Conserved(OsImages(was)[u := counted], d, BaseOsObj)
    ensures Conserved(OsImages(now), d, BaseOsObj)
    ensures Conserved(OsImages(now - {u}), d, BaseOsObj)
  {
    var lists := OsImages(was)[u := counted];
    NoRefsConserved(lists, u, now[u].images, d, BaseOsObj);
    assert OsImages(now) == lists[u := now[u].images];
    assert OsImages(now - {u}) == lists - {u};
  }

  lemma RenewedSameRefs(st: OsStatus)
    ensures SameOs(st, Renewed(st)) && Renewed(st).testComplete == st.testComplete
  {
  }

  lemma RenewedLabels(v: View, m: map<Uuid, OsStatus>, w: View)
    requires w.table.current == v.table.current && Running(w) == Running(v)
    requires forall u :: u in m ==> LabelOk(v, m[u])
    ensures forall u :: u in RenewedAll(m) ==> LabelOk(w, RenewedAll(m)[u])
  {
    forall u | u in m ensures LabelOk(w, Renewed(m[u])) { RenewedSameRefs(m[u]); }
  }

  lemma RenewedConserved(m: map<Uuid, OsStatus>, d: Downloads)
    requires Conserved(OsImages(m), d, BaseOsObj)
    ensures Conserved(OsImages(RenewedAll(m)), d, BaseOsObj)
  {
    forall u | u in m ensures |Renewed(m[u]).images| == |m[u].images|
      && forall i :: 0 <= i < |m[u].images| ==> EntryOf(Renewed(m[u]).images[i]) == EntryOf(m[u].images[i])
    {
      RenewedSameRefs(m[u]);
      SameRefsAt(m[u].images, Renewed(m[u]).images);
    }
    var r := RenewedAll(m);
    forall n ensures CountOf(d, BaseOsObj, n) == |Refs(OsImages(r), n)| {
      assert Refs(OsImages(r), n) == Refs(OsImages(m), n);
    }
  }

  lemma SameRefsTwice(a: seq<Status>, b: seq<Status>, c: seq<Status>)
    ensures SameRefs(b, a) || SameRefs(a, b) ==> SameRefs(b, c) ==> SameRefs(c, a)
  {
  }

  lemma SettleCerts(was: map<Uuid, CertStatus>, now: map<Uuid, CertStatus>, u: Uuid, counted: seq<Status>, d: Downloads)
    requires u in now && now == was[u := now[u]] && SameRefs(counted, now[u].images)
    requires Conserved(CertImages(was)[u := counted], d, CertObj)
    ensures Conserved(CertImages(now), d, CertObj)
  {
    SwapSameRefs(CertImages(was), u, counted, now[u].images, d, CertObj);
    assert CertImages(now) == CertImages(was)[u := now[u].images];
  }

  /** Whatever the boot loader picks is running afterwards, and an active partition stays active. */
  lemma BootKeepsRunning(t: Table)
    ensures forall t' :: Boots(t, t') ==> RunsBootable(t') && (HasActive(t) ==> HasActive(t'))
  {
  }

  ghost predicate AllHandled(log: seq<Entry>) {
    forall i :: 0 <= i < |log| ==> Handled(log[i].before, log[i].e, log[i].after)
  }

  /** The events follow one another from one state to the other. */
  predicate Linked(log: seq<Entry>, from: Snap, to: Snap) {
    if log == [] then from == to
    else Linked(log[..|log| - 1], from, log[|log| - 1].before) && log[|log| - 1].after == to
  }

  lemma LinkedNothing(s: Snap)
    ensures Linked([], s, s)
  {
  }

  lemma LinkedGrows(log: seq<Entry>, from: Snap, x: Entry)
    requires Linked(log, from, x.before)
    ensures Linked(log + [x], from, x.after)
  {
    assert (log + [x])[..|log|] == log;
  }

  predicate AnyLoses(log: seq<Entry>) {
    exists i :: 0 <= i < |log| && Loses(log[i])
  }

  lemma LogGrows(log: seq<Entry>, x: Entry)
    ensures AnyLoses(log + [x]) <==> AnyLoses(log) || Loses(x)
    ensures AllHandled(log) && Handled(x.before, x.e, x.after) ==> AllHandled(log + [x])
  {
    hide Handled;
    var l := log + [x];
    if i :| 0 <= i < |log| && Loses(log[i]) { assert Loses(l[i]); }
    if Loses(x) { assert Loses(l[|log|]); }
  }

  /** Deletions are only handled while the running partition is active. */
  predicate DeletesOnlyWhileActive(log: seq<Entry>) {
    forall i :: 0 <= i < |log| && log[i].e.DeleteOs? ==> CurrentState(log[i].before.view.table).Active?
  }

  lemma LosesSplit(a: seq<Entry>, b: seq<Entry>)
    requires a <= b
    ensures !AnyLoses(a) && DeletesOnlyWhileActive(b[|a|..]) ==> !AnyLoses(b)
  {
    if !AnyLoses(a) && DeletesOnlyWhileActive(b[|a|..]) {
      forall i | 0 <= i < |b| ensures !Loses(b[i]) {
        if i < |a| { assert b[i] == a[i]; } else { assert b[i] == b[|a|..][i - |a|]; }
      }
    }
  }

  predicate Occurs(run: seq<Occurrence>, e: Event) {
    exists i :: 0 <= i < |run| && run[i].e == e
  }

  /** What a handler has written before its last table leaves a fallback if there was one. */
  lemma CutIsSafe(h: seq<Table>, now: seq<Table>, k: nat)
    requires h <= now && |h| <= k <= |now|
    requires AtMostOneMore(h, now) || (AllActive(h) <==> AllActive(now))
    ensures k < |now| ==> (AllActive(now[..k]) <==> AllActive(h))
    ensures AllBootable(now) ==> AllBootable(now[..k])
  {
    assert forall i :: 0 <= i < |h| ==> now[..k][i] == h[i];
    if AllActive(now[..k]) { assert forall i :: 0 <= i < |h| ==> HasActive(now[..k][i]); }
  }

  /** What is published under `u` holds the same references as the list that was counted. */
  lemma Settle(was: map<Uuid, OsStatus>, now: map<Uuid, OsStatus>, u: Uuid, counted: seq<Status>, d: Downloads)
    requires u in now && now == was[u := now[u]] && SameRefs(counted, now[u].images)
    requires Conserved(OsImages(was)[u := counted], d, BaseOsObj)
    ensures Conserved(OsImages(now), d, BaseOsObj)
  {
    SwapSameRefs(OsImages(was), u, counted, now[u].images, d, BaseOsObj);
    assert OsImages(now) == OsImages(was)[u := now[u].images];
  }

  lemma NotRestarted(w: View, configs: map<Uuid, OsConfig>, u: Uuid, was: OsStatus, id: string)
    ensures !Awaits(configs, was, u, id) ==> Restarts(w, configs, u, was, was, id)
  {
  }

  lemma RestartsEarlier(
    w: View, v: View, configs: map<Uuid, OsConfig>, u: Uuid, was: OsStatus, st: OsStatus, id: string)
    requires SameMachine(w, v) && Restarts(v, configs, u, was, st, id)
    ensures Restarts(w, configs, u, was, st, id)
  {
    if Awaits(configs, was, u, id) && !TooMuch(configs, configs[u]) {
      MovedOnFrom(w, v, configs[u], was.(failed := false), st);
    }
  }

  lemma NoneToMoveOnceTold(b: Snap, facts: Facts, safename: string)
    ensures NoneToMove(Told(b, facts), safename) <==> NoneToMove(b, safename)
  {
  }
}
