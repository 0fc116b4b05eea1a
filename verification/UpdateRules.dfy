/**
 What one look at a base OS configuration promises, said of the partitions as they are.
 */
module UpdateRules {
  import opened Prelude
  import opened Zboot
  import opened Storage
  import opened Images
  import opened OsUpdate
  import opened OsEvents
  import opened ImageRules

  /** A status is activated if and only if it is assigned to the partition that runs, and that is active. */
  lemma ActivatedExactly(v: View, st: OsStatus)
    requires CacheTrue(v)
    ensures Activation(v, st).activated <==> st.part == Some(v.table.current) && CurrentState(v.table).Active?
    ensures Activation(v, st).(activated := st.activated) == st
  {
    assert TrueOf(v, v.table.current);
    if st.part.Some? { assert TrueOf(v, st.part.value); }
  }

  /** The version that runs is installed where it runs, and nothing else happens. */
  lemma RunningIsDone(v: View, config: OsConfig, was: OsStatus, exam: Exam)
    requires Complete(v) && Sized(config, was, exam) && was.version == Running(v)
    ensures var t := TurnOf(v, config, was, exam);
      && Still(v, t) && t.changed && t.st.activated && t.st.part == Some(v.table.current)
      && t.st.state == INSTALLED && t.st.failed == was.failed && |t.st.images| == |was.images|
      && forall i :: 0 <= i < |was.images| ==>
           && t.st.images[i].state == INSTALLED && t.st.images[i].progress == 100
           && t.st.images[i].finalDir == PartitionDir(v.table.current)
  {
  }

  /** Images that no longer belong to the configuration are an error. */
  lemma MismatchFails(v: View, config: OsConfig, was: OsStatus, exam: Exam)
    requires Complete(v) && Sized(config, was, exam) && was.version != Running(v)
    requires !Matching(config.images, was.images)
    ensures var t := TurnOf(v, config, was, exam); Still(v, t) && t.changed && t.st.failed
  {
    NotedMatching(v, config, was);
  }

  /** The other partition holds the version of the configuration, which was tried and not confirmed. */
  predicate FailedThere(v: View, config: OsConfig) {
    OtherState(v.table).InProgress? && VersionOf(v.versions, Other(v.table.current)) == config.version
  }

  /** The running version is under test, or the other partition is the fallback. */
  predicate InTheWay(v: View) {
    CurrentState(v.table).InProgress? || OtherState(v.table).Active?
  }

  /** A version that failed is not installed again: nothing is written, and that is an error. */
  lemma FailedIsRefused(v: View, config: OsConfig, was: OsStatus, exam: Exam)
    requires CacheTrue(v) && Fresh(v) && Sized(config, was, exam)
    requires was.version != Running(v) && FailedThere(v, config)
    ensures var t := TurnOf(v, config, was, exam); Still(v, t) && t.changed && t.st.failed
    ensures Matching(config.images, was.images) && !was.tooEarly ==> !TurnOf(v, config, was, exam).st.tooEarly
  {
    NotedMatching(v, config, was);
    assert TrueOf(v, Other(v.table.current));
  }

  /** While a version is under test, or the other partition is the fallback, it is too early. */
  lemma TooEarlyIsRefused(v: View, config: OsConfig, was: OsStatus, exam: Exam)
    requires CacheTrue(v) && Fresh(v) && Sized(config, was, exam)
    requires was.version != Running(v) && Matching(config.images, was.images)
    requires !FailedThere(v, config) && InTheWay(v)
    ensures var t := TurnOf(v, config, was, exam);
      && Still(v, t) && t.changed && t.st.tooEarly
      && (t.st.failed <==> was.failed || VersionOf(v.versions, Other(v.table.current)) != config.version)
  {
    NotedMatching(v, config, was);
    assert TrueOf(v, v.table.current) && TrueOf(v, Other(v.table.current));
  }

  /**
   The partitions change if and only if another version is to be activated, its images belong to
   the configuration and have passed, nothing is under test, the other partition is neither the
   fallback nor holds the version as a failed one, and the status is for that partition.
   */
  lemma InstallsExactly(v: View, config: OsConfig, was: OsStatus, exam: Exam)
    requires CacheTrue(v) && Fresh(v) && Sized(config, was, exam)
    requires was.part.Some? ==> was.part == Some(Other(v.table.current)) || was.version == Running(v)
    ensures TurnOf(v, config, was, exam).tables != [] <==>
      && was.version != Running(v) && Matching(config.images, was.images)
      && !FailedThere(v, config) && !InTheWay(v)
      && config.activate && !Placed(v, config, was).activated
      && Passes(v.facts, config, Placed(v, config, was), exam)
  {
    NotedMatching(v, config, was);
    TurnMoves(v, config, was, exam);
    assert TrueOf(v, v.table.current) && TrueOf(v, Other(v.table.current));
  }

  /**
   Once all images are written, the status says installed and asks for a reboot, the partition is
   marked so that it is booted next, and its version is published.
   */
  lemma InstalledAsksForReboot(v: View, config: OsConfig, was: OsStatus, exam: Exam)
    requires CacheTrue(v) && Sized(config, was, exam) && Overwrites(v, config, was, exam)
    ensures var t, other := TurnOf(v, config, was, exam), Other(v.table.current);
      var images := Directed(Candidate(v, config, was, exam).images, PartitionDir(other));
      && OtherState(t.after.table).Updating? && t.after.table.current == v.table.current
      && (!LeavesBehind(v.facts.host, other, images) ==>
            && t.changed && t.st.state == INSTALLED && t.st.reboot
            && Complete(t.after) && t.after.cache[other] == Report(t.after, other)
            && VersionOf(t.after.versions, other)
               == VersionAfter(v.facts.host, other, images, |images|, VersionOf(v.versions, other)))
      && (LeavesBehind(v.facts.host, other, images) && Candidate(v, config, was, exam).state != INSTALLED ==>
            t.st.reboot == Candidate(v, config, was, exam).reboot)
  {
    hide VersionAfter, Examined, Passes;
    TurnMoves(v, config, was, exam);
    var other := Other(v.table.current);
    LeavesBehindExactly(v.facts.host, other, Directed(Candidate(v, config, was, exam).images, PartitionDir(other)));
    forall p: Partition ensures p in v.cache { assert TrueOf(v, p); }
  }

  /** Whatever a turn does once the images have been looked at, it keeps the references. */
  lemma FinishKeepsRefs(v: View, config: OsConfig, st: OsStatus, changed: bool, passes: bool, i: nat)
    requires Complete(v) && i < |st.images|
    ensures var t := FinishTurn(v, config, st, changed, passes);
      |t.st.images| == |st.images| && t.st.images[i].hasDownloaderRef == st.images[i].hasDownloaderRef
  {
    hide Overwritten, SameRefs;
    if st.part == Some(Other(v.table.current)) {
      var t := Overwritten(v, WishOf(config), st);
      OverwriteKeepsStatus(v, WishOf(config), st);
      SameRefsAt(st.images, t.st.images);
      assert EntryOf(st.images[i]) == EntryOf(t.st.images[i]);
    }
  }

  /** The images as they are once they have been looked at, when the turn gets that far. */
  lemma LookedAt(v: View, config: OsConfig, was: OsStatus, exam: Exam)
    requires Complete(v) && Sized(config, was, exam) && Reaches(v, config, was)
    ensures var st := Placed(v, config, was);
      exists changed :: TurnOf(v, config, was, exam)
        == FinishTurn(v, config, Examined(v.facts, config, st, exam), changed, Passes(v.facts, config, st, exam))
  {
    hide FinishTurn, Examined, Passes, ExamChanges, MayInstall;
    NotedMatching(v, config, was);
    var noted, st := Noted(v, was), Placed(v, config, was);
    var changed := noted.part != was.part || st.part != noted.part || ExamChanges(v.facts, config, st, exam);
    assert TurnOf(v, config, was, exam)
        == FinishTurn(v, config, Examined(v.facts, config, st, exam), changed, Passes(v.facts, config, st, exam));
  }

  /** An image that has a source is asked for, and from then on there is a reference for it. */
  lemma ImageIsAskedFor(v: View, config: OsConfig, was: OsStatus, exam: Exam, i: nat)
    requires Complete(v) && Sized(config, was, exam) && Reaches(v, config, was) && i < |config.images|
    requires var ss := Placed(v, config, was).images[i];
             Unfetched(config.images[i], ss, exam.down[i]) && !NoSource(v.facts, config.images[i], ss)
    ensures var t := TurnOf(v, config, was, exam); i < |t.st.images| && t.st.images[i].hasDownloaderRef
  {
    hide TurnOf, FinishTurn, Passes, Unfetched, NoSource, Reply, Downloaded, Placed, FetchRet, ExamRet;
    var st := Placed(v, config, was);
    FetchedShowsReply(v.facts, config.images[i], st.images[i], exam.down[i]);
    LookedAt(v, config, was, exam);
    var changed :| TurnOf(v, config, was, exam)
      == FinishTurn(v, config, Examined(v.facts, config, st, exam), changed, Passes(v.facts, config, st, exam));
    FinishKeepsRefs(v, config, Examined(v.facts, config, st, exam), changed, Passes(v.facts, config, st, exam), i);
  }

  /** A status whose image has no datastore yet waits for that datastore. */
  lemma MissingStoreIsAwaited(
    v: View, config: OsConfig, was: OsStatus, exam: Exam, i: nat, configs: map<Uuid, OsConfig>, u: Uuid)
    requires Complete(v) && Sized(config, was, exam) && Reaches(v, config, was) && i < |config.images|
    requires var ss := Placed(v, config, was).images[i];
             Unfetched(config.images[i], ss, exam.down[i]) && NoSource(v.facts, config.images[i], ss)
    requires u in configs && configs[u] == config
    ensures var t := TurnOf(v, config, was, exam);
      Still(v, t) && t.st.failed && Awaits(configs, t.st, u, config.images[i].datastoreId)
  {
    hide TurnOf, Waits, Placed, FetchRet, Unfetched, NoSource;
    var st := Placed(v, config, was);
    FetchFailsExactly(v.facts, config, st, exam.down);
    assert Fails(v.facts, config.images[i], st.images[i], exam.down[i]);
    TurnHeldBack(v, config, was, exam);
    assert configs[u].images[i].datastoreId == config.images[i].datastoreId;
  }

  /** Removing a status frees the other partition exactly if that is where its version is. */
  lemma RemovalFrees(v: View, st: OsStatus)
    requires CacheTrue(v) && Fresh(v)
    ensures var other := Other(v.table.current);
      if st.part == Some(other) && st.version == VersionOf(v.versions, other)
      then
        && Removing(v, st).table == WithState(v.table, other, Unused)
        && Removing(v, st).versions == v.versions && Removing(v, st).facts == v.facts
        && CacheTrue(Removing(v, st)) && Fresh(Removing(v, st))
      else Removing(v, st) == v
  {
    var other := Other(v.table.current);
    assert TrueOf(v, other) && TrueOf(v, v.table.current);
    if st.part.Some? { assert TrueOf(v, st.part.value); }
    forall p: Partition ensures TrueOf(Removing(v, st), p) {
      assert TrueOf(v, p);
      assert p == other || p == v.table.current;
    }
  }
}
