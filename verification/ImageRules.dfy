/**
 What the reports of the downloader and of the verifier mean for an image and for the whole,
 said of the reports as they are.
 */
module ImageRules {
  import opened Prelude
  import opened Zboot
  import opened Storage
  import opened Images
  import opened OsUpdate

  /** The image still has to be fetched: it is neither installed nor reported as delivered. */
  predicate Unfetched(sc: Config, ss: Status, found: Option<VerifierStatus>) {
    && ss.state != INSTALLED
    && !(sc.sha != "" && found.Some? && !found.value.pending && found.value.state == DELIVERED)
  }

  /** There is no reference yet, and no datastore to take one for. */
  predicate NoSource(facts: Facts, sc: Config, ss: Status) {
    !ss.hasDownloaderRef && (sc.datastoreId == "" || sc.datastoreId !in facts.datastores)
  }

  /** What the downloader says of an image. */
  function Reply(facts: Facts, sc: Config): Option<DownloaderStatus> {
    var key := (BaseOsObj, Safename(sc.name, sc.sha));
    if key in facts.downloader then Some(facts.downloader[key]) else None
  }

  /** The image has no source, or the downloader has given up with an error. */
  predicate Fails(facts: Facts, sc: Config, ss: Status, found: Option<VerifierStatus>) {
    && Unfetched(sc, ss, found)
    && var ds := Reply(facts, sc);
       NoSource(facts, sc, ss) || (ds.Some? && !ds.value.pending && ds.value.failed)
  }

  /** The image is downloaded and should be verified, but the certificates for that are missing. */
  predicate Waits(facts: Facts, sc: Config, ss: Status, found: Option<VerifierStatus>) {
    && Unfetched(sc, ss, found) && !NoSource(facts, sc, ss)
    && var ds := Reply(facts, sc);
       && ds.Some? && !ds.value.pending && ds.value.state == DOWNLOADED
       && sc.sha != "" && !ss.hasVerifierRef && Safename(sc.name, sc.sha) !in facts.host.certified
  }

  /** An image that is fetched shows what the downloader says of it, and holds a reference. */
  lemma FetchedShowsReply(facts: Facts, sc: Config, ss: Status, found: Option<VerifierStatus>)
    requires Unfetched(sc, ss, found) && !NoSource(facts, sc, ss)
    ensures var r, ds := Downloaded(facts, BaseOsObj, sc, ss, found), Reply(facts, sc);
      && r.hasDownloaderRef
      && r.state == (if ds.Some? then ds.value.state else DOWNLOAD_STARTED)
      && (ds.Some? ==> r.progress == ds.value.progress)
      && (r.hasVerifierRef <==>
          || ss.hasVerifierRef
          || (ds.Some? && !ds.value.pending && ds.value.state == DOWNLOADED && sc.sha != ""
              && Safename(sc.name, sc.sha) in facts.host.certified))
  {
  }

  /** An image without a source stays as it is, and says that its datastore is missing. */
  lemma NoSourceStays(facts: Facts, sc: Config, ss: Status, found: Option<VerifierStatus>)
    requires Unfetched(sc, ss, found) && NoSource(facts, sc, ss)
    ensures Downloaded(facts, BaseOsObj, sc, ss, found) == ss.(missingDatastore := true)
  {
  }

  /** An image that the verifier has delivered needs no download, and gets a reference for that. */
  lemma DeliveredNeedsNoDownload(facts: Facts, sc: Config, ss: Status, found: Option<VerifierStatus>)
    requires ss.state != INSTALLED && !Unfetched(sc, ss, found)
    ensures var r := Downloaded(facts, BaseOsObj, sc, ss, found);
      r.state == DELIVERED && r.hasVerifierRef && r.hasDownloaderRef == ss.hasDownloaderRef
  {
  }

  /** What an image does to the whole. */
  lemma EffectMeans(facts: Facts, sc: Config, ss: Status, found: Option<VerifierStatus>)
    ensures var e := DownloadEffect(facts, BaseOsObj, sc, ss, found);
      && e.failed == Fails(facts, sc, ss, found) && e.waiting == Waits(facts, sc, ss, found)
      && e.missing == (Unfetched(sc, ss, found) && NoSource(facts, sc, ss))
  {
  }

  lemma EffectsAt(facts: Facts, config: OsConfig, st: OsStatus, down: seq<Option<VerifierStatus>>, i: nat)
    requires |down| == |config.images| <= |st.images| && i < |down|
    ensures var e := DownloadEffects(facts, BaseOsObj, config.images, st.images, down)[i];
      && e.failed == Fails(facts, config.images[i], st.images[i], down[i])
      && e.waiting == Waits(facts, config.images[i], st.images[i], down[i])
      && e.missing == (Unfetched(config.images[i], st.images[i], down[i])
                       && NoSource(facts, config.images[i], st.images[i]))
  {
    hide DownloadEffect, Fails, Waits, Unfetched, NoSource;
    EffectMeans(facts, config.images[i], st.images[i], down[i]);
  }

  /** The look at the downloads fails, waits, and misses a datastore exactly if some image does. */
  lemma FetchFailsExactly(facts: Facts, config: OsConfig, st: OsStatus, down: seq<Option<VerifierStatus>>)
    requires |down| == |config.images| <= |st.images|
    ensures FetchRet(facts, config, st, down).failed <==>
            exists i :: 0 <= i < |down| && Fails(facts, config.images[i], st.images[i], down[i])
    ensures FetchRet(facts, config, st, down).waitingForCerts <==>
            exists i :: 0 <= i < |down| && Waits(facts, config.images[i], st.images[i], down[i])
    ensures FetchRet(facts, config, st, down).missingDatastore <==>
            exists i :: 0 <= i < |down| && Unfetched(config.images[i], st.images[i], down[i])
                        && NoSource(facts, config.images[i], st.images[i])
  {
    hide DownloadEffects, Fails, Waits, Unfetched, NoSource, Summary;
    var effects := DownloadEffects(facts, BaseOsObj, config.images, st.images, down);
    SummaryFails(effects);
    EffectsLength(facts, config, st, down);
    forall i | 0 <= i < |down|
      ensures effects[i].failed == Fails(facts, config.images[i], st.images[i], down[i])
      ensures effects[i].waiting == Waits(facts, config.images[i], st.images[i], down[i])
      ensures effects[i].missing == (Unfetched(config.images[i], st.images[i], down[i])
                                     && NoSource(facts, config.images[i], st.images[i]))
    {
      EffectsAt(facts, config, st, down, i);
    }
    if i :| 0 <= i < |down| && Fails(facts, config.images[i], st.images[i], down[i]) { assert effects[i].failed; }
    if i :| 0 <= i < |down| && Waits(facts, config.images[i], st.images[i], down[i]) { assert effects[i].waiting; }
    if i :| 0 <= i < |down| && Unfetched(config.images[i], st.images[i], down[i])
            && NoSource(facts, config.images[i], st.images[i])
    {
      assert effects[i].missing;
    }
  }

  lemma EffectsLength(facts: Facts, config: OsConfig, st: OsStatus, down: seq<Option<VerifierStatus>>)
    requires |down| == |config.images| <= |st.images|
    ensures |DownloadEffects(facts, BaseOsObj, config.images, st.images, down)| == |down|
  {
  }

  /** An error of the downloader, or a missing datastore, is an error of the whole and holds it back. */
  lemma FailureHoldsBack(v: View, config: OsConfig, was: OsStatus, exam: Exam, i: nat)
    requires Complete(v) && Sized(config, was, exam) && Reaches(v, config, was) && i < |config.images|
    requires Fails(v.facts, config.images[i], Placed(v, config, was).images[i], exam.down[i])
    ensures var t := TurnOf(v, config, was, exam); Still(v, t) && t.st.failed
  {
    hide TurnOf, Fails, Waits, Placed, FetchRet;
    var st := Placed(v, config, was);
    FetchFailsExactly(v.facts, config, st, exam.down);
    TurnHeldBack(v, config, was, exam);
  }

  /** Missing certificates hold the whole back without being an error. */
  lemma MissingCertificatesHoldBack(v: View, config: OsConfig, was: OsStatus, exam: Exam, i: nat)
    requires Complete(v) && Sized(config, was, exam) && Reaches(v, config, was) && i < |config.images|
    requires Waits(v.facts, config.images[i], Placed(v, config, was).images[i], exam.down[i])
    ensures Still(v, TurnOf(v, config, was, exam))
    ensures (forall k :: 0 <= k < |config.images| ==>
               !Fails(v.facts, config.images[k], Placed(v, config, was).images[k], exam.down[k])) ==>
            TurnOf(v, config, was, exam).st.failed == Placed(v, config, was).failed
  {
    hide TurnOf, Fails, Waits, Placed, FetchRet;
    var st := Placed(v, config, was);
    FetchFailsExactly(v.facts, config, st, exam.down);
    TurnHeldBack(v, config, was, exam);
  }

  /** The one image is downloaded, or needs no download. */
  predicate Arrived(facts: Facts, sc: Config, ss: Status, found: Option<VerifierStatus>) {
    || !Unfetched(sc, ss, found)
    || (!NoSource(facts, sc, ss) && Reply(facts, sc).Some? && Reply(facts, sc).value.state >= DOWNLOADED)
  }

  /**
   A configuration with one image passes if and only if the image is installed already, or it
   has arrived, without a failure and with its certificates, and the verifier's report that is
   found for it is neither pending nor an error and at least says delivered.
   */
  lemma SingleImagePasses(facts: Facts, config: OsConfig, st: OsStatus, exam: Exam)
    requires |config.images| == 1 && Fits(config, st, exam)
    ensures var sc, ss, down, veri := config.images[0], st.images[0], exam.down[0], exam.veri[0];
      Passes(facts, config, st, exam) <==>
      || ss.state == INSTALLED
      || (&& Arrived(facts, sc, ss, down) && !Fails(facts, sc, ss, down) && !Waits(facts, sc, ss, down)
          && (Downloaded(facts, BaseOsObj, sc, ss, down).state == INSTALLED
              || (veri.Some? && !veri.value.pending && !veri.value.failed && veri.value.state >= DELIVERED)))
  {
    FetchFailsExactly(facts, config, st, exam.down);
    var effects := DownloadEffects(facts, BaseOsObj, config.images, st.images, exam.down);
    ReachesExactly(effects, DOWNLOADED);
    assert !Lifted(effects, 0, DOWNLOADED);
    assert !Overshadowed(Fetched(facts, config, st, exam.down).images, 0, 1);
  }

  // ---------- the key of an image ----------

  lemma {:induction false} ReplacedAt(url: string)
    ensures |Replaced(url)| == |url|
    ensures forall i :: 0 <= i < |url| ==> Replaced(url)[i] == if url[i] == '/' then ' ' else url[i]
  {
    if url != "" { ReplacedAt(url[1..]); }
  }

  /** The names differ at most in slashes and blanks. */
  predicate Alike(a: string, b: string) {
    && |a| == |b|
    && forall i :: 0 <= i < |a| ==> a[i] == b[i] || (a[i] in {'/', ' '} && b[i] in {'/', ' '})
  }

  /**
   No slash of a name gets into the key, so the key is a file name. Two images with one checksum
   share a key, and with it their download, if and only if their names are alike.
   */
  lemma SafenamesCollideExactly(a: string, b: string, sha: string)
    ensures '/' !in sha ==> '/' !in Safename(a, sha)
    ensures Safename(a, sha) == Safename(b, sha) <==> Alike(a, b)
  {
    ReplacedAt(a);
    ReplacedAt(b);
    var tail := "." + if sha != "" then sha else "sha";
    assert Safename(a, sha) == Replaced(a) + tail && Safename(b, sha) == Replaced(b) + tail;
    assert (Replaced(a) + tail)[..|a|] == Replaced(a) && (Replaced(b) + tail)[..|b|] == Replaced(b);
    if Safename(a, sha) == Safename(b, sha) {
      assert |a| == |b|;
      assert forall i :: 0 <= i < |a| ==> Replaced(a)[i] == Replaced(b)[i];
    }
    if Alike(a, b) {
      assert Replaced(a) == Replaced(b);
    }
  }
}
