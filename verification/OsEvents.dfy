/**
 What each event does to the base OS manager: its state before and after, and how the two are
 related.
 */
module OsEvents {
  import opened Prelude
  import opened Zboot
  import opened Storage
  import opened Images
  import opened OsUpdate

  const MAX_BASE_OS_COUNT: nat := 2
  const BASE_OS_IMAGE_COUNT: nat := 1

  datatype CertConfig = CertConfig(version: string, images: seq<Config>)

  datatype CertStatus = CertStatus(version: string, images: seq<Status>, state: SwState, failed: bool)

  /** What the manager reacts to, and the reboot. */
  datatype Event =
    | ModifyOs(u: Uuid, config: OsConfig)
    | DeleteOs(u: Uuid)
    | ModifyCert(u: Uuid, certConfig: CertConfig)
    | DeleteCert(u: Uuid)
    | AddDatastore(id: string)
    | RemoveDatastore(id: string)
    | DownloaderReport(obj: ObjType, safename: string, download: DownloaderStatus)
    | DownloaderGone(obj: ObjType, safename: string)
    | VerifierReport(safename: string, report: VerifierStatus)
    | VerifierGone(safename: string)
    | HostChanges(host: Host)
    | PowerCycle

  /** A status that was moved on, and how. */
  datatype Move = Move(u: Uuid, t: Turn)

  /** Removing the status marks the other partition unused. */
  predicate MarksUnused(v: View, st: OsStatus) {
    && st.part.Some? && st.part.value in v.cache
    && st.version == v.cache[st.part.value].version && !v.cache[st.part.value].current
  }

  /** A deletion gives up the fallback of a version that is under test. */
  predicate LosesFallback(v: View, st: OsStatus) {
    MarksUnused(v, st) && !CurrentState(v.table).Active?
  }

  /** A status whose copies of the partition's state are renewed. */
  function Renewed(st: OsStatus): OsStatus {
    if st.part.Some? then Assigned(st, st.part.value) else st
  }

  /** What the manager asks of the verifier, by safename. */
  datatype VerifierConfig = VerifierConfig(sha: string, refCount: Uint)

  type Uint = n: nat | n <= UINT_MAX

  type Verifiers = map<string, VerifierConfig>

  /** One more reference; a new entry gets the checksum. */
  function Asked(v: Verifiers, safename: string, sha: string): Verifiers {
    var m := if safename in v then v[safename] else VerifierConfig(sha, 0);
    v[safename := m.(refCount := if m.refCount == UINT_MAX then 0 else m.refCount + 1)]
  }

  /** One reference less, with the wrap-around of an unsigned count. */
  function Released(v: Verifiers, safename: string): Verifiers
    requires safename in v
  {
    var n := v[safename].refCount;
    v[safename := v[safename].(refCount := if n == 0 then UINT_MAX else n - 1)]
  }

  /**
   Giving a reference back undoes asking for one, and asking undoes giving back, as long as both
   are of one entry; the count goes up by giving back if and only if there was no reference.
   */
  lemma ReleaseUndoesAsking(v: Verifiers, safename: string, sha: string)
    ensures Released(Asked(v, safename, sha), safename)
            == if safename in v then v else v[safename := VerifierConfig(sha, 0)]
    ensures safename in v ==> Asked(Released(v, safename), safename, sha) == v
    ensures safename in v ==>
      (Released(v, safename)[safename].refCount > v[safename].refCount <==> v[safename].refCount == 0)
  {
    if safename in v {
      assert Released(Asked(v, safename, sha), safename)[safename] == v[safename];
      assert Asked(Released(v, safename), safename, sha)[safename] == v[safename];
    }
  }

  /** The downloader has a report under the checksum of an image; it would be under the safename. */
  predicate StillReported(facts: Facts, list: seq<Status>) {
    exists i :: 0 <= i < |list| && (BaseOsObj, list[i].sha) in facts.downloader
  }

  /** The other partition is marked unused, and that is published. */
  function GivenUp(v: View): View {
    var other := Other(v.table.current);
    Publish(v.(table := WithState(v.table, other, Unused)), other)
  }

  /** What the removal of a status does to the partitions. */
  function Removing(v: View, st: OsStatus): View {
    if MarksUnused(v, st) then GivenUp(v) else v
  }

  /**
   Removing a status leaves no active partition if and only if it loses the fallback of a
   version that is under test.
   */
  lemma RemovalExactly(v: View, st: OsStatus)
    requires RunsBootable(v.table)
    ensures HasActive(v.table) ==> (HasActive(Removing(v, st).table) <==> !LosesFallback(v, st))
    ensures LosesFallback(v, st) ==> !HasActive(Removing(v, st).table)
  {
  }

  function RenewedAll(m: map<Uuid, OsStatus>): map<Uuid, OsStatus> {
    map u | u in m :: Renewed(m[u])
  }

  /** The statuses of a new configuration hold no references. */
  function NewStatuses(configs: seq<Config>, dir: Dir): (r: seq<Status>)
    ensures NoRefs(r) && Matching(configs, r)
  {
    seq(|configs|, i requires 0 <= i < |configs| => NewStatus(configs[i], dir))
  }

  function NewOsStatus(config: OsConfig): OsStatus {
    OsStatus(config.version, false, false, false, false, NewStatuses(config.images, NoDir), None, 0, false, false)
  }

  /** The status with which the handling of a configuration starts. */
  function StartOf(statuses: map<Uuid, OsStatus>, u: Uuid, config: OsConfig): OsStatus {
    if u in statuses then statuses[u] else NewOsStatus(config)
  }

  predicate Names(configs: seq<Config>, safename: string) {
    exists i :: 0 <= i < |configs| && SafenameFor(configs[i]) == safename
  }

  /** The status waits for the datastore. */
  predicate Awaits(configs: map<Uuid, OsConfig>, st: OsStatus, u: Uuid, id: string) {
    && st.missingDatastore && u in configs
    && exists i :: 0 <= i < |configs[u].images| && configs[u].images[i].datastoreId == id
  }

  /** Too many configurations, or too many images in one. */
  predicate TooMuch(configs: map<Uuid, OsConfig>, config: OsConfig) {
    |configs| > MAX_BASE_OS_COUNT || |config.images| > BASE_OS_IMAGE_COUNT
  }

  /** The test flag is to be changed for a status that is running. */
  predicate Confirming(config: OsConfig, was: OsStatus) {
    config.testComplete != was.testComplete && was.activated
  }

  // ---------- before and after ----------

  /**
   What the manager sees and has published of the partitions, the tables and the image writes so
   far, its statuses and configurations, and what it asks of the downloader and the verifier.
   */
  datatype Snap = Snap(
    view: View, tables: seq<Table>, writes: seq<Write>,
    statuses: map<Uuid, OsStatus>, configs: map<Uuid, OsConfig>,
    certStatuses: map<Uuid, CertStatus>, certConfigs: map<Uuid, CertConfig>,
    downloads: Downloads, verifiers: Verifiers)

  function Told(b: Snap, facts: Facts): Snap {
    b.(view := b.view.(facts := facts))
  }

  predicate SameOsState(b: Snap, a: Snap) {
    a.view == b.view && a.tables == b.tables && a.writes == b.writes && a.statuses == b.statuses
  }

  /** One status is moved on by a turn, and no other changes. */
  ghost predicate Moves(b: Snap, a: Snap, u: Uuid, config: OsConfig, was: OsStatus, t: Turn) {
    && Complete(b.view) && Turns(b.view, config, Activation(b.view, was), t)
    && a.view == t.after && a.tables == b.tables + t.tables && a.writes == b.writes + t.writes
    && u in a.statuses && a.statuses == b.statuses[u := a.statuses[u]]
    && (t.changed ==> a.statuses[u] == t.st)
  }

  ghost predicate MovesOne(b: Snap, a: Snap, moved: Option<Move>) {
    match moved
    case None => SameOsState(b, a)
    case Some(m) =>
      m.u in b.configs && m.u in b.statuses && Moves(b, a, m.u, b.configs[m.u], b.statuses[m.u], m.t)
  }

  /** The same version runs from the same partition, and the same is known. */
  predicate SameMachine(w: View, v: View) {
    v.facts == w.facts && v.table.current == w.table.current && Running(v) == Running(w)
  }

  /** The status is moved on at some point, while the machine is as in `w`. */
  ghost predicate MovedOn(w: View, config: OsConfig, was: OsStatus, st: OsStatus) {
    exists v: View, t: Turn ::
      && Complete(v) && SameMachine(w, v) && Turns(v, config, Activation(v, was), t)
      && (t.changed ==> st == t.st)
  }

  lemma MovedOnFrom(w: View, v: View, config: OsConfig, was: OsStatus, st: OsStatus)
    requires SameMachine(w, v) && MovedOn(v, config, was, st)
    ensures MovedOn(w, config, was, st)
  {
    var v', t :| && Complete(v') && SameMachine(v, v') && Turns(v', config, Activation(v', was), t)
                 && (t.changed ==> st == t.st);
  }

  /** Every status that was refused as too early is tried again, and no other changes. */
  ghost predicate Retried(
    w: View, configs: map<Uuid, OsConfig>, before: map<Uuid, OsStatus>, after: map<Uuid, OsStatus>)
  {
    && after.Keys == before.Keys
    && forall u :: u in before ==>
         if before[u].tooEarly && u in configs
         then MovedOn(w, configs[u], before[u].(tooEarly := false, failed := false), after[u])
         else after[u] == before[u]
  }

  /** The running version is confirmed: it is active, and the other partition is free for an update. */
  function ProvenView(v: View): View {
    var marked := WithState(v.table, v.table.current, Active);
    var freed := OtherState(v.table).Active? || OtherState(v.table).InProgress?;
    var w := v.(table := if freed then WithState(marked, Other(v.table.current), Unused) else marked);
    w.(cache := map p: Partition | true :: Report(w, p))
  }

  /** The test flag of a status that runs changes. */
  ghost predicate Confirmed(b: Snap, a: Snap, u: Uuid, config: OsConfig, was: OsStatus) {
    if !config.testComplete then
      a == b.(statuses := RenewedAll(b.statuses[u := was.(testComplete := false)]))
    else if was.part == Some(b.view.table.current) && was.version == Running(b.view)
            && CurrentState(b.view.table).InProgress? then
      var freed := OtherState(b.view.table).Active? || OtherState(b.view.table).InProgress?;
      var renewed := RenewedAll(b.statuses[u := was.(testComplete := true, failed := was.failed || !freed)]);
      && b.tables <= a.tables && b.writes <= a.writes && a.configs == b.configs
      && a.certStatuses == b.certStatuses && a.certConfigs == b.certConfigs
      && SameMachine(b.view, a.view) && CurrentState(a.view.table).Active?
      && (freed ==> Retried(ProvenView(b.view), b.configs, renewed, a.statuses))
      && (!freed ==> a.view == ProvenView(b.view) && a.statuses == renewed && a.writes == b.writes
                     && a.downloads == b.downloads && a.verifiers == b.verifiers)
    else
      a == b
  }

  // ---------- the events ----------

  /** A configuration arrives: first its test flag, then the status is moved on, or refused. */
  ghost predicate ModifiedOs(b: Snap, a: Snap, u: Uuid, config: OsConfig, mid: Snap, t: Option<Turn>) {
    var was, known := StartOf(b.statuses, u, config), b.(configs := b.configs[u := config]);
    && a.configs == known.configs && a.certStatuses == b.certStatuses && a.certConfigs == b.certConfigs
    && (if Confirming(config, was) then Confirmed(known, mid, u, config, was) else mid == known)
    && (t.Some? <==> !TooMuch(known.configs, config))
    && (t.Some? ==> Moves(mid, a, u, config, was, t.value))
    && (t.None? ==> a == mid.(statuses := mid.statuses[u := was.(failed := true)]))
  }

  /** A configuration goes: its references and its place are given up, and the status once it may go. */
  ghost predicate DeletedOs(b: Snap, a: Snap, u: Uuid) {
    && a.configs == b.configs - {u} && a.certStatuses == b.certStatuses && a.certConfigs == b.certConfigs
    && a.writes == b.writes
    && a.view == (if u in b.statuses then Removing(b.view, b.statuses[u]) else b.view)
    && a.statuses - {u} == b.statuses - {u}
    && (u in a.statuses <==> u in b.statuses && StillReported(b.view.facts, b.statuses[u].images))
    && (u in a.statuses ==> NoRefs(a.statuses[u].images) && a.statuses[u].part.None?)
  }

  /** A certificate object arrives; it may be what the base OS configuration of that name waits for. */
  ghost predicate ModifiedCert(b: Snap, a: Snap, u: Uuid, config: CertConfig, t: Option<Turn>) {
    var known := b.(certConfigs := b.certConfigs[u := config]);
    && a.configs == b.configs && a.certConfigs == known.certConfigs
    && (if u in b.certStatuses && b.certStatuses[u].version == config.version then a == known && t.None?
        else
          && u in a.certStatuses && a.certStatuses[u].version == config.version
          && a.certStatuses - {u} == b.certStatuses - {u}
          && MovesOne(known, a, if t.Some? then Some(Move(u, t.value)) else None))
  }

  ghost predicate DeletedCert(b: Snap, a: Snap, u: Uuid) {
    && SameOsState(b, a) && a.configs == b.configs && a.certConfigs == b.certConfigs - {u}
    && a.verifiers == b.verifiers
    && a.certStatuses.Keys == b.certStatuses.Keys && a.certStatuses - {u} == b.certStatuses - {u}
    && (u in a.certStatuses ==> NoRefs(a.certStatuses[u].images))
  }

  /** A datastore arrives: what waits for it starts over, and nothing else changes. */
  ghost predicate AddedStore(b: Snap, a: Snap, id: string) {
    var told := Told(b, b.view.facts.(datastores := b.view.facts.datastores + {id}));
    && a.view.facts == told.view.facts && a.configs == b.configs
    && a.certStatuses == b.certStatuses && a.certConfigs == b.certConfigs
    && SameMachine(told.view, a.view) && a.statuses.Keys == b.statuses.Keys
    && (forall u :: u in b.statuses ==> Restarts(told.view, b.configs, u, b.statuses[u], a.statuses[u], id))
    && ((forall u :: u in b.statuses ==> !Awaits(b.configs, b.statuses[u], u, id)) ==> a == told)
  }

  ghost predicate Restarts(
    w: View, configs: map<Uuid, OsConfig>, u: Uuid, was: OsStatus, st: OsStatus, id: string)
  {
    if !Awaits(configs, was, u, id) then st == was
    else if TooMuch(configs, configs[u]) then st == was.(failed := true)
    else MovedOn(w, configs[u], was.(failed := false), st)
  }

  /** No configuration names the image, or some that does has no status. */
  predicate NoneToMove(b: Snap, safename: string) {
    forall u :: u in b.configs && Names(b.configs[u].images, safename) ==>
      exists x :: x in b.configs && Names(b.configs[x].images, safename) && x !in b.statuses
  }

  /** A report of the downloader: a handshake about a count, or what moves on a configuration with the image. */
  ghost predicate ReportedDownload(
    b: Snap, a: Snap, obj: ObjType, safename: string, status: DownloaderStatus, moved: Option<Move>)
  {
    var told := Told(b, b.view.facts.(downloader := b.view.facts.downloader[(obj, safename) := status]));
    if (obj, safename) !in b.downloads && status.refCount == 0 then
      a == told.(downloads := b.downloads[(obj, safename) := 0]) && moved.None?
    else if (obj, safename) in b.downloads && b.downloads[(obj, safename)] == 0 && status.expired then
      a == told.(downloads := b.downloads - {(obj, safename)}) && moved.None?
    else
      && a.view.facts == told.view.facts && a.configs == b.configs && a.certConfigs == b.certConfigs
      && MovesOne(told, a, moved)
      && (obj.BaseOsObj? ==>
            && a.certStatuses == b.certStatuses
            && (moved.Some? ==> Names(b.configs[moved.value.u].images, safename))
            && (moved.None? ==> a == told && NoneToMove(b, safename)))
      && (obj.CertObj? && moved.Some? ==>
            moved.value.u in b.certConfigs && Names(b.certConfigs[moved.value.u].images, safename))
  }

  /** A report of the verifier, likewise. */
  ghost predicate ReportedVerification(
    b: Snap, a: Snap, safename: string, status: VerifierStatus, moved: Option<Move>)
  {
    var told := Told(b, b.view.facts.(verifier := b.view.facts.verifier[safename := status]));
    if status.pending then
      a == told && moved.None?
    else if safename !in b.verifiers && status.refCount == 0 then
      a == told.(verifiers := b.verifiers[safename := VerifierConfig(status.sha, 0)]) && moved.None?
    else if safename in b.verifiers && b.verifiers[safename].refCount == 0 && status.expired then
      a == told.(verifiers := b.verifiers - {safename}) && moved.None?
    else
      && a.view.facts == told.view.facts && a.configs == b.configs && a.certConfigs == b.certConfigs
      && a.certStatuses == b.certStatuses && MovesOne(told, a, moved)
      && (moved.Some? ==> Names(b.configs[moved.value.u].images, safename))
      && (moved.None? ==> a == told && NoneToMove(b, safename))
  }

  /** The device starts again, if it can, with nothing but what is in its partitions. */
  ghost predicate PoweredUp(b: Snap, a: Snap) {
    if !CanBoot(b.view.table) then a == b
    else
      && Boots(b.view.table, a.view.table) && a.view.versions == b.view.versions
      && a.tables == b.tables + [a.view.table] && a.writes == b.writes
      && (forall p: Partition :: p in a.view.cache && a.view.cache[p] == Report(a.view, p))
      && a.view.facts == Facts(map[], map[], {}, b.view.facts.host)
      && a.statuses == map[] && a.configs == map[] && a.certStatuses == map[] && a.certConfigs == map[]
      && a.downloads == map[] && a.verifiers == map[]
  }

  /** What an event does. */
  ghost predicate Handled(b: Snap, e: Event, a: Snap) {
    match e
    case ModifyOs(u, config) => exists mid, t :: ModifiedOs(b, a, u, config, mid, t)
    case DeleteOs(u) => DeletedOs(b, a, u)
    case ModifyCert(u, config) => exists t :: ModifiedCert(b, a, u, config, t)
    case DeleteCert(u) => DeletedCert(b, a, u)
    case AddDatastore(id) => AddedStore(b, a, id)
    case RemoveDatastore(id) => a == Told(b, b.view.facts.(datastores := b.view.facts.datastores - {id}))
    case DownloaderReport(obj, safename, status) =>
      exists moved :: ReportedDownload(b, a, obj, safename, status, moved)
    case DownloaderGone(obj, safename) =>
      a == Told(b, b.view.facts.(downloader := b.view.facts.downloader - {(obj, safename)}))
    case VerifierReport(safename, status) => exists moved :: ReportedVerification(b, a, safename, status, moved)
    case VerifierGone(safename) => a == Told(b, b.view.facts.(verifier := b.view.facts.verifier - {safename}))
    case HostChanges(host) => a == Told(b, b.view.facts.(host := host))
    case PowerCycle => PoweredUp(b, a)
  }
}
