/**
 The two boot partitions, their states, and the commands that change them. The boot loader
 is the environment: it boots a partition that is marked for an update as one under test,
 and otherwise one that is active.
 */
module Zboot {

  datatype Partition = IMGA | IMGB

  datatype PartitionState = Active | InProgress | Unused | Updating

  datatype Table = Table(current: Partition, imga: PartitionState, imgb: PartitionState)

  function Other(p: Partition): Partition {
    if p.IMGA? then IMGB else IMGA
  }

  function StateOf(t: Table, p: Partition): PartitionState {
    if p.IMGA? then t.imga else t.imgb
  }

  function WithState(t: Table, p: Partition, st: PartitionState): Table {
    if p.IMGA? then t.(imga := st) else t.(imgb := st)
  }

  /** What the version file of each partition says. */
  datatype Versions = Versions(imga: string, imgb: string)

  function VersionOf(v: Versions, p: Partition): string {
    if p.IMGA? then v.imga else v.imgb
  }

  function WithVersion(v: Versions, p: Partition, version: string): Versions {
    if p.IMGA? then v.(imga := version) else v.(imgb := version)
  }

  function CurrentState(t: Table): PartitionState {
    StateOf(t, t.current)
  }

  function OtherState(t: Table): PartitionState {
    StateOf(t, Other(t.current))
  }

  /** The running partition is active or under test. */
  predicate RunsBootable(t: Table) {
    CurrentState(t).Active? || CurrentState(t).InProgress?
  }

  /** There is a partition to fall back to, or to stay with. */
  predicate HasActive(t: Table) {
    t.imga.Active? || t.imgb.Active?
  }

  predicate Safe(t: Table) {
    RunsBootable(t) && HasActive(t)
  }

  /** What the boot loader may do. */
  predicate Boots(t: Table, t': Table) {
    if t.imga.Updating? || t.imgb.Updating? then
      && StateOf(t, t'.current).Updating?
      && t' == WithState(t, t'.current, InProgress).(current := t'.current)
    else
      && StateOf(t, t'.current).Active?
      && t' == t.(current := t'.current)
  }

  /** The boot loader finds something to boot. */
  predicate CanBoot(t: Table) {
    t.imga.Updating? || t.imgb.Updating? || HasActive(t)
  }

  /** From a safe table the boot loader always boots into a safe table. */
  lemma BootKeepsSafe(t: Table, t': Table)
    requires Safe(t) && Boots(t, t')
    ensures Safe(t')
    ensures CurrentState(t').InProgress? ==> OtherState(t').Active?
  {
  }

  lemma SafeCanBoot(t: Table)
    requires Safe(t)
    ensures CanBoot(t)
    ensures exists t' :: Boots(t, t')
  {
    var p := if OtherState(t).Updating? then Other(t.current)
             else if t.imga.Active? then IMGA else IMGB;
    var t' := if OtherState(t).Updating? then WithState(t, p, InProgress).(current := p)
              else t.(current := p);
    assert Boots(t, t');
  }

  /**
   Marking the other partition unused keeps the table safe if and only if the running
   partition is active: while it is under test the other one is the only fallback.
   */
  lemma UnusedIsSafeExactly(t: Table)
    requires Safe(t)
    ensures Safe(WithState(t, Other(t.current), Unused)) <==> CurrentState(t).Active?
  {
  }

  /** Marking the other partition for an update is safe if and only if the running one is active. */
  lemma UpdatingIsSafeExactly(t: Table)
    requires Safe(t)
    ensures Safe(WithState(t, Other(t.current), Updating)) <==> CurrentState(t).Active?
  {
  }

  /** Writing one state leaves a safe table safe if and only if this holds. */
  predicate WriteIsSafe(t: Table, p: Partition, st: PartitionState) {
    if p == t.current then st.Active? || (st.InProgress? && OtherState(t).Active?)
    else st.Active? || CurrentState(t).Active?
  }

  /** Every table of a history has an active partition. */
  predicate AllActive(history: seq<Table>) {
    forall i :: 0 <= i < |history| ==> HasActive(history[i])
  }

  predicate AllBootable(history: seq<Table>) {
    forall i :: 0 <= i < |history| ==> RunsBootable(history[i])
  }

  predicate AllSafe(history: seq<Table>) {
    forall i :: 0 <= i < |history| ==> Safe(history[i])
  }

  lemma SafeHistory(history: seq<Table>)
    requires AllBootable(history)
    ensures AllSafe(history) <==> AllActive(history)
  {
  }

  predicate AtMostOneMore(history: seq<Table>, now: seq<Table>) {
    history <= now && |now| <= |history| + 1
  }

  lemma HistoryGrows(history: seq<Table>, t: Table)
    ensures AllActive(history + [t]) <==> AllActive(history) && HasActive(t)
    ensures AllBootable(history + [t]) <==> AllBootable(history) && RunsBootable(t)
  {
    var h := history + [t];
    assert forall i :: 0 <= i < |history| ==> h[i] == history[i];
    assert h[|history|] == t;
    if AllActive(h) { assert forall i :: 0 <= i < |history| ==> HasActive(h[i]); }
    if AllBootable(h) { assert forall i :: 0 <= i < |history| ==> RunsBootable(h[i]); }
  }

  /** What a copy of an image leaves in a partition. */
  datatype Copy = WholeCopy(version: string) | BrokenCopy(version: string)

  datatype WriteResult = CopyDone | CopyRefused | CopyFatal

  class Device {
    var table: Table
    var versions: Versions
    /** Every table there has been since the device was set up, the present one last. */
    var history: seq<Table>

    predicate Valid()
      reads this
    {
      history != [] && history[|history| - 1] == table
    }

    /** The version that is running. */
    function Running(): string
      reads this
    {
      VersionOf(versions, table.current)
    }

    constructor (table: Table, versions: Versions)
      ensures Valid() && this.table == table && this.versions == versions && history == [table]
    {
      this.table, this.versions, history := table, versions, [table];
    }

    method SetPartitionState(p: Partition, st: PartitionState)
      requires Valid()
      modifies this`table, this`history
      ensures Valid()
      ensures table == WithState(old(table), p, st)
      ensures history == old(history) + [table]
      ensures old(Safe(table)) ==> (Safe(table) <==> old(WriteIsSafe(table, p, st)))
    {
      table := WithState(table, p, st);
      history := history + [table];
    }

    /**
     The running partition has proved itself; the other one is given up. Between the two
     writes the history shows a table in which both are active.
     */
    method MarkCurrentPartitionStateActive() returns (ok: bool)
      requires Valid()
      modifies this`table, this`history
      ensures Valid() && table.current == old(table.current)
      ensures var marked := WithState(old(table), table.current, Active);
              if !CurrentState(old(table)).InProgress? then
                !ok && table == old(table) && history == old(history)
              else if OtherState(old(table)).Active? || OtherState(old(table)).InProgress? then
                && ok && table == WithState(marked, Other(table.current), Unused)
                && history == old(history) + [marked, table]
              else
                !ok && table == marked && history == old(history) + [marked]
    {
      if !CurrentState(table).InProgress? {
        return false;
      }
      SetPartitionState(table.current, Active);
      var state := OtherState(table);
      if !(state.Active? || state.InProgress?) {
        return false;
      }
      SetPartitionState(Other(table.current), Unused);
      return true;
    }

    /**
     Writes an image, unless the partition is the running one or has no device. A copy that
     fails leaves something else in the partition, and is fatal.
     */
    method WriteToPartition(p: Partition, hasDevice: bool, copy: Copy) returns (r: WriteResult)
      requires Valid()
      modifies this`versions
      ensures Valid() && Running() == old(Running())
      ensures r.CopyRefused? <==> p == table.current || !hasDevice
      ensures !r.CopyRefused? ==> (r.CopyFatal? <==> copy.BrokenCopy?)
      ensures versions == if r.CopyRefused? then old(versions) else WithVersion(old(versions), p, copy.version)
    {
      if p != Other(table.current) || !hasDevice {
        return CopyRefused;
      }
      versions := WithVersion(versions, p, copy.version);
      return if copy.BrokenCopy? then CopyFatal else CopyDone;
    }

    /**
     The power fails when the history had `k` tables; what is then in the partition that is not
     the running one of that table is anybody's guess. If every table so far was safe, so is
     every one that is left, and the device can boot.
     */
    method Rewind(k: nat, version: string)
      requires Valid() && 0 < k <= |history|
      modifies this
      ensures Valid() && history == old(history)[..k]
      ensures versions == WithVersion(old(versions), Other(table.current), version)
      ensures old(AllActive(history)) ==> AllActive(history)
      ensures old(AllBootable(history)) ==> AllBootable(history)
      ensures old(AllSafe(history)) ==> AllSafe(history) && CanBoot(table)
    {
      table, history := history[k - 1], history[..k];
      versions := WithVersion(versions, Other(table.current), version);
      if old(AllSafe(history)) { SafeCanBoot(table); }
    }

    method Boot()
      requires Valid() && CanBoot(table)
      modifies this`table, this`history
      ensures Valid() && Boots(old(table), table)
      ensures history == old(history) + [table]
    {
      var p: Partition := *;
      if table.imga.Updating? || table.imgb.Updating? {
        p := if !StateOf(table, p).Updating? then Other(p) else p;
        table := WithState(table, p, InProgress).(current := p);
      } else {
        p := if !StateOf(table, p).Active? then Other(p) else p;
        table := table.(current := p);
      }
      history := history + [table];
    }
  }
}
