/**
 A run of the device network code that leaves its list of configurations out of order.
 */
module NetworkRuns {
  import opened PortConfig
  import opened Compression
  import opened PortConfigList
  import opened Dhcp
  import opened DeviceNetwork

  const TESTED := Config(0, "usb", 1, 0, 0, "", [Port("eth1", DhcpConfig(Client, "", ""), "")])
  const BETTER := Config(0, "lastresort", 2, 0, 0, "", [Port("eth0", DhcpConfig(Client, "", ""), "")])
  /** What is under test arrives again with a better priority. */
  const AGAIN := TESTED.(timePriority := 3)

  lemma FirstChange()
    ensures !NothingToDo([], 0, TESTED, false) && Changed([], TESTED, false) == [TESTED]
  {
  }

  lemma SecondChange()
    ensures !NothingToDo([TESTED], 0, BETTER, false) && Changed([TESTED], BETTER, false) == [BETTER, TESTED]
  {
    assert "usb"[0] != "lastresort"[0];
    assert Lookup([TESTED], BETTER) == -1;
  }

  lemma ThirdChange()
    ensures var l := [BETTER, TESTED];
      && Lookup(l, AGAIN) == 1
      && !NothingToDo(l, 0, AGAIN, false) && Changed(l, AGAIN, false) == [AGAIN, BETTER]
  {
    var l := [BETTER, TESTED];
    assert "usb"[0] != "lastresort"[0];
    assert !Matches(l[0], AGAIN, true) && !Matches(l[1], AGAIN, true);
    assert !Matches(l[0], AGAIN, false) && Matches(l[1], AGAIN, false);
    assert Removed(l, l[1]) == [BETTER];
    assert WithHistory(AGAIN, TESTED) == AGAIN;
  }

  /** The entry under test is found by its content only, and its priority does not fit there. */
  lemma LateWrite(pending: Config)
    requires SameStamp(pending, TESTED) && pending.ports == TESTED.ports
    ensures var l := [AGAIN, BETTER];
      Misplaced(l, pending) && !Sorted(WrittenBack(l, pending))
  {
    var l := [AGAIN, BETTER];
    assert "usb"[0] != "lastresort"[0];
    assert SameContent(l[0], pending);
    assert Lookup(l, pending) == 0;
    var r := WrittenBack(l, pending);
    assert r[0].timePriority < r[1].timePriority;
  }

  /** No entry comes from the controller, so none is dropped. */
  lemma NothingSettled(was: seq<Config>, current: Config, index: int, list: seq<Config>, newIndex: int)
    requires Settled(was, current, index, list, newIndex)
    requires forall i :: 0 <= i < |was| ==> was[i].key != ZEDAGENT
    ensures list == was
  {
    NothingCompressed(was, index);
  }

  lemma NotFromController()
    ensures TESTED.key != ZEDAGENT && BETTER.key != ZEDAGENT
    ensures UniqueNames(TESTED.ports) && UniqueNames(BETTER.ports)
  {
    assert TESTED.key[0] != ZEDAGENT[0] && BETTER.key[0] != ZEDAGENT[0];
  }

  /** A configuration arrives while another one is tested. */
  method UpdateWhileTesting(context: Context, c: Config)
    requires context.Valid() && !context.panicked && context.inProgress && UniqueNames(c.ports)
    requires context.nextIndex < |context.list| && !NothingToDo(context.list, context.nextIndex, c, false)
    requires forall x :: x in Changed(context.list, c, false) ==> x.key != ZEDAGENT
    modifies context, context.clients
    ensures context.Valid() && context.list == old(Changed(context.list, c, false))
    ensures context.pending == old(context.pending) && context.testCount == old(context.testCount)
    ensures context.nextIndex == old(context.nextIndex) && context.late == old(context.late)
    ensures context.inProgress && !context.panicked
  {
    hide Changed, NothingToDo, Settled, AdjustedIndex, CurrentSeen, Sorted, Unique, UniqueNames, Context.PortsInv;
    ghost var changed := Changed(context.list, c, false);
    ghost var current := CurrentSeen(context.list, context.nextIndex, c, false);
    var r := context.DoUpdatePortConfigList(c, false);
    NothingSettled(changed, current, AdjustedIndex(changed, current, old(context.currentIndex)),
                   context.list, context.currentIndex);
    ghost var attempts, first;
    var rest;
    rest, attempts, first := context.RestartVerify([]);
  }

  /**
   While an entry waits for an address, a better one arrives and then the entry itself with a
   priority that is better still. The result of its test is then written over the entry with
   the new priority, together with the old one.
   */
  method LateRun(clients: Clients) returns (context: Context)
    requires clients.running == map[] && !clients.blocked
    modifies clients
    ensures context.Valid() && context.late && context.misfit && !Sorted(context.list)
  {
    hide Changed, NothingToDo, Settled, AdjustedIndex, CurrentSeen, Sorted, Unique, Clients.Match, UniqueNames;
    hide Misplaced, WrittenBack, Context.PortsInv;
    FirstChange();
    SecondChange();
    ThirdChange();
    NotFromController();
    context := new Context(clients);
    var r := context.DoUpdatePortConfigList(TESTED, false);
    context.SetupVerify(0);
    var waits := context.VerifyPending(Observation(NoAddress, 10));
    UpdateWhileTesting(context, BETTER);
    UpdateWhileTesting(context, AGAIN);
    LateWrite(context.pending);
    var res := context.VerifyPending(Observation(Addressed(false), 20));
    LateWrite(context.pending);
    var ok := context.WriteBack();
  }
}
