/**
 One DHCP client per interface: moving the running clients from an old to a new port
 configuration.
 */
module Dhcp {
  import opened Prelude
  import opened PortConfig

  const WWAN := "wwan0"

  /** What the code reads of the system: which interfaces exist, which addresses parse. */
  datatype Host = Host(interfaces: set<string>, cidrs: set<string>)

  /** A client can be started for the port. */
  predicate Wanted(host: Host, p: Port) {
    && p.ifName != WWAN
    && p.ifName in host.interfaces
    && match p.dhcpConfig.dhcp
       case Client => true
       case Static => p.dhcpConfig.addrSubnet != "" && p.dhcpConfig.addrSubnet in host.cidrs
       case _ => false
  }

  ghost predicate UniqueNames(ports: seq<Port>) {
    forall i, j :: 0 <= i < j < |ports| ==> ports[i].ifName != ports[j].ifName
  }

  /** The first port with the name. */
  function LookupOnIfname(ports: seq<Port>, ifName: string): (p: Option<Port>)
    ensures p.Some? ==> p.value in ports && p.value.ifName == ifName
    ensures p.None? ==> forall q :: q in ports ==> q.ifName != ifName
    ensures UniqueNames(ports) ==> forall q :: q in ports && q.ifName == ifName ==> p == Some(q)
  {
    if ports == [] then None
    else if ports[0].ifName == ifName then Some(ports[0])
    else
      var p := LookupOnIfname(ports[1..], ifName);
      assert ports == [ports[0]] + ports[1..];
      p
  }

  /** What runs on an interface under a configuration. */
  function ClientFor(host: Host, ports: seq<Port>, ifName: string): Option<DhcpConfig> {
    var p := LookupOnIfname(ports, ifName);
    if p.Some? && Wanted(host, p.value) then Some(p.value.dhcpConfig) else None
  }

  /** The same clients are asked for on either host. */
  ghost predicate Unconcerned(was: Host, now: Host, ports: seq<Port>) {
    forall ifName :: ClientFor(was, ports, ifName) == ClientFor(now, ports, ifName)
  }

  /** A change of the interface's configuration stops what runs there first. */
  predicate Stoppable(oldPorts: seq<Port>, ifName: string) {
    var p := LookupOnIfname(oldPorts, ifName);
    p.Some? && (p.value.dhcpConfig.dhcp.Client? || p.value.dhcpConfig.dhcp.Static?)
  }

  /** Some port asks for a client on the interface. */
  ghost predicate Asks(host: Host, ports: seq<Port>, ifName: string) {
    exists i :: 0 <= i < |ports| && ports[i].ifName == ifName && Wanted(host, ports[i])
  }

  /** Two ports ask for a client on one interface, and none is stopped there in between. */
  ghost predicate Collides(host: Host, ports: seq<Port>, oldPorts: seq<Port>) {
    exists i, j :: 0 <= i < j < |ports| && Collide(host, ports[i], ports[j], oldPorts)
  }

  predicate Collide(host: Host, p: Port, q: Port, oldPorts: seq<Port>) {
    p.ifName == q.ifName && Wanted(host, p) && Wanted(host, q) && !Stoppable(oldPorts, p.ifName)
  }

  lemma NothingAsked(host: Host, oldPorts: seq<Port>)
    ensures !Collides(host, [], oldPorts) && forall n :: !Asks(host, [], n)
  {
  }

  lemma UniqueNamesNeverCollide(host: Host, ports: seq<Port>, oldPorts: seq<Port>)
    requires UniqueNames(ports)
    ensures !Collides(host, ports, oldPorts)
  {
  }

  /** What one more port changes. */
  lemma OneMorePort(host: Host, ports: seq<Port>, oldPorts: seq<Port>, i: nat)
    requires i < |ports|
    ensures forall n :: Asks(host, ports[..i + 1], n) <==>
              Asks(host, ports[..i], n) || (ports[i].ifName == n && Wanted(host, ports[i]))
    ensures Collides(host, ports[..i + 1], oldPorts) <==>
            || Collides(host, ports[..i], oldPorts)
            || (!Stoppable(oldPorts, ports[i].ifName) && Wanted(host, ports[i])
                && Asks(host, ports[..i], ports[i].ifName))
  {
    var before, now := ports[..i], ports[..i + 1];
    assert now == before + [ports[i]];
    forall n ensures Asks(host, now, n) <==> Asks(host, before, n) || (ports[i].ifName == n && Wanted(host, ports[i])) {
      if Asks(host, before, n) {
        var k :| 0 <= k < i && before[k].ifName == n && Wanted(host, before[k]);
        assert now[k] == before[k];
      }
      if ports[i].ifName == n && Wanted(host, ports[i]) { assert now[i] == ports[i]; }
    }
    if Collides(host, before, oldPorts) {
      var a, b :| 0 <= a < b < i && Collide(host, before[a], before[b], oldPorts);
      assert Collide(host, now[a], now[b], oldPorts);
    }
    if !Stoppable(oldPorts, ports[i].ifName) && Wanted(host, ports[i]) && Asks(host, before, ports[i].ifName) {
      var k :| 0 <= k < i && before[k].ifName == ports[i].ifName && Wanted(host, before[k]);
      assert Collide(host, now[k], now[i], oldPorts);
    }
  }

  class Clients {
    var host: Host
    /** The settings each running client was started with, by interface. */
    var running: map<string, DhcpConfig>
    /** A start was attempted on an interface whose client still ran; the source waits then. */
    var blocked: bool

    constructor (host: Host)
      ensures this.host == host && running == map[] && !blocked
    {
      this.host, running, blocked := host, map[], false;
    }

    function Running(ifName: string): Option<DhcpConfig>
      reads this
    {
      if ifName in running then Some(running[ifName]) else None
    }

    /** Exactly the clients that the configuration asks for are running. */
    ghost predicate Match(ports: seq<Port>)
      reads this
    {
      forall ifName :: Running(ifName) == ClientFor(host, ports, ifName)
    }

    /**
     Interfaces appear or vanish, and no client is told. The clients that run are still those
     that the ports ask for if and only if no port is concerned.
     */
    method ChangeHost(now: Host, ghost ports: seq<Port>)
      modifies this`host
      ensures host == now
      ensures old(Match(ports)) ==> (Match(ports) <==> Unconcerned(old(host), now, ports))
    {
      host := now;
      if old(Match(ports)) {
        assert forall n :: Running(n) == ClientFor(old(host), ports, n);
        if Match(ports) {
          forall n ensures ClientFor(old(host), ports, n) == ClientFor(now, ports, n) {
            assert Running(n) == ClientFor(now, ports, n);
          }
        }
      }
    }

    method Activate(p: Port)
      modifies this`running, this`blocked
      ensures blocked == (old(blocked) || (Wanted(host, p) && p.ifName in old(running)))
      ensures running == if Wanted(host, p) then old(running)[p.ifName := p.dhcpConfig] else old(running)
    {
      if p.ifName == WWAN || p.ifName !in host.interfaces {
        return;
      }
      match p.dhcpConfig.dhcp
      case Client =>
        Start(p);
      case Static =>
        if p.dhcpConfig.addrSubnet == "" || p.dhcpConfig.addrSubnet !in host.cidrs {
          return;
        }
        Start(p);
      case _ =>
    }

    method Start(p: Port)
      modifies this`running, this`blocked
      ensures blocked == (old(blocked) || p.ifName in old(running))
      ensures running == old(running)[p.ifName := p.dhcpConfig]
    {
      if p.ifName in running {
        blocked := true;
      }
      running := running[p.ifName := p.dhcpConfig];
    }

    method Inactivate(p: Port)
      modifies this`running
      ensures running == if p.ifName != WWAN && (p.dhcpConfig.dhcp.Client? || p.dhcpConfig.dhcp.Static?)
                         then old(running) - {p.ifName} else old(running)
    {
      if p.ifName == WWAN {
        return;
      }
      if p.dhcpConfig.dhcp.Client? || p.dhcpConfig.dhcp.Static? {
        running := running - {p.ifName};
      }
    }

    /** One port of the new configuration, of which the old one may know something. */
    method HandleNew(newU: Port, oldPorts: seq<Port>)
      modifies this`running, this`blocked
      ensures old(Running(newU.ifName)) == ClientFor(host, oldPorts, newU.ifName) ==>
        && blocked == old(blocked)
        && Running(newU.ifName) == if Wanted(host, newU) then Some(newU.dhcpConfig) else None
      ensures forall n :: n != newU.ifName ==> Running(n) == old(Running(n))
      ensures blocked == (old(blocked) || (!Stoppable(oldPorts, newU.ifName) && Wanted(host, newU)
                                           && old(Running(newU.ifName)).Some?))
      ensures !Stoppable(oldPorts, newU.ifName) ==>
        (Running(newU.ifName).Some? <==> old(Running(newU.ifName)).Some? || Wanted(host, newU))
    {
      var oldU := LookupOnIfname(oldPorts, newU.ifName);
      if oldU.None? || oldU.value.dhcpConfig.dhcp.NoDhcp? {
        Activate(newU);
      } else if newU.dhcpConfig != oldU.value.dhcpConfig {
        Inactivate(oldU.value);
        Activate(newU);
      }
    }

    /** What runs on an interface when the second loop gets to one of its old ports. */
    ghost predicate Started(oldU: Port, newPorts: seq<Port>)
      reads this
    {
      && (Running(oldU.ifName).Some? ==>
            oldU.ifName != WWAN && (oldU.dhcpConfig.dhcp.Client? || oldU.dhcpConfig.dhcp.Static?
                                    || LookupOnIfname(newPorts, oldU.ifName).Some?))
      && (LookupOnIfname(newPorts, oldU.ifName).Some? ==>
            Running(oldU.ifName) == ClientFor(host, newPorts, oldU.ifName))
    }

    /** One port of the old configuration, which the new one may have given up. */
    method HandleOld(oldU: Port, newPorts: seq<Port>)
      modifies this`running
      ensures old(Started(oldU, newPorts)) ==> Running(oldU.ifName) == ClientFor(host, newPorts, oldU.ifName)
      ensures forall n :: n != oldU.ifName ==> Running(n) == old(Running(n))
    {
      var newU := LookupOnIfname(newPorts, oldU.ifName);
      if newU.None? || newU.value.dhcpConfig.dhcp.NoDhcp? {
        Inactivate(oldU);
      }
    }

    /** The first loop: starts what the new configuration asks for. */
    method StartNew(newPorts: seq<Port>, oldPorts: seq<Port>)
      modifies this`running, this`blocked
      ensures UniqueNames(newPorts) && old(Match(oldPorts)) ==>
        forall n :: Running(n) == AfterStarts(host, newPorts, oldPorts, n)
      ensures old(Match(oldPorts)) ==> blocked == (old(blocked) || Collides(host, newPorts, oldPorts))
    {
      hide Asks, Collides;
      ghost var matched := Match(oldPorts);
      ghost var good := UniqueNames(newPorts) && matched;
      NothingAsked(host, oldPorts);
      for i := 0 to |newPorts|
        invariant good ==> forall n :: Running(n) == AfterStarts(host, newPorts[..i], oldPorts, n)
        invariant matched ==> blocked == (old(blocked) || Collides(host, newPorts[..i], oldPorts))
        invariant matched ==> forall n :: !Stoppable(oldPorts, n) ==>
          (Running(n).Some? <==> Asks(host, newPorts[..i], n))
      {
        OneMorePort(host, newPorts, oldPorts, i);
        if good { AppendLookup(newPorts, i); }
        HandleNew(newPorts[i], oldPorts);
      }
      assert newPorts[..|newPorts|] == newPorts;
    }

    /** The second loop: stops what the new configuration has given up. */
    method StopOld(newPorts: seq<Port>, oldPorts: seq<Port>)
      modifies this`running
      ensures UniqueNames(oldPorts) && old(forall n :: Running(n) == AfterStarts(host, newPorts, oldPorts, n)) ==>
        forall n :: Running(n) == AfterStops(host, newPorts, oldPorts, oldPorts, n)
    {
      ghost var good := UniqueNames(oldPorts) && forall n :: Running(n) == AfterStarts(host, newPorts, oldPorts, n);
      for i := 0 to |oldPorts|
        invariant good ==> forall n :: Running(n) == AfterStops(host, newPorts, oldPorts[..i], oldPorts, n)
      {
        if good { AppendLookup(oldPorts, i); }
        HandleOld(oldPorts[i], newPorts);
      }
      assert oldPorts[..|oldPorts|] == oldPorts;
    }

    /**
     Whatever the two configurations are: if the clients match the old one before, a start is
     attempted while a client for it runs if and only if two new ports collide, which those with
     distinct names never do; and where no interface occurs twice they match the new one after.
     */
    method UpdateDhcpClient(newPorts: seq<Port>, oldPorts: seq<Port>)
      modifies this`running, this`blocked
      ensures UniqueNames(newPorts) && UniqueNames(oldPorts) && old(Match(oldPorts)) ==>
        Match(newPorts) && blocked == old(blocked)
      ensures old(Match(oldPorts)) ==> blocked == (old(blocked) || Collides(host, newPorts, oldPorts))
    {
      hide Collides;
      if UniqueNames(newPorts) { UniqueNamesNeverCollide(host, newPorts, oldPorts); }
      StartNew(newPorts, oldPorts);
      StopOld(newPorts, oldPorts);
      if UniqueNames(newPorts) && UniqueNames(oldPorts) && old(Match(oldPorts)) {
        forall n ensures Running(n) == ClientFor(host, newPorts, n) {
          assert Running(n) == AfterStops(host, newPorts, oldPorts, oldPorts, n);
        }
      }
    }
  }

  /** What runs once the ports `done` of the new configuration have been handled. */
  function AfterStarts(host: Host, done: seq<Port>, oldPorts: seq<Port>, n: string): Option<DhcpConfig> {
    if LookupOnIfname(done, n).Some? then ClientFor(host, done, n) else ClientFor(host, oldPorts, n)
  }

  /** What runs once the ports `gone` of the old configuration have been handled as well. */
  function AfterStops(host: Host, newPorts: seq<Port>, gone: seq<Port>, oldPorts: seq<Port>, n: string):
    Option<DhcpConfig>
  {
    if LookupOnIfname(newPorts, n).Some? || LookupOnIfname(gone, n).Some?
    then ClientFor(host, newPorts, n)
    else ClientFor(host, oldPorts, n)
  }

  /** Handling one more port changes the look-up of its name and of no other. */
  lemma AppendLookup(ports: seq<Port>, i: nat)
    requires UniqueNames(ports) && i < |ports|
    ensures forall n :: n != ports[i].ifName ==>
      LookupOnIfname(ports[..i + 1], n) == LookupOnIfname(ports[..i], n)
    ensures LookupOnIfname(ports[..i + 1], ports[i].ifName) == Some(ports[i])
    ensures LookupOnIfname(ports, ports[i].ifName) == Some(ports[i])
    ensures LookupOnIfname(ports[..i], ports[i].ifName).None?
  {
    assert ports[..i + 1] == ports[..i] + [ports[i]];
    assert UniqueNames(ports[..i]) && UniqueNames(ports[..i + 1]);
  }
}
