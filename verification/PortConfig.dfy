/**
 A set of port configurations and what is known of its tests.
 */
module PortConfig {

  /** A moment in nanoseconds; 0 is the zero time, which stands for never. */
  type Time = nat

  datatype DhcpType = Noop | Static | NoDhcp | Deprecated | Client

  datatype DhcpConfig = DhcpConfig(dhcp: DhcpType, addrSubnet: string, settings: string)

  datatype Port = Port(ifName: string, dhcpConfig: DhcpConfig, attributes: string)

  datatype Config = Config(
    version: nat,
    key: string,
    timePriority: Time,
    lastFailed: Time,
    lastSucceeded: Time,
    lastError: string,
    ports: seq<Port>)

  const SECOND: nat := 1_000_000_000

  /** Not failed within the last minute, or succeeded since. */
  predicate IsTestable(c: Config, now: Time) {
    || c.lastFailed == 0
    || c.lastSucceeded > c.lastFailed
    || (now - c.lastFailed) / SECOND > 60
  }

  predicate IsUntested(c: Config) {
    c.lastFailed == 0 && c.lastSucceeded == 0
  }

  predicate WasWorking(c: Config) {
    c.lastSucceeded != 0 && c.lastSucceeded > c.lastFailed
  }

  /** The identity of an entry in the list. */
  predicate SameStamp(a: Config, b: Config) {
    a.version == b.version && a.key == b.key && a.timePriority == b.timePriority
  }

  predicate SameContent(a: Config, b: Config) {
    a.version == b.version && a.key == b.key && a.ports == b.ports
  }
}
