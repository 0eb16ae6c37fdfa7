/** The VLAN records of the store. */
module Vlans {
  import opened Common
  import opened Ipv4

  datatype Host = Host(mac: string, ip: string, hostname: string, isDynamic: bool)

  datatype Vlan = Vlan(id: string, name: string, vlanTag: Option<int>, isPrimary: bool, subnet: string, prefix: int,
                       gateway: string, rangeStart: string, rangeEnd: string, leaseTime: string,
                       cfDomain: string, groupName: string, hosts: seq<Host>)

  /** The VLANs the fleet serves on top of the node's native scope. */
  function Extra(vlans: seq<Vlan>): seq<Vlan>
  {
    Filter(vlans, (v: Vlan) => !v.isPrimary)
  }

  /** `network_of`: None where it raises. */
  function NetworkOf(v: Vlan): Option<Net>
  {
    ParseNet(v.subnet, v.prefix)
  }

  /** A valid address inside the VLAN's subnet. */
  predicate Inside(ip: string, v: Vlan)
  {
    NetworkOf(v).Some? && ValidIp(ip) && NetworkOf(v).value.Has(ParseAddress(ip).value)
  }

  /** No address belongs to both subnets. */
  ghost predicate ShareNoAddress(a: Vlan, b: Vlan)
    requires NetworkOf(a).Some? && NetworkOf(b).Some?
  {
    forall x: nat :: !(NetworkOf(a).value.Has(x) && NetworkOf(b).value.Has(x))
  }
}
