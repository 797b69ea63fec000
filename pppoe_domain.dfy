// The rows of the pppoe_profile and pppoe_user tables. The accounting columns
// of a user (online count, session and byte totals, last online) are not
// touched by the modelled handlers and are not part of the rows here.
module PppoeDomain {
  import opened Api

  /** A row of pppoe_profile. */
  datatype PppoeProfile = PppoeProfile(
    id: int,
    nodeId: int,
    name: string,
    status: string,
    addrPool: string,
    ipv6PrefixPool: string,
    ipv6AddrPool: string,
    acName: string,
    serviceName: string,
    sessionTimeout: int,
    idleTimeout: int,
    interimInterval: int,
    upRate: int,
    downRate: int,
    upBurstRate: int,
    downBurstRate: int,
    upBurstSize: int,
    downBurstSize: int,
    vlanid1: int,
    vlanid2: int,
    pvcVpi: int,
    pvcVci: int,
    domain: string,
    bindMac: int,
    bindVlan: int,
    activeNum: int,
    priority: int,
    remark: string,
    createdAt: Time,
    updatedAt: Time)

  /** A row of pppoe_user. */
  datatype PppoeUser = PppoeUser(
    id: int,
    nodeId: int,
    profileId: int,
    username: string,
    password: string,
    realname: string,
    mobile: string,
    email: string,
    address: string,
    macAddr: string,
    ipAddr: string,
    ipv6Addr: string,
    delegatedIpv6Prefix: string,
    vlanid1: int,
    vlanid2: int,
    domain: string,
    status: string,
    expireTime: Time,
    remark: string,
    createdAt: Time,
    updatedAt: Time)

  /** The unique column of pppoe_profile. */
  function ProfileName(p: PppoeProfile): string { p.name }

  /** The unique column of pppoe_user. */
  function UserName(u: PppoeUser): string { u.username }

  /** The column of pppoe_user that references a profile. */
  function UserProfile(u: PppoeUser): int { u.profileId }
}
