// The rows of the hotspot_profile and hotspot_user tables. The accounting
// columns of a user (online count, session and byte totals, last online) and
// its voucher_id are not touched by the modelled handlers and are not part of
// the rows here.
module HotspotDomain {
  import opened Api

  /** The authentication modes of a hotspot profile. */
  const AuthModeUserPass: string := "userpass"
  const AuthModeMac: string := "mac"
  const AuthModeMacUserPass: string := "mac-userpass"

  /** A row of hotspot_profile. */
  datatype HotspotProfile = HotspotProfile(
    id: int,
    nodeId: int,
    name: string,
    status: string,
    authMode: string,
    sessionTimeout: int,
    idleTimeout: int,
    dailyLimit: int,
    monthlyLimit: int,
    upRate: int,
    downRate: int,
    upLimit: int,
    downLimit: int,
    totalLimit: int,
    addrPool: string,
    domain: string,
    welcomeUrl: string,
    logoutUrl: string,
    bindMac: int,
    maxDevices: int,
    remark: string,
    createdAt: Time,
    updatedAt: Time)

  /** A row of hotspot_user. */
  datatype HotspotUser = HotspotUser(
    id: int,
    nodeId: int,
    profileId: int,
    username: string,
    password: string,
    realname: string,
    mobile: string,
    email: string,
    macAddr: string,
    ipAddr: string,
    status: string,
    expireTime: Time,
    remark: string,
    createdAt: Time,
    updatedAt: Time)

  /** The unique column of hotspot_profile. */
  function ProfileName(p: HotspotProfile): string { p.name }

  /** The unique column of hotspot_user. */
  function UserName(u: HotspotUser): string { u.username }

  /** The column of hotspot_user that references a profile. */
  function UserProfile(u: HotspotUser): int { u.profileId }
}
