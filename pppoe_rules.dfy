// The rules the PPPoE handlers apply between converting a request and
// writing a row: the defaults of a new profile, the checks and inherited
// values of a new user, the updates maps of the two update handlers, and the
// password blanking of every user the API answers with.
module PppoeRules {
  import opened Api
  import opened Loose
  import opened PppoeDomain
  import Keyed

  /** The accounting interval a new profile gets when the request left it at 0. */
  const DefaultInterimInterval: int := 600

  // --------------------------------------------------------------- profiles

  /** The profile CreatePppoeProfile inserts: status "enabled" and an interim
      interval of 600 seconds where the request left them empty, both time
      stamps now, every other field as requested. */
  function DefaultedProfile(p: PppoeProfile, now: Time): (r: PppoeProfile)
    ensures r.status != "" && r.interimInterval != 0
    ensures p.status != "" ==> r.status == p.status
    ensures p.interimInterval != 0 ==> r.interimInterval == p.interimInterval
    ensures p.status == "" ==> r.status == Enabled
    ensures p.interimInterval == 0 ==> r.interimInterval == DefaultInterimInterval
    ensures r.createdAt == now && r.updatedAt == now
    ensures r.(status := p.status, interimInterval := p.interimInterval, createdAt := p.createdAt, updatedAt := p.updatedAt) == p
  {
    p.(status := if p.status == "" then Enabled else p.status,
       interimInterval := if p.interimInterval == 0 then DefaultInterimInterval else p.interimInterval,
       createdAt := now,
       updatedAt := now)
  }

  /** Filling in the defaults twice is filling them in once. */
  lemma {:induction false} DefaultedProfileIdempotent(p: PppoeProfile, now: Time)
    ensures DefaultedProfile(DefaultedProfile(p, now), now) == DefaultedProfile(p, now)
  {
  }

  /** The updates map of UpdatePppoeProfile, one field per column it may write. */
  datatype ProfileWrites = ProfileWrites(
    updatedAt: Write<Time>,
    name: Write<string>,
    status: Write<string>,
    addrPool: Write<string>,
    ipv6PrefixPool: Write<string>,
    ipv6AddrPool: Write<string>,
    acName: Write<string>,
    serviceName: Write<string>,
    sessionTimeout: Write<int>,
    idleTimeout: Write<int>,
    interimInterval: Write<int>,
    upRate: Write<int>,
    downRate: Write<int>,
    upBurstRate: Write<int>,
    downBurstRate: Write<int>,
    upBurstSize: Write<int>,
    downBurstSize: Write<int>,
    vlanid1: Write<int>,
    vlanid2: Write<int>,
    pvcVpi: Write<int>,
    pvcVci: Write<int>,
    domain: Write<string>,
    bindMac: Write<int>,
    bindVlan: Write<int>,
    activeNum: Write<int>,
    priority: Write<int>,
    remark: Write<string>,
    nodeId: Write<int>)

  /** The updates map of UpdatePppoeProfile for the converted request `d`:
      the string columns only when non-empty, node_id only when positive,
      every numeric and bind column always (so an omitted one is written
      as 0), and updated_at always. */
  function ProfileUpdates(d: PppoeProfile, now: Time): (w: ProfileWrites)
    ensures w.updatedAt == Some(now)
    ensures w.sessionTimeout == Some(d.sessionTimeout) && w.idleTimeout == Some(d.idleTimeout)
            && w.interimInterval == Some(d.interimInterval)
    ensures w.upRate == Some(d.upRate) && w.downRate == Some(d.downRate)
            && w.upBurstRate == Some(d.upBurstRate) && w.downBurstRate == Some(d.downBurstRate)
            && w.upBurstSize == Some(d.upBurstSize) && w.downBurstSize == Some(d.downBurstSize)
    ensures w.vlanid1 == Some(d.vlanid1) && w.vlanid2 == Some(d.vlanid2)
            && w.pvcVpi == Some(d.pvcVpi) && w.pvcVci == Some(d.pvcVci)
    ensures w.bindMac == Some(d.bindMac) && w.bindVlan == Some(d.bindVlan)
            && w.activeNum == Some(d.activeNum) && w.priority == Some(d.priority)
    ensures (w.name.Some? <==> d.name != "") && (w.status.Some? <==> d.status != "")
            && (w.domain.Some? <==> d.domain != "") && (w.remark.Some? <==> d.remark != "")
            && (w.nodeId.Some? <==> d.nodeId > 0)
  {
    ProfileWrites(
      updatedAt := Some(now),
      name := WriteIf(d.name != "", d.name),
      status := WriteIf(d.status != "", d.status),
      addrPool := WriteIf(d.addrPool != "", d.addrPool),
      ipv6PrefixPool := WriteIf(d.ipv6PrefixPool != "", d.ipv6PrefixPool),
      ipv6AddrPool := WriteIf(d.ipv6AddrPool != "", d.ipv6AddrPool),
      acName := WriteIf(d.acName != "", d.acName),
      serviceName := WriteIf(d.serviceName != "", d.serviceName),
      sessionTimeout := Some(d.sessionTimeout),
      idleTimeout := Some(d.idleTimeout),
      interimInterval := Some(d.interimInterval),
      upRate := Some(d.upRate),
      downRate := Some(d.downRate),
      upBurstRate := Some(d.upBurstRate),
      downBurstRate := Some(d.downBurstRate),
      upBurstSize := Some(d.upBurstSize),
      downBurstSize := Some(d.downBurstSize),
      vlanid1 := Some(d.vlanid1),
      vlanid2 := Some(d.vlanid2),
      pvcVpi := Some(d.pvcVpi),
      pvcVci := Some(d.pvcVci),
      domain := WriteIf(d.domain != "", d.domain),
      bindMac := Some(d.bindMac),
      bindVlan := Some(d.bindVlan),
      activeNum := Some(d.activeNum),
      priority := Some(d.priority),
      remark := WriteIf(d.remark != "", d.remark),
      nodeId := WriteIf(d.nodeId > 0, d.nodeId))
  }

  /** gorm's Updates on a profile row: every column the map holds takes its
      value, every other column keeps its own. */
  function ApplyProfileUpdates(p: PppoeProfile, w: ProfileWrites): (r: PppoeProfile)
    ensures r.id == p.id && r.createdAt == p.createdAt
  {
    p.(updatedAt := After(w.updatedAt, p.updatedAt),
       name := After(w.name, p.name),
       status := After(w.status, p.status),
       addrPool := After(w.addrPool, p.addrPool),
       ipv6PrefixPool := After(w.ipv6PrefixPool, p.ipv6PrefixPool),
       ipv6AddrPool := After(w.ipv6AddrPool, p.ipv6AddrPool),
       acName := After(w.acName, p.acName),
       serviceName := After(w.serviceName, p.serviceName),
       sessionTimeout := After(w.sessionTimeout, p.sessionTimeout),
       idleTimeout := After(w.idleTimeout, p.idleTimeout),
       interimInterval := After(w.interimInterval, p.interimInterval),
       upRate := After(w.upRate, p.upRate),
       downRate := After(w.downRate, p.downRate),
       upBurstRate := After(w.upBurstRate, p.upBurstRate),
       downBurstRate := After(w.downBurstRate, p.downBurstRate),
       upBurstSize := After(w.upBurstSize, p.upBurstSize),
       downBurstSize := After(w.downBurstSize, p.downBurstSize),
       vlanid1 := After(w.vlanid1, p.vlanid1),
       vlanid2 := After(w.vlanid2, p.vlanid2),
       pvcVpi := After(w.pvcVpi, p.pvcVpi),
       pvcVci := After(w.pvcVci, p.pvcVci),
       domain := After(w.domain, p.domain),
       bindMac := After(w.bindMac, p.bindMac),
       bindVlan := After(w.bindVlan, p.bindVlan),
       activeNum := After(w.activeNum, p.activeNum),
       priority := After(w.priority, p.priority),
       remark := After(w.remark, p.remark),
       nodeId := After(w.nodeId, p.nodeId))
  }

  /** The profile row an update request asks for: a string field the request
      left empty keeps its value, as does node_id when not positive; every
      numeric and bind field takes the request's value, 0 when omitted. */
  function UpdatedProfile(p: PppoeProfile, d: PppoeProfile, now: Time): PppoeProfile {
    PppoeProfile(
      id := p.id,
      nodeId := if d.nodeId > 0 then d.nodeId else p.nodeId,
      name := if d.name != "" then d.name else p.name,
      status := if d.status != "" then d.status else p.status,
      addrPool := if d.addrPool != "" then d.addrPool else p.addrPool,
      ipv6PrefixPool := if d.ipv6PrefixPool != "" then d.ipv6PrefixPool else p.ipv6PrefixPool,
      ipv6AddrPool := if d.ipv6AddrPool != "" then d.ipv6AddrPool else p.ipv6AddrPool,
      acName := if d.acName != "" then d.acName else p.acName,
      serviceName := if d.serviceName != "" then d.serviceName else p.serviceName,
      sessionTimeout := d.sessionTimeout,
      idleTimeout := d.idleTimeout,
      interimInterval := d.interimInterval,
      upRate := d.upRate,
      downRate := d.downRate,
      upBurstRate := d.upBurstRate,
      downBurstRate := d.downBurstRate,
      upBurstSize := d.upBurstSize,
      downBurstSize := d.downBurstSize,
      vlanid1 := d.vlanid1,
      vlanid2 := d.vlanid2,
      pvcVpi := d.pvcVpi,
      pvcVci := d.pvcVci,
      domain := if d.domain != "" then d.domain else p.domain,
      bindMac := d.bindMac,
      bindVlan := d.bindVlan,
      activeNum := d.activeNum,
      priority := d.priority,
      remark := if d.remark != "" then d.remark else p.remark,
      createdAt := p.createdAt,
      updatedAt := now)
  }

  /** Applying the updates map writes exactly the row the request asks for. */
  lemma {:induction false} ProfileUpdateEffect(p: PppoeProfile, d: PppoeProfile, now: Time)
    ensures ApplyProfileUpdates(p, ProfileUpdates(d, now)) == UpdatedProfile(p, d, now)
  {
  }

  /** Sending a profile's own fields back as the update changes nothing but
      updated_at. */
  lemma {:induction false} ProfileSelfUpdate(p: PppoeProfile, now: Time)
    ensures ApplyProfileUpdates(p, ProfileUpdates(p, now)) == p.(updatedAt := now)
  {
    ProfileUpdateEffect(p, p, now);
  }

  /** The update is a function of the request: applying it to the row it
      produced leaves that row as it is (given the same clock). */
  lemma {:induction false} ProfileUpdateIdempotent(p: PppoeProfile, d: PppoeProfile, now: Time)
    ensures UpdatedProfile(UpdatedProfile(p, d, now), d, now) == UpdatedProfile(p, d, now)
  {
  }

  // ------------------------------------------------------------------ users

  /** Why CreatePppoeUser refuses the converted request `u`, in the order the
      handler checks: the profile must exist, the user name be free, the
      password be non-empty and the expiry parse (`parsedExpire` is what the
      time parser made of it, None when it failed). */
  function CreateUserRejection(profiles: map<int, PppoeProfile>, users: map<int, PppoeUser>, u: PppoeUser,
                               parsedExpire: Option<Time>): (r: Option<ApiError>)
    ensures r.None? <==> u.profileId in profiles && !Keyed.Taken(users, UserName, u.username, None)
                         && u.password != "" && parsedExpire.Some?
    ensures u.profileId !in profiles ==> r == Some(ProfileNotFound)
    ensures u.profileId in profiles && Keyed.Taken(users, UserName, u.username, None) ==> r == Some(UsernameExists)
    ensures r == Some(MissingPassword) <==> u.profileId in profiles && !Keyed.Taken(users, UserName, u.username, None)
                                            && u.password == ""
    ensures r == Some(InvalidExpireTime) <==> u.profileId in profiles && !Keyed.Taken(users, UserName, u.username, None)
                                              && u.password != "" && parsedExpire.None?
    ensures r.Some? ==> r.value in {ProfileNotFound, UsernameExists, MissingPassword, InvalidExpireTime}
  {
    if u.profileId !in profiles then Some(ProfileNotFound)
    else if Keyed.Taken(users, UserName, u.username, None) then Some(UsernameExists)
    else if u.password == "" then Some(MissingPassword)
    else if parsedExpire.None? then Some(InvalidExpireTime)
    else None
  }

  /** The user CreatePppoeUser inserts: status "enabled" when empty; the
      domain, and each VLAN id the request left at 0, inherited from the
      profile (a VLAN id only when the profile's is positive); the new id,
      expiry and time stamps set; every other field as requested. */
  function InheritedUser(u: PppoeUser, profile: PppoeProfile, id: int, expire: Time, now: Time): (r: PppoeUser)
    ensures r.status == (if u.status == "" then Enabled else u.status)
    ensures r.domain == (if u.domain == "" then profile.domain else u.domain)
    ensures r.vlanid1 == (if u.vlanid1 == 0 && profile.vlanid1 > 0 then profile.vlanid1 else u.vlanid1)
    ensures r.vlanid2 == (if u.vlanid2 == 0 && profile.vlanid2 > 0 then profile.vlanid2 else u.vlanid2)
    ensures r.id == id && r.expireTime == expire && r.createdAt == now && r.updatedAt == now
    ensures r.(status := u.status, domain := u.domain, vlanid1 := u.vlanid1, vlanid2 := u.vlanid2, id := u.id,
               expireTime := u.expireTime, createdAt := u.createdAt, updatedAt := u.updatedAt) == u
  {
    u.(id := id,
       expireTime := expire,
       status := if u.status == "" then Enabled else u.status,
       domain := if u.domain == "" then profile.domain else u.domain,
       vlanid1 := if u.vlanid1 == 0 && profile.vlanid1 > 0 then profile.vlanid1 else u.vlanid1,
       vlanid2 := if u.vlanid2 == 0 && profile.vlanid2 > 0 then profile.vlanid2 else u.vlanid2,
       createdAt := now,
       updatedAt := now)
  }

  /** A created user never has an empty status, and has a domain whenever
      the request or the profile gave one. */
  lemma {:induction false} InheritedUserFilled(u: PppoeUser, profile: PppoeProfile, id: int, expire: Time, now: Time)
    ensures InheritedUser(u, profile, id, expire, now).status != ""
    ensures InheritedUser(u, profile, id, expire, now).domain == "" <==> u.domain == "" && profile.domain == ""
    ensures profile.vlanid1 > 0 ==> InheritedUser(u, profile, id, expire, now).vlanid1 != 0
    ensures profile.vlanid2 > 0 ==> InheritedUser(u, profile, id, expire, now).vlanid2 != 0
  {
  }

  /** Inheriting from the same profile a second time changes nothing. */
  lemma {:induction false} InheritedUserIdempotent(u: PppoeUser, profile: PppoeProfile, id: int, expire: Time, now: Time)
    ensures InheritedUser(InheritedUser(u, profile, id, expire, now), profile, id, expire, now)
            == InheritedUser(u, profile, id, expire, now)
  {
  }

  /** The updates map of UpdatePppoeUser, one field per column it may write. */
  datatype UserWrites = UserWrites(
    updatedAt: Write<Time>,
    username: Write<string>,
    password: Write<string>,
    realname: Write<string>,
    mobile: Write<string>,
    email: Write<string>,
    address: Write<string>,
    macAddr: Write<string>,
    ipAddr: Write<string>,
    ipv6Addr: Write<string>,
    delegatedIpv6Prefix: Write<string>,
    vlanid1: Write<int>,
    vlanid2: Write<int>,
    domain: Write<string>,
    status: Write<string>,
    profileId: Write<int>,
    nodeId: Write<int>,
    expireTime: Write<Time>,
    remark: Write<string>)

  /** The updates map of UpdatePppoeUser for the converted request `d`: the
      string columns (the password included) only when non-empty, the VLAN
      ids when not negative (so an omitted one is written as 0), profile_id
      and node_id only when positive, the expiry only when the request
      carried one, and updated_at always; an expiry that does not parse
      stops it with INVALID_EXPIRE_TIME. */
  function UserUpdates(d: PppoeUser, expire: TimeInput, now: Time): (r: Result<UserWrites, ApiError>)
    ensures r.Err? <==> expire.Unparsable?
    ensures r.Err? ==> r.error == InvalidExpireTime
    ensures r.Ok? ==> r.value.updatedAt == Some(now)
  {
    if expire.Unparsable? then Err(InvalidExpireTime)
    else Ok(UserWrites(
      updatedAt := Some(now),
      username := WriteIf(d.username != "", d.username),
      password := WriteIf(d.password != "", d.password),
      realname := WriteIf(d.realname != "", d.realname),
      mobile := WriteIf(d.mobile != "", d.mobile),
      email := WriteIf(d.email != "", d.email),
      address := WriteIf(d.address != "", d.address),
      macAddr := WriteIf(d.macAddr != "", d.macAddr),
      ipAddr := WriteIf(d.ipAddr != "", d.ipAddr),
      ipv6Addr := WriteIf(d.ipv6Addr != "", d.ipv6Addr),
      delegatedIpv6Prefix := WriteIf(d.delegatedIpv6Prefix != "", d.delegatedIpv6Prefix),
      vlanid1 := WriteIf(d.vlanid1 >= 0, d.vlanid1),
      vlanid2 := WriteIf(d.vlanid2 >= 0, d.vlanid2),
      domain := WriteIf(d.domain != "", d.domain),
      status := WriteIf(d.status != "", d.status),
      profileId := WriteIf(d.profileId > 0, d.profileId),
      nodeId := WriteIf(d.nodeId > 0, d.nodeId),
      expireTime := WriteIf(expire.At?, if expire.At? then expire.t else ZeroTime),
      remark := WriteIf(d.remark != "", d.remark)))
  }

  /** gorm's Updates on a user row: every column the map holds takes its
      value, every other column keeps its own. */
  function ApplyUserUpdates(u: PppoeUser, w: UserWrites): (r: PppoeUser)
    ensures r.id == u.id && r.createdAt == u.createdAt
  {
    u.(updatedAt := After(w.updatedAt, u.updatedAt),
       username := After(w.username, u.username),
       password := After(w.password, u.password),
       realname := After(w.realname, u.realname),
       mobile := After(w.mobile, u.mobile),
       email := After(w.email, u.email),
       address := After(w.address, u.address),
       macAddr := After(w.macAddr, u.macAddr),
       ipAddr := After(w.ipAddr, u.ipAddr),
       ipv6Addr := After(w.ipv6Addr, u.ipv6Addr),
       delegatedIpv6Prefix := After(w.delegatedIpv6Prefix, u.delegatedIpv6Prefix),
       vlanid1 := After(w.vlanid1, u.vlanid1),
       vlanid2 := After(w.vlanid2, u.vlanid2),
       domain := After(w.domain, u.domain),
       status := After(w.status, u.status),
       profileId := After(w.profileId, u.profileId),
       nodeId := After(w.nodeId, u.nodeId),
       expireTime := After(w.expireTime, u.expireTime),
       remark := After(w.remark, u.remark))
  }

  /** The user row an update request asks for: a string field the request
      left empty keeps its value, as do profile_id and node_id when not
      positive, a VLAN id when negative, and the expiry when blank. */
  function UpdatedUser(u: PppoeUser, d: PppoeUser, expire: TimeInput, now: Time): PppoeUser
    requires !expire.Unparsable?
  {
    PppoeUser(
      id := u.id,
      nodeId := if d.nodeId > 0 then d.nodeId else u.nodeId,
      profileId := if d.profileId > 0 then d.profileId else u.profileId,
      username := if d.username != "" then d.username else u.username,
      password := if d.password != "" then d.password else u.password,
      realname := if d.realname != "" then d.realname else u.realname,
      mobile := if d.mobile != "" then d.mobile else u.mobile,
      email := if d.email != "" then d.email else u.email,
      address := if d.address != "" then d.address else u.address,
      macAddr := if d.macAddr != "" then d.macAddr else u.macAddr,
      ipAddr := if d.ipAddr != "" then d.ipAddr else u.ipAddr,
      ipv6Addr := if d.ipv6Addr != "" then d.ipv6Addr else u.ipv6Addr,
      delegatedIpv6Prefix := if d.delegatedIpv6Prefix != "" then d.delegatedIpv6Prefix else u.delegatedIpv6Prefix,
      vlanid1 := if d.vlanid1 >= 0 then d.vlanid1 else u.vlanid1,
      vlanid2 := if d.vlanid2 >= 0 then d.vlanid2 else u.vlanid2,
      domain := if d.domain != "" then d.domain else u.domain,
      status := if d.status != "" then d.status else u.status,
      expireTime := if expire.At? then expire.t else u.expireTime,
      remark := if d.remark != "" then d.remark else u.remark,
      createdAt := u.createdAt,
      updatedAt := now)
  }

  /** Applying the updates map writes exactly the row the request asks for. */
  lemma {:induction false} UserUpdateEffect(u: PppoeUser, d: PppoeUser, expire: TimeInput, now: Time)
    requires !expire.Unparsable?
    ensures ApplyUserUpdates(u, UserUpdates(d, expire, now).value) == UpdatedUser(u, d, expire, now)
  {
  }

  /** An update request with an empty password keeps the stored one. */
  lemma {:induction false} EmptyPasswordKeepsPassword(u: PppoeUser, d: PppoeUser, expire: TimeInput, now: Time)
    requires !expire.Unparsable? && d.password == ""
    ensures ApplyUserUpdates(u, UserUpdates(d, expire, now).value).password == u.password
  {
    UserUpdateEffect(u, d, expire, now);
  }

  // -------------------------------------------------------------- answers

  /** A user as the API shows it: everything but the password. */
  function Redacted(u: PppoeUser): (r: PppoeUser)
    ensures r.password == "" && r.(password := u.password) == u
  {
    u.(password := "")
  }

  /** The list handler blanks the password of every user it returns, in place. */
  method ClearPasswords(users: array<PppoeUser>)
    modifies users
    ensures forall i :: 0 <= i < users.Length ==> users[i] == Redacted(old(users[i]))
  {
    var i := 0;
    while i < users.Length
      invariant 0 <= i <= users.Length
      invariant forall k :: 0 <= k < i ==> users[k] == Redacted(old(users[k]))
      invariant forall k :: i <= k < users.Length ==> users[k] == old(users[k])
    {
      users[i] := users[i].(password := "");
      i := i + 1;
    }
  }
}
