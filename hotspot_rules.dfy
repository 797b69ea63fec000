// The rules the hotspot handlers apply between converting a request and
// writing a row: the defaults of a new profile, the checks and the password
// rule of a new user, the updates maps of the two update handlers, and the
// password blanking of every user the API answers with.
module HotspotRules {
  import opened Api
  import opened Loose
  import opened HotspotDomain
  import Keyed

  // --------------------------------------------------------------- profiles

  /** The profile CreateHotspotProfile inserts: status "enabled" and auth
      mode "userpass" where the request left them empty, both time stamps
      now, every other field as requested. */
  function DefaultedProfile(p: HotspotProfile, now: Time): (r: HotspotProfile)
    ensures r.status != "" && r.authMode != ""
    ensures p.status != "" ==> r.status == p.status
    ensures p.authMode != "" ==> r.authMode == p.authMode
    ensures p.status == "" ==> r.status == Enabled
    ensures p.authMode == "" ==> r.authMode == AuthModeUserPass
    ensures r.createdAt == now && r.updatedAt == now
    ensures r.(status := p.status, authMode := p.authMode, createdAt := p.createdAt, updatedAt := p.updatedAt) == p
  {
    p.(status := if p.status == "" then Enabled else p.status,
       authMode := if p.authMode == "" then AuthModeUserPass else p.authMode,
       createdAt := now,
       updatedAt := now)
  }

  /** Filling in the defaults twice is filling them in once. */
  lemma {:induction false} DefaultedProfileIdempotent(p: HotspotProfile, now: Time)
    ensures DefaultedProfile(DefaultedProfile(p, now), now) == DefaultedProfile(p, now)
  {
  }

  /** The updates map of UpdateHotspotProfile, one field per column it may write. */
  datatype ProfileWrites = ProfileWrites(
    updatedAt: Write<Time>,
    name: Write<string>,
    status: Write<string>,
    authMode: Write<string>,
    sessionTimeout: Write<int>,
    idleTimeout: Write<int>,
    dailyLimit: Write<int>,
    monthlyLimit: Write<int>,
    upRate: Write<int>,
    downRate: Write<int>,
    upLimit: Write<int>,
    downLimit: Write<int>,
    totalLimit: Write<int>,
    addrPool: Write<string>,
    domain: Write<string>,
    welcomeUrl: Write<string>,
    logoutUrl: Write<string>,
    bindMac: Write<int>,
    maxDevices: Write<int>,
    remark: Write<string>,
    nodeId: Write<int>)

  /** The updates map of UpdateHotspotProfile for the converted request `d`:
      the string columns only when non-empty, the timers, limits and rates
      when not negative (so an omitted one is written as 0), bind_mac and
      max_devices always, node_id only when positive, and updated_at always. */
  function ProfileUpdates(d: HotspotProfile, now: Time): (w: ProfileWrites)
    ensures w.updatedAt == Some(now) && w.bindMac == Some(d.bindMac) && w.maxDevices == Some(d.maxDevices)
  {
    ProfileWrites(
      updatedAt := Some(now),
      name := WriteIf(d.name != "", d.name),
      status := WriteIf(d.status != "", d.status),
      authMode := WriteIf(d.authMode != "", d.authMode),
      sessionTimeout := WriteIf(d.sessionTimeout >= 0, d.sessionTimeout),
      idleTimeout := WriteIf(d.idleTimeout >= 0, d.idleTimeout),
      dailyLimit := WriteIf(d.dailyLimit >= 0, d.dailyLimit),
      monthlyLimit := WriteIf(d.monthlyLimit >= 0, d.monthlyLimit),
      upRate := WriteIf(d.upRate >= 0, d.upRate),
      downRate := WriteIf(d.downRate >= 0, d.downRate),
      upLimit := WriteIf(d.upLimit >= 0, d.upLimit),
      downLimit := WriteIf(d.downLimit >= 0, d.downLimit),
      totalLimit := WriteIf(d.totalLimit >= 0, d.totalLimit),
      addrPool := WriteIf(d.addrPool != "", d.addrPool),
      domain := WriteIf(d.domain != "", d.domain),
      welcomeUrl := WriteIf(d.welcomeUrl != "", d.welcomeUrl),
      logoutUrl := WriteIf(d.logoutUrl != "", d.logoutUrl),
      bindMac := Some(d.bindMac),
      maxDevices := Some(d.maxDevices),
      remark := WriteIf(d.remark != "", d.remark),
      nodeId := WriteIf(d.nodeId > 0, d.nodeId))
  }

  /** gorm's Updates on a profile row: every column the map holds takes its
      value, every other column keeps its own. */
  function ApplyProfileUpdates(p: HotspotProfile, w: ProfileWrites): (r: HotspotProfile)
    ensures r.id == p.id && r.createdAt == p.createdAt
  {
    p.(updatedAt := After(w.updatedAt, p.updatedAt),
       name := After(w.name, p.name),
       status := After(w.status, p.status),
       authMode := After(w.authMode, p.authMode),
       sessionTimeout := After(w.sessionTimeout, p.sessionTimeout),
       idleTimeout := After(w.idleTimeout, p.idleTimeout),
       dailyLimit := After(w.dailyLimit, p.dailyLimit),
       monthlyLimit := After(w.monthlyLimit, p.monthlyLimit),
       upRate := After(w.upRate, p.upRate),
       downRate := After(w.downRate, p.downRate),
       upLimit := After(w.upLimit, p.upLimit),
       downLimit := After(w.downLimit, p.downLimit),
       totalLimit := After(w.totalLimit, p.totalLimit),
       addrPool := After(w.addrPool, p.addrPool),
       domain := After(w.domain, p.domain),
       welcomeUrl := After(w.welcomeUrl, p.welcomeUrl),
       logoutUrl := After(w.logoutUrl, p.logoutUrl),
       bindMac := After(w.bindMac, p.bindMac),
       maxDevices := After(w.maxDevices, p.maxDevices),
       remark := After(w.remark, p.remark),
       nodeId := After(w.nodeId, p.nodeId))
  }

  /** The profile row an update request asks for: a string field the request
      left empty keeps its value, as does a negative timer, limit or rate and
      a node_id that is not positive; bind_mac and max_devices take the
      request's value, 0 when omitted. */
  function UpdatedProfile(p: HotspotProfile, d: HotspotProfile, now: Time): HotspotProfile {
    HotspotProfile(
      id := p.id,
      nodeId := if d.nodeId > 0 then d.nodeId else p.nodeId,
      name := if d.name != "" then d.name else p.name,
      status := if d.status != "" then d.status else p.status,
      authMode := if d.authMode != "" then d.authMode else p.authMode,
      sessionTimeout := if d.sessionTimeout >= 0 then d.sessionTimeout else p.sessionTimeout,
      idleTimeout := if d.idleTimeout >= 0 then d.idleTimeout else p.idleTimeout,
      dailyLimit := if d.dailyLimit >= 0 then d.dailyLimit else p.dailyLimit,
      monthlyLimit := if d.monthlyLimit >= 0 then d.monthlyLimit else p.monthlyLimit,
      upRate := if d.upRate >= 0 then d.upRate else p.upRate,
      downRate := if d.downRate >= 0 then d.downRate else p.downRate,
      upLimit := if d.upLimit >= 0 then d.upLimit else p.upLimit,
      downLimit := if d.downLimit >= 0 then d.downLimit else p.downLimit,
      totalLimit := if d.totalLimit >= 0 then d.totalLimit else p.totalLimit,
      addrPool := if d.addrPool != "" then d.addrPool else p.addrPool,
      domain := if d.domain != "" then d.domain else p.domain,
      welcomeUrl := if d.welcomeUrl != "" then d.welcomeUrl else p.welcomeUrl,
      logoutUrl := if d.logoutUrl != "" then d.logoutUrl else p.logoutUrl,
      bindMac := d.bindMac,
      maxDevices := d.maxDevices,
      remark := if d.remark != "" then d.remark else p.remark,
      createdAt := p.createdAt,
      updatedAt := now)
  }

  /** Applying the updates map writes exactly the row the request asks for. */
  lemma {:induction false} ProfileUpdateEffect(p: HotspotProfile, d: HotspotProfile, now: Time)
    ensures ApplyProfileUpdates(p, ProfileUpdates(d, now)) == UpdatedProfile(p, d, now)
  {
  }

  /** Sending a profile's own fields back as the update changes nothing but
      updated_at. */
  lemma {:induction false} ProfileSelfUpdate(p: HotspotProfile, now: Time)
    ensures ApplyProfileUpdates(p, ProfileUpdates(p, now)) == p.(updatedAt := now)
  {
    ProfileUpdateEffect(p, p, now);
  }

  /** Applying the same request twice (with the same clock) is applying it once. */
  lemma {:induction false} ProfileUpdateIdempotent(p: HotspotProfile, d: HotspotProfile, now: Time)
    ensures UpdatedProfile(UpdatedProfile(p, d, now), d, now) == UpdatedProfile(p, d, now)
  {
  }

  // ------------------------------------------------------------------ users

  /** Why CreateHotspotUser refuses the converted request `u`, in the order
      the handler checks: the profile must exist, the user name be free, the
      password be non-empty unless the profile authenticates by MAC address,
      and the expiry parse (`parsedExpire` is what the time parser made of
      it, None when it failed). */
  function CreateUserRejection(profiles: map<int, HotspotProfile>, users: map<int, HotspotUser>, u: HotspotUser,
                               parsedExpire: Option<Time>): (r: Option<ApiError>)
    ensures r.None? <==> u.profileId in profiles && !Keyed.Taken(users, UserName, u.username, None)
                         && (u.password != "" || profiles[u.profileId].authMode == AuthModeMac)
                         && parsedExpire.Some?
    ensures u.profileId !in profiles ==> r == Some(ProfileNotFound)
    ensures u.profileId in profiles && Keyed.Taken(users, UserName, u.username, None) ==> r == Some(UsernameExists)
    ensures r == Some(MissingPassword) <==> u.profileId in profiles && !Keyed.Taken(users, UserName, u.username, None)
                                            && u.password == "" && profiles[u.profileId].authMode != AuthModeMac
    ensures r == Some(InvalidExpireTime) <==> u.profileId in profiles && !Keyed.Taken(users, UserName, u.username, None)
                                              && (u.password != "" || profiles[u.profileId].authMode == AuthModeMac)
                                              && parsedExpire.None?
    ensures r.Some? ==> r.value in {ProfileNotFound, UsernameExists, MissingPassword, InvalidExpireTime}
  {
    if u.profileId !in profiles then Some(ProfileNotFound)
    else if Keyed.Taken(users, UserName, u.username, None) then Some(UsernameExists)
    else if u.password == "" && profiles[u.profileId].authMode != AuthModeMac then Some(MissingPassword)
    else if parsedExpire.None? then Some(InvalidExpireTime)
    else None
  }

  /** The user CreateHotspotUser inserts: under a MAC-authenticated profile an
      empty password becomes the user name (the MAC address); status
      "enabled" when empty; the new id, expiry and time stamps set; every
      other field as requested. */
  function CreatedUser(u: HotspotUser, profile: HotspotProfile, id: int, expire: Time, now: Time): (r: HotspotUser)
    ensures r.password == (if u.password == "" && profile.authMode == AuthModeMac then u.username else u.password)
    ensures r.status == (if u.status == "" then Enabled else u.status)
    ensures r.id == id && r.expireTime == expire && r.createdAt == now && r.updatedAt == now
    ensures r.(password := u.password, status := u.status, id := u.id, expireTime := u.expireTime,
               createdAt := u.createdAt, updatedAt := u.updatedAt) == u
  {
    u.(id := id,
       password := if u.password == "" && profile.authMode == AuthModeMac then u.username else u.password,
       expireTime := expire,
       status := if u.status == "" then Enabled else u.status,
       createdAt := now,
       updatedAt := now)
  }

  /** A user that passes the checks is stored with a password: its own, or
      under MAC authentication its user name, which is empty only when the
      trimmed user name is. */
  lemma {:induction false} CreatedUserHasPassword(profiles: map<int, HotspotProfile>, users: map<int, HotspotUser>,
                                                  u: HotspotUser, parsedExpire: Option<Time>, id: int, now: Time)
    requires CreateUserRejection(profiles, users, u, parsedExpire).None?
    ensures var r := CreatedUser(u, profiles[u.profileId], id, parsedExpire.value, now);
            r.password == "" ==> u.username == "" && profiles[u.profileId].authMode == AuthModeMac
    ensures CreatedUser(u, profiles[u.profileId], id, parsedExpire.value, now).status != ""
  {
  }

  /** The updates map of UpdateHotspotUser, one field per column it may write. */
  datatype UserWrites = UserWrites(
    updatedAt: Write<Time>,
    username: Write<string>,
    password: Write<string>,
    realname: Write<string>,
    mobile: Write<string>,
    email: Write<string>,
    macAddr: Write<string>,
    ipAddr: Write<string>,
    status: Write<string>,
    profileId: Write<int>,
    nodeId: Write<int>,
    expireTime: Write<Time>,
    remark: Write<string>)

  /** The updates map of UpdateHotspotUser for the converted request `d`: the
      string columns (the password included) only when non-empty, profile_id
      and node_id only when positive, the expiry only when the request
      carried one, and updated_at always; an expiry that does not parse stops
      it with INVALID_EXPIRE_TIME. */
  function UserUpdates(d: HotspotUser, expire: TimeInput, now: Time): (r: Result<UserWrites, ApiError>)
    ensures r.Err? <==> expire.Unparsable?
    ensures r.Err? ==> r.error == InvalidExpireTime
    ensures r.Ok? ==> r.value.updatedAt == Some(now)
  {
    if expire.Unparsable? then Err(InvalidExpireTime)
    else Ok(UserWrites(
      updatedAt := Some(now),
      username := WriteIf(d.username != "", d.username),
      password := WriteIf(d.password != "", d.password),
      realname := WriteIf(d.realname != "", d.realname),
      mobile := WriteIf(d.mobile != "", d.mobile),
      email := WriteIf(d.email != "", d.email),
      macAddr := WriteIf(d.macAddr != "", d.macAddr),
      ipAddr := WriteIf(d.ipAddr != "", d.ipAddr),
      status := WriteIf(d.status != "", d.status),
      profileId := WriteIf(d.profileId > 0, d.profileId),
      nodeId := WriteIf(d.nodeId > 0, d.nodeId),
      expireTime := WriteIf(expire.At?, if expire.At? then expire.t else ZeroTime),
      remark := WriteIf(d.remark != "", d.remark)))
  }

  /** gorm's Updates on a user row: every column the map holds takes its
      value, every other column keeps its own. */
  function ApplyUserUpdates(u: HotspotUser, w: UserWrites): (r: HotspotUser)
    ensures r.id == u.id && r.createdAt == u.createdAt
  {
    u.(updatedAt := After(w.updatedAt, u.updatedAt),
       username := After(w.username, u.username),
       password := After(w.password, u.password),
       realname := After(w.realname, u.realname),
       mobile := After(w.mobile, u.mobile),
       email := After(w.email, u.email),
       macAddr := After(w.macAddr, u.macAddr),
       ipAddr := After(w.ipAddr, u.ipAddr),
       status := After(w.status, u.status),
       profileId := After(w.profileId, u.profileId),
       nodeId := After(w.nodeId, u.nodeId),
       expireTime := After(w.expireTime, u.expireTime),
       remark := After(w.remark, u.remark))
  }

  /** The user row an update request asks for: a string field the request
      left empty keeps its value, as do profile_id and node_id when not
      positive and the expiry when blank. */
  function UpdatedUser(u: HotspotUser, d: HotspotUser, expire: TimeInput, now: Time): HotspotUser
    requires !expire.Unparsable?
  {
    HotspotUser(
      id := u.id,
      nodeId := if d.nodeId > 0 then d.nodeId else u.nodeId,
      profileId := if d.profileId > 0 then d.profileId else u.profileId,
      username := if d.username != "" then d.username else u.username,
      password := if d.password != "" then d.password else u.password,
      realname := if d.realname != "" then d.realname else u.realname,
      mobile := if d.mobile != "" then d.mobile else u.mobile,
      email := if d.email != "" then d.email else u.email,
      macAddr := if d.macAddr != "" then d.macAddr else u.macAddr,
      ipAddr := if d.ipAddr != "" then d.ipAddr else u.ipAddr,
      status := if d.status != "" then d.status else u.status,
      expireTime := if expire.At? then expire.t else u.expireTime,
      remark := if d.remark != "" then d.remark else u.remark,
      createdAt := u.createdAt,
      updatedAt := now)
  }

  /** Applying the updates map writes exactly the row the request asks for. */
  lemma {:induction false} UserUpdateEffect(u: HotspotUser, d: HotspotUser, expire: TimeInput, now: Time)
    requires !expire.Unparsable?
    ensures ApplyUserUpdates(u, UserUpdates(d, expire, now).value) == UpdatedUser(u, d, expire, now)
  {
  }

  /** An update request with an empty password keeps the stored one. */
  lemma {:induction false} EmptyPasswordKeepsPassword(u: HotspotUser, d: HotspotUser, expire: TimeInput, now: Time)
    requires !expire.Unparsable? && d.password == ""
    ensures ApplyUserUpdates(u, UserUpdates(d, expire, now).value).password == u.password
  {
    UserUpdateEffect(u, d, expire, now);
  }

  // -------------------------------------------------------------- answers

  /** A user as the API shows it: everything but the password. */
  function Redacted(u: HotspotUser): (r: HotspotUser)
    ensures r.password == "" && r.(password := u.password) == u
  {
    u.(password := "")
  }

  /** The list handler blanks the password of every user it returns, in place. */
  method ClearPasswords(users: array<HotspotUser>)
    modifies users
    ensures forall i :: 0 <= i < users.Length ==> users[i] == Redacted(old(users[i]))
  {
    var i := 0;
    while i < users.Length
      invariant 0 <= i <= users.Length
      invariant forall k :: 0 <= k < i ==> users[k] == Redacted(old(users[k]))
      invariant forall k :: i <= k < users.Length ==> users[k] == old(users[k])
    {
      users[i] := users[i].(password := "");
      i := i + 1;
    }
  }
}
