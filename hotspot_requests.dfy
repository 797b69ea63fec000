// The request bodies of the hotspot profile and user endpoints and their
// conversion to rows (toHotspotProfile and toHotspotUser).
module HotspotRequests {
  import opened Api
  import Text
  import opened ParseInt
  import opened Loose
  import opened HotspotDomain

  /** The body of a profile create or update request. */
  datatype HotspotProfileRequest = HotspotProfileRequest(
    name: string,
    nodeId: AnyValue,
    status: AnyValue,
    authMode: string,
    sessionTimeout: int,
    idleTimeout: int,
    dailyLimit: int,
    monthlyLimit: int,
    upRate: int,
    downRate: int,
    upLimit: int,
    downLimit: int,
    totalLimit: int,
    addrPool: string,
    domain: string,
    welcomeUrl: string,
    logoutUrl: string,
    bindMac: AnyValue,
    maxDevices: int,
    remark: string)

  /** The body of a user create or update request. */
  datatype HotspotUserRequest = HotspotUserRequest(
    nodeId: AnyValue,
    profileId: AnyValue,
    username: string,
    password: string,
    realname: string,
    mobile: string,
    email: string,
    macAddr: string,
    ipAddr: string,
    expireTime: string,
    status: AnyValue,
    remark: string)

  /** toHotspotProfile: the name trimmed, node_id, status and bind_mac
      coerced, every other field copied; id and time stamps left zero. */
  function ToHotspotProfile(req: HotspotProfileRequest): (p: HotspotProfile)
    ensures p.name == Text.TrimSpace(req.name)
    ensures p.nodeId == CoerceId(req.nodeId) && p.status == CoerceStatus(req.status)
    ensures p.bindMac == CoerceFlag(req.bindMac)
    ensures p.id == 0 && p.createdAt == ZeroTime && p.updatedAt == ZeroTime
    ensures p.authMode == req.authMode && p.addrPool == req.addrPool && p.domain == req.domain
    ensures p.welcomeUrl == req.welcomeUrl && p.logoutUrl == req.logoutUrl && p.remark == req.remark
    ensures p.sessionTimeout == req.sessionTimeout && p.idleTimeout == req.idleTimeout
    ensures p.dailyLimit == req.dailyLimit && p.monthlyLimit == req.monthlyLimit
    ensures p.upRate == req.upRate && p.downRate == req.downRate
    ensures p.upLimit == req.upLimit && p.downLimit == req.downLimit && p.totalLimit == req.totalLimit
    ensures p.maxDevices == req.maxDevices
  {
    HotspotProfile(
      id := 0,
      nodeId := CoerceId(req.nodeId),
      name := Text.TrimSpace(req.name),
      status := CoerceStatus(req.status),
      authMode := req.authMode,
      sessionTimeout := req.sessionTimeout,
      idleTimeout := req.idleTimeout,
      dailyLimit := req.dailyLimit,
      monthlyLimit := req.monthlyLimit,
      upRate := req.upRate,
      downRate := req.downRate,
      upLimit := req.upLimit,
      downLimit := req.downLimit,
      totalLimit := req.totalLimit,
      addrPool := req.addrPool,
      domain := req.domain,
      welcomeUrl := req.welcomeUrl,
      logoutUrl := req.logoutUrl,
      bindMac := CoerceFlag(req.bindMac),
      maxDevices := req.maxDevices,
      remark := req.remark,
      createdAt := ZeroTime,
      updatedAt := ZeroTime)
  }

  /** toHotspotUser: the user name trimmed, profile_id, node_id and status
      coerced, every other field copied; id, expiry and time stamps left zero. */
  function ToHotspotUser(req: HotspotUserRequest): (u: HotspotUser)
    ensures u.username == Text.TrimSpace(req.username)
    ensures u.profileId == CoerceId(req.profileId) && u.nodeId == CoerceId(req.nodeId)
    ensures u.status == CoerceStatus(req.status)
    ensures u.id == 0 && u.expireTime == ZeroTime && u.createdAt == ZeroTime && u.updatedAt == ZeroTime
    ensures u.password == req.password && u.realname == req.realname && u.mobile == req.mobile
    ensures u.email == req.email && u.macAddr == req.macAddr && u.ipAddr == req.ipAddr && u.remark == req.remark
  {
    HotspotUser(
      id := 0,
      nodeId := CoerceId(req.nodeId),
      profileId := CoerceId(req.profileId),
      username := Text.TrimSpace(req.username),
      password := req.password,
      realname := req.realname,
      mobile := req.mobile,
      email := req.email,
      macAddr := req.macAddr,
      ipAddr := req.ipAddr,
      status := CoerceStatus(req.status),
      expireTime := ZeroTime,
      remark := req.remark,
      createdAt := ZeroTime,
      updatedAt := ZeroTime)
  }

  /** The request a client sends to describe profile `p` again: identifiers
      and the flag as JSON numbers, the status as a string. */
  function ProfileResubmission(p: HotspotProfile): HotspotProfileRequest {
    HotspotProfileRequest(
      p.name, JNumber(p.nodeId as real), JString(p.status), p.authMode, p.sessionTimeout, p.idleTimeout,
      p.dailyLimit, p.monthlyLimit, p.upRate, p.downRate, p.upLimit, p.downLimit, p.totalLimit, p.addrPool,
      p.domain, p.welcomeUrl, p.logoutUrl, JNumber(p.bindMac as real), p.maxDevices, p.remark)
  }

  /** The request a client sends to describe user `u` again, with the
      identifiers as JSON numbers or as decimal strings. */
  function UserResubmission(u: HotspotUser, idsAsStrings: bool): HotspotUserRequest {
    HotspotUserRequest(
      if idsAsStrings then JString(FormatInt(u.nodeId)) else JNumber(u.nodeId as real),
      if idsAsStrings then JString(FormatInt(u.profileId)) else JNumber(u.profileId as real),
      u.username, u.password, u.realname, u.mobile, u.email, u.macAddr, u.ipAddr, "", JString(u.status), u.remark)
  }

  /** Converting a profile request is idempotent: sending back what it
      converted to converts to the same profile. */
  lemma {:induction false} ToHotspotProfileIdempotent(req: HotspotProfileRequest)
    ensures ToHotspotProfile(ProfileResubmission(ToHotspotProfile(req))) == ToHotspotProfile(req)
  {
    var p := ToHotspotProfile(req);
    Text.TrimSpaceIdempotent(req.name);
    CoerceIdAgrees(p.nodeId);
    CoerceStatusIdempotent(req.status);
    CoerceFlagAgrees(p.bindMac);
  }

  /** Converting a user request is idempotent, in either JSON spelling of the
      identifiers. */
  lemma {:induction false} ToHotspotUserIdempotent(req: HotspotUserRequest, idsAsStrings: bool)
    ensures ToHotspotUser(UserResubmission(ToHotspotUser(req), idsAsStrings)) == ToHotspotUser(req)
  {
    var u := ToHotspotUser(req);
    var again := UserResubmission(u, idsAsStrings);
    Text.TrimSpaceIdempotent(req.username);
    CoerceIdAgrees(u.nodeId);
    CoerceIdAgrees(u.profileId);
    CoerceStatusIdempotent(req.status);
    assert Text.TrimSpace(again.username) == u.username;
    assert CoerceId(again.nodeId) == u.nodeId && CoerceId(again.profileId) == u.profileId;
    assert CoerceStatus(again.status) == u.status;
  }
}
