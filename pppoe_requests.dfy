// The request bodies of the PPPoE profile and user endpoints and their
// conversion to rows (toPppoeProfile and toPppoeUser).
module PppoeRequests {
  import opened Api
  import Text
  import opened ParseInt
  import opened Loose
  import opened PppoeDomain

  /** The body of a profile create or update request. */
  datatype PppoeProfileRequest = PppoeProfileRequest(
    name: string,
    nodeId: AnyValue,
    status: AnyValue,
    addrPool: string,
    ipv6PrefixPool: string,
    ipv6AddrPool: string,
    acName: string,
    serviceName: string,
    sessionTimeout: int,
    idleTimeout: int,
    interimInterval: int,
    upRate: int,
    downRate: int,
    upBurstRate: int,
    downBurstRate: int,
    upBurstSize: int,
    downBurstSize: int,
    vlanid1: int,
    vlanid2: int,
    pvcVpi: int,
    pvcVci: int,
    domain: string,
    bindMac: AnyValue,
    bindVlan: AnyValue,
    activeNum: int,
    priority: int,
    remark: string)

  /** The body of a user create or update request. */
  datatype PppoeUserRequest = PppoeUserRequest(
    nodeId: AnyValue,
    profileId: AnyValue,
    username: string,
    password: string,
    realname: string,
    mobile: string,
    email: string,
    address: string,
    macAddr: string,
    ipAddr: string,
    ipv6Addr: string,
    delegatedIpv6Prefix: string,
    vlanid1: int,
    vlanid2: int,
    domain: string,
    expireTime: string,
    status: AnyValue,
    remark: string)

  /** toPppoeProfile: the name trimmed, node_id, status and the two bind flags
      coerced, every other field copied; id and time stamps left zero. */
  function ToPppoeProfile(req: PppoeProfileRequest): (p: PppoeProfile)
    ensures p.name == Text.TrimSpace(req.name)
    ensures p.nodeId == CoerceId(req.nodeId) && p.status == CoerceStatus(req.status)
    ensures p.bindMac == CoerceFlag(req.bindMac) && p.bindVlan == CoerceFlag(req.bindVlan)
    ensures p.id == 0 && p.createdAt == ZeroTime && p.updatedAt == ZeroTime
    ensures p.addrPool == req.addrPool && p.ipv6PrefixPool == req.ipv6PrefixPool && p.ipv6AddrPool == req.ipv6AddrPool
    ensures p.acName == req.acName && p.serviceName == req.serviceName && p.domain == req.domain && p.remark == req.remark
    ensures p.sessionTimeout == req.sessionTimeout && p.idleTimeout == req.idleTimeout
    ensures p.interimInterval == req.interimInterval
    ensures p.upRate == req.upRate && p.downRate == req.downRate
    ensures p.upBurstRate == req.upBurstRate && p.downBurstRate == req.downBurstRate
    ensures p.upBurstSize == req.upBurstSize && p.downBurstSize == req.downBurstSize
    ensures p.vlanid1 == req.vlanid1 && p.vlanid2 == req.vlanid2 && p.pvcVpi == req.pvcVpi && p.pvcVci == req.pvcVci
    ensures p.activeNum == req.activeNum && p.priority == req.priority
  {
    PppoeProfile(
      id := 0,
      nodeId := CoerceId(req.nodeId),
      name := Text.TrimSpace(req.name),
      status := CoerceStatus(req.status),
      addrPool := req.addrPool,
      ipv6PrefixPool := req.ipv6PrefixPool,
      ipv6AddrPool := req.ipv6AddrPool,
      acName := req.acName,
      serviceName := req.serviceName,
      sessionTimeout := req.sessionTimeout,
      idleTimeout := req.idleTimeout,
      interimInterval := req.interimInterval,
      upRate := req.upRate,
      downRate := req.downRate,
      upBurstRate := req.upBurstRate,
      downBurstRate := req.downBurstRate,
      upBurstSize := req.upBurstSize,
      downBurstSize := req.downBurstSize,
      vlanid1 := req.vlanid1,
      vlanid2 := req.vlanid2,
      pvcVpi := req.pvcVpi,
      pvcVci := req.pvcVci,
      domain := req.domain,
      bindMac := CoerceFlag(req.bindMac),
      bindVlan := CoerceFlag(req.bindVlan),
      activeNum := req.activeNum,
      priority := req.priority,
      remark := req.remark,
      createdAt := ZeroTime,
      updatedAt := ZeroTime)
  }

  /** toPppoeUser: the user name trimmed, profile_id, node_id and status
      coerced, every other field copied; id, expiry and time stamps left zero. */
  function ToPppoeUser(req: PppoeUserRequest): (u: PppoeUser)
    ensures u.username == Text.TrimSpace(req.username)
    ensures u.profileId == CoerceId(req.profileId) && u.nodeId == CoerceId(req.nodeId)
    ensures u.status == CoerceStatus(req.status)
    ensures u.id == 0 && u.expireTime == ZeroTime && u.createdAt == ZeroTime && u.updatedAt == ZeroTime
    ensures u.password == req.password && u.realname == req.realname && u.mobile == req.mobile
    ensures u.email == req.email && u.address == req.address && u.macAddr == req.macAddr
    ensures u.ipAddr == req.ipAddr && u.ipv6Addr == req.ipv6Addr && u.delegatedIpv6Prefix == req.delegatedIpv6Prefix
    ensures u.vlanid1 == req.vlanid1 && u.vlanid2 == req.vlanid2 && u.domain == req.domain && u.remark == req.remark
  {
    PppoeUser(
      id := 0,
      nodeId := CoerceId(req.nodeId),
      profileId := CoerceId(req.profileId),
      username := Text.TrimSpace(req.username),
      password := req.password,
      realname := req.realname,
      mobile := req.mobile,
      email := req.email,
      address := req.address,
      macAddr := req.macAddr,
      ipAddr := req.ipAddr,
      ipv6Addr := req.ipv6Addr,
      delegatedIpv6Prefix := req.delegatedIpv6Prefix,
      vlanid1 := req.vlanid1,
      vlanid2 := req.vlanid2,
      domain := req.domain,
      status := CoerceStatus(req.status),
      expireTime := ZeroTime,
      remark := req.remark,
      createdAt := ZeroTime,
      updatedAt := ZeroTime)
  }

  /** The request a client sends to describe profile `p` again: identifiers
      and flags as JSON numbers, the status as a string. */
  function ProfileResubmission(p: PppoeProfile): PppoeProfileRequest {
    PppoeProfileRequest(
      p.name, JNumber(p.nodeId as real), JString(p.status), p.addrPool, p.ipv6PrefixPool, p.ipv6AddrPool,
      p.acName, p.serviceName, p.sessionTimeout, p.idleTimeout, p.interimInterval, p.upRate, p.downRate,
      p.upBurstRate, p.downBurstRate, p.upBurstSize, p.downBurstSize, p.vlanid1, p.vlanid2, p.pvcVpi, p.pvcVci,
      p.domain, JNumber(p.bindMac as real), JNumber(p.bindVlan as real), p.activeNum, p.priority, p.remark)
  }

  /** The request a client sends to describe user `u` again, with the
      identifiers as JSON numbers or as decimal strings. */
  function UserResubmission(u: PppoeUser, idsAsStrings: bool): PppoeUserRequest {
    PppoeUserRequest(
      if idsAsStrings then JString(FormatInt(u.nodeId)) else JNumber(u.nodeId as real),
      if idsAsStrings then JString(FormatInt(u.profileId)) else JNumber(u.profileId as real),
      u.username, u.password, u.realname, u.mobile, u.email, u.address, u.macAddr, u.ipAddr, u.ipv6Addr,
      u.delegatedIpv6Prefix, u.vlanid1, u.vlanid2, u.domain, "", JString(u.status), u.remark)
  }

  /** Converting a profile request is idempotent: sending back what it
      converted to converts to the same profile. */
  lemma {:induction false} ToPppoeProfileIdempotent(req: PppoeProfileRequest)
    ensures ToPppoeProfile(ProfileResubmission(ToPppoeProfile(req))) == ToPppoeProfile(req)
  {
    var p := ToPppoeProfile(req);
    Text.TrimSpaceIdempotent(req.name);
    CoerceIdAgrees(p.nodeId);
    CoerceStatusIdempotent(req.status);
    CoerceFlagAgrees(p.bindMac);
    CoerceFlagAgrees(p.bindVlan);
  }

  /** Converting a user request is idempotent, in either JSON spelling of the
      identifiers. */
  lemma {:induction false} ToPppoeUserIdempotent(req: PppoeUserRequest, idsAsStrings: bool)
    ensures ToPppoeUser(UserResubmission(ToPppoeUser(req), idsAsStrings)) == ToPppoeUser(req)
  {
    var u := ToPppoeUser(req);
    var again := UserResubmission(u, idsAsStrings);
    Text.TrimSpaceIdempotent(req.username);
    CoerceIdAgrees(u.nodeId);
    CoerceIdAgrees(u.profileId);
    CoerceStatusIdempotent(req.status);
    assert Text.TrimSpace(again.username) == u.username;
    assert CoerceId(again.nodeId) == u.nodeId && CoerceId(again.profileId) == u.profileId;
    assert CoerceStatus(again.status) == u.status;
  }
}
