// The decisions the voucher handlers take before they write: the checks of
// a batch creation, the codes and rows it stages, the ordered guard chain of
// a redemption and the account it creates, and the partial update of a batch.
module VoucherRules {
  import opened Api
  import Text
  import opened VoucherDomain
  import opened VoucherTables
  import opened VoucherCodes

  // ---------------------------------------------------------------- issue

  /** The checks CreateVoucherBatch runs before it opens its transaction, in
      its order: the profile, the name, the expiry time. */
  function CreatePrecheck(profiles: map<int, RadiusProfile>, batches: map<int, VoucherBatch>,
                          b: VoucherBatch, parsedExpire: Option<Time>): (r: Option<ApiError>)
    ensures r.None? <==> b.profileId in profiles && !NameTaken(batches, b.name, None) && parsedExpire.Some?
    ensures b.profileId !in profiles ==> r == Some(ProfileNotFound)
    ensures b.profileId in profiles && NameTaken(batches, b.name, None) ==> r == Some(NameExists)
    ensures r.Some? ==> r.value in {ProfileNotFound, NameExists, InvalidExpireTime}
  {
    if b.profileId !in profiles then Some(ProfileNotFound)
    else if NameTaken(batches, b.name, None) then Some(NameExists)
    else if parsedExpire.None? then Some(InvalidExpireTime)
    else None
  }

  /** The batch row CreateVoucherBatch inserts: its id, its expiry, the default
      status and the time stamps set on the normalised request. */
  function StampedBatch(b: VoucherBatch, id: int, expire: Time, now: Time): (r: VoucherBatch)
    ensures r.id == id && r.expireTime == expire && r.createdAt == now && r.updatedAt == now
    ensures r.status == (if b.status == "" then BatchEnabled else b.status)
    ensures r.(id := b.id, expireTime := b.expireTime, status := b.status, createdAt := b.createdAt, updatedAt := b.updatedAt) == b
  {
    b.(id := id, expireTime := expire, status := if b.status == "" then BatchEnabled else b.status,
       createdAt := now, updatedAt := now)
  }

  /** How many times the generation loop runs for TotalCount; None when
      TotalCount is negative, where `make` panics on the negative capacity
      before the loop starts. */
  function IssueCount(totalCount: int): (n: Option<nat>)
    ensures n.None? <==> totalCount < 0
    ensures n.Some? ==> n.value == totalCount
  {
    if totalCount < 0 then None else Some(totalCount)
  }

  /** The codes of the first n loop rounds, round i drawing `draws(i)`; none
      when a draw fails. */
  function IssueCodes(prefix: string, length: nat, draws: nat -> RandomRead, n: nat): (r: Option<seq<string>>)
    ensures r.None? <==> exists i :: 0 <= i < n && draws(i).ReadFailed?
    ensures r.Some? ==> |r.value| == n
    ensures r.Some? ==> forall i :: 0 <= i < n ==> GenerateVoucherCode(prefix, length, draws(i)) == Some(r.value[i])
    decreases n
  {
    if n == 0 then Some([])
    else
      var before := IssueCodes(prefix, length, draws, n - 1);
      var code := GenerateVoucherCode(prefix, length, draws(n - 1));
      if before.None? || code.None? then None else Some(before.value + [code.value])
  }

  /** Every issued code is the upper-cased prefix followed by `length` upper-case hex digits. */
  lemma {:induction false} IssuedCodesShape(prefix: string, length: nat, draws: nat -> RandomRead, n: nat)
    requires IssueCodes(prefix, length, draws, n).Some?
    ensures var codes := IssueCodes(prefix, length, draws, n).value;
            forall i :: 0 <= i < n ==>
              |codes[i]| == |prefix| + length && codes[i][..|prefix|] == Text.ToUpper(prefix)
              && forall k :: |prefix| <= k < |codes[i]| ==> IsUpperHex(codes[i][k])
  {
    var codes := IssueCodes(prefix, length, draws, n).value;
    forall i | 0 <= i < n
      ensures |codes[i]| == |prefix| + length && codes[i][..|prefix|] == Text.ToUpper(prefix)
      ensures forall k :: |prefix| <= k < |codes[i]| ==> IsUpperHex(codes[i][k])
    {
      assert GenerateVoucherCode(prefix, length, draws(i)) == Some(codes[i]);
    }
  }

  /** The voucher rows the loop stages, one per code, before insertion gives them ids. */
  function Stage(batch: VoucherBatch, codes: seq<string>, now: Time): (r: seq<Voucher>)
    ensures |r| == |codes|
    ensures forall k :: 0 <= k < |codes| ==> r[k] == IssuedVoucher(batch, 0, codes[k], now)
  {
    seq(|codes|, k requires 0 <= k < |codes| => IssuedVoucher(batch, 0, codes[k], now))
  }

  /** The rows CreateInBatches inserts: the staged rows under consecutive ids from firstId. */
  function Inserted(staged: seq<Voucher>, firstId: int): (r: map<int, Voucher>)
    ensures forall id :: id in r <==> firstId <= id < firstId + |staged|
    ensures forall id :: id in r ==> r[id] == staged[id - firstId].(id := id)
  {
    map id | firstId <= id < firstId + |staged| :: InsertedRow(staged, firstId, id)
  }

  /** The staged row that insertion stores under `id`. */
  function InsertedRow(staged: seq<Voucher>, firstId: int, id: int): Voucher
    requires firstId <= id < firstId + |staged|
  {
    staged[id - firstId].(id := id)
  }

  /** The insert breaks the unique index on code: two staged rows share a
      code, or a staged row repeats a stored one. */
  predicate CodesClash(existing: map<int, Voucher>, staged: seq<Voucher>) {
    (exists i, j :: 0 <= i < j < |staged| && staged[i].code == staged[j].code)
    || (exists i, id :: 0 <= i < |staged| && id in existing && staged[i].code == existing[id].code)
  }

  /** An insert that does not clash leaves the codes unique. */
  lemma {:induction false} InsertKeepsCodesUnique(existing: map<int, Voucher>, staged: seq<Voucher>, firstId: int)
    requires UniqueCodes(existing) && !CodesClash(existing, staged)
    requires forall id :: id in existing ==> id < firstId
    ensures UniqueCodes(existing + Inserted(staged, firstId))
  {
    var added := Inserted(staged, firstId);
    var all := existing + added;
    forall i, j | i in all && j in all && i != j
      ensures all[i].code != all[j].code
    {
      if i in added && j in added {
        var a, b := i - firstId, j - firstId;
        assert all[i] == staged[a].(id := i) && all[j] == staged[b].(id := j);
        if a < b {
          assert staged[a].code != staged[b].code;
        } else {
          assert staged[b].code != staged[a].code;
        }
      } else if i in added {
        assert all[i] == staged[i - firstId].(id := i) && all[j] == existing[j];
        assert staged[i - firstId].code != existing[j].code;
      } else if j in added {
        assert all[j] == staged[j - firstId].(id := j) && all[i] == existing[i];
        assert staged[j - firstId].code != existing[i].code;
      } else {
        assert all[i] == existing[i] && all[j] == existing[j];
      }
    }
  }

  // ---------------------------------------------------------------- redeem

  /** The body of a redemption request. */
  datatype RedeemVoucherRequest = RedeemVoucherRequest(
    code: string,
    password: string,
    username: string,
    password2: string,
    realname: string,
    mobile: string,
    email: string)

  /** A voucher without a password accepts any; one with a password wants it exactly. */
  predicate PasswordAccepted(v: Voucher, supplied: string) {
    v.password == "" || v.password == supplied
  }

  /** The voucher's own expiry lies strictly before now; no expiry never expires. */
  predicate HasExpired(v: Voucher, now: Time) {
    v.expireTime.Some? && v.expireTime.value < now
  }

  /** A missing batch row does not block; a present one must be enabled. */
  predicate BatchAllows(batch: Option<VoucherBatch>) {
    batch.None? || batch.value.status == BatchEnabled
  }

  /** The guard chain of RedeemVoucher once the code is found, in its order:
      status, password, expiry, batch, user name, profile. */
  function RedeemRejection(v: Voucher, batch: Option<VoucherBatch>, usernameTaken: bool, profileFound: bool,
                           password: string, now: Time): (r: Option<ApiError>)
    ensures r.None? <==> v.status == Available && PasswordAccepted(v, password) && !HasExpired(v, now)
                         && BatchAllows(batch) && !usernameTaken && profileFound
    ensures v.status != Available ==> r == Some(VoucherNotAvailable(StatusName(v.status)))
    ensures r == Some(InvalidPassword) <==> v.status == Available && !PasswordAccepted(v, password)
    ensures r == Some(VoucherExpired) <==> v.status == Available && PasswordAccepted(v, password) && HasExpired(v, now)
    ensures r == Some(BatchDisabled) <==> v.status == Available && PasswordAccepted(v, password) && !HasExpired(v, now)
                                          && !BatchAllows(batch)
  {
    if v.status != Available then Some(VoucherNotAvailable(StatusName(v.status)))
    else if !PasswordAccepted(v, password) then Some(InvalidPassword)
    else if HasExpired(v, now) then Some(VoucherExpired)
    else if !BatchAllows(batch) then Some(BatchDisabled)
    else if usernameTaken then Some(UsernameExists)
    else if !profileFound then Some(ProfileNotFound)
    else None
  }

  /** A redeemed voucher is rejected as not available ("used"), whatever else
      a second request brings: a code is consumed once. */
  lemma {:induction false} RedeemedVoucherRejected(v: Voucher, userId: int, redeemedAt: Time, batch: Option<VoucherBatch>,
                                                   usernameTaken: bool, profileFound: bool, password: string, now: Time)
    ensures RedeemRejection(RedeemedVoucher(v, userId, redeemedAt), batch, usernameTaken, profileFound, password, now)
            == Some(VoucherNotAvailable("used"))
  {
  }

  /** An expired voucher is rejected as not available ("expired") from then on. */
  lemma {:induction false} ExpiredVoucherRejected(v: Voucher, at: Time, batch: Option<VoucherBatch>,
                                                  usernameTaken: bool, profileFound: bool, password: string, now: Time)
    ensures RedeemRejection(v.(status := Expired, updatedAt := at), batch, usernameTaken, profileFound, password, now)
            == Some(VoucherNotAvailable("expired"))
  {
  }

  /** The profile fields a new account copies. */
  predicate CopiesProfile(u: RadiusUser, p: RadiusProfile) {
    u.addrPool == p.addrPool && u.activeNum == p.activeNum && u.upRate == p.upRate && u.downRate == p.downRate
    && u.domain == p.domain && u.bindMac == p.bindMac && u.bindVlan == p.bindVlan
  }

  /** The account RedeemVoucher creates. */
  function NewAccount(id: int, req: RedeemVoucherRequest, v: Voucher, p: RadiusProfile, expire: Time, now: Time): (u: RadiusUser)
    ensures u.id == id && u.profileId == v.profileId && u.status == "enabled" && u.expireTime == expire
    ensures u.username == Text.TrimSpace(req.username) && u.password == req.password2
    ensures u.realname == req.realname && u.mobile == req.mobile && u.email == req.email
    ensures CopiesProfile(u, p)
  {
    RadiusUser(
      id := id,
      profileId := v.profileId,
      username := Text.TrimSpace(req.username),
      password := req.password2,
      realname := req.realname,
      mobile := req.mobile,
      email := req.email,
      addrPool := p.addrPool,
      activeNum := p.activeNum,
      upRate := p.upRate,
      downRate := p.downRate,
      domain := p.domain,
      bindMac := p.bindMac,
      bindVlan := p.bindVlan,
      status := "enabled",
      expireTime := expire,
      createdAt := now,
      updatedAt := now)
  }

  /** The user name check compares the name as sent while the account stores it
      trimmed: a name that differs from a stored one only by surrounding blanks
      passes the check. */
  lemma {:induction false} PaddedUsernamePassesCheck(users: map<int, RadiusUser>, id: int)
    requires forall k :: k in users ==> users[k].username == [] || !Text.IsSpace(users[k].username[0])
    requires id in users && users[id].username != "" && !Text.IsSpace(users[id].username[|users[id].username| - 1])
    ensures var padded := " " + users[id].username;
            !UsernameTaken(users, padded) && UsernameTaken(users, Text.TrimSpace(padded))
  {
    var name := users[id].username;
    var padded := " " + name;
    assert padded[1..] == name;
    assert Text.TrimLeft(padded) == Text.TrimLeft(name);
    Text.TrimSpaceKeepsTrimmed(name);
    forall k | k in users
      ensures users[k].username != padded
    {
      if users[k].username != [] {
        assert users[k].username[0] != padded[0];
      }
    }
  }

  // ---------------------------------------------------------------- update

  /** The updates map of UpdateVoucherBatch, one field per column it may write. */
  datatype BatchWrites = BatchWrites(
    name: Write<string>,
    nodeId: Write<int>,
    profileId: Write<int>,
    status: Write<string>,
    validDays: Write<int>,
    remark: Write<string>,
    expireTime: Write<Time>,
    updatedAt: Write<Time>)

  /** The updates map of UpdateVoucherBatch for the normalised request
      `data`: strings only when non-empty, identifiers and ValidDays only
      when positive, the expiry only when the request carried one, and
      updated_at always; an expiry that does not parse stops it with
      INVALID_EXPIRE_TIME. */
  function BatchUpdates(data: VoucherBatch, expire: TimeInput, now: Time): (r: Result<BatchWrites, ApiError>)
    ensures r.Err? <==> expire.Unparsable?
    ensures r.Err? ==> r.error == InvalidExpireTime
    ensures r.Ok? ==> r.value.updatedAt == Some(now)
  {
    if expire.Unparsable? then Err(InvalidExpireTime)
    else Ok(BatchWrites(
      name := WriteIf(data.name != "", data.name),
      nodeId := WriteIf(data.nodeId > 0, data.nodeId),
      profileId := WriteIf(data.profileId > 0, data.profileId),
      status := WriteIf(data.status != "", data.status),
      validDays := WriteIf(data.validDays > 0, data.validDays),
      remark := WriteIf(data.remark != "", data.remark),
      expireTime := WriteIf(expire.At?, if expire.At? then expire.t else ZeroTime),
      updatedAt := Some(now)))
  }

  /** gorm's Updates on a batch row: every column the map holds takes its
      value, every other column keeps its own. */
  function ApplyBatchUpdates(b: VoucherBatch, w: BatchWrites): (r: VoucherBatch)
    ensures r.id == b.id && r.totalCount == b.totalCount && r.usedCount == b.usedCount
    ensures r.prefix == b.prefix && r.codeLength == b.codeLength && r.createdAt == b.createdAt
  {
    b.(name := After(w.name, b.name),
       nodeId := After(w.nodeId, b.nodeId),
       profileId := After(w.profileId, b.profileId),
       status := After(w.status, b.status),
       validDays := After(w.validDays, b.validDays),
       remark := After(w.remark, b.remark),
       expireTime := After(w.expireTime, b.expireTime),
       updatedAt := After(w.updatedAt, b.updatedAt))
  }

  /** The batch row a partial update asks for: each field the request left
      empty (or not positive) keeps its value, each other takes the request's,
      and updated_at becomes now. */
  function UpdatedBatch(b: VoucherBatch, data: VoucherBatch, expire: TimeInput, now: Time): VoucherBatch {
    b.(name := if data.name != "" then data.name else b.name,
       nodeId := if data.nodeId > 0 then data.nodeId else b.nodeId,
       profileId := if data.profileId > 0 then data.profileId else b.profileId,
       status := if data.status != "" then data.status else b.status,
       validDays := if data.validDays > 0 then data.validDays else b.validDays,
       remark := if data.remark != "" then data.remark else b.remark,
       expireTime := if expire.At? then expire.t else b.expireTime,
       updatedAt := now)
  }

  /** Applying the updates map writes exactly the row the request asks for. */
  lemma {:induction false} BatchUpdateEffect(b: VoucherBatch, data: VoucherBatch, expire: TimeInput, now: Time)
    requires !expire.Unparsable?
    ensures ApplyBatchUpdates(b, BatchUpdates(data, expire, now).value) == UpdatedBatch(b, data, expire, now)
  {
  }

  /** Moving a batch's expire_time does not reach the vouchers it has already
      issued: they keep the copy made at issue. Redemption then tests that old
      time, and an account redeemed with ValidDays 0 is given it, not the
      batch's new expire_time. */
  lemma {:induction false} BatchExpiryUpdateKeepsVoucherExpiry(b: VoucherBatch, data: VoucherBatch, expire: TimeInput, now: Time,
                                                               id: int, code: string, issued: Time, redeemAt: Time,
                                                               addDays: (Time, int) -> Time)
    requires b.validDays == 0 && data.validDays <= 0 && expire.At? && expire.t != b.expireTime
    ensures var after := UpdatedBatch(b, data, expire, now);
            var v := IssuedVoucher(b, id, code, issued);
            after.expireTime == expire.t && after.validDays == 0
            && (HasExpired(v, redeemAt) <==> b.expireTime < redeemAt)
            && AccountExpiry(redeemAt, after.validDays, v.expireTime, addDays) == b.expireTime
            && AccountExpiry(redeemAt, after.validDays, v.expireTime, addDays) != after.expireTime
  {
  }
}
