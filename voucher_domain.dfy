// The voucher records of the domain package (the voucher_batch and voucher
// tables), their status words, and the two RADIUS records a redemption reads
// and writes: the billing profile and the user account.
module VoucherDomain {
  import opened Api

  /** The four voucher status words. */
  datatype VoucherStatus = Available | Used | Expired | Disabled

  /** The word stored in the status column. */
  function StatusName(s: VoucherStatus): (r: string)
    ensures |r| > 0
  {
    match s
    case Available => "available"
    case Used => "used"
    case Expired => "expired"
    case Disabled => "disabled"
  }

  /** Reads a status column back; any other word is not a voucher status. */
  function ParseVoucherStatus(name: string): (r: Option<VoucherStatus>)
    ensures r.Some? ==> StatusName(r.value) == name
  {
    if name == "available" then Some(Available)
    else if name == "used" then Some(Used)
    else if name == "expired" then Some(Expired)
    else if name == "disabled" then Some(Disabled)
    else None
  }

  /** Every status is stored under its own word and reads back as itself. */
  lemma {:induction false} StatusNameRoundTrip(s: VoucherStatus, t: VoucherStatus)
    ensures ParseVoucherStatus(StatusName(s)) == Some(s)
    ensures StatusName(s) == StatusName(t) ==> s == t
  {
    assert ParseVoucherStatus(StatusName(t)) == Some(t);
  }

  /** The batch status words. A batch's status column holds whatever the
      request normalised to; only "enabled" lets its vouchers be redeemed. */
  const BatchEnabled: string := "enabled"
  const BatchDisabled: string := "disabled"

  /** A row of voucher_batch. */
  datatype VoucherBatch = VoucherBatch(
    id: int,
    nodeId: int,
    name: string,
    profileId: int,
    totalCount: int,
    usedCount: int,
    expireTime: Time,
    validDays: int,
    prefix: string,
    codeLength: int,
    status: string,
    remark: string,
    createdAt: Time,
    updatedAt: Time)

  /** A row of voucher. userId 0 stands for "no user yet"; redeemedAt and
      expireTime are nullable. */
  datatype Voucher = Voucher(
    id: int,
    batchId: int,
    code: string,
    password: string,
    profileId: int,
    status: VoucherStatus,
    userId: int,
    redeemedAt: Option<Time>,
    expireTime: Option<Time>,
    remark: string,
    createdAt: Time,
    updatedAt: Time)

  /** The billing profile fields a redemption copies into the new account. */
  datatype RadiusProfile = RadiusProfile(
    id: int,
    addrPool: string,
    activeNum: int,
    upRate: int,
    downRate: int,
    domain: string,
    bindMac: int,
    bindVlan: int)

  /** The account a redemption creates. */
  datatype RadiusUser = RadiusUser(
    id: int,
    profileId: int,
    username: string,
    password: string,
    realname: string,
    mobile: string,
    email: string,
    addrPool: string,
    activeNum: int,
    upRate: int,
    downRate: int,
    domain: string,
    bindMac: int,
    bindVlan: int,
    status: string,
    expireTime: Time,
    createdAt: Time,
    updatedAt: Time)

  /** The documented link between status, user and redemption time: a voucher
      is used exactly when it carries a redemption time, and it names a user
      only once used. */
  predicate RedemptionLinked(v: Voucher) {
    (v.status == Used <==> v.redeemedAt.Some?)
    && (v.status != Used ==> v.userId == 0)
  }

  /** The voucher row CreateVoucherBatch stages for `batch` under `code`. */
  function IssuedVoucher(batch: VoucherBatch, id: int, code: string, now: Time): (v: Voucher)
    ensures v.status == Available && v.batchId == batch.id && v.code == code
    ensures v.profileId == batch.profileId && v.expireTime == Some(batch.expireTime)
    ensures RedemptionLinked(v)
  {
    Voucher(id, batch.id, code, "", batch.profileId, Available, 0, None, Some(batch.expireTime), "", now, now)
  }

  /** The voucher after a successful redemption by account `userId` at `now`. */
  function RedeemedVoucher(v: Voucher, userId: int, now: Time): (w: Voucher)
    ensures w.status == Used && w.userId == userId && w.redeemedAt == Some(now)
    ensures RedemptionLinked(w)
    ensures w.updatedAt == now
    ensures w.(status := v.status, userId := v.userId, redeemedAt := v.redeemedAt, updatedAt := v.updatedAt) == v
  {
    v.(status := Used, userId := userId, redeemedAt := Some(now), updatedAt := now)
  }

  /** The expiry a redemption gives the new account: ValidDays after now, or the
      voucher's own expiry when the batch has no validity window. */
  function AccountExpiry(now: Time, validDays: int, voucherExpire: Option<Time>, addDays: (Time, int) -> Time): (t: Time)
    ensures validDays == 0 && voucherExpire.Some? ==> t == voucherExpire.value
    ensures validDays != 0 || voucherExpire.None? ==> t == addDays(now, validDays)
  {
    if validDays == 0 && voucherExpire.Some? then voucherExpire.value else addDays(now, validDays)
  }

  /** A batch with ValidDays 0 hands the expiry time it had when it issued a
      voucher to every account created from that voucher. */
  lemma {:induction false} ZeroValidDaysUsesBatchExpiry(batch: VoucherBatch, id: int, code: string, issued: Time, now: Time, addDays: (Time, int) -> Time)
    requires batch.validDays == 0
    ensures AccountExpiry(now, batch.validDays, IssuedVoucher(batch, id, code, issued).expireTime, addDays) == batch.expireTime
  {
  }
}
