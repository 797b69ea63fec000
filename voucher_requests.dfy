// The two request bodies of the voucher batch endpoints and their conversion
// to a batch row (toVoucherBatch on each request type).
module VoucherRequests {
  import opened Api
  import Text
  import opened ParseInt
  import opened Loose
  import opened VoucherDomain

  /** The body of a batch creation request. */
  datatype VoucherBatchRequest = VoucherBatchRequest(
    name: string,
    nodeId: AnyValue,
    profileId: AnyValue,
    totalCount: int,
    expireTime: string,
    validDays: int,
    prefix: string,
    codeLength: int,
    status: AnyValue,
    remark: string)

  /** The body of a batch update request. */
  datatype VoucherBatchUpdateRequest = VoucherBatchUpdateRequest(
    name: string,
    nodeId: AnyValue,
    profileId: AnyValue,
    expireTime: string,
    validDays: int,
    status: AnyValue,
    remark: string)

  /** The code length a batch gets: below 6 the default 10. */
  const DefaultCodeLength: int := 10
  const MinCodeLength: int := 6

  /** VoucherBatchRequest.toVoucherBatch: the batch row a creation request
      describes, before the handler sets the expiry, the default status and
      the time stamps. */
  function ToVoucherBatch(req: VoucherBatchRequest): (b: VoucherBatch)
    ensures b.name == Text.TrimSpace(req.name)
    ensures b.codeLength >= MinCodeLength
    ensures req.codeLength >= MinCodeLength ==> b.codeLength == req.codeLength
    ensures req.codeLength < MinCodeLength ==> b.codeLength == DefaultCodeLength
    ensures b.profileId == CoerceId(req.profileId) && b.nodeId == CoerceId(req.nodeId)
    ensures b.status == CoerceStatus(req.status)
    ensures b.totalCount == req.totalCount && b.validDays == req.validDays
    ensures b.prefix == req.prefix && b.remark == req.remark
    ensures b.id == 0 && b.usedCount == 0
  {
    VoucherBatch(
      id := 0,
      nodeId := CoerceId(req.nodeId),
      name := Text.TrimSpace(req.name),
      profileId := CoerceId(req.profileId),
      totalCount := req.totalCount,
      usedCount := 0,
      expireTime := ZeroTime,
      validDays := req.validDays,
      prefix := req.prefix,
      codeLength := if req.codeLength < MinCodeLength then DefaultCodeLength else req.codeLength,
      status := CoerceStatus(req.status),
      remark := req.remark,
      createdAt := ZeroTime,
      updatedAt := ZeroTime)
  }

  /** VoucherBatchUpdateRequest.toVoucherBatch: the same coercions, without
      the fields an update cannot change and without a code length default. */
  function ToVoucherBatchUpdate(req: VoucherBatchUpdateRequest): (b: VoucherBatch)
    ensures b.name == Text.TrimSpace(req.name)
    ensures b.profileId == CoerceId(req.profileId) && b.nodeId == CoerceId(req.nodeId)
    ensures b.status == CoerceStatus(req.status)
    ensures b.validDays == req.validDays && b.remark == req.remark
    ensures b.totalCount == 0 && b.codeLength == 0 && b.prefix == ""
  {
    VoucherBatch(
      id := 0,
      nodeId := CoerceId(req.nodeId),
      name := Text.TrimSpace(req.name),
      profileId := CoerceId(req.profileId),
      totalCount := 0,
      usedCount := 0,
      expireTime := ZeroTime,
      validDays := req.validDays,
      prefix := "",
      codeLength := 0,
      status := CoerceStatus(req.status),
      remark := req.remark,
      createdAt := ZeroTime,
      updatedAt := ZeroTime)
  }

  /** The request a client would send to describe batch `b` again, with the
      identifiers as JSON numbers or strings and the status as a string. */
  function Resubmission(b: VoucherBatch, idsAsStrings: bool): VoucherBatchRequest
  {
    VoucherBatchRequest(
      name := b.name,
      nodeId := if idsAsStrings then JString(FormatInt(b.nodeId)) else JNumber(b.nodeId as real),
      profileId := if idsAsStrings then JString(FormatInt(b.profileId)) else JNumber(b.profileId as real),
      totalCount := b.totalCount,
      expireTime := "",
      validDays := b.validDays,
      prefix := b.prefix,
      codeLength := b.codeLength,
      status := JString(b.status),
      remark := b.remark)
  }

  /** Normalisation is idempotent: sending back what a request normalised to,
      in either JSON spelling of the identifiers, normalises to the same batch. */
  lemma {:induction false} ToVoucherBatchIdempotent(req: VoucherBatchRequest, idsAsStrings: bool)
    ensures ToVoucherBatch(Resubmission(ToVoucherBatch(req), idsAsStrings)) == ToVoucherBatch(req)
  {
    var b := ToVoucherBatch(req);
    Text.TrimSpaceIdempotent(req.name);
    CoerceIdAgrees(b.nodeId);
    CoerceIdAgrees(b.profileId);
    CoerceStatusIdempotent(req.status);
  }

  /** The update request coerces every shared field exactly as the creation
      request does. */
  lemma {:induction false} UpdateCoercesLikeCreate(req: VoucherBatchRequest)
    ensures var u := ToVoucherBatchUpdate(VoucherBatchUpdateRequest(req.name, req.nodeId, req.profileId,
                                                                    req.expireTime, req.validDays, req.status, req.remark));
            var b := ToVoucherBatch(req);
            u.name == b.name && u.nodeId == b.nodeId && u.profileId == b.profileId
            && u.status == b.status && u.validDays == b.validDays && u.remark == b.remark
  {
  }
}
