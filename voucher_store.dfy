// The voucher handlers over an in-memory store: the voucher_batch and voucher
// tables, the billing profiles and the accounts, and the auto-increment
// counters. A transaction stages its writes in locals and assigns the fields
// only when it commits, so a rollback leaves every field as it was.
module VoucherStore {
  import opened Api
  import Text
  import opened VoucherDomain
  import opened VoucherTables
  import opened VoucherCodes
  import opened VoucherRequests
  import opened VoucherRules

  /** What the tables always satisfy: rows stored under their own ids below
      the counters, the unique indexes, the redemption link of every voucher,
      and used_count agreeing with the used vouchers of each batch. */
  ghost predicate TablesValid(batches: map<int, VoucherBatch>, vouchers: map<int, Voucher>, users: map<int, RadiusUser>,
                              nextBatchId: int, nextVoucherId: int)
  {
    1 <= nextBatchId && 1 <= nextVoucherId
    && (forall id :: id in batches ==> batches[id].id == id && id < nextBatchId)
    && (forall id :: id in vouchers ==>
          vouchers[id].id == id && id < nextVoucherId
          && vouchers[id].batchId < nextBatchId && RedemptionLinked(vouchers[id]))
    && (forall id :: id in users ==> users[id].id == id)
    && UniqueCodes(vouchers) && UniqueBatchNames(batches) && UniqueUsernames(users)
    && CountsAgree(batches, vouchers)
  }

  /** Inserting a new batch under the next id, with a name no batch carries,
      and the vouchers staged for it from `codes` (all available), whose codes
      clash neither with each other nor with a stored voucher, under the next
      voucher ids keeps the tables valid. */
  lemma {:induction false} ValidAfterIssue(batches: map<int, VoucherBatch>, vouchers: map<int, Voucher>, users: map<int, RadiusUser>,
                                           nextBatchId: int, nextVoucherId: int, batch: VoucherBatch,
                                           codes: seq<string>, now: Time, staged: seq<Voucher>)
    requires TablesValid(batches, vouchers, users, nextBatchId, nextVoucherId)
    requires batch.id == nextBatchId && batch.usedCount == 0 && !NameTaken(batches, batch.name, None)
    requires staged == Stage(batch, codes, now)
    requires !CodesClash(vouchers, staged)
    ensures TablesValid(batches[batch.id := batch], vouchers + Inserted(staged, nextVoucherId), users,
                        nextBatchId + 1, nextVoucherId + |staged|)
  {
    var inserted := Inserted(staged, nextVoucherId);
    var all := vouchers + inserted;
    InsertKeepsCodesUnique(vouchers, staged, nextVoucherId);
    CountsAfterIssue(batches, vouchers, batch, inserted);
    var batches' := batches[batch.id := batch];
    forall i, j | i in batches' && j in batches' && i != j
      ensures batches'[i].name != batches'[j].name
    {
      if i != batch.id && j != batch.id {
        assert batches'[i] == batches[i] && batches'[j] == batches[j];
      }
    }
    forall id | id in all
      ensures all[id].id == id && id < nextVoucherId + |staged|
              && all[id].batchId < nextBatchId + 1 && RedemptionLinked(all[id])
    {
      if id in inserted {
        assert all[id] == staged[id - nextVoucherId].(id := id);
      }
    }
  }

  /** Rewriting a voucher that is not used into one that is not used either,
      keeping its id, code and batch, keeps the tables valid. */
  lemma {:induction false} ValidAfterUnusedWrite(batches: map<int, VoucherBatch>, vouchers: map<int, Voucher>, users: map<int, RadiusUser>,
                                                 nextBatchId: int, nextVoucherId: int, vid: int, w: Voucher)
    requires TablesValid(batches, vouchers, users, nextBatchId, nextVoucherId)
    requires vid in vouchers && vouchers[vid].status != Used
    requires w.id == vid && w.code == vouchers[vid].code && w.batchId == vouchers[vid].batchId
    requires w.status != Used && w.redeemedAt.None? && w.userId == 0
    ensures TablesValid(batches, vouchers[vid := w], users, nextBatchId, nextVoucherId)
  {
    CountsAfterUnusedWrite(batches, vouchers, vid, w);
    CodesUniqueAfterWrite(vouchers, vid, w);
  }

  /** A redemption of an available voucher of an existing batch, creating an
      account under a fresh id and a free name, keeps the tables valid. */
  lemma {:induction false} ValidAfterRedeem(batches: map<int, VoucherBatch>, vouchers: map<int, Voucher>, users: map<int, RadiusUser>,
                                            nextBatchId: int, nextVoucherId: int, vid: int, account: RadiusUser, now: Time)
    requires TablesValid(batches, vouchers, users, nextBatchId, nextVoucherId)
    requires vid in vouchers && vouchers[vid].status != Used && vouchers[vid].batchId in batches
    requires account.id !in users && !UsernameTaken(users, account.username)
    ensures var v := vouchers[vid];
            var b := batches[v.batchId];
            TablesValid(batches[b.id := b.(usedCount := b.usedCount + 1)],
                        vouchers[vid := RedeemedVoucher(v, account.id, now)],
                        users[account.id := account], nextBatchId, nextVoucherId)
  {
    var v := vouchers[vid];
    var b := batches[v.batchId];
    CountsAfterRedeem(batches, vouchers, vid, account.id, now);
    CodesUniqueAfterWrite(vouchers, vid, RedeemedVoucher(v, account.id, now));
    NamesUniqueAfterWrite(batches, b.id, b.(usedCount := b.usedCount + 1));
    UsernamesUniqueAfterAdd(users, account);
  }

  /** Rewriting a batch row under its own id, with its used_count and either
      its own name or a name no other batch carries, keeps the tables valid. */
  lemma {:induction false} ValidAfterBatchWrite(batches: map<int, VoucherBatch>, vouchers: map<int, Voucher>, users: map<int, RadiusUser>,
                                                nextBatchId: int, nextVoucherId: int, b: VoucherBatch)
    requires TablesValid(batches, vouchers, users, nextBatchId, nextVoucherId)
    requires b.id in batches && b.usedCount == batches[b.id].usedCount
    requires b.name == batches[b.id].name || !NameTaken(batches, b.name, Some(b.id))
    ensures TablesValid(batches[b.id := b], vouchers, users, nextBatchId, nextVoucherId)
  {
    var after := batches[b.id := b];
    forall i, j | i in after && j in after && i != j
      ensures after[i].name != after[j].name
    {
      if i != b.id && j != b.id {
        assert after[i] == batches[i] && after[j] == batches[j];
      } else if i == b.id {
        assert after[j] == batches[j];
      } else {
        assert after[i] == batches[i];
      }
    }
    forall id | id in after
      ensures after[id].usedCount == |UsedIn(vouchers, id)|
    {
    }
  }

  /** Deleting a batch and all its vouchers keeps the tables valid. */
  lemma {:induction false} ValidAfterDelete(batches: map<int, VoucherBatch>, vouchers: map<int, Voucher>, users: map<int, RadiusUser>,
                                            nextBatchId: int, nextVoucherId: int, batchId: int)
    requires TablesValid(batches, vouchers, users, nextBatchId, nextVoucherId)
    ensures TablesValid(batches - {batchId}, WithoutBatch(vouchers, batchId), users, nextBatchId, nextVoucherId)
  {
    var left := WithoutBatch(vouchers, batchId);
    CountsAfterDelete(batches, vouchers, batchId);
    forall i, j | i in left && j in left && i != j
      ensures left[i].code != left[j].code
    {
      assert left[i] == vouchers[i] && left[j] == vouchers[j];
    }
  }

  /** The loop of CreateVoucherBatch: one code, and one staged voucher row,
      per voucher the batch asks for; a failed read of the random source
      stops it. */
  method StageVouchers(batch: VoucherBatch, draws: nat -> RandomRead, now: Time) returns (r: Option<seq<Voucher>>)
    requires batch.codeLength >= 0 && batch.totalCount >= 0
    ensures var codes := IssueCodes(batch.prefix, batch.codeLength, draws, batch.totalCount);
            (r.None? <==> codes.None?) && (codes.Some? ==> r == Some(Stage(batch, codes.value, now)))
  {
    var length: nat := batch.codeLength;
    var count: nat := batch.totalCount;
    var staged: seq<Voucher> := [];
    var i := 0;
    while i < count
      invariant 0 <= i <= count
      invariant IssueCodes(batch.prefix, length, draws, i).Some?
      invariant staged == Stage(batch, IssueCodes(batch.prefix, length, draws, i).value, now)
    {
      var code := GenerateVoucherCode(batch.prefix, length, draws(i));
      if code.None? {
        assert draws(i).ReadFailed?;
        return None;
      }
      ghost var codes := IssueCodes(batch.prefix, length, draws, i).value;
      assert Stage(batch, codes + [code.value], now) == staged + [IssuedVoucher(batch, 0, code.value, now)];
      staged := staged + [IssuedVoucher(batch, 0, code.value, now)];
      i := i + 1;
    }
    return Some(staged);
  }

  class VoucherStore {
    var batches: map<int, VoucherBatch>
    var vouchers: map<int, Voucher>
    var profiles: map<int, RadiusProfile>
    var users: map<int, RadiusUser>
    var nextBatchId: int
    var nextVoucherId: int

    /** The store's invariant: TablesValid over its fields. */
    ghost predicate Valid()
      reads this
    {
      TablesValid(batches, vouchers, users, nextBatchId, nextVoucherId)
    }

    /** A store with no batches or vouchers over the given profiles and accounts. */
    constructor(profiles: map<int, RadiusProfile>, users: map<int, RadiusUser>)
      requires forall id :: id in users ==> users[id].id == id
      requires UniqueUsernames(users)
      ensures Valid()
      ensures this.profiles == profiles && this.users == users
      ensures batches == map[] && vouchers == map[]
    {
      this.batches := map[];
      this.vouchers := map[];
      this.profiles := profiles;
      this.users := users;
      this.nextBatchId := 1;
      this.nextVoucherId := 1;
    }

    /** CreateVoucherBatch: the profile, name and expiry checks, then one
        transaction that inserts the batch and one voucher per loop round. */
    method CreateVoucherBatch(req: VoucherBatchRequest, parsedExpire: Option<Time>, now: Time, draws: nat -> RandomRead)
      returns (r: Result<VoucherBatch, ApiError>)
      requires Valid()
      modifies this
      ensures Valid()
      ensures profiles == old(profiles) && users == old(users)
      ensures r.Err? ==> unchanged(this)
      ensures var pre := CreatePrecheck(old(profiles), old(batches), ToVoucherBatch(req), parsedExpire);
              pre.Some? ==> r == Err(pre.value)
      ensures var b := ToVoucherBatch(req);
              CreatePrecheck(old(profiles), old(batches), b, parsedExpire).None? ==>
                var batch := StampedBatch(b, old(nextBatchId), parsedExpire.value, now);
                var count := IssueCount(batch.totalCount);
                var codes := IssueCodes(batch.prefix, batch.codeLength, draws, if count.Some? then count.value else 0);
                if count.None? then r == Err(Panicked)
                else if codes.None? then r == Err(GenerateFailed)
                else if CodesClash(old(vouchers), Stage(batch, codes.value, now)) then r == Err(CreateFailed)
                else r == Ok(batch)
                     && batches == old(batches)[batch.id := batch]
                     && vouchers == old(vouchers) + Inserted(Stage(batch, codes.value, now), old(nextVoucherId))
                     && nextBatchId == old(nextBatchId) + 1
                     && nextVoucherId == old(nextVoucherId) + |codes.value|
    {
      var b := ToVoucherBatch(req);
      if b.profileId !in profiles {
        return Err(ProfileNotFound);
      }
      if NameTaken(batches, b.name, None) {
        return Err(NameExists);
      }
      if parsedExpire.None? {
        return Err(InvalidExpireTime);
      }
      var batch := StampedBatch(b, nextBatchId, parsedExpire.value, now);

      var tx := IssueTransaction(batch, draws, now);
      if tx.Failed? {
        return Err(tx.error);
      }
      return Ok(batch);
    }

    /** The transaction of CreateVoucherBatch: insert the batch row, then one
        voucher row per generated code; a negative TotalCount (a panic in
        `make`, recovered), a failed read of the random source or a code some
        voucher already carries rolls it all back. */
    method IssueTransaction(batch: VoucherBatch, draws: nat -> RandomRead, now: Time) returns (r: Outcome<ApiError>)
      requires Valid()
      requires batch.id == nextBatchId && batch.usedCount == 0 && batch.codeLength >= 0
      requires !NameTaken(batches, batch.name, None)
      modifies this
      ensures Valid()
      ensures profiles == old(profiles) && users == old(users)
      ensures r.Failed? ==> unchanged(this)
      ensures var count := IssueCount(batch.totalCount);
              var codes := IssueCodes(batch.prefix, batch.codeLength, draws, if count.Some? then count.value else 0);
              if count.None? then r == Failed(Panicked)
              else if codes.None? then r == Failed(GenerateFailed)
              else if CodesClash(old(vouchers), Stage(batch, codes.value, now)) then r == Failed(CreateFailed)
              else r == Done
                   && batches == old(batches)[batch.id := batch]
                   && vouchers == old(vouchers) + Inserted(Stage(batch, codes.value, now), old(nextVoucherId))
                   && nextBatchId == old(nextBatchId) + 1
                   && nextVoucherId == old(nextVoucherId) + |codes.value|
    {
      var txBatches := batches[batch.id := batch];
      if IssueCount(batch.totalCount).None? {
        // make([]Voucher, 0, TotalCount) panics; the deferred recover rolls back.
        return Failed(Panicked);
      }
      ghost var codes := IssueCodes(batch.prefix, batch.codeLength, draws, batch.totalCount);
      var generated := StageVouchers(batch, draws, now);
      if generated.None? {
        return Failed(GenerateFailed);
      }
      var staged := generated.value;
      if CodesClash(vouchers, staged) {
        return Failed(CreateFailed);
      }
      var inserted := Inserted(staged, nextVoucherId);
      ValidAfterIssue(batches, vouchers, users, nextBatchId, nextVoucherId, batch, codes.value, now, staged);

      // Commit.
      batches, vouchers := txBatches, vouchers + inserted;
      nextBatchId, nextVoucherId := nextBatchId + 1, nextVoucherId + |staged|;
      return Done;
    }

    /** The transaction of RedeemVoucher: create the account, mark the voucher
        used by it, then add one to its batch's used_count; a failing step
        rolls it all back. */
    method RedeemTransaction(vid: int, account: RadiusUser, now: Time) returns (r: Outcome<ApiError>)
      requires Valid() && vid in vouchers && vouchers[vid].status != Used
      modifies this
      ensures Valid()
      ensures profiles == old(profiles) && nextBatchId == old(nextBatchId) && nextVoucherId == old(nextVoucherId)
      ensures r.Failed? ==> unchanged(this)
      ensures var v := old(vouchers)[vid];
              if account.id in old(users) || UsernameTaken(old(users), account.username) then r == Failed(CreateUserFailed)
              else if v.batchId !in old(batches) then r == Failed(UpdateBatchFailed)
              else r == Done
                   && users == old(users)[account.id := account]
                   && vouchers == old(vouchers)[vid := RedeemedVoucher(v, account.id, now)]
                   && batches == old(batches)[v.batchId := old(batches)[v.batchId].(usedCount := old(batches)[v.batchId].usedCount + 1)]
    {
      if account.id in users || UsernameTaken(users, account.username) {
        return Failed(CreateUserFailed);
      }
      var voucher := vouchers[vid];
      var txUsers := users[account.id := account];
      var txVouchers := vouchers[vid := RedeemedVoucher(voucher, account.id, now)];
      if voucher.batchId !in batches {
        // A missing batch reads as the zero row, which has no primary key, so
        // the used_count update is refused.
        return Failed(UpdateBatchFailed);
      }
      var b := batches[voucher.batchId];
      var txBatches := batches[b.id := b.(usedCount := b.usedCount + 1)];
      ValidAfterRedeem(batches, vouchers, users, nextBatchId, nextVoucherId, vid, account, now);

      // Commit.
      users, vouchers, batches := txUsers, txVouchers, txBatches;
      return Done;
    }

    /** `Updates` on one batch row: the row under b's id becomes b. */
    method WriteBatch(b: VoucherBatch)
      requires Valid() && b.id in batches && b.usedCount == batches[b.id].usedCount
      requires b.name == batches[b.id].name || !NameTaken(batches, b.name, Some(b.id))
      modifies this
      ensures Valid()
      ensures batches == old(batches)[b.id := b]
      ensures vouchers == old(vouchers) && users == old(users) && profiles == old(profiles)
      ensures nextBatchId == old(nextBatchId) && nextVoucherId == old(nextVoucherId)
    {
      ValidAfterBatchWrite(batches, vouchers, users, nextBatchId, nextVoucherId, b);
      batches := batches[b.id := b];
    }

    /** UpdateVoucherBatch: the row must exist, a new name must be free, a
        positive profile id must name a profile, then the updates map is applied. */
    method UpdateVoucherBatch(id: int, req: VoucherBatchUpdateRequest, expire: TimeInput, now: Time)
      returns (r: Result<VoucherBatch, ApiError>)
      requires Valid()
      modifies this
      ensures Valid()
      ensures r.Err? ==> unchanged(this)
      ensures vouchers == old(vouchers) && users == old(users) && profiles == old(profiles)
      ensures nextBatchId == old(nextBatchId) && nextVoucherId == old(nextVoucherId)
      ensures id !in old(batches) ==> r == Err(NotFound)
      ensures id in old(batches) ==>
                var b := old(batches)[id];
                var data := ToVoucherBatchUpdate(req);
                var nameClash := data.name != "" && data.name != b.name && NameTaken(old(batches), data.name, Some(id));
                var profileMissing := data.profileId > 0 && data.profileId !in old(profiles);
                if nameClash then r == Err(NameExists)
                else if profileMissing then r == Err(ProfileNotFound)
                else if expire.Unparsable? then r == Err(InvalidExpireTime)
                else r == Ok(UpdatedBatch(b, data, expire, now)) && batches == old(batches)[id := r.value]
    {
      if id !in batches {
        return Err(NotFound);
      }
      var batch := batches[id];
      var data := ToVoucherBatchUpdate(req);
      if data.name != "" && data.name != batch.name && NameTaken(batches, data.name, Some(id)) {
        return Err(NameExists);
      }
      if data.profileId > 0 && data.profileId !in profiles {
        return Err(ProfileNotFound);
      }
      var updates := BatchUpdates(data, expire, now);
      if updates.Err? {
        return Err(updates.error);
      }
      var updated := ApplyBatchUpdates(batch, updates.value);
      BatchUpdateEffect(batch, data, expire, now);
      WriteBatch(updated);
      return Ok(updated);
    }

    /** DeleteVoucherBatch: refused while a voucher of the batch is used;
        otherwise the batch's vouchers and then the batch row are removed. */
    method DeleteVoucherBatch(id: int) returns (r: Outcome<ApiError>)
      requires Valid()
      modifies this
      ensures Valid()
      ensures users == old(users) && profiles == old(profiles)
      ensures nextBatchId == old(nextBatchId) && nextVoucherId == old(nextVoucherId)
      ensures var used := |UsedIn(old(vouchers), id)|;
              if used > 0 then r == Failed(InUse(used)) && unchanged(this)
              else r == Done && vouchers == WithoutBatch(old(vouchers), id) && batches == old(batches) - {id}
    {
      var used := |UsedIn(vouchers, id)|;
      if used > 0 {
        return Failed(InUse(used));
      }
      ValidAfterDelete(batches, vouchers, users, nextBatchId, nextVoucherId, id);
      vouchers := WithoutBatch(vouchers, id);
      batches := batches - {id};
      return Done;
    }

    /** RedeemVoucher: find the code, run the guard chain (an expired voucher
        is marked expired on the way out), then one transaction that creates
        the account, marks the voucher used and adds one to used_count. */
    method RedeemVoucher(req: RedeemVoucherRequest, now: Time, newUserId: int, addDays: (Time, int) -> Time)
      returns (r: Result<RadiusUser, ApiError>)
      requires Valid()
      modifies this
      ensures Valid()
      ensures profiles == old(profiles) && nextBatchId == old(nextBatchId) && nextVoucherId == old(nextVoucherId)
      ensures r.Err? && r.error != VoucherExpired ==> unchanged(this)
      ensures FindVoucherByCode(old(vouchers), req.code).None? ==> r == Err(VoucherNotFound)
      ensures var found := FindVoucherByCode(old(vouchers), req.code);
              found.Some? ==>
                var v := old(vouchers)[found.value];
                var batch := LookupBatch(old(batches), v.batchId);
                var rejection := RedeemRejection(v, batch, UsernameTaken(old(users), req.username),
                                                 v.profileId in old(profiles), req.password, now);
                (rejection.Some? ==> r == Err(rejection.value))
                && (rejection == Some(VoucherExpired) ==>
                      vouchers == old(vouchers)[found.value := v.(status := Expired, updatedAt := now)]
                      && batches == old(batches) && users == old(users))
      ensures var found := FindVoucherByCode(old(vouchers), req.code);
              found.Some? ==>
                var v := old(vouchers)[found.value];
                var batch := LookupBatch(old(batches), v.batchId);
                RedeemRejection(v, batch, UsernameTaken(old(users), req.username),
                                v.profileId in old(profiles), req.password, now).None? ==>
                  var validDays := if batch.Some? then batch.value.validDays else 0;
                  var account := NewAccount(newUserId, req, v, old(profiles)[v.profileId],
                                            AccountExpiry(now, validDays, v.expireTime, addDays), now);
                  if newUserId in old(users) || UsernameTaken(old(users), account.username) then r == Err(CreateUserFailed)
                  else if batch.None? then r == Err(UpdateBatchFailed)
                  else r == Ok(account.(password := ""))
                       && users == old(users)[newUserId := account]
                       && vouchers == old(vouchers)[found.value := RedeemedVoucher(v, newUserId, now)]
                       && batches == old(batches)[v.batchId := batch.value.(usedCount := batch.value.usedCount + 1)]
    {
      var found := FindVoucherByCode(vouchers, req.code);
      if found.None? {
        return Err(VoucherNotFound);
      }
      var vid := found.value;
      var voucher := vouchers[vid];
      ghost var rejection := RedeemRejection(voucher, LookupBatch(batches, voucher.batchId), UsernameTaken(users, req.username),
                                             voucher.profileId in profiles, req.password, now);
      if voucher.status != Available {
        return Err(VoucherNotAvailable(StatusName(voucher.status)));
      }
      if voucher.password != "" && voucher.password != req.password {
        return Err(InvalidPassword);
      }
      if voucher.expireTime.Some? && voucher.expireTime.value < now {
        // Written outside any transaction, before the failure is answered.
        var expired := voucher.(status := Expired, updatedAt := now);
        ValidAfterUnusedWrite(batches, vouchers, users, nextBatchId, nextVoucherId, vid, expired);
        vouchers := vouchers[vid := expired];
        return Err(VoucherExpired);
      }
      var batch := LookupBatch(batches, voucher.batchId);
      if batch.Some? && batch.value.status != BatchEnabled {
        return Err(BatchDisabled);
      }
      if UsernameTaken(users, req.username) {
        return Err(UsernameExists);
      }
      if voucher.profileId !in profiles {
        return Err(ProfileNotFound);
      }
      var profile := profiles[voucher.profileId];
      // A missing batch reads as the zero row: ValidDays 0.
      var validDays := if batch.Some? then batch.value.validDays else 0;
      var expireTime := AccountExpiry(now, validDays, voucher.expireTime, addDays);

      var account := NewAccount(newUserId, req, voucher, profile, expireTime, now);
      var tx := RedeemTransaction(vid, account, now);
      if tx.Failed? {
        return Err(tx.error);
      }
      return Ok(account.(password := ""));
    }

    /** DisableVoucher: any voucher but a used one becomes disabled. */
    method DisableVoucher(id: int, now: Time) returns (r: Outcome<ApiError>)
      requires Valid()
      modifies this
      ensures Valid()
      ensures batches == old(batches) && users == old(users) && profiles == old(profiles)
      ensures nextBatchId == old(nextBatchId) && nextVoucherId == old(nextVoucherId)
      ensures id !in old(vouchers) ==> r == Failed(NotFound) && unchanged(this)
      ensures id in old(vouchers) && old(vouchers)[id].status == Used ==> r == Failed(VoucherUsed) && unchanged(this)
      ensures id in old(vouchers) && old(vouchers)[id].status != Used ==>
                r == Done && vouchers == old(vouchers)[id := old(vouchers)[id].(status := Disabled, updatedAt := now)]
    {
      if id !in vouchers {
        return Failed(NotFound);
      }
      var voucher := vouchers[id];
      if voucher.status == Used {
        return Failed(VoucherUsed);
      }
      var disabled := voucher.(status := Disabled, updatedAt := now);
      ValidAfterUnusedWrite(batches, vouchers, users, nextBatchId, nextVoucherId, id, disabled);
      vouchers := vouchers[id := disabled];
      return Done;
    }
  }

  /** Two sequential redemptions of the same code: once the first succeeds,
      the second is refused as not available, its voucher being used. */
  method RedeemSameCodeTwice(store: VoucherStore, first: RedeemVoucherRequest, second: RedeemVoucherRequest,
                             now1: Time, now2: Time, id1: int, id2: int, addDays: (Time, int) -> Time)
    returns (r1: Result<RadiusUser, ApiError>, r2: Result<RadiusUser, ApiError>)
    requires store.Valid() && first.code == second.code
    modifies store
    ensures store.Valid()
    ensures r1.Ok? ==> r2 == Err(VoucherNotAvailable("used"))
  {
    r1 := store.RedeemVoucher(first, now1, id1, addDays);
    if r1.Ok? {
      ghost var vid := FindVoucherByCode(old(store.vouchers), first.code).value;
      assert store.vouchers[vid].status == Used && store.vouchers[vid].code == second.code;
    }
    r2 := store.RedeemVoucher(second, now2, id2, addDays);
  }
}
