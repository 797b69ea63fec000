// Queries over the voucher tables and the facts the store keeps about them:
// unique codes, batch names and user names, and the used_count column of
// every batch agreeing with the number of its used vouchers.
module VoucherTables {
  import opened Api
  import opened VoucherDomain

  /** The ids of the used vouchers of batch `batchId`. */
  function UsedIn(vouchers: map<int, Voucher>, batchId: int): (r: set<int>)
    ensures forall id :: id in r <==> id in vouchers && vouchers[id].batchId == batchId && vouchers[id].status == Used
  {
    set id | id in vouchers && vouchers[id].batchId == batchId && vouchers[id].status == Used
  }

  /** Every batch's used_count equals the number of its used vouchers. */
  ghost predicate CountsAgree(batches: map<int, VoucherBatch>, vouchers: map<int, Voucher>) {
    forall id :: id in batches ==> batches[id].usedCount == |UsedIn(vouchers, id)|
  }

  /** The unique index on voucher.code. */
  ghost predicate UniqueCodes(vouchers: map<int, Voucher>) {
    forall i, j :: i in vouchers && j in vouchers && vouchers[i].code == vouchers[j].code ==> i == j
  }

  /** The unique index on voucher_batch.name. */
  ghost predicate UniqueBatchNames(batches: map<int, VoucherBatch>) {
    forall i, j :: i in batches && j in batches && batches[i].name == batches[j].name ==> i == j
  }

  /** The unique index on the user name of the accounts table. */
  ghost predicate UniqueUsernames(users: map<int, RadiusUser>) {
    forall i, j :: i in users && j in users && users[i].username == users[j].username ==> i == j
  }

  /** `Where("code = ?", code).First(&voucher)`: the voucher carrying `code`, if any. */
  function FindVoucherByCode(vouchers: map<int, Voucher>, code: string): (r: Option<int>)
    requires UniqueCodes(vouchers)
    ensures r.Some? ==> r.value in vouchers && vouchers[r.value].code == code
    ensures r.None? ==> forall id :: id in vouchers ==> vouchers[id].code != code
    ensures forall id :: id in vouchers && vouchers[id].code == code ==> r == Some(id)
  {
    if exists id :: id in vouchers && vouchers[id].code == code then
      var id :| id in vouchers && vouchers[id].code == code;
      Some(id)
    else
      None
  }

  /** `First(&batch, id)`: the batch row with that primary key, if any. */
  function LookupBatch(batches: map<int, VoucherBatch>, id: int): (r: Option<VoucherBatch>)
    ensures r.Some? <==> id in batches
    ensures r.Some? ==> r.value == batches[id]
  {
    if id in batches then Some(batches[id]) else None
  }

  /** A batch other than `except` already carries `name`. */
  predicate NameTaken(batches: map<int, VoucherBatch>, name: string, except: Option<int>) {
    exists id :: id in batches && batches[id].name == name && Some(id) != except
  }

  /** An account already carries `username`. */
  predicate UsernameTaken(users: map<int, RadiusUser>, username: string) {
    exists id :: id in users && users[id].username == username
  }

  /** Writing a voucher row adds it to, or drops it from, its batch's used set. */
  lemma {:induction false} UsedInAfterWrite(vouchers: map<int, Voucher>, vid: int, w: Voucher, batchId: int)
    ensures UsedIn(vouchers[vid := w], batchId)
            == if w.batchId == batchId && w.status == Used then UsedIn(vouchers, batchId) + {vid}
               else UsedIn(vouchers, batchId) - {vid}
  {
  }

  /** Writing a row that was not used and still is not leaves every count in place. */
  lemma {:induction false} CountsAfterUnusedWrite(batches: map<int, VoucherBatch>, vouchers: map<int, Voucher>, vid: int, w: Voucher)
    requires CountsAgree(batches, vouchers)
    requires vid in vouchers ==> vouchers[vid].status != Used
    requires w.status != Used
    ensures CountsAgree(batches, vouchers[vid := w])
  {
    forall id | id in batches
      ensures batches[id].usedCount == |UsedIn(vouchers[vid := w], id)|
    {
      UsedInAfterWrite(vouchers, vid, w, id);
      assert vid !in UsedIn(vouchers, id);
    }
  }

  /** A redemption marks one voucher of batch `batchId` used and adds one to
      that batch's used_count: every count still agrees. */
  lemma {:induction false} CountsAfterRedeem(batches: map<int, VoucherBatch>, vouchers: map<int, Voucher>, vid: int, userId: int, now: Time)
    requires CountsAgree(batches, vouchers)
    requires vid in vouchers && vouchers[vid].status != Used && vouchers[vid].batchId in batches
    ensures var bid := vouchers[vid].batchId;
            var b := batches[bid];
            CountsAgree(batches[bid := b.(usedCount := b.usedCount + 1)],
                        vouchers[vid := RedeemedVoucher(vouchers[vid], userId, now)])
  {
    var v := vouchers[vid];
    var bid := v.batchId;
    var b := batches[bid];
    var batches' := batches[bid := b.(usedCount := b.usedCount + 1)];
    var vouchers' := vouchers[vid := RedeemedVoucher(v, userId, now)];
    forall id | id in batches'
      ensures batches'[id].usedCount == |UsedIn(vouchers', id)|
    {
      UsedInAfterWrite(vouchers, vid, RedeemedVoucher(v, userId, now), id);
      assert vid !in UsedIn(vouchers, id);
    }
  }

  /** Adding rows that are not used, none of them of an existing batch, keeps
      every count; a new batch with used_count 0 agrees with them too. */
  lemma {:induction false} CountsAfterIssue(batches: map<int, VoucherBatch>, vouchers: map<int, Voucher>,
                                            batch: VoucherBatch, issued: map<int, Voucher>)
    requires CountsAgree(batches, vouchers)
    requires batch.id !in batches && batch.usedCount == 0
    requires forall id :: id in vouchers ==> vouchers[id].batchId != batch.id
    requires forall id :: id in issued ==> id !in vouchers && issued[id].status != Used
    ensures CountsAgree(batches[batch.id := batch], vouchers + issued)
  {
    var batches' := batches[batch.id := batch];
    var all := vouchers + issued;
    forall bid | bid in batches'
      ensures batches'[bid].usedCount == |UsedIn(all, bid)|
    {
      forall id | id in all
        ensures id in UsedIn(all, bid) <==> id in UsedIn(vouchers, bid)
      {
        if id in issued {
          assert all[id] == issued[id];
        } else {
          assert all[id] == vouchers[id];
        }
      }
      assert UsedIn(all, bid) == UsedIn(vouchers, bid);
      if bid == batch.id {
        assert forall id :: id !in UsedIn(vouchers, bid);
        assert UsedIn(vouchers, bid) == {};
      }
    }
  }

  /** The vouchers left once those of batch `batchId` are deleted. */
  function WithoutBatch(vouchers: map<int, Voucher>, batchId: int): (r: map<int, Voucher>)
    ensures forall id :: id in r <==> id in vouchers && vouchers[id].batchId != batchId
    ensures forall id :: id in r ==> r[id] == vouchers[id]
  {
    map id | id in vouchers && vouchers[id].batchId != batchId :: vouchers[id]
  }

  /** Deleting a batch and all its vouchers keeps every other batch's count. */
  lemma {:induction false} CountsAfterDelete(batches: map<int, VoucherBatch>, vouchers: map<int, Voucher>, batchId: int)
    requires CountsAgree(batches, vouchers)
    ensures CountsAgree(batches - {batchId}, WithoutBatch(vouchers, batchId))
  {
    forall bid | bid in batches - {batchId}
      ensures batches[bid].usedCount == |UsedIn(WithoutBatch(vouchers, batchId), bid)|
    {
      assert UsedIn(WithoutBatch(vouchers, batchId), bid) == UsedIn(vouchers, bid);
    }
  }

  /** Rewriting a voucher without touching its code keeps the codes unique. */
  lemma {:induction false} CodesUniqueAfterWrite(vouchers: map<int, Voucher>, vid: int, w: Voucher)
    requires UniqueCodes(vouchers) && vid in vouchers && w.code == vouchers[vid].code
    ensures UniqueCodes(vouchers[vid := w])
  {
    var after := vouchers[vid := w];
    forall i, j | i in after && j in after && i != j
      ensures after[i].code != after[j].code
    {
      assert after[i].code == vouchers[i].code && after[j].code == vouchers[j].code;
    }
  }

  /** Rewriting a batch without touching its name keeps the names unique. */
  lemma {:induction false} NamesUniqueAfterWrite(batches: map<int, VoucherBatch>, bid: int, b: VoucherBatch)
    requires UniqueBatchNames(batches) && bid in batches && b.name == batches[bid].name
    ensures UniqueBatchNames(batches[bid := b])
  {
    var after := batches[bid := b];
    forall i, j | i in after && j in after && i != j
      ensures after[i].name != after[j].name
    {
      assert after[i].name == batches[i].name && after[j].name == batches[j].name;
    }
  }

  /** Adding an account under a fresh id and a free name keeps the names unique. */
  lemma {:induction false} UsernamesUniqueAfterAdd(users: map<int, RadiusUser>, u: RadiusUser)
    requires UniqueUsernames(users) && u.id !in users && !UsernameTaken(users, u.username)
    ensures UniqueUsernames(users[u.id := u])
  {
    var after := users[u.id := u];
    forall i, j | i in after && j in after && i != j
      ensures after[i].username != after[j].username
    {
      if i == u.id {
        assert after[j] == users[j];
      } else if j == u.id {
        assert after[i] == users[i];
      } else {
        assert after[i] == users[i] && after[j] == users[j];
      }
    }
  }
}
