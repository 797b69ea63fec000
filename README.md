# Prepaid vouchers, PPPoE and hotspot accounts — a Dafny model

This project models the admin API of a RADIUS/ISP management server. It covers two layers.

**The prepaid voucher lifecycle.** An administrator creates a *voucher batch*. The server:

- checks that the billing profile exists and that the batch name is unused;
- draws random bytes for every voucher code (hex-encoded, truncated to the code length, prefixed, upper-cased);
- inserts the batch and its `total_count` vouchers, all `available`, in one transaction.

A customer *redeems* a code. A chain of guards runs first: not found, not available, wrong password, expired, batch disabled, user name taken, profile missing. Only the expiry guard writes, marking the voucher `expired`. When every guard passes, one transaction:

- creates the account, with its limits copied from the profile and its expiry computed from `valid_days` or the voucher's own expiry;
- marks the voucher `used` and links it to the account;
- adds one to the batch's `used_count`.

Administrators can also:

- partially update a batch through an updates map;
- delete a batch, refused while any of its vouchers is used;
- disable a voucher, refused once it is used.

**PPPoE and hotspot profiles and users.** The loosely typed JSON requests are converted to table rows:

- identifiers may arrive as numbers or strings;
- a status may arrive as a boolean or a string;
- the bind flags may arrive as booleans or numbers.

The create handlers apply defaults and inheritance:

- PPPoE profiles: status `enabled`, interim interval 600;
- PPPoE users: domain and VLAN ids inherited from the profile;
- hotspot profiles: auth mode `userpass`;
- hotspot users: under MAC authentication an empty password becomes the user name.

The update handlers build gorm updates maps that include or omit each column. Profile deletes are refused with the number of users still on the profile. Every answer that carries a user has its password blanked.

The store is a class over maps (one map per table, plus the auto-increment counters), and its invariant is proved preserved by every handler:

- unique voucher codes;
- unique batch names (`uniqueIndex` on `voucher_batch.name`) and account user names (an index assumed, see "## Left out");
- unique profile and user names;
- `used_count` equal to the number of used vouchers of the batch;
- ids below the counters.

The environment is passed in as inputs:

- randomness: a `RandomRead`, either the bytes read or a failure;
- the clock: an integer `now`;
- `AddDate`: an `addDays` function;
- the generated user id: `newId` / `newUserId`;
- the outcome of the time parser: `Option<Time>` on create, `TimeInput` on update.

Where the code and its own comments disagree, the model follows the code:

- `DeletedAt` is a plain `*time.Time`, so gorm deletes rows outright; deletes are map removals.
- A voucher with no expire time is never expired. The batch's time is not consulted, whatever the comment on `Voucher.ExpireTime` says.
- A batch status is any lower-cased string, not only `enabled`/`disabled`.
- Redemption skips the batch check when the batch row is missing.

Files:

- `api.dfy`: times, results, error codes, per-column writes.
- `text.dfy`: Go's `strings.TrimSpace`, and `ToLower`/`ToUpper` on ASCII.
- `parse_int.dfy`: `strconv.ParseInt(s, 10, 64)`.
- `loose.dfy`: JSON `interface{}` coercions.
- `voucher_*.dfy`: the voucher layer.
- `pppoe_*.dfy` and `hotspot_*.dfy`: the account layers.
- `keyed.dfy`: unique-index and foreign-key reasoning shared by the account layers.

## Model

| member | source | states |
|---|---|---|
| Text.TrimSpaceSlice | internal/adminapi/vouchers.go:38 | the trimmed name is the slice of the input that starts and ends with a non-space; everything cut off at either end is Unicode white space |
| Text.TrimSpaceIdempotent | internal/adminapi/vouchers.go:38 | trimming a trimmed name changes nothing |
| Text.TrimSpaceKeepsTrimmed | internal/adminapi/vouchers.go:38 | a name with no white space at either end is kept as it is |
| Text.ToLower | internal/adminapi/vouchers.go:77 | lower-casing keeps the length, turns each ASCII upper-case letter into its lower-case letter (code point plus 32) and keeps every other character |
| Text.ToLowerIdempotent | internal/adminapi/vouchers.go:77 | lower-casing twice is lower-casing once |
| Text.ToUpper | internal/adminapi/vouchers.go:698 | upper-casing keeps the length, turns each ASCII lower-case letter into its upper-case letter (code point minus 32) and keeps every other character |
| Text.ToUpperAppend | internal/adminapi/vouchers.go:695-698 | upper-casing prefix plus code is the upper-cased prefix followed by the upper-cased code |
| ParseInt.ParseInt64 | internal/adminapi/vouchers.go:50-54 | the parsed value is always an int64; a syntax error gives 0, an overflow clamps to the int64 bound of its sign, the empty string is a syntax error |
| ParseInt.ParseFormatRoundTrip | internal/adminapi/vouchers.go:50-54 | the decimal text of every int64 parses back to it without error |
| ParseInt.ParseClamps | internal/adminapi/vouchers.go:50-54 | a decimal beyond the int64 range parses to the bound of its sign with a range error |
| ParseInt.ParseRejectsNonDigit | internal/adminapi/vouchers.go:50-54 | a string whose first character is neither a digit nor a sign is a syntax error with value 0 |
| Loose.FloatToInt64 | internal/adminapi/vouchers.go:48-49 | converting a JSON number truncates toward zero when that fits int64, and gives the int64 minimum otherwise |
| Loose.CoerceId | internal/adminapi/vouchers.go:46-55 | an id is always an int64; a number is converted by FloatToInt64, a non-empty string is ParseInt64's value (0 on a syntax error, the clamped bound on overflow), an absent, boolean or other value and the empty string give 0 |
| Loose.CoerceIdAgrees | internal/adminapi/vouchers.go:46-55 | an int64 sent as a JSON number or as its decimal string coerces to itself |
| Loose.CoerceIdUnparsable | internal/adminapi/vouchers.go:50-54 | a string that does not start with a digit or sign coerces to 0 |
| Loose.CoerceStatus | internal/adminapi/vouchers.go:68-78 | true gives enabled, false gives disabled, a string gives its ToLower, anything else gives the empty status |
| Loose.CoerceStatusIdempotent | internal/adminapi/vouchers.go:68-78 | sending a coerced status back as a string coerces to the same status |
| Loose.CoerceFlag | internal/adminapi/pppoe.go:101-123 | a bind flag true is 1, false is 0, a number is converted by FloatToInt64 (truncated, or the int64 minimum out of range), anything else is 0 |
| Loose.CoerceFlagBoolAsNumber | internal/adminapi/pppoe.go:101-123 | a boolean flag coerces as the number 1 or 0 does, and so lies in 0..1 |
| Loose.CoerceFlagAgrees | internal/adminapi/pppoe.go:109-111 | an int64 sent as a number coerces to itself |
| VoucherCodes.HexEncode | internal/adminapi/vouchers.go:691 | hex encoding gives two lower-case hex digits per byte |
| VoucherCodes.GenerateVoucherCode | internal/adminapi/vouchers.go:686-699 | fails exactly when the random read fails; otherwise the code has length len(prefix)+length, starts with the upper-cased prefix, its random part is upper-case hex and it holds no lower-case letter |
| VoucherCodes.RandomDigits | internal/adminapi/vouchers.go:687-694 | the random part has exactly `length` characters, the j-th being the upper-cased hex digit of nibble j of the drawn bytes |
| VoucherCodes.CodeSplits | internal/adminapi/vouchers.go:686-699 | a successful code is the upper-cased prefix followed by the random digits |
| VoucherCodes.RandomDigitsAreHex | internal/adminapi/vouchers.go:691-698 | the random part uses only 0-9 and A-F |
| VoucherCodes.DecodeRandomDigits | internal/adminapi/vouchers.go:691 | hex-decoding 2n random digits gives back the first n drawn bytes |
| VoucherCodes.CodeCarriesRandomBytes | internal/adminapi/vouchers.go:687-698 | the code, after its prefix, decodes to the first length/2 random bytes |
| VoucherCodes.DistinctDrawsDistinctCodes | internal/adminapi/vouchers.go:686-699 | two draws that differ in a byte the truncation keeps give different codes |
| VoucherDomain.ParseVoucherStatus | internal/domain/voucher.go:149-155 | a status name parses only to the status carrying that name |
| VoucherDomain.StatusNameRoundTrip | internal/domain/voucher.go:149-155 | the four voucher statuses have distinct names, and each name parses back to its status |
| VoucherDomain.IssuedVoucher | internal/adminapi/vouchers.go:282-290 | a staged voucher is available, carries the batch's id, profile and expire time and its code, and is not linked to any user |
| VoucherDomain.RedeemedVoucher | internal/adminapi/vouchers.go:626-633 | redemption sets status used, the user id and redeemed_at together, and changes nothing else but updated_at |
| VoucherDomain.AccountExpiry | internal/adminapi/vouchers.go:585-589 | the account expires valid_days after now, or at the voucher's expiry when valid_days is 0 and the voucher has one |
| VoucherDomain.ZeroValidDaysUsesBatchExpiry | internal/domain/voucher.go:49-51 | with valid_days 0, an account redeemed from a voucher of the batch expires at the batch's expire time at issue |
| VoucherRequests.ToVoucherBatch | internal/adminapi/vouchers.go:36-86 | the name is trimmed, a code length below 6 becomes 10 and so is at least 6, ids and status are coerced, the other fields are copied |
| VoucherRequests.ToVoucherBatchUpdate | internal/adminapi/vouchers.go:100-142 | the update request converts like the create request, with no code length default and no count or prefix |
| VoucherRequests.ToVoucherBatchIdempotent | internal/adminapi/vouchers.go:36-86 | sending a converted batch back, with ids as numbers or strings, converts to the same batch |
| VoucherRequests.UpdateCoercesLikeCreate | internal/adminapi/vouchers.go:100-142 | the shared fields of an update convert exactly as they do on create |
| VoucherTables.UsedIn | internal/adminapi/vouchers.go:404-405 | the used vouchers of a batch are exactly those with its batch id and status used |
| VoucherTables.FindVoucherByCode | internal/adminapi/vouchers.go:537-543 | the exact-match code lookup finds the one voucher with that code, or reports that none has it |
| VoucherTables.LookupBatch | internal/adminapi/vouchers.go:565-566 | the batch lookup finds a row exactly when one is stored under the id |
| VoucherTables.UsedInAfterWrite | internal/adminapi/vouchers.go:628-639 | writing a voucher row adds it to, or removes it from, its batch's used set, as its new status says |
| VoucherTables.CountsAfterUnusedWrite | internal/adminapi/vouchers.go:560 | writing an unused status over an unused voucher keeps every used_count equal to the used vouchers of its batch |
| VoucherTables.CountsAfterRedeem | internal/adminapi/vouchers.go:626-642 | marking one voucher used and adding 1 to its batch's used_count keeps the counts right |
| VoucherTables.CountsAfterIssue | internal/adminapi/vouchers.go:269-297 | inserting a new batch with used_count 0 and unused vouchers keeps the counts right |
| VoucherTables.WithoutBatch | internal/adminapi/vouchers.go:414 | deleting by batch id removes exactly that batch's vouchers and keeps the others unchanged |
| VoucherTables.CountsAfterDelete | internal/adminapi/vouchers.go:412-421 | deleting a batch with its vouchers keeps the counts of the other batches right |
| VoucherTables.CodesUniqueAfterWrite | internal/domain/voucher.go:105-106 | rewriting a voucher with its own code keeps codes unique |
| VoucherTables.NamesUniqueAfterWrite | internal/domain/voucher.go:31-33 | rewriting a batch with its own name keeps batch names unique |
| VoucherTables.UsernamesUniqueAfterAdd | internal/adminapi/vouchers.go:572-577 | adding an account whose name is not taken keeps user names unique |
| VoucherRules.CreatePrecheck | internal/adminapi/vouchers.go:231-251 | a batch passes exactly when its profile exists, its name is unused and its expire time parsed; a missing profile is reported before a taken name |
| VoucherRules.StampedBatch | internal/adminapi/vouchers.go:252-259 | the stored batch gets its id, expire time and timestamps, and status enabled when empty; nothing else changes |
| VoucherRules.IssueCount | internal/adminapi/vouchers.go:275-276 | the loop runs total_count times; a negative count has no loop, because `make` panics on the negative capacity |
| VoucherRules.IssueCodes | internal/adminapi/vouchers.go:276-281 | the n codes are the generator's results for the n draws; generation fails exactly when one of the reads fails |
| VoucherRules.IssuedCodesShape | internal/adminapi/vouchers.go:276-291 | every issued code has length len(prefix)+code_length, the upper-cased prefix and an upper-case hex random part |
| VoucherRules.Stage | internal/adminapi/vouchers.go:275-291 | exactly one staged voucher per code, the k-th being the issued voucher for the k-th code |
| VoucherRules.Inserted | internal/adminapi/vouchers.go:294 | the staged vouchers take consecutive ids from the counter, in order |
| VoucherRules.InsertKeepsCodesUnique | internal/adminapi/vouchers.go:294 | inserting staged vouchers whose codes clash neither with each other nor with stored ones keeps codes unique |
| VoucherRules.RedeemRejection | internal/adminapi/vouchers.go:545-583 | redemption proceeds exactly when every guard passes; a non-available voucher is reported with its status, and the password, expiry and batch guards apply in that order |
| VoucherRules.RedeemedVoucherRejected | internal/adminapi/vouchers.go:546-550 | a redeemed voucher is rejected as not available with status used, whatever else holds |
| VoucherRules.ExpiredVoucherRejected | internal/adminapi/vouchers.go:557-562 | once marked expired, a voucher is rejected as not available with status expired |
| VoucherRules.NewAccount | internal/adminapi/vouchers.go:600-619 | the account gets the trimmed user name, the new password, the voucher's profile, the computed expiry and status enabled, and copies address pool, active number, rates, domain and bind flags from the profile |
| VoucherRules.PaddedUsernamePassesCheck | internal/adminapi/vouchers.go:572-577 | the user-name check uses the untrimmed name while the account stores the trimmed one, so a padded copy of a taken name passes the check |
| VoucherRules.BatchUpdates | internal/adminapi/vouchers.go:354-381 | the updates map fails exactly on an unparsable expire time, and always writes updated_at |
| VoucherRules.ApplyBatchUpdates | internal/adminapi/vouchers.go:383 | applying an updates map never touches id, counts, prefix, code length or created_at |
| VoucherRules.BatchUpdateEffect | internal/adminapi/vouchers.go:354-383 | the update writes strings only when non-empty, ids and valid_days only when positive, the expire time only when given, and updated_at always |
| VoucherRules.BatchExpiryUpdateKeepsVoucherExpiry | internal/adminapi/vouchers.go:374-380 | a new batch expire_time does not reach vouchers already issued: redemption still tests their issue-time copy, and a valid_days 0 account gets that old time, not the batch's new one |
| VoucherStore.ValidAfterIssue | internal/adminapi/vouchers.go:261-301 | inserting a new batch and the available vouchers staged for it, when their codes clash with nothing, keeps the store invariant with both counters moved on |
| VoucherStore.ValidAfterUnusedWrite | internal/adminapi/vouchers.go:560 | marking an unused voucher expired or disabled keeps the store invariant |
| VoucherStore.ValidAfterRedeem | internal/adminapi/vouchers.go:591-646 | the redemption transaction keeps the store invariant |
| VoucherStore.ValidAfterBatchWrite | internal/adminapi/vouchers.go:383 | rewriting a batch with its count and a free or unchanged name keeps the store invariant |
| VoucherStore.ValidAfterDelete | internal/adminapi/vouchers.go:412-424 | deleting a batch with its vouchers keeps the store invariant |
| VoucherStore.StageVouchers | internal/adminapi/vouchers.go:274-291 | the staging loop fails exactly when code generation fails, and otherwise stages one available voucher per generated code |
| VoucherStore.VoucherStore.CreateVoucherBatch | internal/adminapi/vouchers.go:219-304 | pre-check failures and failed transactions change nothing; a negative total_count is a recovered panic that inserts nothing; otherwise the batch and exactly total_count vouchers are inserted together |
| VoucherStore.VoucherStore.IssueTransaction | internal/adminapi/vouchers.go:261-301 | a negative total_count (a panic in `make`, recovered), a generation failure or a code clash rolls back everything; otherwise batch and vouchers are committed together |
| VoucherStore.VoucherStore.RedeemTransaction | internal/adminapi/vouchers.go:591-646 | all or nothing: the account is added, the voucher becomes used and linked, and used_count rises by exactly 1 |
| VoucherStore.VoucherStore.UpdateVoucherBatch | internal/adminapi/vouchers.go:313-389 | not found, name taken, profile missing, bad expire time in that order and without a write; otherwise the batch becomes the updated row |
| VoucherStore.VoucherStore.DeleteVoucherBatch | internal/adminapi/vouchers.go:397-429 | refused with the number of used vouchers while there are any; otherwise the batch and exactly its vouchers are removed |
| VoucherStore.VoucherStore.RedeemVoucher | internal/adminapi/vouchers.go:526-650 | the guard chain in order, where only the expiry rejection writes; a success creates the account, marks the voucher used and counts it once |
| VoucherStore.VoucherStore.DisableVoucher | internal/adminapi/vouchers.go:658-683 | not found and used vouchers are refused without a write; any other status becomes disabled with only updated_at also changed |
| VoucherStore.RedeemSameCodeTwice | internal/adminapi/vouchers.go:546-550 | after a successful redemption, a second one of the same code fails as not available with status used |
| Keyed.UniqueAfterWrite | internal/adminapi/pppoe.go:223-228 | writing a row keeps a unique index when it keeps its value or takes one no other row has |
| Keyed.UniqueAfterRemove | internal/adminapi/pppoe.go:366 | removing a row keeps a unique index |
| Keyed.TakenByOther | internal/adminapi/pppoe.go:279 | under a unique index, "taken by a row other than id" is "taken, and not by id" |
| Keyed.Referencing | internal/adminapi/pppoe.go:359 | the users counted for a profile are exactly those whose profile_id is the profile's id |
| PppoeRequests.ToPppoeProfile | internal/adminapi/pppoe.go:51-126 | the name is trimmed, node id, status and the two bind flags are coerced, every other field is copied |
| PppoeRequests.ToPppoeUser | internal/adminapi/pppoe.go:398-451 | the user name is trimmed, profile and node ids and status are coerced, every other field is copied |
| PppoeRequests.ToPppoeProfileIdempotent | internal/adminapi/pppoe.go:51-126 | sending a converted profile back converts to the same profile |
| PppoeRequests.ToPppoeUserIdempotent | internal/adminapi/pppoe.go:398-451 | sending a converted user back, ids as numbers or strings, converts to the same user |
| PppoeRules.DefaultedProfile | internal/adminapi/pppoe.go:230-238 | an empty status becomes enabled and an interim interval 0 becomes 600, set values are kept, timestamps are now, nothing else changes |
| PppoeRules.DefaultedProfileIdempotent | internal/adminapi/pppoe.go:230-236 | defaulting a defaulted profile changes nothing |
| PppoeRules.ProfileUpdates | internal/adminapi/pppoe.go:285-335 | the updates map always writes updated_at and each of the 17 numeric and bind columns with the request's value (0 when omitted); name, status, domain and remark only when non-empty, node_id only when positive |
| PppoeRules.ApplyProfileUpdates | internal/adminapi/pppoe.go:337 | applying the updates never touches id or created_at |
| PppoeRules.ProfileUpdateEffect | internal/adminapi/pppoe.go:285-337 | strings are written only when non-empty, numbers and bind flags always (an omitted number becomes 0), node_id only when positive |
| PppoeRules.ProfileSelfUpdate | internal/adminapi/pppoe.go:285-337 | updating a profile with its own values changes only updated_at |
| PppoeRules.ProfileUpdateIdempotent | internal/adminapi/pppoe.go:285-337 | applying the same update twice equals applying it once |
| PppoeRules.CreateUserRejection | internal/adminapi/pppoe.go:564-590 | a user passes exactly when the profile exists, the name is free, the password is set and the expire time parsed; each refusal (PROFILE_NOT_FOUND, USERNAME_EXISTS, MISSING_PASSWORD, INVALID_EXPIRE_TIME) is given exactly when the earlier checks pass and its own fails |
| PppoeRules.InheritedUser | internal/adminapi/pppoe.go:592-608 | an empty status becomes enabled, an empty domain takes the profile's, a VLAN id 0 takes the profile's when that is positive; id, expiry and timestamps are set, nothing else changes |
| PppoeRules.InheritedUserFilled | internal/adminapi/pppoe.go:595-606 | the created user has a status, has a domain unless neither it nor the profile has one, and a non-zero VLAN id wherever the profile's is positive |
| PppoeRules.InheritedUserIdempotent | internal/adminapi/pppoe.go:595-606 | inheriting twice from the same profile equals inheriting once |
| PppoeRules.UserUpdates | internal/adminapi/pppoe.go:660-720 | the user updates map fails exactly on an unparsable expire time and always writes updated_at |
| PppoeRules.ApplyUserUpdates | internal/adminapi/pppoe.go:722 | applying the updates never touches id or created_at |
| PppoeRules.UserUpdateEffect | internal/adminapi/pppoe.go:660-722 | strings and the password are written only when non-empty, VLAN ids when non-negative, profile and node ids when positive, the expiry when given |
| PppoeRules.EmptyPasswordKeepsPassword | internal/adminapi/pppoe.go:666-668 | an update without a password keeps the stored password |
| PppoeRules.Redacted | internal/adminapi/pppoe.go:614 | the answer is the user with the password blanked and nothing else changed |
| PppoeRules.ClearPasswords | internal/adminapi/pppoe.go:517-519 | the list loop blanks every user's password in place and changes nothing else |
| PppoeStore.ValidAfterProfileWrite | internal/adminapi/pppoe.go:223-245 | writing a profile under an existing or the next id, with a free or unchanged name, keeps the store invariant |
| PppoeStore.ValidAfterUserWrite | internal/adminapi/pppoe.go:575-580 | writing a user with a free or unchanged name keeps the store invariant |
| PppoeStore.PppoeStore.CreatePppoeProfile | internal/adminapi/pppoe.go:211-245 | a taken name is refused without a write; otherwise the defaulted profile is inserted under the next id |
| PppoeStore.PppoeStore.UpdatePppoeProfile | internal/adminapi/pppoe.go:254-343 | not found, then a rename to a taken name, are refused without a write; otherwise the row becomes the updated profile |
| PppoeStore.PppoeStore.DeletePppoeProfile | internal/adminapi/pppoe.go:351-373 | refused with the user count while any user is on the profile; otherwise the profile is removed, an unknown id included |
| PppoeStore.PppoeStore.CreatePppoeUser | internal/adminapi/pppoe.go:554-616 | the create checks in order, then the inheriting user is inserted under the new id; the answer has no password |
| PppoeStore.PppoeStore.UpdatePppoeUser | internal/adminapi/pppoe.go:625-729 | not found, a rename to a taken name, a bad expire time are refused without a write; otherwise the row becomes the updated user; the answer has no password |
| HotspotRequests.ToHotspotProfile | internal/adminapi/hotspot.go:44-101 | the name is trimmed, node id, status and bind_mac are coerced, every other field is copied |
| HotspotRequests.ToHotspotUser | internal/adminapi/hotspot.go:371-418 | the user name is trimmed, profile and node ids and status are coerced, every other field is copied |
| HotspotRequests.ToHotspotProfileIdempotent | internal/adminapi/hotspot.go:44-101 | sending a converted profile back converts to the same profile |
| HotspotRequests.ToHotspotUserIdempotent | internal/adminapi/hotspot.go:371-418 | sending a converted user back, ids as numbers or strings, converts to the same user |
| HotspotRules.DefaultedProfile | internal/adminapi/hotspot.go:200-208 | an empty status becomes enabled and an empty auth mode userpass, set values are kept, timestamps are now, nothing else changes |
| HotspotRules.DefaultedProfileIdempotent | internal/adminapi/hotspot.go:200-206 | defaulting a defaulted profile changes nothing |
| HotspotRules.ProfileUpdates | internal/adminapi/hotspot.go:255-314 | the updates map always writes updated_at, bind_mac and max_devices |
| HotspotRules.ApplyProfileUpdates | internal/adminapi/hotspot.go:316 | applying the updates never touches id or created_at |
| HotspotRules.ProfileUpdateEffect | internal/adminapi/hotspot.go:255-316 | strings are written only when non-empty, numeric limits when non-negative, bind_mac and max_devices always, node_id only when positive |
| HotspotRules.ProfileSelfUpdate | internal/adminapi/hotspot.go:255-316 | updating a profile with its own values changes only updated_at |
| HotspotRules.ProfileUpdateIdempotent | internal/adminapi/hotspot.go:255-316 | applying the same update twice equals applying it once |
| HotspotRules.CreateUserRejection | internal/adminapi/hotspot.go:526-555 | a user passes exactly when the profile exists, the name is free, a password is set or the profile uses MAC auth, and the expire time parsed; each refusal (PROFILE_NOT_FOUND, USERNAME_EXISTS, MISSING_PASSWORD for an empty password outside MAC auth, INVALID_EXPIRE_TIME) is given exactly when the earlier checks pass and its own fails |
| HotspotRules.CreatedUser | internal/adminapi/hotspot.go:544-564 | under MAC auth an empty password becomes the user name, a set password is kept; an empty status becomes enabled; id, expiry and timestamps are set, nothing else changes |
| HotspotRules.CreatedUserHasPassword | internal/adminapi/hotspot.go:544-549 | a created user has a password unless its user name is empty under MAC auth, and always has a status |
| HotspotRules.UserUpdates | internal/adminapi/hotspot.go:615-658 | the user updates map fails exactly on an unparsable expire time and always writes updated_at |
| HotspotRules.ApplyUserUpdates | internal/adminapi/hotspot.go:660 | applying the updates never touches id or created_at |
| HotspotRules.UserUpdateEffect | internal/adminapi/hotspot.go:615-660 | strings and the password are written only when non-empty, profile and node ids only when positive, the expiry only when given |
| HotspotRules.EmptyPasswordKeepsPassword | internal/adminapi/hotspot.go:622-624 | an update without a password keeps the stored password |
| HotspotRules.Redacted | internal/adminapi/hotspot.go:570 | the answer is the user with the password blanked and nothing else changed |
| HotspotRules.ClearPasswords | internal/adminapi/hotspot.go:479-481 | the list loop blanks every user's password in place and changes nothing else |
| HotspotStore.ValidAfterProfileWrite | internal/adminapi/hotspot.go:193-214 | writing a profile under an existing or the next id, with a free or unchanged name, keeps the store invariant |
| HotspotStore.ValidAfterUserWrite | internal/adminapi/hotspot.go:537-542 | writing a user with a free or unchanged name keeps the store invariant |
| HotspotStore.HotspotStore.CreateHotspotProfile | internal/adminapi/hotspot.go:181-215 | a taken name is refused without a write; otherwise the defaulted profile is inserted under the next id |
| HotspotStore.HotspotStore.UpdateHotspotProfile | internal/adminapi/hotspot.go:224-322 | not found, then a rename to a taken name, are refused without a write; otherwise the row becomes the updated profile |
| HotspotStore.HotspotStore.DeleteHotspotProfile | internal/adminapi/hotspot.go:330-352 | refused with the user count while any user is on the profile; otherwise the profile is removed, an unknown id included |
| HotspotStore.HotspotStore.CreateHotspotUser | internal/adminapi/hotspot.go:516-572 | the create checks in order, then the user with the MAC password rule is inserted under the new id; the answer has no password |
| HotspotStore.HotspotStore.UpdateHotspotUser | internal/adminapi/hotspot.go:581-667 | not found, a rename to a taken name, a bad expire time are refused without a write; otherwise the row becomes the updated user; the answer has no password |

## Left out

- List, get and paging handlers (ListVoucherBatches, GetVoucherBatch, ListVouchers, GetVoucher, ListPppoe*, GetPppoe*, ListHotspot*, GetHotspot*): SQL filters, sorting and paging are database plumbing. Only their password-blanking loops are modelled.
- DeletePppoeUser and DeleteHotspotUser: unconditional single-row deletes with no rule beyond the database call.
- Echo request binding, INVALID_ID path parsing and the validator struct tags: the model accepts every request the converters can receive.
- The time parser (`parseTimeInput`) and the `dateparse` layouts: its outcome is an input. On create it is `Option<Time>`, with the one-year default already applied. On update it is `TimeInput`, where Blank is an empty field.
- `crypto/rand`, `common.UUIDint64`, `time.Now` and `AddDate`: these are inputs or a function parameter. A single `now` stands for every clock read in one request.
- Errors of the database itself are not modelled: DATABASE_ERROR, UPDATE_FAILED, DELETE_FAILED, COMMIT_FAILED, UPDATE_VOUCHER_FAILED, and a failing COUNT or create.
  - CREATE_FAILED is modelled only where the model can name the cause: a clashing voucher code, or a taken user id.
  - CREATE_USER_FAILED and UPDATE_BATCH_FAILED are modelled only for a taken account id or name and for a missing batch row.
- Concurrency: RedeemVoucher reads the voucher outside its transaction, without a lock or conditional update. The model is sequential, and RedeemSameCodeTwice states only the sequential exactly-once property.
- The response after a recovered panic: CreateVoucherBatch's deferred `recover` rolls back and the handler returns without writing a body. The model reports this as the error Panicked, with the store unchanged.
- `CreateInBatches` chunking into groups of 100: the model inserts all staged vouchers or none.
- Auto-increment gaps left by a rolled-back insert: the counters move only on commit.
- VoucherStore.VoucherStore.RedeemTransaction: the `RadiusUser` record and its table definition are not part of this model, so a unique index on `radius_user.username` is assumed. The insert of an account whose trimmed name is taken therefore fails with CREATE_USER_FAILED; with a plain index the database would accept a second row under that name.
- VoucherStore.VoucherStore.RedeemVoucher: relies on the same assumed unique index on `radius_user.username`. A padded name such as " bob" while `bob` exists passes the untrimmed check (see VoucherRules.PaddedUsernamePassesCheck) and is then refused with CREATE_USER_FAILED, not stored as a second `bob`.
- The common ENABLED/DISABLED constants come from a package that is not part of this model. They are taken to be "enabled"/"disabled".
- Unicode case mapping: ToLower/ToUpper change only ASCII letters, so a status or prefix with other letters differs from Go's result.
- amd64 float conversion is modelled as MinInt64 for out-of-range and non-finite values. JSON numbers are reals, so NaN, infinities and float64 rounding of large ids are not represented.
- Voucher status is a four-value datatype, so a stored row with some other status string cannot be represented.
- Hotspot user accounting columns (usage counters, online time) and voucher_id are not written by the modelled handlers, and are left out of the record.
- The web UI (`formatRate`, usage percentages) and the JSON marshalling of voucher rows.
- The updates maps are modelled as records with one optional write per column. The order in which the handlers insert keys is not modelled; it does not affect the map gorm receives.
- PppoeStore.PppoeStore.UpdatePppoeUser: like the handler, it does not check that a new profile_id exists, so "every user's profile exists" is not an invariant of the model.
- HotspotStore.HotspotStore.UpdateHotspotUser: like the handler, it does not check that a new profile_id exists, so "every user's profile exists" is not an invariant of the model.
