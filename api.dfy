// Shared vocabulary of the admin API handlers: optional values, results,
// the machine-readable error codes the handlers answer with, time stamps and
// the loosely typed values of a gorm "updates" map.
module Api {

  /** Absolute time stamps, in seconds. Only their order and equality matter here. */
  type Time = int

  /** The zero value of Go's time.Time, as a field that was never set holds it. */
  const ZeroTime: Time := 0

  datatype Option<+T> = None | Some(value: T)

  datatype Result<+T, +E> = Ok(value: T) | Err(error: E)

  /** Success without a payload (the handlers answer with a fixed message). */
  datatype Outcome<+E> = Done | Failed(error: E)

  /** The `code` field of every failure response the modelled handlers send. */
  datatype ApiError =
    | ProfileNotFound            // PROFILE_NOT_FOUND
    | NameExists                 // NAME_EXISTS
    | UsernameExists             // USERNAME_EXISTS
    | MissingPassword            // MISSING_PASSWORD
    | InvalidExpireTime          // INVALID_EXPIRE_TIME
    | NotFound                   // NOT_FOUND
    | InUse(count: int)          // IN_USE, with the number of rows that block the delete
    | CreateFailed               // CREATE_FAILED, an insert refused by the store
    | GenerateFailed             // GENERATE_FAILED, the random source failed
    | VoucherNotFound            // VOUCHER_NOT_FOUND
    | VoucherNotAvailable(status: string)  // VOUCHER_NOT_AVAILABLE, with the current status
    | InvalidPassword            // INVALID_PASSWORD
    | VoucherExpired             // VOUCHER_EXPIRED
    | BatchDisabled              // BATCH_DISABLED
    | CreateUserFailed           // CREATE_USER_FAILED
    | UpdateBatchFailed          // UPDATE_BATCH_FAILED
    | VoucherUsed                // VOUCHER_USED
    | Panicked                   // a runtime panic, recovered after rolling the transaction back; no response body is written

  /** What the time parser made of an optional `expire_time` request field. */
  datatype TimeInput = Blank | Unparsable | At(t: Time)

  /** One column of a gorm `updates` map: Some(v) when the map writes v to
      the column, None when the map leaves it out. */
  type Write<T> = Option<T>

  /** The column written with `v` when `cond` holds, and left out otherwise. */
  function WriteIf<T>(cond: bool, v: T): (w: Write<T>)
    ensures w.Some? <==> cond
    ensures w.Some? ==> w.value == v
  {
    if cond then Some(v) else None
  }

  /** The value a column holds after the map is applied to a row where it
      held `prev`: gorm's Updates writes the columns the map holds and no
      other. */
  function After<T>(w: Write<T>, prev: T): (r: T)
    ensures w.Some? ==> r == w.value
    ensures w.None? ==> r == prev
  {
    if w.Some? then w.value else prev
  }
}
