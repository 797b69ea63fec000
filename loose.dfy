// The request fields the handlers declare as interface{}: encoding/json hands
// them over as a bool, a float64, a string, nil, or a composite value, and the
// converters coerce them to identifiers, status words and 0/1 flags.
module Loose {
  import Text
  import opened ParseInt

  /** A JSON value decoded into Go's interface{}. Absent covers both a missing
      field and an explicit null; JOther covers arrays and objects. */
  datatype AnyValue = Absent | JBool(b: bool) | JNumber(x: real) | JString(s: string) | JOther

  /** The status words common.ENABLED and common.DISABLED. */
  const Enabled: string := "enabled"
  const Disabled: string := "disabled"

  /** Truncation toward zero, as Go's float-to-integer conversion rounds. */
  function Trunc(x: real): (r: int)
    ensures x >= 0.0 ==> 0 <= r && r as real <= x < r as real + 1.0
    ensures x < 0.0 ==> r <= 0 && r as real - 1.0 < x <= r as real
  {
    if x >= 0.0 then x.Floor else -((-x).Floor)
  }

  /** int64(v) for a float64 v: the truncation when it fits; otherwise the
      value amd64 hardware produces for an out-of-range conversion. */
  function FloatToInt64(x: real): (r: int)
    ensures IsInt64(r)
    ensures IsInt64(Trunc(x)) ==> r == Trunc(x)
    ensures !IsInt64(Trunc(x)) ==> r == MinInt64
  {
    var t := Trunc(x);
    if IsInt64(t) then t else MinInt64
  }

  /** The profile_id / node_id switch: a number is truncated, a non-empty string
      goes through strconv.ParseInt with its error ignored, anything else leaves 0. */
  function CoerceId(v: AnyValue): (r: int)
    ensures IsInt64(r)
    ensures !v.JNumber? && !v.JString? ==> r == 0
    ensures v == JString("") ==> r == 0
    ensures v.JNumber? ==> r == FloatToInt64(v.x)
    ensures v.JString? && v.s != "" ==> r == ParseInt64(v.s).value
  {
    match v
    case JNumber(x) => FloatToInt64(x)
    case JString(s) => if s != "" then ParseInt64(s).value else 0
    case _ => 0
  }

  /** The status switch: true/false name enabled/disabled, a string is lower-cased,
      anything else leaves the empty status. */
  function CoerceStatus(v: AnyValue): (r: string)
    ensures forall i :: 0 <= i < |r| ==> !Text.IsAsciiUpper(r[i])
    ensures v.JBool? ==> r == (if v.b then Enabled else Disabled)
    ensures v.JString? ==> r == Text.ToLower(v.s)
    ensures !v.JBool? && !v.JString? ==> r == ""
  {
    match v
    case JBool(b) => if b then Enabled else Disabled
    case JString(s) => Text.ToLower(s)
    case _ => ""
  }

  /** The bind_mac / bind_vlan switch: true is 1, false is 0, a number is
      truncated to an int, anything else leaves 0. */
  function CoerceFlag(v: AnyValue): (r: int)
    ensures IsInt64(r)
    ensures v == JBool(true) ==> r == 1
    ensures v == JBool(false) ==> r == 0
    ensures v.JNumber? ==> r == FloatToInt64(v.x)
    ensures v.JNumber? && IsInt64(Trunc(v.x)) ==> r == Trunc(v.x)
    ensures v.JNumber? && !IsInt64(Trunc(v.x)) ==> r == MinInt64
    ensures !v.JBool? && !v.JNumber? ==> r == 0
  {
    match v
    case JBool(b) => if b then 1 else 0
    case JNumber(x) => FloatToInt64(x)
    case _ => 0
  }

  /** An identifier reads the same whether the client sent it as a JSON number
      or as its decimal string. */
  lemma {:induction false} CoerceIdAgrees(n: int)
    requires IsInt64(n)
    ensures CoerceId(JNumber(n as real)) == n
    ensures CoerceId(JString(FormatInt(n))) == n
  {
    ParseFormatRoundTrip(n);
  }

  /** A string that is not a number (no sign or digit in front) coerces to 0. */
  lemma {:induction false} CoerceIdUnparsable(s: string)
    requires s != [] && !IsDigit(s[0]) && s[0] != '+' && s[0] != '-'
    ensures CoerceId(JString(s)) == 0
  {
    ParseRejectsNonDigit(s);
  }

  /** A coerced status is a fixed point: sending it back coerces to itself. */
  lemma {:induction false} CoerceStatusIdempotent(v: AnyValue)
    ensures CoerceStatus(JString(CoerceStatus(v))) == CoerceStatus(v)
  {
    var r := CoerceStatus(v);
    assert Text.ToLower(r) == r;
  }

  /** A flag sent as a boolean equals the same flag sent as the number 1 or 0. */
  lemma {:induction false} CoerceFlagBoolAsNumber(b: bool)
    ensures CoerceFlag(JBool(b)) == CoerceFlag(JNumber(if b then 1.0 else 0.0))
    ensures 0 <= CoerceFlag(JBool(b)) <= 1
  {
  }

  /** A flag reads back as itself when the client sends it as a JSON number. */
  lemma {:induction false} CoerceFlagAgrees(n: int)
    requires IsInt64(n)
    ensures CoerceFlag(JNumber(n as real)) == n
  {
    assert Trunc(n as real) == n;
  }
}
