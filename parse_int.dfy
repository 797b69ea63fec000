// Go's strconv.ParseInt(s, 10, 64) and strconv.FormatInt(n, 10), on which the
// handlers rely to read an identifier sent as a JSON string. ParseUint scans
// the digits from left to right and reports an overflow as soon as the value
// read so far no longer fits 64 bits, whatever follows; ParseInt then clamps an
// out-of-range magnitude to the nearest signed 64-bit bound.
module ParseInt {

  const MaxUint64: int := 0xFFFF_FFFF_FFFF_FFFF
  const MaxInt64: int := 0x7FFF_FFFF_FFFF_FFFF
  const MinInt64: int := -0x8000_0000_0000_0000

  predicate IsInt64(n: int) { MinInt64 <= n <= MaxInt64 }

  predicate IsDigit(c: char) { '0' <= c <= '9' }

  function DigitValue(c: char): (d: nat)
    requires IsDigit(c)
    ensures d < 10
  {
    c as int - '0' as int
  }

  function DigitChar(d: nat): (c: char)
    requires d < 10
    ensures IsDigit(c) && DigitValue(c) == d
  {
    ('0' as int + d) as char
  }

  /** The state of ParseUint's digit scan: a syntax error, an overflow, or the value read so far. */
  datatype Scan = Syntax | Range | Value(n: nat)

  /** One step of the scan: reading `c` after the digits worth `acc`. */
  function Step(acc: nat, c: char): (r: Scan)
    ensures r.Value? ==> r.n <= MaxUint64
    ensures r.Syntax? <==> !IsDigit(c)
  {
    if !IsDigit(c) then Syntax
    else if acc * 10 + DigitValue(c) > MaxUint64 then Range
    else Value(acc * 10 + DigitValue(c))
  }

  /** Continues a scan that has reached `r` with the character `c`; an error is final. */
  function Then(r: Scan, c: char): Scan {
    if r.Value? then Step(r.n, c) else r
  }

  /** The scan of `s` started with the value `acc` already read. */
  function ScanDigits(s: string, acc: nat): (r: Scan)
    requires acc <= MaxUint64
    ensures r.Value? ==> r.n <= MaxUint64
    decreases |s|
  {
    if s == [] then Value(acc)
    else
      var next := Step(acc, s[0]);
      if next.Value? then ScanDigits(s[1..], next.n) else next
  }

  /** strconv.ParseUint(s, 10, 64), error kind only: an empty string is a syntax error. */
  function ParseUint64(s: string): (r: Scan)
    ensures r.Value? ==> r.n <= MaxUint64
    ensures s == [] ==> r == Syntax
  {
    if s == [] then Syntax else ScanDigits(s, 0)
  }

  datatype NumError = NoError | ErrSyntax | ErrRange

  /** What strconv.ParseInt returns: the value (meaningful even beside an error) and the error. */
  datatype IntParse = IntParse(value: int, err: NumError)

  /** strconv.ParseInt(s, 10, 64). */
  function ParseInt64(s: string): (r: IntParse)
    ensures IsInt64(r.value)
    ensures r.err == ErrSyntax ==> r.value == 0
    ensures r.err == ErrRange ==> r.value == MaxInt64 || r.value == MinInt64
    ensures s == [] ==> r == IntParse(0, ErrSyntax)
  {
    if s == [] then IntParse(0, ErrSyntax)
    else
      var neg := s[0] == '-';
      var digits := if s[0] == '+' || s[0] == '-' then s[1..] else s;
      var u := ParseUint64(digits);
      if u.Syntax? then IntParse(0, ErrSyntax)
      else if u.Range? then IntParse(if neg then MinInt64 else MaxInt64, ErrRange)
      else if !neg && u.n > MaxInt64 then IntParse(MaxInt64, ErrRange)
      else if neg && u.n > -MinInt64 then IntParse(MinInt64, ErrRange)
      else
        var magnitude: int := u.n;
        IntParse(if neg then -magnitude else magnitude, NoError)
  }

  /** strconv.FormatUint(n, 10): the shortest decimal spelling of n. */
  function FormatNat(n: nat): (r: string)
    ensures |r| > 0 && forall i :: 0 <= i < |r| ==> IsDigit(r[i])
    ensures |r| > 1 ==> r[0] != '0'
  {
    if n < 10 then [DigitChar(n)] else FormatNat(n / 10) + [DigitChar(n % 10)]
  }

  /** strconv.FormatInt(n, 10). */
  function FormatInt(n: int): (r: string)
    ensures |r| > 0
    ensures n < 0 <==> r[0] == '-'
  {
    if n < 0 then "-" + FormatNat(-n) else FormatNat(n)
  }

  /** Scanning one more character continues the scan of the prefix. */
  lemma {:induction false} ScanSnoc(s: string, c: char, acc: nat)
    requires acc <= MaxUint64
    ensures ScanDigits(s + [c], acc) == Then(ScanDigits(s, acc), c)
    decreases |s|
  {
    if s == [] {
      assert [c][1..] == [];
    } else {
      var next := Step(acc, s[0]);
      assert (s + [c])[0] == s[0];
      assert (s + [c])[1..] == s[1..] + [c];
      if next.Value? {
        ScanSnoc(s[1..], c, next.n);
      }
    }
  }

  /** Scanning a decimal spelling yields its value, or an overflow when it exceeds 64 bits. */
  lemma {:induction false} ScanFormat(n: nat)
    ensures ScanDigits(FormatNat(n), 0) == if n <= MaxUint64 then Value(n) else Range
    decreases n
  {
    if n < 10 {
      assert FormatNat(n)[1..] == [];
    } else {
      var d := DigitChar(n % 10);
      ScanFormat(n / 10);
      ScanSnoc(FormatNat(n / 10), d, 0);
    }
  }

  /** ParseInt reads back what FormatInt wrote, for every 64-bit integer. */
  lemma {:induction false} ParseFormatRoundTrip(n: int)
    requires IsInt64(n)
    ensures ParseInt64(FormatInt(n)) == IntParse(n, NoError)
  {
    if n < 0 {
      var s := FormatInt(n);
      assert s[1..] == FormatNat(-n);
      ScanFormat(-n);
    } else {
      var s := FormatNat(n);
      ScanFormat(n);
      if s[0] == '+' || s[0] == '-' {
        assert IsDigit(s[0]);
      }
    }
  }

  /** A decimal spelling too large for int64 saturates at the bound of its sign. */
  lemma {:induction false} ParseClamps(n: nat)
    requires n > MaxInt64
    ensures ParseInt64(FormatNat(n)) == IntParse(MaxInt64, ErrRange)
    ensures ParseInt64("-" + FormatNat(n + 1)) == IntParse(MinInt64, ErrRange)
  {
    var s := FormatNat(n);
    ScanFormat(n);
    assert IsDigit(s[0]);
    var t := "-" + FormatNat(n + 1);
    assert t[1..] == FormatNat(n + 1);
    ScanFormat(n + 1);
  }

  /** A string that does not start with a sign or a digit reads as 0 with a syntax error. */
  lemma {:induction false} ParseRejectsNonDigit(s: string)
    requires s != [] && !IsDigit(s[0]) && s[0] != '+' && s[0] != '-'
    ensures ParseInt64(s) == IntParse(0, ErrSyntax)
  {
    assert Step(0, s[0]) == Syntax;
  }
}
