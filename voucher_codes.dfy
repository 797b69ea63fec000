// generateVoucherCode: length/2+1 random bytes, hex-encoded in lower case,
// cut to `length` characters, the prefix put in front, and the whole code
// upper-cased. The random source is an input: what crypto/rand.Read wrote
// into the buffer, or its failure.
module VoucherCodes {
  import Text
  import opened Api

  newtype byte = x: int | 0 <= x < 256

  /** The outcome of one crypto/rand.Read call: the byte it wrote at each buffer
      position, or a failure. */
  datatype RandomRead = Filled(byteAt: nat -> byte) | ReadFailed

  const LowerHexDigits: string := "0123456789abcdef"

  predicate IsLowerHex(c: char) { '0' <= c <= '9' || 'a' <= c <= 'f' }

  predicate IsUpperHex(c: char) { '0' <= c <= '9' || 'A' <= c <= 'F' }

  /** The hex digit of a nibble, in each position of the pair for byte b. */
  function Nibble(b: byte, high: bool): (d: nat)
    ensures d < 16
  {
    if high then b as int / 16 else b as int % 16
  }

  /** encoding/hex.EncodeToString: two lower-case digits per byte, high nibble first. */
  function HexEncode(bs: seq<byte>): (r: string)
    ensures |r| == 2 * |bs|
    ensures forall i :: 0 <= i < |r| ==> IsLowerHex(r[i])
  {
    seq(2 * |bs|, i requires 0 <= i < 2 * |bs| => LowerHexDigits[Nibble(bs[i / 2], i % 2 == 0)])
  }

  /** The value of an upper-case hex digit. */
  function HexValue(c: char): (v: nat)
    requires IsUpperHex(c)
    ensures v < 16
  {
    if c <= '9' then c as int - '0' as int else c as int - 'A' as int + 10
  }

  /** Reads back pairs of upper-case hex digits as bytes; a trailing odd digit is ignored. */
  function HexDecode(s: string): (r: seq<byte>)
    requires forall i :: 0 <= i < |s| ==> IsUpperHex(s[i])
    ensures |r| == |s| / 2
  {
    seq(|s| / 2, i requires 0 <= i < |s| / 2 => (HexValue(s[2 * i]) * 16 + HexValue(s[2 * i + 1])) as byte)
  }

  /** The bytes rand.Read wrote into a buffer of n bytes. */
  function Buffer(fill: nat -> byte, n: nat): (r: seq<byte>)
    ensures |r| == n && forall i :: 0 <= i < n ==> r[i] == fill(i)
  {
    seq(n, i requires 0 <= i < n => fill(i))
  }

  /** generateVoucherCode(prefix, length). Go panics on a negative length (the
      slice bound code[:length]); the handler only calls it with length >= 6. */
  function GenerateVoucherCode(prefix: string, length: int, read: RandomRead): (r: Option<string>)
    requires length >= 0
    ensures r.None? <==> read.ReadFailed?
    ensures r.Some? ==> |r.value| == |prefix| + length
    ensures r.Some? ==> r.value[..|prefix|] == Text.ToUpper(prefix)
    ensures r.Some? ==> forall i :: |prefix| <= i < |r.value| ==> IsUpperHex(r.value[i])
    ensures r.Some? ==> forall i :: 0 <= i < |r.value| ==> !Text.IsAsciiLower(r.value[i])
  {
    if read.ReadFailed? then None
    else
      var code := HexEncode(Buffer(read.byteAt, length / 2 + 1));
      var cut := if |code| > length then code[..length] else code;
      var code := Text.ToUpper(prefix + cut);
      Text.ToUpperAppend(prefix, cut);
      Some(code)
  }

  /** The random part of a code from `fill`: digit j is the upper-cased hex digit
      of the high (even j) or low (odd j) nibble of byte j/2. */
  function RandomDigits(fill: nat -> byte, length: nat): (r: string)
    ensures |r| == length
    ensures forall j :: 0 <= j < length ==>
              r[j] == Text.UpperChar(LowerHexDigits[Nibble(fill(j / 2), j % 2 == 0)])
  {
    var code := HexEncode(Buffer(fill, length / 2 + 1));
    var r := Text.ToUpper(code[..length]);
    assert forall j :: 0 <= j < length ==> r[j] == Text.UpperChar(code[j]);
    r
  }

  /** A generated code is the upper-cased prefix followed by the random digits. */
  lemma {:induction false} CodeSplits(prefix: string, length: nat, fill: nat -> byte)
    ensures GenerateVoucherCode(prefix, length, Filled(fill)) == Some(Text.ToUpper(prefix) + RandomDigits(fill, length))
  {
    var code := HexEncode(Buffer(fill, length / 2 + 1));
    Text.ToUpperAppend(prefix, code[..length]);
  }

  /** Random digits are upper-case hex digits. */
  lemma {:induction false} RandomDigitsAreHex(fill: nat -> byte, length: nat)
    ensures forall j :: 0 <= j < length ==> IsUpperHex(RandomDigits(fill, length)[j])
  {
    forall j | 0 <= j < length
      ensures IsUpperHex(RandomDigits(fill, length)[j])
    {
      NibbleRoundTrip(Nibble(fill(j / 2), j % 2 == 0));
    }
  }

  /** The two random digits made from byte k read back as that byte. */
  lemma {:induction false} DecodeRandomPair(fill: nat -> byte, n: nat, k: nat)
    requires k < n
    ensures IsUpperHex(RandomDigits(fill, 2 * n)[2 * k]) && IsUpperHex(RandomDigits(fill, 2 * n)[2 * k + 1])
    ensures HexValue(RandomDigits(fill, 2 * n)[2 * k]) * 16 + HexValue(RandomDigits(fill, 2 * n)[2 * k + 1])
            == fill(k) as int
  {
    var digits := RandomDigits(fill, 2 * n);
    assert (2 * k) / 2 == k && (2 * k) % 2 == 0;
    assert (2 * k + 1) / 2 == k && (2 * k + 1) % 2 == 1;
    var hi := Nibble(fill(k), true);
    var lo := Nibble(fill(k), false);
    NibbleRoundTrip(hi);
    NibbleRoundTrip(lo);
    assert digits[2 * k] == Text.UpperChar(LowerHexDigits[hi]);
    assert digits[2 * k + 1] == Text.UpperChar(LowerHexDigits[lo]);
  }

  /** Decoding 2n random digits gives back the n bytes they were made from. */
  lemma {:induction false} DecodeRandomDigits(fill: nat -> byte, n: nat)
    ensures forall j :: 0 <= j < 2 * n ==> IsUpperHex(RandomDigits(fill, 2 * n)[j])
    ensures HexDecode(RandomDigits(fill, 2 * n)) == Buffer(fill, n)
  {
    var digits := RandomDigits(fill, 2 * n);
    var bytes := Buffer(fill, n);
    RandomDigitsAreHex(fill, 2 * n);
    forall k | 0 <= k < n
      ensures HexValue(digits[2 * k]) * 16 + HexValue(digits[2 * k + 1]) == bytes[k] as int
    {
      DecodeRandomPair(fill, n, k);
    }
    DecodePairs(digits, bytes);
  }

  /** A string of hex digit pairs decodes to the bytes the pairs spell. */
  lemma {:induction false} DecodePairs(s: string, bytes: seq<byte>)
    requires forall i :: 0 <= i < |s| ==> IsUpperHex(s[i])
    requires |s| == 2 * |bytes|
    requires forall k :: 0 <= k < |bytes| ==> HexValue(s[2 * k]) * 16 + HexValue(s[2 * k + 1]) == bytes[k] as int
    ensures HexDecode(s) == bytes
  {
    var decoded := HexDecode(s);
    forall k | 0 <= k < |bytes|
      ensures decoded[k] == bytes[k]
    {
      assert decoded[k] == (HexValue(s[2 * k]) * 16 + HexValue(s[2 * k + 1])) as byte;
    }
  }


  /** The random part of a code carries the first length/2 random bytes
      verbatim: decoding its leading 2*(length/2) characters gives them back. */
  lemma {:induction false} CodeCarriesRandomBytes(prefix: string, length: nat, fill: nat -> byte)
    ensures var r := GenerateVoucherCode(prefix, length, Filled(fill));
            var digits := r.value[|prefix|..|prefix| + 2 * (length / 2)];
            (forall i :: 0 <= i < |digits| ==> IsUpperHex(digits[i]))
            && HexDecode(digits) == Buffer(fill, length / 2)
  {
    var n := length / 2;
    var upper, digits := Text.ToUpper(prefix), RandomDigits(fill, length);
    CodeSplits(prefix, length, fill);
    var code := GenerateVoucherCode(prefix, length, Filled(fill)).value;
    assert code == upper + digits;
    SliceAfter(upper, digits, 2 * n);
    RandomDigitsPrefix(fill, length, 2 * n);
    assert code[|prefix|..|prefix| + 2 * n] == RandomDigits(fill, 2 * n);
    DecodeRandomDigits(fill, n);
  }

  /** The m characters after `a` in `a + b` are the first m of `b`. */
  lemma {:induction false} SliceAfter(a: string, b: string, m: nat)
    requires m <= |b|
    ensures (a + b)[|a|..|a| + m] == b[..m]
  {
    forall j | 0 <= j < m
      ensures (a + b)[|a|..|a| + m][j] == b[..m][j]
    {
      assert (a + b)[|a| + j] == b[j];
    }
  }

  /** A shorter random part is a prefix of a longer one from the same draw. */
  lemma {:induction false} RandomDigitsPrefix(fill: nat -> byte, length: nat, m: nat)
    requires m <= length
    ensures RandomDigits(fill, length)[..m] == RandomDigits(fill, m)
  {
    var long, short := RandomDigits(fill, length), RandomDigits(fill, m);
    forall j | 0 <= j < m
      ensures long[j] == short[j]
    {
    }
  }

  /** Upper-casing a lower-case hex digit and reading it back gives its value. */
  lemma {:induction false} NibbleRoundTrip(d: nat)
    requires d < 16
    ensures IsUpperHex(Text.UpperChar(LowerHexDigits[d]))
    ensures HexValue(Text.UpperChar(LowerHexDigits[d])) == d
  {
  }

  /** Two draws that differ in one of their first length/2 bytes give two
      different codes, whatever the prefix. */
  lemma {:induction false} DistinctDrawsDistinctCodes(prefix: string, length: nat, f: nat -> byte, g: nat -> byte, k: nat)
    requires k < length / 2 && f(k) != g(k)
    ensures GenerateVoucherCode(prefix, length, Filled(f)) != GenerateVoucherCode(prefix, length, Filled(g))
  {
    CodeCarriesRandomBytes(prefix, length, f);
    CodeCarriesRandomBytes(prefix, length, g);
    assert Buffer(f, length / 2)[k] != Buffer(g, length / 2)[k];
  }
}
