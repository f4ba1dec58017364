/**
 * The .NET conversions the manifest parser applies to its fields —
 * `long.Parse`, `int.Parse` and `Convert.FromHexString` — and the
 * wrap-around of the C# `int` counters of the verification pass.
 */
module Numbers {
  import opened Wrappers

  type byte = b: int | 0 <= b < 256

  const INT32_MIN: int := -0x8000_0000
  const INT32_MAX: int := 0x7FFF_FFFF
  const INT64_MIN: int := -0x8000_0000_0000_0000
  const INT64_MAX: int := 0x7FFF_FFFF_FFFF_FFFF

  /** A C# `int`. */
  type int32 = x: int | INT32_MIN <= x <= INT32_MAX

  // ---------------------------------------------------------------- decimal

  predicate IsDigit(c: char) {
    '0' <= c <= '9'
  }

  predicate AllDigits(s: string) {
    forall i :: 0 <= i < |s| ==> IsDigit(s[i])
  }

  function DigitValue(c: char): nat
    requires IsDigit(c)
  {
    (c as int) - ('0' as int)
  }

  /** The value of a string of decimal digits, most significant first. */
  function DigitsValue(ds: string): nat
    requires AllDigits(ds)
  {
    if ds == [] then 0 else DigitsValue(ds[..|ds| - 1]) * 10 + DigitValue(ds[|ds| - 1])
  }

  /** The syntax `long.Parse` and `int.Parse` accept (with the default `NumberStyles.Integer`)
      on a string without white space: an optional sign and at least one ASCII digit. */
  predicate IsIntegerText(s: string) {
    if s != [] && (s[0] == '+' || s[0] == '-') then s[1..] != [] && AllDigits(s[1..])
    else s != [] && AllDigits(s)
  }

  /** The value an integer text denotes. */
  function IntegerValue(s: string): int
    requires IsIntegerText(s)
  {
    if s[0] == '-' then 0 - DigitsValue(s[1..])
    else if s[0] == '+' then DigitsValue(s[1..])
    else DigitsValue(s)
  }

  /** `long.Parse` (lo, hi = the `long` range) or `int.Parse` (the `int` range):
      `None` stands for the `FormatException` a malformed text raises and for the
      `OverflowException` a value outside the range raises. */
  function ParseInteger(s: string, lo: int, hi: int): (r: Option<int>)
    ensures r.Some? ==> lo <= r.value <= hi
  {
    if IsIntegerText(s) && lo <= IntegerValue(s) <= hi then Some(IntegerValue(s)) else None
  }

  /** The shortest decimal rendering of a natural number. */
  function NatText(n: nat): (s: string)
    ensures s != [] && AllDigits(s)
  {
    if n < 10 then [('0' as int + n) as char]
    else NatText(n / 10) + [('0' as int + n % 10) as char]
  }

  /** The decimal rendering of an integer, as `long.ToString()` writes it. */
  function IntText(v: int): (s: string)
    ensures s != []
  {
    if v < 0 then "-" + NatText(-v) else NatText(v)
  }

  lemma {:induction false} NatTextValue(n: nat)
    ensures DigitsValue(NatText(n)) == n
    decreases n
  {
    if n >= 10 {
      NatTextValue(n / 10);
      var s := NatText(n);
      assert s[..|s| - 1] == NatText(n / 10);
    }
  }

  /** The rendering of an integer is integer text denoting that integer. */
  lemma IntTextValue(v: int)
    ensures IsIntegerText(IntText(v)) && IntegerValue(IntText(v)) == v
  {
    var s := IntText(v);
    if v < 0 {
      NatTextValue(-v);
      assert s[0] == '-' && s[1..] == NatText(-v);
    } else {
      NatTextValue(v);
      assert IsDigit(s[0]);
    }
  }

  /** Parsing the rendering of any in-range integer gives that integer back. */
  lemma ParseIntText(v: int, lo: int, hi: int)
    requires lo <= v <= hi
    ensures ParseInteger(IntText(v), lo, hi) == Some(v)
  {
    IntTextValue(v);
  }

  /** The rendering of an integer outside the range is rejected (the `OverflowException`). */
  lemma ParseIntTextOutOfRange(v: int, lo: int, hi: int)
    requires !(lo <= v <= hi)
    ensures ParseInteger(IntText(v), lo, hi) == None
  {
    IntTextValue(v);
  }

  /** A character that is not a digit, anywhere after the optional leading sign, makes
      the text malformed (the `FormatException`). */
  lemma ParseIntegerNonDigit(s: string, i: int, lo: int, hi: int)
    requires 0 <= i < |s| && !IsDigit(s[i])
    requires i > 0 || (s[0] != '+' && s[0] != '-')
    ensures ParseInteger(s, lo, hi) == None
  {
    if s[0] == '+' || s[0] == '-' {
      assert s[1..][i - 1] == s[i];
    }
  }

  /** The empty text and a sign with no digit after it are malformed. */
  lemma ParseIntegerNoDigits(s: string, lo: int, hi: int)
    requires s == [] || (|s| == 1 && (s[0] == '+' || s[0] == '-'))
    ensures ParseInteger(s, lo, hi) == None
  {
    if s != [] {
      assert s[1..] == [];
    }
  }

  // ---------------------------------------------------------------- hexadecimal

  /** The digits `Convert.FromHexString` accepts, in either case. */
  predicate IsHexDigit(c: char) {
    ('0' <= c <= '9') || ('a' <= c <= 'f') || ('A' <= c <= 'F')
  }

  function HexValue(c: char): (v: nat)
    requires IsHexDigit(c)
    ensures v < 16
  {
    if '0' <= c <= '9' then (c as int) - ('0' as int)
    else if 'a' <= c <= 'f' then (c as int) - ('a' as int) + 10
    else (c as int) - ('A' as int) + 10
  }

  /** `Convert.FromHexString`: two hex digits per byte, high digit first;
      `None` stands for the `FormatException` an odd length or a non-hex character raises. */
  function FromHexString(s: string): (r: Option<seq<byte>>)
    ensures r.Some? <==> |s| % 2 == 0 && forall i :: 0 <= i < |s| ==> IsHexDigit(s[i])
    ensures r.Some? ==> |r.value| * 2 == |s|
    ensures r.Some? ==> forall k :: 0 <= k < |r.value| ==> r.value[k] == HexByte(s[2 * k], s[2 * k + 1])
  {
    if |s| % 2 == 0 && forall i :: 0 <= i < |s| ==> IsHexDigit(s[i]) then
      Some(seq(|s| / 2, k requires 0 <= k < |s| / 2 => HexByte(s[2 * k], s[2 * k + 1])))
    else
      None
  }

  /** The byte two hex digits stand for, high digit first. */
  function HexByte(high: char, low: char): byte
    requires IsHexDigit(high) && IsHexDigit(low)
  {
    HexValue(high) * 16 + HexValue(low)
  }

  /** The upper-case digit for a value below 16, as `Convert.ToHexString` writes it. */
  function HexDigit(v: nat): (c: char)
    requires v < 16
    ensures IsHexDigit(c) && HexValue(c) == v
  {
    if v < 10 then ('0' as int + v) as char else ('A' as int + v - 10) as char
  }

  /** `Convert.ToHexString`: the hex text of a byte array. */
  function ToHexString(b: seq<byte>): (s: string)
    ensures |s| == 2 * |b|
    ensures forall i :: 0 <= i < |s| ==> IsHexDigit(s[i])
  {
    if b == [] then [] else [HexDigit(b[0] / 16), HexDigit(b[0] % 16)] + ToHexString(b[1..])
  }

  /** Each byte is written as its high digit, then its low digit. */
  lemma {:induction false} ToHexStringBytes(b: seq<byte>)
    ensures var s := ToHexString(b);
      forall k :: 0 <= k < |b| ==> HexByte(s[2 * k], s[2 * k + 1]) == b[k]
  {
    if b != [] {
      var s := ToHexString(b);
      var rest := ToHexString(b[1..]);
      ToHexStringBytes(b[1..]);
      assert s == [HexDigit(b[0] / 16), HexDigit(b[0] % 16)] + rest;
      forall k | 0 <= k < |b| ensures HexByte(s[2 * k], s[2 * k + 1]) == b[k] {
        if k > 0 {
          assert s[2 * k] == rest[2 * (k - 1)] && s[2 * k + 1] == rest[2 * (k - 1) + 1];
          assert b[k] == b[1..][k - 1];
        }
      }
    }
  }

  /** Decoding the hex text of any byte array gives the array back. */
  lemma HexRoundTrip(b: seq<byte>)
    ensures FromHexString(ToHexString(b)) == Some(b)
  {
    var s := ToHexString(b);
    assert |s| == 2 * |b| && |s| % 2 == 0;
    assert FromHexString(s).Some?;
    var d := FromHexString(s).value;
    assert |d| == |b|;
    assert forall k :: 0 <= k < |b| ==> d[k] == b[k] by {
      ToHexStringBytes(b);
    }
    assert d == b;
  }

  // ---------------------------------------------------------------- int32 wrap-around

  /** `x + 1` on a C# `int` in an unchecked context: the maximum wraps to the minimum. */
  function Inc32(x: int32): int32 {
    if x == INT32_MAX then INT32_MIN else x + 1
  }

  /** The C# `int` that `n` increments from zero leave behind. */
  function Wrap32(n: nat): int32 {
    if n == 0 then 0 else Inc32(Wrap32(n - 1))
  }

  /** Up to the maximum the counter holds the count itself. */
  lemma {:induction false} Wrap32InRange(n: nat)
    requires n <= INT32_MAX
    ensures Wrap32(n) == n
  {
    if n > 0 {
      Wrap32InRange(n - 1);
    }
  }

  /** Past the maximum the counter holds the count modulo 2^32, moved into the `int` range. */
  lemma {:induction false} Wrap32Modulo(n: nat)
    ensures Wrap32(n) == (n + 0x8000_0000) % 0x1_0000_0000 - 0x8000_0000
  {
    if n > 0 {
      Wrap32Modulo(n - 1);
      var m := (n - 1 + 0x8000_0000) % 0x1_0000_0000;
      var q := (n - 1 + 0x8000_0000) / 0x1_0000_0000;
      assert n - 1 + 0x8000_0000 == q * 0x1_0000_0000 + m;
      if m == 0xFFFF_FFFF {
        assert n + 0x8000_0000 == (q + 1) * 0x1_0000_0000;
      } else {
        assert n + 0x8000_0000 == q * 0x1_0000_0000 + (m + 1);
      }
    }
  }
}
