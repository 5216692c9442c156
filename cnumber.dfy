/**
 * strtol(s, &end, 0) from the C library, as isLegalNum uses it, and the
 * conversion of its `long` result to an `int`. A C `long` is taken to be
 * 64 bits and an `int` 32 bits (the LP64 model); converting a `long` that
 * does not fit keeps its low 32 bits, two's complement.
 */
module CNumber {
  import opened CText

  const LONG_MIN: int := -0x8000_0000_0000_0000
  const LONG_MAX: int := 0x7FFF_FFFF_FFFF_FFFF
  const INT_MIN: int := -0x8000_0000
  const INT_MAX: int := 0x7FFF_FFFF

  /** What strtol returns and where it leaves `end`, as an index into the string. */
  datatype Parse = Parse(value: int, end: nat)

  /** The value of c as a digit: 0-9, then a-z or A-Z from 10 up; 36 for any other character. */
  function DigitValue(c: char): (d: nat)
    ensures d <= 36
    ensures d < 10 <==> IsDigit(c)
  {
    if '0' <= c <= '9' then c as int - '0' as int
    else if 'a' <= c <= 'z' then c as int - 'a' as int + 10
    else if 'A' <= c <= 'Z' then c as int - 'A' as int + 10
    else 36
  }

  /** The end of the run of digits of the base that starts at k. */
  function DigitsEnd(t: seq<char>, k: nat, base: nat): (e: nat)
    requires k <= |t|
    ensures k <= e <= |t|
    ensures forall i :: k <= i < e ==> DigitValue(t[i]) < base
    ensures e < |t| ==> DigitValue(t[e]) >= base
    decreases |t| - k
  {
    if k < |t| && DigitValue(t[k]) < base then DigitsEnd(t, k + 1, base) else k
  }

  /** The number the digits ds spell in the base, most significant first. */
  function DigitsValue(ds: seq<char>, base: nat): (n: nat)
  {
    if ds == [] then 0 else DigitsValue(ds[..|ds| - 1], base) * base + DigitValue(ds[|ds| - 1])
  }

  /** What strtol does with a value outside `long`: it returns the nearest bound. */
  function ClampLong(x: int): (r: int)
    ensures LONG_MIN <= r <= LONG_MAX
    ensures LONG_MIN <= x <= LONG_MAX ==> r == x
  {
    if x < LONG_MIN then LONG_MIN else if x > LONG_MAX then LONG_MAX else x
  }

  /** The `int` a `long` becomes on assignment: its low 32 bits, two's complement. */
  function IntOfLong(x: int): (r: int)
    ensures INT_MIN <= r <= INT_MAX
    ensures (x - r) % 0x1_0000_0000 == 0
    ensures INT_MIN <= x <= INT_MAX ==> r == x
  {
    (x - INT_MIN) % 0x1_0000_0000 + INT_MIN
  }

  /** The sign strtol reads at j: is it a minus, and where do the digits (or the base prefix) start. */
  function SignEnd(t: seq<char>, j: nat): (k: nat)
    requires j <= |t|
    ensures j <= k <= |t|
  {
    if j < |t| && (t[j] == '-' || t[j] == '+') then j + 1 else j
  }

  /** Base 0 at k: `0x` or `0X` before a hex digit selects 16, another leading `0` selects 8, anything else 10. */
  predicate HexPrefix(t: seq<char>, k: nat) {
    k + 2 < |t| && t[k] == '0' && (t[k + 1] == 'x' || t[k + 1] == 'X') && DigitValue(t[k + 2]) < 16
  }

  function Base(t: seq<char>, k: nat): (b: nat)
    ensures b == 8 || b == 10 || b == 16
  {
    if HexPrefix(t, k) then 16 else if k < |t| && t[k] == '0' then 8 else 10
  }

  /**
   * strtol(t, &end, 0): skip white space, read an optional sign, choose the
   * base from the prefix and read the longest run of its digits. With no
   * digit, nothing is converted: the value is 0 and end is the start of t.
   */
  function StrToL(t: seq<char>): (r: Parse)
    ensures r.end <= |t|
    ensures r.end == 0 ==> r.value == 0
    ensures LONG_MIN <= r.value <= LONG_MAX
  {
    var i := LeadingBlanks(t);
    var negative := i < |t| && t[i] == '-';
    var j := SignEnd(t, i);
    var base := Base(t, j);
    var k := if base == 16 then j + 2 else j;
    var e := DigitsEnd(t, k, base);
    if e == k then Parse(0, 0)
    else
      var m: int := DigitsValue(t[k..e], base);
      Parse(ClampLong(if negative then -m else m), e)
  }

  // ---------------------------------------------------------------------
  // Decimal numerals: the text that strtol reads back

  function DigitChar(d: nat): (c: char)
    requires d < 10
    ensures IsDigit(c) && DigitValue(c) == d
  {
    ('0' as int + d) as char
  }

  /** The decimal digits of n, without leading zeros ("0" for zero). */
  function Decimal(n: nat): (ds: seq<char>)
    ensures |ds| >= 1
    ensures forall i :: 0 <= i < |ds| ==> IsDigit(ds[i])
    ensures n > 0 ==> ds[0] != '0'
  {
    if n < 10 then [DigitChar(n)] else Decimal(n / 10) + [DigitChar(n % 10)]
  }

  /** The numeral of x: its decimal digits, after a minus sign when x is negative. */
  function Numeral(x: int): (t: seq<char>)
    ensures NUL !in t
  {
    if x < 0 then ['-'] + Decimal(-x) else Decimal(x)
  }

  /** Decimal digits read back in base 10 give the number. */
  lemma {:induction false} DecimalValue(n: nat)
    ensures DigitsValue(Decimal(n), 10) == n
    decreases n
  {
    if n >= 10 {
      var ds := Decimal(n);
      assert ds[..|ds| - 1] == Decimal(n / 10);
      DecimalValue(n / 10);
    }
  }

  /** A run of digits of the base from k to the end of t stops only at the end. */
  lemma {:induction false} DigitsEndAll(t: seq<char>, k: nat, base: nat)
    requires k <= |t|
    requires forall i :: k <= i < |t| ==> DigitValue(t[i]) < base
    ensures DigitsEnd(t, k, base) == |t|
    decreases |t| - k
  {
    if k < |t| {
      DigitsEndAll(t, k + 1, base);
    }
  }

  /** The digits of a numeral start past its sign and its blanks-free start, in base 10 unless it is "0". */
  lemma {:induction false} NumeralShape(x: int)
    ensures LeadingBlanks(Numeral(x)) == 0
    ensures SignEnd(Numeral(x), 0) == (if x < 0 then 1 else 0)
    ensures x != 0 ==> Base(Numeral(x), SignEnd(Numeral(x), 0)) == 10
    ensures x == 0 ==> Base(Numeral(x), 0) == 8
  {
    var t := Numeral(x);
    var ds := if x < 0 then Decimal(-x) else Decimal(x);
    assert !IsSpace(t[0]) by {
      if x >= 0 {
        assert IsDigit(ds[0]);
      }
    }
    LeadingBlanksIs(t, 0);
    if x < 0 {
      assert t[1] == ds[0];
    }
  }

  /** strtol reads the numeral of any `long` back, to its end. */
  lemma {:induction false} NumeralRoundTrip(x: int)
    requires LONG_MIN <= x <= LONG_MAX
    ensures StrToL(Numeral(x)) == Parse(x, |Numeral(x)|)
  {
    var t := Numeral(x);
    var n: nat := if x < 0 then -x else x;
    var ds := Decimal(n);
    var j := if x < 0 then 1 else 0;
    NumeralShape(x);
    assert t[j..] == ds;
    forall i | j <= i < |t| ensures DigitValue(t[i]) < Base(t, j) {
      assert t[i] == ds[i - j];
    }
    var base := Base(t, j);
    DigitsEndAll(t, j, base);
    assert t[j..|t|] == ds;
    assert DigitsValue(ds, base) == n by {
      if x == 0 {
        assert ds == [DigitChar(0)] && ds[..0] == [];
      } else {
        DecimalValue(n);
      }
    }
    assert (x < 0) == (t[0] == '-') by {
      if x >= 0 {
        assert IsDigit(ds[0]);
      }
    }
  }
}
