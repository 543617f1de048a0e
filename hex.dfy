/** Base-16 text as Python's `int(h, 16)` reads it and `hex(n)` writes it. */
module HexParse {

  datatype Option<+T> = None | Some(value: T)

  predicate IsHexDigit(c: char) {
    '0' <= c <= '9' || 'a' <= c <= 'f' || 'A' <= c <= 'F'
  }

  predicate AllHexDigits(s: string) {
    forall i :: 0 <= i < |s| ==> IsHexDigit(s[i])
  }

  function DigitValue(c: char): (d: nat)
    requires IsHexDigit(c)
    ensures d < 16
  {
    if '0' <= c <= '9' then c as int - '0' as int
    else if 'a' <= c <= 'f' then c as int - 'a' as int + 10
    else c as int - 'A' as int + 10
  }

  /** The value of a string of hex digits, most significant digit first. */
  function DigitsValue(s: string): nat
    requires AllHexDigits(s)
  {
    if s == [] then 0 else DigitsValue(s[..|s| - 1]) * 16 + DigitValue(s[|s| - 1])
  }

  /**
   * `int(s, 16)`: an optional sign, an optional `0x`/`0X` prefix, then at
   * least one hex digit of either case. Anything else is a `ValueError`,
   * here `None`.
   */
  function HexValue(s: string): Option<int>
  {
    var negative := |s| > 0 && s[0] == '-';
    var unsigned := if |s| > 0 && (s[0] == '-' || s[0] == '+') then s[1..] else s;
    var digits :=
      if |unsigned| >= 2 && unsigned[0] == '0' && (unsigned[1] == 'x' || unsigned[1] == 'X')
      then unsigned[2..] else unsigned;
    if digits != [] && AllHexDigits(digits)
    then var magnitude: int := DigitsValue(digits); Some(if negative then -magnitude else magnitude)
    else None
  }

  /** Every string of `hs` read by `int(h, 16)`, or `None` if one of them is not a number. */
  function HexValues(hs: seq<string>): (r: Option<seq<int>>)
    ensures r.Some? ==> |r.value| == |hs|
  {
    if hs == [] then Some([])
    else match (HexValue(hs[0]), HexValues(hs[1..]))
      case (Some(v), Some(vs)) => Some([v] + vs)
      case _ => None
  }

  /** `HexValues` succeeds exactly when every string reads, and then lists their values in order. */
  lemma {:induction false} HexValuesAt(hs: seq<string>)
    ensures HexValues(hs).Some? <==> forall j :: 0 <= j < |hs| ==> HexValue(hs[j]).Some?
    ensures HexValues(hs).Some? ==> forall j :: 0 <= j < |hs| ==> HexValue(hs[j]) == Some(HexValues(hs).value[j])
  {
    if hs != [] {
      HexValuesAt(hs[1..]);
      assert forall j :: 1 <= j < |hs| ==> hs[j] == hs[1..][j - 1];
    }
  }

  /** A single string reads as a one-element list exactly when it reads. */
  lemma HexValuesSingle(h: string)
    ensures HexValues([h]) == if HexValue(h).Some? then Some([HexValue(h).value]) else None
  {
    assert [h][1..] == [];
    assert HexValues([h][1..]) == Some([]);
    if HexValue(h).Some? {
      assert [HexValue(h).value] + [] == [HexValue(h).value];
    }
  }

  /** The lower-case digit Python's `hex` writes for `d`. */
  function HexDigitChar(d: nat): (c: char)
    requires d < 16
    ensures IsHexDigit(c) && DigitValue(c) == d
  {
    if d < 10 then ('0' as int + d) as char else ('a' as int + d - 10) as char
  }

  /** The digits of `n` in base 16, without leading zeros. */
  function HexDigitsOf(n: nat): (s: string)
    ensures s != [] && AllHexDigits(s)
    ensures s[0] == '0' ==> n == 0
    decreases n
  {
    if n < 16 then [HexDigitChar(n)] else HexDigitsOf(n / 16) + [HexDigitChar(n % 16)]
  }

  /** The largest plain `int` of a 64-bit Python 2, `sys.maxint`; `int` arithmetic past it yields a `long`. */
  const MaxInt: nat := 0x7FFF_FFFF_FFFF_FFFF

  /**
   * Python 2's `hex(n)` for a non-negative `n` made by `int` arithmetic: "0x",
   * the lower-case digits, and the suffix 'L' once `n` is past `sys.maxint`
   * and so a `long`.
   */
  function HexStr(n: nat): (s: string)
    ensures |s| >= 3 && s[..2] == "0x"
    ensures n > MaxInt <==> s[|s| - 1] == 'L'
  {
    "0x" + HexDigitsOf(n) + (if n > MaxInt then "L" else "")
  }

  lemma {:induction false} DigitsOfRoundTrip(n: nat)
    ensures DigitsValue(HexDigitsOf(n)) == n
    decreases n
  {
    if n >= 16 {
      DigitsOfRoundTrip(n / 16);
      var s := HexDigitsOf(n);
      assert s[..|s| - 1] == HexDigitsOf(n / 16);
    }
  }

  /** Reading back what `hex` wrote for a plain `int` gives the number again. */
  lemma HexRoundTrip(n: nat)
    requires n <= MaxInt
    ensures HexValue(HexStr(n)) == Some(n)
  {
    DigitsOfRoundTrip(n);
    var s := HexStr(n);
    assert s[2..] == HexDigitsOf(n);
  }

  /** What `hex` writes for a `long` is refused by `int(h, 16)`: its 'L' is no digit. */
  lemma LongRejected(n: nat)
    requires n > MaxInt
    ensures HexValue(HexStr(n)) == None
  {
    var s := HexStr(n);
    assert s[2..][|s| - 3] == 'L';
  }

  /** A bare, non-empty run of hex digits (a hexdigest) reads as its digits. */
  lemma PlainDigits(s: string)
    requires s != [] && AllHexDigits(s)
    ensures HexValue(s) == Some(DigitsValue(s))
  {
  }

  /** Text that is not a number in base 16 is refused. */
  lemma Rejects()
    ensures HexValue("") == None
    ensures HexValue("0x") == None
    ensures HexValue("-") == None
    ensures HexValue("0xg") == None
  {
  }
}
