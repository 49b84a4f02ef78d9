/**
 * Decimal rendering of Go's `int` (`strconv.Itoa`) and its inverse
 * (`strconv.Atoi`), which is what a reader of the query string applies to
 * `limit` and `offset`.
 */
module Strconv {
  import opened Wrappers
  import opened Strings

  /** Go's `int` on a 64-bit platform. */
  type Int64 = x: int | -0x8000_0000_0000_0000 <= x < 0x8000_0000_0000_0000

  predicate IsDigit(c: Octet)
  {
    '0' <= c <= '9'
  }

  function DigitChar(d: nat): (c: Octet)
    requires d < 10
    ensures IsDigit(c) && (c as int) - ('0' as int) == d
  {
    "0123456789"[d]
  }

  /** The decimal digits of `n`, most significant first, without leading zeros. */
  function Digits(n: nat): (r: Bytes)
    ensures |r| > 0
    ensures forall i :: 0 <= i < |r| ==> IsDigit(r[i])
    ensures n > 0 ==> r[0] != '0'
  {
    if n < 10 then [DigitChar(n)] else Digits(n / 10) + [DigitChar(n % 10)]
  }

  /** `strconv.Itoa`: a minus sign for negative numbers, then the digits. */
  function Itoa(n: int): (r: Bytes)
    ensures |r| > 0
    ensures forall i :: 0 <= i < |r| ==> IsDigit(r[i]) || r[i] == '-'
    ensures r[0] == '-' <==> n < 0
  {
    if n < 0 then "-" + Digits(-n) else Digits(n)
  }

  predicate AllDigits(s: Bytes)
  {
    forall i :: 0 <= i < |s| ==> IsDigit(s[i])
  }

  /** The number a string of decimal digits denotes, read left to right. */
  function DigitsValue(s: Bytes): nat
    requires AllDigits(s)
  {
    if s == [] then 0
    else DigitsValue(s[..|s| - 1]) * 10 + ((s[|s| - 1] as int) - ('0' as int))
  }

  /**
   * `strconv.Atoi`: an optional sign and at least one digit; anything else,
   * or a value outside the range of `int`, is an error.
   */
  function Atoi(s: Bytes): Option<Int64>
  {
    var negative := |s| > 0 && s[0] == '-';
    var digits := if |s| > 0 && (s[0] == '-' || s[0] == '+') then s[1..] else s;
    if digits == [] || !AllDigits(digits) then None
    else
      var v: int := if negative then 0 - (DigitsValue(digits) as int) else DigitsValue(digits) as int;
      if -0x8000_0000_0000_0000 <= v < 0x8000_0000_0000_0000 then Some(v) else None
  }

  lemma {:induction false} DigitsValueOfDigits(n: nat)
    ensures DigitsValue(Digits(n)) == n
  {
    if n >= 10 {
      var r := Digits(n);
      assert r[..|r| - 1] == Digits(n / 10);
      DigitsValueOfDigits(n / 10);
    }
  }

  /**
   * What `Itoa` writes: a minus sign exactly for negative numbers, then a
   * non-empty run of decimal digits, without leading zeros, denoting the
   * magnitude.
   */
  lemma ItoaDecimal(n: int)
    ensures var r := Itoa(n); var d := if n < 0 then r[1..] else r;
      && |d| > 0 && AllDigits(d)
      && DigitsValue(d) == (if n < 0 then -n else n)
      && (d[0] == '0' ==> |d| == 1)
  {
    var m: nat := if n < 0 then -n else n;
    DigitsValueOfDigits(m);
    var d := Digits(m);
    assert d[0] == '0' ==> m == 0;
    if n < 0 {
      assert Itoa(n)[1..] == d;
    }
  }

  lemma AtoiDigits(n: nat)
    requires n < 0x8000_0000_0000_0000
    ensures Atoi(Digits(n)) == Some(n)
  {
    var s := Digits(n);
    assert IsDigit(s[0]);
    assert AllDigits(s);
    DigitsValueOfDigits(n);
  }

  lemma AtoiMinusDigits(n: nat)
    requires 0 < n <= 0x8000_0000_0000_0000
    ensures Atoi("-" + Digits(n)) == Some(0 - n)
  {
    var s := "-" + Digits(n);
    assert s[1..] == Digits(n);
    assert AllDigits(s[1..]);
    DigitsValueOfDigits(n);
  }

  /** Reading back the rendering of any `int` gives that `int`. */
  lemma AtoiItoa(n: Int64)
    ensures Atoi(Itoa(n)) == Some(n)
  {
    if n < 0 {
      var m: nat := -(n as int);
      assert Itoa(n) == "-" + Digits(m);
      AtoiMinusDigits(m);
      assert 0 - m == n as int;
    } else {
      assert Itoa(n) == Digits(n);
      AtoiDigits(n);
    }
  }
}
