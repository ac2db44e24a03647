/**
 * strconv.Atoi, as the handlers use it to read the `{id}` path segment, and the
 * decimal formatting of `fmt.Sprintf("%d", n)` used to build redirect locations.
 * Go's `int` is 64 bits wide here: Atoi reports a range error outside it.
 */
module Strconv {
  import opened Wrappers

  type String = seq<char>

  const MinInt: int := -0x8000_0000_0000_0000
  const MaxInt: int := 0x7FFF_FFFF_FFFF_FFFF

  predicate InIntRange(n: int) {
    MinInt <= n <= MaxInt
  }

  predicate IsDecimalDigit(c: char) {
    '0' <= c <= '9'
  }

  predicate AllDigits(s: String) {
    forall i :: 0 <= i < |s| ==> IsDecimalDigit(s[i])
  }

  function DigitValue(c: char): (d: nat)
    requires IsDecimalDigit(c)
    ensures d < 10
  {
    c as int - '0' as int
  }

  function DigitChar(d: nat): (c: char)
    requires d < 10
    ensures IsDecimalDigit(c) && DigitValue(c) == d
  {
    ('0' as int + d) as char
  }

  /** The value of a string of decimal digits, most significant first. */
  function DecimalValue(s: String): nat
    requires AllDigits(s)
  {
    if s == [] then 0 else DecimalValue(s[..|s| - 1]) * 10 + DigitValue(s[|s| - 1])
  }

  /**
   * strconv.Atoi: an optional '+' or '-' followed by one or more ASCII digits, whose
   * value fits in a 64-bit int. Anything else is an error (None).
   */
  function Atoi(s: String): (r: Option<int>)
    ensures r.Some? ==> InIntRange(r.value)
    ensures r.Some? ==> exists i :: 0 <= i < |s| && IsDecimalDigit(s[i])
    ensures r.Some? ==>
      exists d :: d != [] && AllDigits(d) && (s == d || s == ['+'] + d || s == ['-'] + d)
    ensures s != [] && AllDigits(s) && DecimalValue(s) <= MaxInt ==> r == Some(DecimalValue(s))
    ensures s != [] && AllDigits(s) && DecimalValue(s) > MaxInt ==> r == None
    ensures |s| >= 2 && s[0] == '+' && AllDigits(s[1..]) ==>
      r == if DecimalValue(s[1..]) <= MaxInt then Some(DecimalValue(s[1..])) else None
    ensures |s| >= 2 && s[0] == '-' && AllDigits(s[1..]) ==>
      r == if -(DecimalValue(s[1..]) as int) >= MinInt then Some(-(DecimalValue(s[1..]) as int)) else None
  {
    var signed := |s| > 0 && (s[0] == '+' || s[0] == '-');
    var digits := if signed then s[1..] else s;
    if digits == [] || !AllDigits(digits) then None
    else
      assert IsDecimalDigit(s[|s| - 1]);
      var magnitude := DecimalValue(digits);
      var v: int := if signed && s[0] == '-' then -(magnitude as int) else magnitude;
      if InIntRange(v) then Some(v) else None
  }

  /** Decimal digits of a natural number, without leading zeros. */
  function Digits(n: nat): String
  {
    if n < 10 then [DigitChar(n)] else Digits(n / 10) + [DigitChar(n % 10)]
  }

  /** fmt.Sprintf("%d", n). */
  function Itoa(n: int): String
  {
    if n < 0 then ['-'] + Digits(-n) else Digits(n)
  }

  lemma {:induction false} DigitsValue(n: nat)
    ensures Digits(n) != [] && AllDigits(Digits(n))
    ensures DecimalValue(Digits(n)) == n
  {
    if n >= 10 {
      DigitsValue(n / 10);
      var s := Digits(n);
      assert s[..|s| - 1] == Digits(n / 10);
    }
  }

  /** Reading back a formatted id yields the same id: the redirect after a
      successful insert names exactly the row that was inserted. */
  lemma {:induction false} AtoiItoa(n: int)
    requires InIntRange(n)
    ensures Atoi(Itoa(n)) == Some(n)
  {
    if n < 0 {
      DigitsValue(-n);
      assert Itoa(n)[1..] == Digits(-n);
    } else {
      DigitsValue(n);
    }
  }

  /** Concrete path segments the handlers receive. */
  lemma AtoiExamples()
    ensures Atoi("42") == Some(42)
    ensures Atoi("-3") == Some(-3)
    ensures Atoi("+7") == Some(7)
    ensures Atoi("") == None && Atoi("abc") == None && Atoi("4x") == None && Atoi("-") == None
  {
    assert DecimalValue("42") == 42 by { assert "42"[..1] == "4"; }
    assert "-3"[1..] == "3";
    assert "+7"[1..] == "7";
    assert !AllDigits("4x") by { assert !IsDecimalDigit("4x"[1]); }
    assert !AllDigits("abc") by { assert !IsDecimalDigit("abc"[0]); }
  }
}
