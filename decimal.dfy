/** Decimal text of integers (Rust's `to_string` / `{}` on `i32` and
    `usize`) and Rust's `usize::from_str`, the one decimal parser the
    service runs itself (on the raw `Content-Length` header). */
module Decimal {
  import opened Base

  predicate IsDigit(c: char) {
    '0' <= c <= '9'
  }

  function DigitChar(d: nat): (c: char)
    requires d < 10
    ensures IsDigit(c) && DigitValue(c) == d
  {
    ['0', '1', '2', '3', '4', '5', '6', '7', '8', '9'][d]
  }

  function DigitValue(c: char): nat
    requires IsDigit(c)
  {
    c as int - '0' as int
  }

  predicate AllDigits(s: string) {
    forall i | 0 <= i < |s| :: IsDigit(s[i])
  }

  /** Decimal text of a natural number, without leading zeros. */
  function NatText(n: nat): (s: string)
    ensures s != [] && AllDigits(s)
    decreases n
  {
    if n < 10 then [DigitChar(n)] else NatText(n / 10) + [DigitChar(n % 10)]
  }

  /** Decimal text of an integer: `-` then the digits of its magnitude
      when it is negative. */
  function IntText(i: int): (s: string)
    ensures s != [] && IsDigit(s[|s| - 1])
  {
    if i < 0 then "-" + NatText(-i) else NatText(i)
  }

  /** The value of a string of digits, most significant first. */
  function DigitsValue(s: string): nat
    requires AllDigits(s)
    decreases |s|
  {
    if s == [] then 0 else DigitsValue(s[..|s| - 1]) * 10 + DigitValue(s[|s| - 1])
  }

  lemma {:induction false} DigitsValueOfNatText(n: nat)
    ensures DigitsValue(NatText(n)) == n
    decreases n
  {
    var s := NatText(n);
    if n >= 10 {
      DigitsValueOfNatText(n / 10);
      assert s[..|s| - 1] == NatText(n / 10);
    }
  }

  lemma NatTextInjective(a: nat, b: nat)
    requires NatText(a) == NatText(b)
    ensures a == b
  {
    DigitsValueOfNatText(a);
    DigitsValueOfNatText(b);
  }

  /** The first character of an integer's text tells its sign, and the
      rest after a `-` is the text of its magnitude. */
  lemma SignOfText(a: int)
    ensures IntText(a)[0] == '-' <==> a < 0
    ensures a < 0 ==> IntText(a)[1..] == NatText(-a)
    ensures a >= 0 ==> IntText(a) == NatText(a)
  {
    if a < 0 {
      assert ("-" + NatText(-a))[1..] == NatText(-a);
    } else {
      assert IsDigit(NatText(a)[0]);
    }
  }

  /** Distinct integers have distinct decimal texts, so a rendered id
      list names exactly the ids it was built from. */
  lemma IntTextInjective(a: int, b: int)
    ensures IntText(a) == IntText(b) ==> a == b
  {
    if IntText(a) == IntText(b) {
      SignOfText(a);
      SignOfText(b);
      if a < 0 {
        NatTextInjective(-a, -b);
      } else {
        NatTextInjective(a, b);
      }
    }
  }

  /** `s.parse::<usize>()`: an optional leading `+`, then at least one
      digit and nothing else, with a value below 2^64. A leading `-` is an
      invalid digit for an unsigned type. */
  function ParseUsize(s: string): (r: Option<usize>)
    ensures r.Some? ==> s != [] && AllDigits(if s[0] == '+' then s[1..] else s)
  {
    if s == [] then None
    else
      var digits := if s[0] == '+' then s[1..] else s;
      if digits == [] || !AllDigits(digits) then None
      else
        var v := DigitsValue(digits);
        if v < 0x1_0000_0000_0000_0000 then Some(v) else None
  }

  /** Parsing the decimal text of a `usize` gives it back. */
  lemma ParseUsizeOfNatText(n: usize)
    ensures ParseUsize(NatText(n)) == Some(n)
  {
    DigitsValueOfNatText(n);
  }
}
