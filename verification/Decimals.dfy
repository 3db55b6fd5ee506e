/** Decimal texts of numbers, as short as possible or in fixed width. */
module Decimals {

  function Pow10(w: nat): (p: nat)
    ensures p >= 1
  {
    if w == 0 then 1 else 10 * Pow10(w - 1)
  }

  function Digit(d: nat): char
    requires d < 10
  {
    ['0', '1', '2', '3', '4', '5', '6', '7', '8', '9'][d]
  }

  predicate IsDigit(c: char) {
    '0' <= c <= '9'
  }

  lemma DigitOrder(d: nat, e: nat)
    requires d < 10 && e < 10
    ensures IsDigit(Digit(d)) && (Digit(d) < Digit(e) <==> d < e) && (Digit(d) == Digit(e) <==> d == e)
  {
  }

  /** The shortest decimal text of a number. */
  function Decimal(n: nat): (s: string)
    ensures s != [] && forall i :: 0 <= i < |s| ==> IsDigit(s[i])
  {
    if n < 10 then [Digit(n)] else Decimal(n / 10) + [Digit(n % 10)]
  }

  /** The number that a text of digits stands for. */
  function ValueOf(s: string): nat
    requires forall i :: 0 <= i < |s| ==> IsDigit(s[i])
  {
    if s == [] then 0
    else
      assert IsDigit(s[|s| - 1]);
      10 * ValueOf(s[..|s| - 1]) + (s[|s| - 1] - '0') as int
  }

  /** The decimal text of a number stands for it, without leading zeros. */
  lemma {:induction false} DecimalStandsFor(n: nat)
    ensures ValueOf(Decimal(n)) == n && (n > 0 ==> Decimal(n)[0] != '0')
  {
    var s := Decimal(n);
    if n < 10 {
      assert s[..0] == [];
    } else {
      DecimalStandsFor(n / 10);
      assert s[..|s| - 1] == Decimal(n / 10);
    }
  }

  function Zeros(n: nat): (s: string)
    ensures |s| == n
  {
    seq(n, _ => '0')
  }

  /** `%0*d`: zero padding to a minimal width, with the sign in front. */
  function Format(n: int, width: nat): string {
    if n >= 0 then ZeroPad(Decimal(n), width)
    else ['-'] + ZeroPad(Decimal(-n), if width == 0 then 0 else width - 1)
  }

  function ZeroPad(s: string, width: nat): (r: string)
    ensures |r| == if |s| < width then width else |s|
    ensures width <= |s| ==> r == s
  {
    if |s| < width then Zeros(width - |s|) + s else s
  }

  /** Exactly `w` digits. */
  function Fixed(n: nat, w: nat): (s: string)
    requires n < Pow10(w)
    ensures |s| == w
    ensures forall i :: 0 <= i < |s| ==> IsDigit(s[i])
  {
    if w == 0 then [] else Fixed(n / 10, w - 1) + [Digit(n % 10)]
  }

  lemma {:induction false} FixedIsPadded(n: nat, w: nat)
    requires w >= 1 && n < Pow10(w)
    ensures ZeroPad(Decimal(n), w) == Fixed(n, w)
    ensures |Decimal(n)| <= w
  {
    if n < 10 {
      FixedSmall(n, w);
    } else {
      FixedIsPadded(n / 10, w - 1);
      if |Decimal(n)| < w {
        assert Zeros(w - |Decimal(n)|) + (Decimal(n / 10) + [Digit(n % 10)]) ==
               (Zeros(w - 1 - |Decimal(n / 10)|) + Decimal(n / 10)) + [Digit(n % 10)];
      }
    }
  }

  lemma {:induction false} FixedSmall(n: nat, w: nat)
    requires n < 10 && w >= 1 && n < Pow10(w)
    ensures Fixed(n, w) == Zeros(w - 1) + [Digit(n)]
  {
    FixedZero(w - 1);
  }

  lemma {:induction false} FixedZero(w: nat)
    ensures Fixed(0, w) == Zeros(w)
  {
    if w > 0 {
      FixedZero(w - 1);
      assert Zeros(w) == Zeros(w - 1) + ['0'];
    }
  }

  lemma {:induction false} DecimalTooLong(n: nat, w: nat)
    requires n >= Pow10(w)
    ensures |Decimal(n)| > w
  {
    if w > 0 && n >= 10 { DecimalTooLong(n / 10, w - 1); }
  }

  /** Every text of `w` digits is some number in fixed width. */
  lemma {:induction false} FixedOnto(s: string) returns (n: nat)
    requires forall i :: 0 <= i < |s| ==> IsDigit(s[i])
    ensures n < Pow10(|s|) && Fixed(n, |s|) == s
  {
    if s == [] {
      n := 0;
    } else {
      var k := |s| - 1;
      var high := FixedOnto(s[..k]);
      var d: nat := (s[k] - '0') as int;
      n := 10 * high + d;
      assert n / 10 == high && n % 10 == d && Digit(d) == s[k];
      assert s == s[..k] + [s[k]];
    }
  }

  lemma {:induction false} DecimalInjective(a: nat, b: nat)
    requires Decimal(a) == Decimal(b)
    ensures a == b
  {
    var s := Decimal(a);
    if a >= 10 && b >= 10 {
      assert s[..|s| - 1] == Decimal(a / 10) == Decimal(b / 10);
      DecimalInjective(a / 10, b / 10);
      DigitOrder(a % 10, b % 10);
      assert s[|s| - 1] == Digit(a % 10) == Digit(b % 10);
    } else {
      DigitOrder(a % 10, b % 10);
      assert s[|s| - 1] == Digit(a % 10) == Digit(b % 10);
    }
  }
}
