/** Whole numbers as they are printed. */
module Decimal {

  function Digit(d: nat): char
    requires d < 10
  {
    '0' + d as char
  }

  function Natural(n: nat): (s: string)
    ensures s != "" && forall c :: c in s ==> '0' <= c <= '9'
  {
    if n < 10 then [Digit(n)] else Natural(n / 10) + [Digit(n % 10)]
  }

  function Integer(n: int): string {
    if n < 0 then "-" + Natural(-n) else Natural(n)
  }

  lemma {:induction false} NaturalInjective(m: nat, n: nat)
    requires Natural(m) == Natural(n)
    ensures m == n
  {
    if m < 10 || n < 10 {
      assert |Natural(m)| == 1 <==> m < 10;
      assert |Natural(n)| == 1 <==> n < 10;
    } else {
      var a, b := Natural(m), Natural(n);
      assert a[..|a|-1] == Natural(m / 10) && b[..|b|-1] == Natural(n / 10);
      assert a[|a|-1] == Digit(m % 10) && b[|b|-1] == Digit(n % 10);
      NaturalInjective(m / 10, n / 10);
    }
  }

  lemma IntegerInjective(m: int, n: int)
    requires Integer(m) == Integer(n)
    ensures m == n
  {
    if m < 0 && n < 0 {
      assert Integer(m)[1..] == Natural(-m) && Integer(n)[1..] == Natural(-n);
      NaturalInjective(-m, -n);
    } else if m >= 0 && n >= 0 {
      NaturalInjective(m, n);
    } else {
      IntegerSign(m);
      IntegerSign(n);
    }
  }

  lemma IntegerSign(n: int)
    ensures Integer(n) != "" && (Integer(n)[0] == '-' <==> n < 0)
  {
    assert Integer(n)[0] in Integer(n);
  }

  lemma IntegerPlain(n: int)
    ensures ':' !in Integer(n)
  {
  }

  lemma ColonInRest(a: string, x: string, b: string, y: string)
    requires a + ":" + x == b + ":" + y && |a| < |b|
    ensures ':' in x
  {
    assert (b + ":" + y)[|b|] == ':';
    assert (a + ":" + x)[|b|] == x[|b| - |a| - 1];
  }

  /** A text before the last colon, and a number after it, can be told apart again. */
  lemma ColonSplits(a: string, m: int, b: string, n: int)
    requires a + ":" + Integer(m) == b + ":" + Integer(n)
    ensures a == b && m == n
  {
    var x, y := Integer(m), Integer(n);
    var s := a + ":" + x;
    if |a| < |b| {
      ColonInRest(a, x, b, y);
      IntegerPlain(m);
    } else if |b| < |a| {
      ColonInRest(b, y, a, x);
      IntegerPlain(n);
    }
    assert a == s[..|a|] && b == s[..|b|];
    assert x == s[|a|+1..] && y == s[|b|+1..];
    IntegerInjective(m, n);
  }
}
