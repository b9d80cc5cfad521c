/** Products and quotients of reals behind names, and the square the metrics are made of. */
module Reals {
  function Times(a: real, b: real): real {
    a * b
  }

  function Over(a: real, b: real): real
    requires b != 0.0
  {
    a / b
  }

  lemma TimesOver(x: real, scale: real)
    requires scale > 0.0
    ensures Over(Times(x, scale), scale) == x
  {
  }

  lemma TimesPositive(a: real, b: real)
    requires a > 0.0 && b > 0.0
    ensures Times(a, b) > 0.0
  {
    assert a * b > 0.0;
  }

  lemma TimesNegative(a: real, b: real)
    ensures Times(-a, -b) == Times(a, b)
  {
  }

  lemma SquarePositive(x: real)
    requires x != 0.0
    ensures Times(x, x) > 0.0
  {
    if x > 0.0 {
      TimesPositive(x, x);
    } else {
      TimesPositive(-x, -x);
      TimesNegative(x, x);
    }
  }

  function Square(x: real): (y: real)
    ensures y >= 0.0 && (y == 0.0 <==> x == 0.0)
  {
    if x != 0.0 then
      SquarePositive(x);
      Times(x, x)
    else Times(x, x)
  }

  lemma TimesGrows(a: real, b: real)
    requires 0.0 <= a < 1.0 && b > 1.0
    ensures Times(a, a) < Times(b, b)
  {
    assert a * a <= a;
    assert b * b > b;
  }

  /** A number below one in size has a smaller square than a number above one. */
  lemma SquareGrows(a: real, b: real)
    requires -1.0 < a < 1.0 && !(-1.0 <= b <= 1.0)
    ensures Square(a) < Square(b)
  {
    TimesNegative(a, a);
    TimesNegative(b, b);
    TimesGrows(if a < 0.0 then -a else a, if b < 0.0 then -b else b);
  }
}
