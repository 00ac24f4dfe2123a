/** Small shared vocabulary: an optional value and exact integer powers. */
module Basics {

  /** A value that may be absent: a Python `None`, or a computation that raised. */
  datatype Option<+T> = None | Some(value: T)

  /** `x ** n` for a natural exponent, as `pow(p, count)` is used by the classifiers. */
  function Pow(x: real, n: nat): (r: real)
    ensures n == 0 ==> r == 1.0
    ensures 0.0 < x <= 1.0 ==> 0.0 < r <= 1.0
    ensures x == 1.0 ==> r == 1.0
  {
    if n == 0 then 1.0
    else
      var rest := Pow(x, n - 1);
      assert 0.0 < x <= 1.0 ==> 0.0 < x * rest <= 1.0 by {
        if 0.0 < x <= 1.0 {
          assert x * rest <= 1.0 * rest;
        }
      }
      x * rest
  }

  /** Raising to the first power changes nothing. */
  lemma PowOne(x: real)
    ensures Pow(x, 1) == x
  {
    assert Pow(x, 0) == 1.0;
  }

  /** Exponents add: `x ** (a + b) == x ** a * x ** b`. */
  lemma {:induction false} PowAdd(x: real, a: nat, b: nat)
    ensures Pow(x, a + b) == Pow(x, a) * Pow(x, b)
    decreases b
  {
    if b == 0 {
      assert Pow(x, 0) == 1.0;
    } else {
      var p, q := Pow(x, a), Pow(x, b - 1);
      calc {
        Pow(x, a + b);
        x * Pow(x, a + (b - 1));
        { PowAdd(x, a, b - 1); }
        x * (p * q);
        { MulSwap(x, p, q); }
        p * (x * q);
        p * Pow(x, b);
      }
    }
  }

  lemma MulSwap(x: real, p: real, q: real)
    ensures x * (p * q) == p * (x * q)
  {
  }
}
