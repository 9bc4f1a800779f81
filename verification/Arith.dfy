/** The few nonlinear integer facts the components need, each proved on its own. */
module Arith {
  lemma MulMono(a: int, b: int, c: nat)
    requires a <= b
    ensures a * c <= b * c
  {
  }

  lemma MulDistributes(c: int, x: int, y: int)
    ensures c * (x + y) == c * x + c * y
  {
  }

  lemma SmallMultiple(k: int, b: int)
    requires b > 0 && -b < k * b < b
    ensures k == 0
  {
    if k >= 1 {
      MulMono(1, k, b);
    } else if k <= -1 {
      MulMono(k, -1, b);
    }
  }

  /** Quotient and remainder are the only pair with a remainder in range. */
  lemma DivModOf(a: int, b: int, q: int, r: int)
    requires 0 <= r < b && a == q * b + r
    ensures a / b == q && a % b == r
  {
    var q', r' := a / b, a % b;
    assert a == q' * b + r';
    assert (q - q') * b == q * b - q' * b;
    SmallMultiple(q - q', b);
  }

  lemma ExactQuotient(a: int, b: int)
    requires a > 0 && b > 0 && a % b == 0
    ensures a / b >= 1 && a == b * (a / b)
  {
    assert a == (a / b) * b + a % b;
    MulSign(a / b, b);
  }

  lemma MulSign(q: int, b: int)
    requires b > 0
    ensures q <= 0 ==> q * b <= 0
  {
  }
}
