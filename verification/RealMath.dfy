/** Products and weighted averages of reals as named functions, so that proofs by
    induction can hide them and use only the laws proved here. */
module RealMath {

  function Mul(x: real, y: real): real {
    x * y
  }

  /** The average of `a` and `b`, weighted by `c` and `1 - c`. */
  function Mix(c: real, a: real, b: real): real {
    c * a + (1.0 - c) * b
  }

  lemma MixScaled(c: real, q: real, a: real, b: real)
    ensures Mix(c, Mul(q, a), Mul(q, b)) == Mul(q, Mix(c, a, b))
  {}

  lemma MixShifted(c: real, v: real, a: real, b: real)
    ensures Mix(c, v + a, v + b) == v + Mix(c, a, b)
  {}

  lemma MixAdds(c: real, u: real, v: real, u': real, v': real)
    ensures Mix(c, u + u', v + v') == Mix(c, u, v) + Mix(c, u', v')
  {}

  lemma MixConstant(c: real, v: real)
    ensures Mix(c, v, v) == v
  {}

  lemma MixEnds(a: real, b: real)
    ensures Mix(0.0, a, b) == b && Mix(1.0, a, b) == a
  {}

  lemma MixComplement(c: real, a: real, b: real)
    ensures Mix(c, 1.0 - a, 1.0 - b) == 1.0 - Mix(c, a, b)
  {}

  /** An average keeps an order between its parts. */
  lemma MixOrdered(c: real, a: real, b: real, a': real, b': real)
    requires 0.0 <= c <= 1.0 && a <= a' && b <= b'
    ensures Mix(c, a, b) <= Mix(c, a', b')
  {
    var d := 1.0 - c;
    assert c * (a' - a) >= 0.0 && d * (b' - b) >= 0.0;
  }

  lemma MixBounded(c: real, lo: real, a: real, b: real, hi: real)
    requires 0.0 <= c <= 1.0 && lo <= a <= hi && lo <= b <= hi
    ensures lo <= Mix(c, a, b) <= hi
  {
    MixOrdered(c, lo, lo, a, b);
    MixOrdered(c, a, b, hi, hi);
    MixConstant(c, lo);
    MixConstant(c, hi);
  }

  lemma MixZero(c: real, x: real, y: real)
    requires 0.0 <= c <= 1.0 && 0.0 <= x && 0.0 <= y
    requires Mix(c, x, y) == 0.0
    ensures c == 0.0 || x == 0.0
    ensures c == 1.0 || y == 0.0
  {
    assert c * x >= 0.0 && (1.0 - c) * y >= 0.0;
  }

  /** Averaging with nothing scales. */
  lemma MixNothing(c: real, a: real)
    ensures Mix(c, a, 0.0) == Mul(c, a)
  {}

  lemma MulUnits(x: real)
    ensures Mul(x, 0.0) == Mul(0.0, x) == 0.0
    ensures Mul(x, 1.0) == Mul(1.0, x) == x
  {}

  lemma MulSign(x: real, y: real)
    requires 0.0 <= x && 0.0 <= y
    ensures 0.0 <= Mul(x, y)
  {}

  lemma MulOrdered(x: real, y: real, y': real)
    requires 0.0 <= x && y <= y'
    ensures Mul(x, y) <= Mul(x, y')
  {
    MulSign(x, y' - y);
  }

  lemma MulBounded(x: real, y: real)
    requires 0.0 <= x <= 1.0 && 0.0 <= y <= 1.0
    ensures 0.0 <= Mul(x, y) <= x && Mul(x, y) <= y
  {
    MulSign(x, y);
    MulSign(x, 1.0 - y);
    MulSign(y, 1.0 - x);
  }

  lemma MulAdds(x: real, y: real, z: real)
    ensures Mul(x, y + z) == Mul(x, y) + Mul(x, z)
    ensures Mul(y + z, x) == Mul(y, x) + Mul(z, x)
  {}

  lemma MulAssociates(x: real, y: real, z: real)
    ensures Mul(x, Mul(y, z)) == Mul(Mul(x, y), z)
    ensures Mul(x, y) == Mul(y, x)
  {}
}
