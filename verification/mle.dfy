/** The equality (Lagrange basis) polynomial of the boolean hypercube, from
    which both multilinear extensions of the circuit are built. */
module Mle {
  import opened Field
  import opened Bits

  /** `Prover::x(s, u)`: the factor contributed by one variable, u where the
      label bit s is 1 and 1 - u otherwise. */
  function X(s: Zp, u: Zp): Zp {
    if s == 1 then u else Sub(1, u)
  }

  /** `math::mle_interpolate(bits, pt)`: the product of X(bits[i], pt[i]) over
      all positions, taken in increasing order of i. Both vectors must have
      the same length. */
  function MleInterpolate(bits: seq<Zp>, pt: seq<Zp>): Zp
    requires |bits| == |pt|
  {
    if |bits| == 0 then 1
    else Mul(MleInterpolate(bits[..|bits| - 1], pt[..|pt| - 1]), X(bits[|bits| - 1], pt[|pt| - 1]))
  }

  /** On two bits the factor is the indicator of their equality. */
  lemma XOnBits(s: Zp, u: Zp)
    requires s == 0 || s == 1
    requires u == 0 || u == 1
    ensures X(s, u) == if s == u then 1 else 0
  {
    OneMinusBit(u);
  }

  /** Basis property: on two boolean vectors of equal length the equality
      polynomial is 1 exactly when they are equal and 0 otherwise. */
  lemma {:induction false} MleBasis(a: seq<Zp>, b: seq<Zp>)
    requires |a| == |b|
    requires IsBoolVec(a) && IsBoolVec(b)
    ensures MleInterpolate(a, b) == if a == b then 1 else 0
  {
    if |a| > 0 {
      var n := |a| - 1;
      assert IsBoolVec(a[..n]) && IsBoolVec(b[..n]);
      MleBasis(a[..n], b[..n]);
      XOnBits(a[n], b[n]);
      assert a == a[..n] + [a[n]] && b == b[..n] + [b[n]];
      if a[..n] == b[..n] && a[n] == b[n] {
        Units(1);
      } else {
        assert a != b;
        Units(X(a[n], b[n]));
        Units(0);
        Units(1);
      }
    }
  }
}
