/** Arithmetic in the prime field Z_p that every wire value, challenge and
    polynomial coefficient of the prover lives in. */
module Field {

  /** The field modulus. The crate's helper module fixes it at compile time;
      that module is not part of this model, so this constant stands in for
      it. The general theorems do not depend on its value beyond P >= 2;
      the concrete examples use field elements up to 21 and need P > 21. */
  const P: nat := 2147483647

  /** A field element: its canonical representative in [0, P). */
  type Zp = x: int | 0 <= x < P

  /** `Zp::new(n)`: the element represented by the natural number n. */
  function FromNat(n: nat): Zp {
    n % P
  }

  function Add(a: Zp, b: Zp): Zp {
    (a + b) % P
  }

  function Neg(a: Zp): Zp {
    (P - a) % P
  }

  function Sub(a: Zp, b: Zp): Zp {
    Add(a, Neg(b))
  }

  function Mul(a: Zp, b: Zp): Zp {
    (a * b) % P
  }

  /** 0 and 1 are the units of addition and multiplication, and 0 annihilates. */
  lemma Units(a: Zp)
    ensures Add(0, a) == a && Add(a, 0) == a
    ensures Mul(1, a) == a && Mul(a, 1) == a
    ensures Mul(0, a) == 0 && Mul(a, 0) == 0
  {
  }

  /** Subtracting a bit from one flips it: the factor `1 - u` of the
      equality polynomial takes 0 and 1 to 1 and 0. */
  lemma OneMinusBit(u: Zp)
    requires u == 0 || u == 1
    ensures Sub(1, u) == 1 - u
  {
  }
}
