/** Little-endian bit labels of gate indices, the bitwise OR the prover uses to
    assemble labels, the integer ceiling of log2 that sizes the labels, and the
    64-bit wrap-around of the machine word (`usize`) that holds a label. */
module Bits {
  import opened Field

  /** Width of `usize` on the targets the crate is built for. */
  const WORD_BITS: nat := 64

  function Pow2(n: nat): (r: nat)
    ensures r >= 1
  {
    if n == 0 then 1 else 2 * Pow2(n - 1)
  }

  /** 2^WORD_BITS, the number of distinct `usize` values. */
  const WORD_MOD: nat := 0x1_0000_0000_0000_0000

  /** Reduction of an unbounded result to a `usize` (wrap-around). */
  function Wrap64(x: int): nat {
    x % WORD_MOD
  }

  /** `math::get_bit(n, i)`: bit i of n. */
  function GetBit(n: nat, i: nat): nat {
    (n / Pow2(i)) % 2
  }

  /** `math::into_bit_arr(n, w)`: the w low bits of n, least significant
      first, as field elements. */
  function IntoBitArr(n: nat, w: nat): seq<Zp> {
    seq(w, i requires 0 <= i < w => GetBit(n, i) as Zp)
  }

  /** Every entry is 0 or 1. */
  predicate IsBoolVec(v: seq<Zp>) {
    forall i :: 0 <= i < |v| ==> v[i] == 0 || v[i] == 1
  }

  /** The number whose little-endian binary digits are v (read as an
      integer; meaningful for 0/1 vectors). */
  function BitsValue(v: seq<Zp>): nat {
    if |v| == 0 then 0 else v[0] + 2 * BitsValue(v[1..])
  }

  /** Bitwise OR of two naturals (`usize |`). */
  function BitOr(a: nat, b: nat): nat
    decreases a + b
  {
    if a == 0 then b
    else if b == 0 then a
    else 2 * BitOr(a / 2, b / 2) + (if a % 2 == 1 || b % 2 == 1 then 1 else 0)
  }

  /** Integer ceiling of log2, standing in for `(n as f64).log2().ceil() as
      usize`: the least k with n <= 2^k (0 for n = 0 and n = 1, where the
      float expression gives -inf and 0, and the cast saturates to 0). */
  function CeilLog2(n: nat): (k: nat)
    ensures n <= Pow2(k)
    ensures k > 0 ==> Pow2(k - 1) < n
    decreases n
  {
    if n <= 1 then 0 else 1 + CeilLog2((n + 1) / 2)
  }

  lemma Pow2Add(a: nat, b: nat)
    ensures Pow2(a + b) == Pow2(a) * Pow2(b)
  {
    if a > 0 {
      Pow2Add(a - 1, b);
    }
  }

  /** 2^64 is the number of `usize` values, by repeated squaring. */
  lemma Pow2WordBits()
    ensures Pow2(WORD_BITS) == WORD_MOD
  {
    assert Pow2(4) == 16;
    assert Pow2(8) == 0x100 by { Pow2Add(4, 4); }
    assert Pow2(16) == 0x1_0000 by { Pow2Add(8, 8); }
    assert Pow2(32) == 0x1_0000_0000 by { Pow2Add(16, 16); }
    Pow2Add(32, 32);
  }

  /** A bit position inside the word has a weight that fits in the word. */
  lemma Pow2BelowWord(i: nat)
    requires i < WORD_BITS
    ensures Pow2(i) < WORD_MOD
  {
    Pow2Monotone(i + 1, WORD_BITS);
    Pow2WordBits();
  }

  lemma Pow2Monotone(a: nat, b: nat)
    requires a <= b
    ensures Pow2(a) <= Pow2(b)
  {
    if a < b {
      Pow2Monotone(a, b - 1);
    }
  }

  /** CeilLog2 is the LEAST width whose labels reach n. */
  lemma {:induction false} CeilLog2Least(n: nat, k: nat)
    requires n <= Pow2(k)
    ensures CeilLog2(n) <= k
  {
    var c := CeilLog2(n);
    if c > k {
      Pow2Monotone(k, c - 1);
    }
  }

  /** A positive multiple of d is at least d. */
  lemma MulAtLeast(d: int, k: int)
    requires d > 0 && k >= 1
    ensures d * k >= d
  {
    if k > 1 {
      MulAtLeast(d, k - 1);
      assert d * k == d * (k - 1) + d;
    }
  }

  /** Euclidean division is determined by quotient and remainder. */
  lemma DivUnique(n: int, d: int, q: int, r: int)
    requires d > 0 && 0 <= r < d && n == d * q + r
    ensures n / d == q && n % d == r
  {
    var q' := n / d;
    var r' := n % d;
    assert n == d * q' + r';
    if q' > q {
      var k := q' - q;
      assert d * q' == d * q + d * k;
      MulAtLeast(d, k);
    } else if q' < q {
      var k := q - q';
      assert d * q == d * q' + d * k;
      MulAtLeast(d, k);
    }
  }

  /** Adding one to a number adds one to its residue, or wraps it to 0. */
  lemma ModSucc(k: nat, d: nat)
    requires d > 0
    ensures (k + 1) % d == if k % d + 1 < d then k % d + 1 else 0
  {
    var q := k / d;
    var m := k % d;
    assert k == d * q + m;
    if m + 1 < d {
      DivUnique(k + 1, d, q, m + 1);
    } else {
      assert k + 1 == d * (q + 1) + 0;
      DivUnique(k + 1, d, q + 1, 0);
    }
  }

  lemma DivDiv(n: nat, a: nat)
    requires a >= 1
    ensures n / (2 * a) == (n / 2) / a
  {
    var q := n / 2;
    var t := q / a;
    var s := q % a;
    assert n == 2 * q + n % 2;
    assert q == a * t + s;
    assert n == (2 * a) * t + (2 * s + n % 2) by {
      assert 2 * (a * t) == (2 * a) * t;
    }
    DivUnique(n, 2 * a, t, 2 * s + n % 2);
  }

  /** A number with bit i set is at least 2^i. */
  lemma GetBitSetAtLeast(n: nat, i: nat)
    requires GetBit(n, i) == 1
    ensures n >= Pow2(i)
  {
    if n < Pow2(i) {
      DivUnique(n, Pow2(i), 0, n);
    }
  }

  /** Bit i+1 of n is bit i of n / 2. */
  lemma GetBitHalve(n: nat, i: nat)
    ensures GetBit(n, 0) == n % 2
    ensures GetBit(n, i + 1) == GetBit(n / 2, i)
  {
    DivDiv(n, Pow2(i));
  }

  /** The label of n is its lowest bit followed by the label of n / 2. */
  lemma IntoBitArrCons(n: nat, w: nat)
    requires w >= 1
    ensures IntoBitArr(n, w) == [(n % 2) as Zp] + IntoBitArr(n / 2, w - 1)
  {
    var a := IntoBitArr(n, w);
    var b := [(n % 2) as Zp] + IntoBitArr(n / 2, w - 1);
    forall i | 0 <= i < w
      ensures a[i] == b[i]
    {
      if i > 0 {
        GetBitHalve(n, i - 1);
      } else {
        GetBitHalve(n, 0);
      }
    }
  }

  lemma IntoBitArrIsBool(n: nat, w: nat)
    ensures IsBoolVec(IntoBitArr(n, w))
  {
  }

  /** Reading the w-bit label of n < 2^w back as a number gives n. */
  lemma {:induction false} BitsValueIntoBitArr(n: nat, w: nat)
    requires n < Pow2(w)
    ensures BitsValue(IntoBitArr(n, w)) == n
  {
    if w == 0 {
      assert n == 0;
    } else {
      IntoBitArrCons(n, w);
      var v := IntoBitArr(n, w);
      assert v[1..] == IntoBitArr(n / 2, w - 1);
      BitsValueIntoBitArr(n / 2, w - 1);
    }
  }

  /** The label of the number a 0/1 vector spells is that vector, and the
      number fits in |v| bits. */
  lemma {:induction false} IntoBitArrBitsValue(v: seq<Zp>)
    requires IsBoolVec(v)
    ensures BitsValue(v) < Pow2(|v|)
    ensures IntoBitArr(BitsValue(v), |v|) == v
  {
    if |v| > 0 {
      var n := BitsValue(v);
      assert IsBoolVec(v[1..]);
      IntoBitArrBitsValue(v[1..]);
      assert n % 2 == v[0] && n / 2 == BitsValue(v[1..]);
      IntoBitArrCons(n, |v|);
      assert v == [v[0]] + v[1..];
    }
  }

  /** Bit i of the number a 0/1 vector spells is entry i of the vector. */
  lemma GetBitBitsValue(v: seq<Zp>, i: nat)
    requires IsBoolVec(v) && i < |v|
    ensures GetBit(BitsValue(v), i) == v[i]
  {
    IntoBitArrBitsValue(v);
    assert IntoBitArr(BitsValue(v), |v|)[i] == v[i];
  }

  /** Distinct numbers below 2^w have distinct w-bit labels. */
  lemma IntoBitArrInjective(a: nat, b: nat, w: nat)
    requires a < Pow2(w) && b < Pow2(w)
    ensures IntoBitArr(a, w) == IntoBitArr(b, w) <==> a == b
  {
    BitsValueIntoBitArr(a, w);
    BitsValueIntoBitArr(b, w);
  }

  /** Appending a most significant digit adds it at weight 2^|v|. */
  lemma {:induction false} BitsValueSnoc(v: seq<Zp>, b: Zp)
    ensures BitsValue(v + [b]) == BitsValue(v) + b * Pow2(|v|)
  {
    if |v| > 0 {
      assert (v + [b])[1..] == v[1..] + [b];
      BitsValueSnoc(v[1..], b);
    }
  }

  /** OR never sets a bit at or above a width both operands fit in. */
  lemma {:induction false} BitOrBound(a: nat, b: nat, k: nat)
    requires a < Pow2(k) && b < Pow2(k)
    ensures BitOr(a, b) < Pow2(k)
  {
    if k > 0 && a != 0 && b != 0 {
      BitOrBound(a / 2, b / 2, k - 1);
    }
  }

  /** OR with a value whose bits all lie at or above position k, when a has
      none there, is addition. */
  lemma {:induction false} BitOrDisjoint(a: nat, c: nat, k: nat)
    requires a < Pow2(k)
    ensures BitOr(a, c * Pow2(k)) == a + c * Pow2(k)
  {
    if k == 0 {
      assert a == 0;
    } else if a != 0 && c != 0 {
      var h := c * Pow2(k - 1);
      assert c * Pow2(k) == 2 * h;
      assert (2 * h) / 2 == h && (2 * h) % 2 == 0;
      BitOrDisjoint(a / 2, c, k - 1);
      assert BitOr(a, 2 * h) == 2 * BitOr(a / 2, h) + a % 2;
    }
  }
}
