/** What the prover's label machinery computes on 0/1 challenges: labels are
    read little-endian, `assemble_rand_label` inverts `into_bit_arr`,
    `assemble_gate_label` overwrites the low bits of a label, and
    `calc_termp` is the indicator of a label prefix. */
module ProverLabels {
  import opened Field
  import opened Bits
  import opened Mle
  import opened Circuit
  import opened CmtProver

  lemma {:induction false} ShiftedOrOnBits(r: seq<Zp>, k: nat)
    requires k <= |r| <= WORD_BITS
    requires IsBoolVec(r)
    ensures ShiftedOr(r, k) == BitsValue(r[..k])
  {
    if k > 0 {
      ShiftedOrOnBits(r, k - 1);
      var prev := r[..k - 1];
      assert IsBoolVec(prev);
      IntoBitArrBitsValue(prev);
      Pow2BelowWord(k - 1);
      assert r[k - 1] * Pow2(k - 1) <= Pow2(k - 1) by {
        if r[k - 1] == 1 {
          assert r[k - 1] * Pow2(k - 1) == Pow2(k - 1);
        }
      }
      WrapSmall(r[k - 1] * Pow2(k - 1));
      BitOrDisjoint(BitsValue(prev), r[k - 1], k - 1);
      assert r[..k] == prev + [r[k - 1]];
      BitsValueSnoc(prev, r[k - 1]);
    }
  }

  /** On a 0/1 vector `assemble_rand_label` is the number the vector spells
      little-endian: entry i contributes 2^i. */
  lemma AssembleRandLabelOnBits(r: seq<Zp>)
    requires |r| <= WORD_BITS
    requires IsBoolVec(r)
    ensures AssembleRandLabel(|r|, r) == BitsValue(r)
    ensures AssembleRandLabel(|r|, r) < Pow2(|r|)
  {
    ShiftedOrOnBits(r, |r|);
    assert r[..|r|] == r;
    IntoBitArrBitsValue(r);
  }

  /** Round trip with `get_bit`: assembling the numBits-bit label of any
      n < 2^numBits gives back n. */
  lemma AssembleRandLabelRoundTrip(numBits: nat, n: nat)
    requires numBits <= WORD_BITS
    requires n < Pow2(numBits)
    ensures AssembleRandLabel(numBits, IntoBitArr(n, numBits)) == n
  {
    IntoBitArrIsBool(n, numBits);
    AssembleRandLabelOnBits(IntoBitArr(n, numBits));
    BitsValueIntoBitArr(n, numBits);
  }

  /** The other direction: the label of an assembled 0/1 vector is the
      vector. */
  lemma AssembleRandLabelBits(r: seq<Zp>)
    requires |r| <= WORD_BITS
    requires IsBoolVec(r)
    ensures IntoBitArr(AssembleRandLabel(|r|, r), |r|) == r
  {
    AssembleRandLabelOnBits(r);
    IntoBitArrBitsValue(r);
  }

  /** `assemble_s(g, gl, gr)` is the concatenation of three numBits-bit
      labels: reading each third back gives g, gl and gr. */
  lemma AssembleSRoundTrip(numBits: nat, g: nat, gl: nat, gr: nat)
    requires numBits <= WORD_BITS
    requires g < Pow2(numBits) && gl < Pow2(numBits) && gr < Pow2(numBits)
    ensures var s := AssembleS(numBits, g, gl, gr);
            && AssembleRandLabel(numBits, s[..numBits]) == g
            && AssembleRandLabel(numBits, s[numBits..2 * numBits]) == gl
            && AssembleRandLabel(numBits, s[2 * numBits..]) == gr
  {
    var s := AssembleS(numBits, g, gl, gr);
    assert s[..numBits] == IntoBitArr(g, numBits);
    assert s[numBits..2 * numBits] == IntoBitArr(gl, numBits);
    assert s[2 * numBits..] == IntoBitArr(gr, numBits);
    AssembleRandLabelRoundTrip(numBits, g);
    AssembleRandLabelRoundTrip(numBits, gl);
    AssembleRandLabelRoundTrip(numBits, gr);
  }

  /** `assemble_gate_label(r, k, g)` on 0/1 entries: a numBits-bit label
      whose bit i is r[i] below |r|, k at |r|, and bit i of g above. */
  lemma AssembleGateLabelBits(numBits: nat, r: seq<Zp>, k: Zp, g: nat)
    requires |r| < numBits <= WORD_BITS
    requires IsBoolVec(r) && (k == 0 || k == 1)
    ensures AssembleGateLabel(numBits, r, k, g) < Pow2(numBits)
    ensures forall i :: 0 <= i < numBits ==>
              GetBit(AssembleGateLabel(numBits, r, k, g), i)
              == if i < |r| then r[i] else if i == |r| then k else GetBit(g, i)
  {
    var v := GateLabelVec(numBits, r, k, g);
    GateLabelVecEntries(numBits, r, k, g);
    AssembleRandLabelOnBits(v);
    forall i | 0 <= i < numBits
      ensures GetBit(BitsValue(v), i) == v[i]
    {
      GetBitBitsValue(v, i);
    }
  }

  /** The entries of the label vector: r, then k, then the bits of g. */
  lemma GateLabelVecEntries(numBits: nat, r: seq<Zp>, k: Zp, g: nat)
    requires |r| < numBits
    ensures IsBoolVec(r) && (k == 0 || k == 1) ==> IsBoolVec(GateLabelVec(numBits, r, k, g))
    ensures forall i :: 0 <= i < numBits ==>
              GateLabelVec(numBits, r, k, g)[i] == if i < |r| then r[i] else if i == |r| then k else GetBit(g, i)
  {
    var v := GateLabelVec(numBits, r, k, g);
    var bits := IntoBitArr(g, numBits);
    assert forall i :: |r| < i < numBits ==> v[i] == bits[i];
  }

  /** When r followed by k are the low bits of g's label, assembling the gate
      label gives back g itself. */
  lemma AssembleGateLabelOfPrefix(numBits: nat, r: seq<Zp>, k: Zp, g: nat)
    requires |r| < numBits <= WORD_BITS
    requires g < Pow2(numBits)
    requires r + [k] == IntoBitArr(g, numBits)[..|r| + 1]
    ensures AssembleGateLabel(numBits, r, k, g) == g
  {
    var v := GateLabelVec(numBits, r, k, g);
    var bits := IntoBitArr(g, numBits);
    assert v == bits by {
      assert v == (r + [k]) + bits[|r| + 1..];
      assert bits == bits[..|r| + 1] + bits[|r| + 1..];
    }
    AssembleRandLabelRoundTrip(numBits, g);
  }

  /** `calc_termp` on 0/1 vectors is 1 exactly when u is a prefix of s, and 0
      otherwise. */
  lemma CalcTermpOnBits(s: seq<Zp>, u: seq<Zp>)
    requires |u| <= |s|
    requires IsBoolVec(s) && IsBoolVec(u)
    ensures CalcTermp(s, u) == if s[..|u|] == u then 1 else 0
  {
    assert IsBoolVec(s[..|u|]);
    MleBasis(s[..|u|], u);
  }

  /** When the two halves of the challenges are the labels of a and b,
      `get_rand_gate` returns (min(a, b), max(a, b)). */
  lemma GetRandGateOnLabels(p: Prover, a: nat, b: nat)
    requires p.numBits <= WORD_BITS
    requires a < Pow2(p.numBits) && b < Pow2(p.numBits)
    requires p.randLbls == IntoBitArr(a, p.numBits) + IntoBitArr(b, p.numBits)
    ensures GetRandGate(p) == if a <= b then (a, b) else (b, a)
  {
    assert p.randLbls[..p.numBits] == IntoBitArr(a, p.numBits);
    assert p.randLbls[p.numBits..] == IntoBitArr(b, p.numBits);
    AssembleRandLabelRoundTrip(p.numBits, a);
    AssembleRandLabelRoundTrip(p.numBits, b);
  }
}
