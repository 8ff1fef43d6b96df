/** One sum-check round that reads the cursor layer through its multilinear
    extension instead of at assembled integer labels. The labels a round
    assembles can lie past the cursor layer, and `get_gate_val` then reads
    out of range: `assemble_rand_label` ORs raw field representatives
    together, so a challenge outside {0, 1} can build any label. On 0/1
    challenges a label past the layer needs a cursor layer with fewer than
    2^numBits gates; with at most 2^(numBits-1) gates some round always
    reads past it, and in between it depends on the wiring and the
    challenges. Reading the extension at the challenge point is defined for
    every challenge and agrees with the integer reads wherever the source's
    round runs on 0/1 challenges. */
module ProverMle {
  import opened Field
  import opened Bits
  import opened Mle
  import opened Circuit
  import opened CircuitMle
  import opened CmtProver
  import opened ProverLabels
  import opened ProverRounds

  // --------------------------------------------------------- the as-written round

  /** A prover at round 1 of a layer of label width 1: the gate under test
      reads the two gates of a full cursor layer, and the one challenge
      received so far is the field element 2. */
  function WideChallenge(): Prover {
    Prover(ArithCircuit([[Gate(0, 1, true, 0)], [Gate(0, 0, false, 3), Gate(0, 0, false, 4)]], 1, 1),
           1, 0, (0, 1), [2])
  }

  /** The input that shows the round reads out of range on a field challenge:
      the prover is consistent and the round has the right number of
      challenges, but the left label of round 1 assembles the challenge 2
      into label 2 of a two-gate layer, so `sum_check` cannot run. The
      corrected round is defined on the same prover. */
  lemma SumCheckOutOfRange()
    ensures var p := WideChallenge();
            && Consistent(p)
            && RoundShapeOk(p, 1)
            && RoundLabels(p, 1, GetLastLayer(p.circuit)[0], 0).0 == 2
            && NumGateAtLayer(p.circuit) == 2
            && !SumCheckDefined(p, 1)
  {
    var p := WideChallenge();
    assert p.randLbls[..1] == [2];
    assert Wrap64(2 * Pow2(0)) == 2;
    assert BitOr(0, 2) == 2 * BitOr(0, 1) && BitOr(0, 1) == 1;
    assert !TermReadsInRange(p, 1, 0, 0);
  }

  /** The circuit (x0 + x1) * (x2 + x3) on the inputs 1, 2, 3, 4, evaluated,
      with label width 2 and its cursor at the output layer. Its middle
      layer has two gates, fewer than 2^2. */
  function ProductOfSums(): ArithCircuit {
    ArithCircuit([[Gate(0, 1, false, 21)],
                  [Gate(0, 1, true, 3), Gate(2, 3, true, 7)],
                  [Gate(0, 0, false, 1), Gate(0, 0, false, 2), Gate(0, 0, false, 3), Gate(0, 0, false, 4)]],
                 0, 2)
  }

  /** The prover started on the output gate of ProductOfSums is consistent
      and its round 0 reads only the two gates of the middle layer. */
  lemma ProductOfSumsRound0()
    ensures var p0 := New(ProductOfSums(), 0);
            Consistent(p0) && SumCheckDefined(p0, 0)
  {
    var c := ProductOfSums();
    var p0 := New(c, 0);
    assert Valid(c);
    assert Pow2(2) == 4 && Pow2(1) == 2;
    forall k | 0 <= k < 2
      ensures TermReadsInRange(p0, 0, 0, k)
    {
      assert FromNat(k) == k;
      var v := GateLabelVec(2, [], FromNat(k), 0);
      assert v == [k as Zp, 0];
      AssembleRandLabelOnBits(v);
      assert BitsValue(v) == k;
    }
  }

  /** With r0 at bit 0 and 1 at bit 1, the label is r0 + 2. */
  lemma GateLabelBitOne(r0: Zp)
    requires r0 == 0 || r0 == 1
    ensures AssembleGateLabel(2, [r0], FromNat(1), 0) == r0 + 2
  {
    assert FromNat(1) == 1;
    var v := GateLabelVec(2, [r0], FromNat(1), 0);
    assert v == [r0, 1];
    AssembleRandLabelOnBits(v);
    assert BitsValue(v) == r0 + 2 * BitsValue([1]) && BitsValue([1]) == 1;
  }

  /** The input that shows the round reads out of range on 0/1 challenges
      too, when the cursor layer is at most half full: a prover started on
      the output gate of ProductOfSums runs round 0 on any 0/1 challenge r0,
      but in round 1 the entry k = 1 assembles the left label r0 + 2 in a
      layer of two gates, so `sum_check` cannot run whatever the
      challenges. */
  lemma ProductOfSumsRound1OutOfRange(r0: Zp)
    requires r0 == 0 || r0 == 1
    ensures var p0 := New(ProductOfSums(), 0);
            && Consistent(p0)
            && SumCheckDefined(p0, 0)
            && var p := SumCheck(p0, 0, r0).1;
               && Consistent(p)
               && RoundShapeOk(p, 1)
               && NumGateAtLayer(p.circuit) == 2
               && RoundLabels(p, 1, GetLastLayer(p.circuit)[0], 1).0 == r0 + 2
               && !SumCheckDefined(p, 1)
  {
    var p0 := New(ProductOfSums(), 0);
    ProductOfSumsRound0();
    var p := SumCheck(p0, 0, r0).1;
    assert p.randLbls == [r0] && p.numBits == 2;
    assert GetLastLayer(p.circuit)[0] == Gate(0, 1, false, 21);
    GateLabelBitOne(r0);
    assert !TermReadsInRange(p, 1, 0, 1);
  }

  /** On 0/1 challenges, a cursor layer of at most 2^(numBits-1) gates is
      always read out of range: in round numBits - 1 the entry k = 1 sets the
      top bit of the left label of the gate under test, so that label is at
      least 2^(numBits-1). */
  lemma HalfFullLayerOutOfRange(p: Prover)
    requires Consistent(p)
    requires p.numBits >= 1 && |p.randLbls| == p.numBits - 1
    requires IsBoolVec(p.randLbls)
    requires NumGateAtLayer(p.circuit) <= Pow2(p.numBits - 1)
    ensures RoundShapeOk(p, p.numBits - 1)
    ensures RoundLabels(p, p.numBits - 1, GetLastLayer(p.circuit)[p.currGate], 1).0 >= Pow2(p.numBits - 1)
    ensures !SumCheckDefined(p, p.numBits - 1)
  {
    var n := p.numBits;
    var g := GetLastLayer(p.circuit)[p.currGate];
    assert FromNat(1) == 1;
    AssembleGateLabelBits(n, p.randLbls, FromNat(1), g.w0);
    GetBitSetAtLeast(AssembleGateLabel(n, p.randLbls, FromNat(1), g.w0), n - 1);
    assert !TermReadsInRange(p, n - 1, p.currGate, 1);
  }

  // ------------------------------------------------------------ the corrected round

  /** The two points at which the term k of gate g reads the cursor layer:
      the label vectors the source assembles, left as vectors. */
  function RoundPoints(p: Prover, round: nat, g: Gate, k: nat): (pts: (seq<Zp>, seq<Zp>))
    requires RoundShapeOk(p, round)
    ensures |pts.0| == p.numBits && |pts.1| == p.numBits
    ensures AssembleRandLabel(p.numBits, pts.0) == RoundLabels(p, round, g, k).0
    ensures round < p.numBits ==> pts.1 == IntoBitArr(RoundLabels(p, round, g, k).1, p.numBits)
    ensures round >= p.numBits ==> AssembleRandLabel(p.numBits, pts.1) == RoundLabels(p, round, g, k).1
  {
    if round < p.numBits then
      (GateLabelVec(p.numBits, p.randLbls, FromNat(k), g.w0), IntoBitArr(g.w1, p.numBits))
    else
      (p.randLbls[..p.numBits], GateLabelVec(p.numBits, p.randLbls[p.numBits..], FromNat(k), g.w1))
  }

  /** Gate i's contribution to entry k, with the left and right input values
      read from the multilinear extension of the cursor layer at the round's
      points. */
  function GateTermMle(p: Prover, round: nat, i: nat, k: nat): Zp
    requires Consistent(p) && RoundShapeOk(p, round)
    requires i < |GetLastLayer(p.circuit)| && k < 2
  {
    var g := GetLastLayer(p.circuit)[i];
    var tp := CalcTermp(AssembleS(p.numBits, i, g.w0, g.w1), AssembleU(p, k));
    var pts := RoundPoints(p, round, g, k);
    var tl := MleGateVal(p.circuit, pts.0);
    var tr := MleGateVal(p.circuit, pts.1);
    if g.isAdd then Mul(tp, Add(tl, tr)) else Mul(Mul(tp, tl), tr)
  }

  /** Entry k accumulated over the first m gates of the layer above the cursor. */
  function RoundSumMle(p: Prover, round: nat, k: nat, m: nat): Zp
    requires Consistent(p) && RoundShapeOk(p, round)
    requires m <= |GetLastLayer(p.circuit)| && k < 2
  {
    if m == 0 then 0 else Add(RoundSumMle(p, round, k, m - 1), GateTermMle(p, round, m - 1, k))
  }

  /** The corrected `sum_check(round, r)`: defined for every challenge the
      round can have received; the same three entries (the third still 0)
      and the same move of r into the challenges. */
  function SumCheckMle(p: Prover, round: nat, r: Zp): (res: (seq<Zp>, Prover))
    requires Consistent(p) && RoundShapeOk(p, round)
    ensures |res.0| == 3 && res.0[2] == 0
    ensures res.1 == p.(randLbls := p.randLbls + [r])
    ensures Consistent(res.1)
  {
    var m := |GetLastLayer(p.circuit)|;
    ([RoundSumMle(p, round, 0, m), RoundSumMle(p, round, 1, m), 0], p.(randLbls := p.randLbls + [r]))
  }

  // ------------------------------------------------------------------ lemmas

  /** At a 0/1 point the extension of the cursor layer is the value of the
      gate the point spells, or 0 past the end of the layer. */
  lemma MleGateValOnBits(c: ArithCircuit, v: seq<Zp>)
    requires Valid(c)
    requires |v| == c.numBits <= WORD_BITS
    requires IsBoolVec(v)
    ensures var l := AssembleRandLabel(|v|, v);
            MleGateVal(c, v) == if l < NumGateAtLayer(c) then GetGateVal(c, l) else 0
  {
    var l := AssembleRandLabel(|v|, v);
    AssembleRandLabelOnBits(v);
    AssembleRandLabelBits(v);
    MleGateValOnLabel(c, l);
  }

  /** The round's points are 0/1 vectors when the challenges are. */
  lemma RoundPointsOnBits(p: Prover, round: nat, g: Gate, k: nat)
    requires RoundShapeOk(p, round)
    requires IsBoolVec(p.randLbls) && k < 2
    ensures IsBoolVec(RoundPoints(p, round, g, k).0) && IsBoolVec(RoundPoints(p, round, g, k).1)
  {
    assert FromNat(k) == k;
    IntoBitArrIsBool(g.w1, p.numBits);
    if round < p.numBits {
      GateLabelVecEntries(p.numBits, p.randLbls, FromNat(k), g.w0);
    } else {
      assert IsBoolVec(p.randLbls[..p.numBits]) && IsBoolVec(p.randLbls[p.numBits..]);
      GateLabelVecEntries(p.numBits, p.randLbls[p.numBits..], FromNat(k), g.w1);
    }
  }

  /** On the path to the inputs of the gate under test, the corrected round
      reads exactly those inputs' values. */
  lemma RoundPointsOnPath(p: Prover, round: nat, k: nat)
    requires Consistent(p) && RoundShapeOk(p, round)
    requires IsBoolVec(p.randLbls) && k < 2
    requires OnWiringPath(p, p.randLbls + [FromNat(k)])
    ensures var pts := RoundPoints(p, round, GetLastLayer(p.circuit)[p.currGate], k);
            && MleGateVal(p.circuit, pts.0) == GetThisLayer(p.circuit)[p.currWiring.0].value
            && MleGateVal(p.circuit, pts.1) == GetThisLayer(p.circuit)[p.currWiring.1].value
  {
    var c := p.circuit;
    var g := GetLastLayer(c)[p.currGate];
    var pts := RoundPoints(p, round, g, k);
    assert Wired(c.layers[c.cursor - 1], c.layers[c.cursor]);
    RoundLabelsOnPath(p, round, k);
    RoundPointsOnBits(p, round, g, k);
    MleGateValOnBits(c, pts.0);
    if round < p.numBits {
      assert |c.layers[c.cursor]| <= Pow2(c.numBits);
      MleGateValOnLabel(c, g.w1);
    } else {
      MleGateValOnBits(c, pts.1);
    }
  }

  /** Gate i's corrected contribution on 0/1 challenges: the recomputed value
      of the gate under test when i is that gate and k stays on the path to
      its inputs, and 0 for every other gate, whatever the labels read. */
  lemma GateTermMleOnBits(p: Prover, round: nat, i: nat, k: nat)
    requires Consistent(p) && RoundShapeOk(p, round)
    requires IsBoolVec(p.randLbls)
    requires i < |GetLastLayer(p.circuit)| && k < 2
    ensures GateTermMle(p, round, i, k)
            == if i == p.currGate && OnWiringPath(p, p.randLbls + [FromNat(k)]) then RecomputedValue(p) else 0
  {
    var c := p.circuit;
    var g := GetLastLayer(c)[i];
    var pts := RoundPoints(p, round, g, k);
    var tl := MleGateVal(c, pts.0);
    var tr := MleGateVal(c, pts.1);
    TermpOnBits(p, i, k);
    if i == p.currGate && OnWiringPath(p, p.randLbls + [FromNat(k)]) {
      RoundPointsOnPath(p, round, k);
      Units(Add(tl, tr));
      Units(tl);
    } else {
      Units(Add(tl, tr));
      Units(tl);
      Units(tr);
    }
  }

  /** One more gate: the partial sum picks up gate m - 1's term, which is
      the recomputed value only for the gate under test on the path. */
  lemma RoundSumMleStep(p: Prover, round: nat, k: nat, m: nat)
    requires Consistent(p) && RoundShapeOk(p, round)
    requires IsBoolVec(p.randLbls)
    requires 0 < m <= |GetLastLayer(p.circuit)| && k < 2
    requires RoundSumMle(p, round, k, m - 1)
             == if p.currGate < m - 1 && OnWiringPath(p, p.randLbls + [FromNat(k)]) then RecomputedValue(p) else 0
    ensures RoundSumMle(p, round, k, m)
            == if p.currGate < m && OnWiringPath(p, p.randLbls + [FromNat(k)]) then RecomputedValue(p) else 0
  {
    var onPath := OnWiringPath(p, p.randLbls + [FromNat(k)]);
    var prev := RoundSumMle(p, round, k, m - 1);
    var term := GateTermMle(p, round, m - 1, k);
    assert RoundSumMle(p, round, k, m) == Add(prev, term);
    GateTermMleOnBits(p, round, m - 1, k);
    if p.currGate == m - 1 && onPath {
      assert prev == 0 && term == RecomputedValue(p);
      Units(RecomputedValue(p));
    } else {
      assert term == 0;
      Units(prev);
    }
  }

  lemma {:induction false} RoundSumMleOnBits(p: Prover, round: nat, k: nat, m: nat)
    requires Consistent(p) && RoundShapeOk(p, round)
    requires IsBoolVec(p.randLbls)
    requires m <= |GetLastLayer(p.circuit)| && k < 2
    ensures RoundSumMle(p, round, k, m)
            == if p.currGate < m && OnWiringPath(p, p.randLbls + [FromNat(k)]) then RecomputedValue(p) else 0
  {
    if m > 0 {
      RoundSumMleOnBits(p, round, k, m - 1);
      RoundSumMleStep(p, round, k, m);
    }
  }

  /** What the corrected round sends on 0/1 challenges, with no condition on
      the labels it reads: entry k is the value the gate under test computes
      from its inputs when the challenges followed by k stay on the path to
      those inputs, and 0 otherwise. */
  lemma SumCheckMleOnBits(p: Prover, round: nat, r: Zp, k: nat)
    requires Consistent(p) && RoundShapeOk(p, round)
    requires IsBoolVec(p.randLbls)
    requires k < 2
    ensures SumCheckMle(p, round, r).0[k]
            == if OnWiringPath(p, p.randLbls + [FromNat(k)]) then RecomputedValue(p) else 0
  {
    RoundSumMleOnBits(p, round, k, |GetLastLayer(p.circuit)|);
  }

  /** The round identity holds for the corrected round on every 0/1
      challenge sequence: the two entries add up to the gate's value while
      the challenges stay on the path to its inputs, and to 0 once they have
      left it. */
  lemma SumCheckMleRoundIdentity(p: Prover, round: nat, r: Zp)
    requires Consistent(p) && RoundShapeOk(p, round)
    requires IsBoolVec(p.randLbls)
    ensures var poly := SumCheckMle(p, round, r).0;
            Add(poly[0], poly[1]) == if OnWiringPath(p, p.randLbls) then RecomputedValue(p) else 0
  {
    SumCheckMleOnBits(p, round, r, 0);
    SumCheckMleOnBits(p, round, r, 1);
    IntoBitArrIsBool(p.currWiring.0, p.numBits);
    IntoBitArrIsBool(p.currWiring.1, p.numBits);
    assert IsBoolVec(WiringBits(p));
    assert FromNat(0) == 0 && FromNat(1) == 1;
    OnWiringPathExtend(p, p.randLbls, FromNat(0));
    OnWiringPathExtend(p, p.randLbls, FromNat(1));
    Units(RecomputedValue(p));
    Units(0);
  }

  /** Wherever the source's round runs on 0/1 challenges, the corrected round
      sends the same entries and moves to the same prover. */
  lemma SumCheckMleAgrees(p: Prover, round: nat, r: Zp)
    requires Consistent(p) && SumCheckDefined(p, round)
    requires IsBoolVec(p.randLbls)
    ensures SumCheckMle(p, round, r) == SumCheck(p, round, r)
  {
    SumCheckMleOnBits(p, round, r, 0);
    SumCheckMleOnBits(p, round, r, 1);
    SumCheckOnBits(p, round, r, 0);
    SumCheckOnBits(p, round, r, 1);
    var a, b := SumCheckMle(p, round, r).0, SumCheck(p, round, r).0;
    assert a == [a[0], a[1], a[2]] && b == [b[0], b[1], b[2]];
  }
}
