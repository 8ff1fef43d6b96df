/** How the prover's answers relate to the circuit on 0/1 challenges: the
    random-gate query, the move to the next layer, and what one sum-check
    round sends. */
module ProverRounds {
  import opened Field
  import opened Bits
  import opened Mle
  import opened Circuit
  import opened Wrappers
  import opened CmtProver
  import opened ProverLabels

  // --------------------------------------------------------------------- new

  /** After `Prover::new(c, g)` the prover reads the gate it was started on:
      `get_gate_is_add` reports that gate's operation (read in the layer
      above the moved cursor) and `get_gate_value` the values of its two
      inputs (read in the cursor layer). */
  lemma NewReadsGateUnderTest(c: ArithCircuit, g: nat)
    requires Valid(c) && c.cursor + 1 < |c.layers| && c.numBits <= WORD_BITS
    requires g < NumGateAtLayer(c)
    ensures var p := New(c, g);
            var gate := GetThisLayer(c)[g];
            var below := c.layers[c.cursor + 1];
            && gate.w0 < |below| && gate.w1 < |below|
            && GetGateIsAdd(p) == gate.isAdd
            && GetGateValue(p) == (below[gate.w0].value, below[gate.w1].value)
  {
    NextLayerShiftsAccessors(c, g);
  }

  // ------------------------------------------------------------ query_rand_gate

  /** In a consistent state the gate under test is wired into the cursor
      layer, so the query as written never reads outside it. */
  lemma ConsistentReadsInRange(p: Prover)
    requires Consistent(p)
    requires |p.randLbls| == 2 * p.numBits
    ensures AsWrittenReadsInRange(p)
  {
    assert Wired(p.circuit.layers[p.circuit.cursor - 1], p.circuit.layers[p.circuit.cursor]);
  }

  /** Wherever the query as written stays in range, it answers exactly as the
      query with both labels tested: the missing test of the right label only
      matters when the recorded wiring itself leaves the cursor layer. */
  lemma QueryRandGateAgrees(p: Prover)
    requires |p.randLbls| == 2 * p.numBits <= 2 * WORD_BITS
    requires p.circuit.cursor < |p.circuit.layers|
    requires AsWrittenReadsInRange(p)
    ensures QueryRandGateAsWritten(p) == QueryRandGate(p)
  {
  }

  /** A prover whose gate under test claims inputs 0 and 1 in a cursor layer
      of one gate, with challenges spelling the labels 0 and 1. */
  function StrayWiring(): Prover {
    Prover(ArithCircuit([[Gate(0, 1, true, 0)], [Gate(0, 0, false, 5)]], 1, 1), 1, 0, (0, 1), [0, 1])
  }

  /** The input that shows the bounds test of `query_rand_gate` is one-sided:
      the right label 1 is outside the one-gate layer, the as-written test
      lets it through, the labels match the wiring, and the source would go
      on to read gate 1 of that layer. The corrected query answers
      `Err(false)`. */
  lemma RightLabelUnchecked()
    ensures var p := StrayWiring();
            && |p.randLbls| == 2 * p.numBits
            && GetRandGate(p) == (0, 1)
            && !OutOfRangeAsWritten(GetRandGate(p), NumGateAtLayer(p.circuit))
            && OutOfRange(GetRandGate(p), NumGateAtLayer(p.circuit))
            && MatchesWiring(GetRandGate(p), p.currWiring)
            && !AsWrittenReadsInRange(p)
            && QueryRandGate(p) == Err(false)
  {
    var p := StrayWiring();
    assert p.randLbls[..1] == [0] && p.randLbls[1..] == [1];
    AssembleRandLabelOnBits([0]);
    AssembleRandLabelOnBits([1]);
    assert BitsValue([1]) == 1 + 2 * BitsValue([]);
  }

  /** On 0/1 challenges in a consistent state, the query succeeds exactly
      when the challenges spell the labels of the two wired inputs, in either
      order; the as-written query gives the same answer. */
  lemma QueryRandGateOnBits(p: Prover)
    requires Consistent(p)
    requires |p.randLbls| == 2 * p.numBits
    requires IsBoolVec(p.randLbls)
    ensures var n := p.numBits;
            var w := p.currWiring;
            QueryRandGate(p).Ok? <==>
              p.randLbls == IntoBitArr(w.0, n) + IntoBitArr(w.1, n)
              || p.randLbls == IntoBitArr(w.1, n) + IntoBitArr(w.0, n)
    ensures QueryRandGateAsWritten(p) == QueryRandGate(p)
  {
    ConsistentReadsInRange(p);
    var n := p.numBits;
    var w := p.currWiring;
    var c := p.circuit;
    assert Wired(c.layers[c.cursor - 1], c.layers[c.cursor]);
    assert |c.layers[c.cursor]| <= Pow2(n);
    var h0, h1 := p.randLbls[..n], p.randLbls[n..];
    assert p.randLbls == h0 + h1;
    assert IsBoolVec(h0) && IsBoolVec(h1);
    var l := AssembleRandLabel(n, h0);
    var r := AssembleRandLabel(n, h1);
    AssembleRandLabelBits(h0);
    AssembleRandLabelBits(h1);
    AssembleRandLabelRoundTrip(n, w.0);
    AssembleRandLabelRoundTrip(n, w.1);
    if p.randLbls == IntoBitArr(w.0, n) + IntoBitArr(w.1, n) {
      Concat2Eq(h0, h1, IntoBitArr(w.0, n), IntoBitArr(w.1, n));
    }
    if p.randLbls == IntoBitArr(w.1, n) + IntoBitArr(w.0, n) {
      Concat2Eq(h0, h1, IntoBitArr(w.1, n), IntoBitArr(w.0, n));
    }
    if QueryRandGate(p).Ok? {
      if (l, r) == w {
        assert p.randLbls == IntoBitArr(w.0, n) + IntoBitArr(w.1, n);
      } else {
        assert (r, l) == w;
        assert p.randLbls == IntoBitArr(w.1, n) + IntoBitArr(w.0, n);
      }
    }
  }

  /** Splitting two concatenations whose first parts are equally long. */
  lemma Concat2Eq(a: seq<Zp>, b: seq<Zp>, x: seq<Zp>, y: seq<Zp>)
    requires |a| == |x|
    ensures a + b == x + y <==> a == x && b == y
  {
    if a + b == x + y {
      assert a == (a + b)[..|a|] && x == (x + y)[..|a|];
      assert b == (a + b)[|a|..] && y == (x + y)[|a|..];
    }
  }

  // ----------------------------------------------------------------- next_layer

  /** The gate `next_layer(n)` moves to is the one whose value `get_all_vals`
      reported at position n; after the move it is the gate under test, read
      in the layer above the new cursor. */
  lemma NextLayerFollowsReportedValue(p: Prover, n: nat)
    requires |p.randLbls| == 2 * p.numBits <= 2 * WORD_BITS
    requires p.circuit.cursor + 1 < |p.circuit.layers|
    requires NumGateAtLayer(p.circuit) > 0
    requires n < |GetAllVals(p)|
    ensures var q := CmtProver.NextLayer(p, n);
            && q.circuit.cursor == p.circuit.cursor + 1
            && GetLastLayer(q.circuit)[q.currGate].value == GetAllVals(p)[n]
  {
  }

  /** At the two ends of the line the next gate is one of the random labels
      themselves, when that label lies in the cursor layer. */
  lemma NextLayerEndpoints(p: Prover)
    requires |p.randLbls| == 2 * p.numBits <= 2 * WORD_BITS
    requires p.circuit.cursor < |p.circuit.layers|
    requires NumGateAtLayer(p.circuit) > 0
    ensures GetRandGate(p).0 < NumGateAtLayer(p.circuit) ==> CmtProver.NextLayer(p, 0).currGate == GetRandGate(p).0
    ensures GetRandGate(p).1 < NumGateAtLayer(p.circuit) ==> CmtProver.NextLayer(p, 1).currGate == GetRandGate(p).1
  {
    var lim := NumGateAtLayer(p.circuit);
    var lbls := GetRandGate(p);
    LinePointEndpoints(p);
    if lbls.0 < lim {
      DivUnique(lbls.0, lim, 0, lbls.0);
    }
    if lbls.1 < lim {
      DivUnique(lbls.1, lim, 0, lbls.1);
    }
  }

  // ------------------------------------------------------------ sum-check round

  /** The challenge path that leads to the inputs of the gate under test:
      the label bits of its left input, then those of its right input. */
  function WiringBits(p: Prover): (v: seq<Zp>)
    ensures |v| == 2 * p.numBits
    ensures v[..p.numBits] == IntoBitArr(p.currWiring.0, p.numBits)
    ensures v[p.numBits..] == IntoBitArr(p.currWiring.1, p.numBits)
  {
    IntoBitArr(p.currWiring.0, p.numBits) + IntoBitArr(p.currWiring.1, p.numBits)
  }

  /** The challenges v so far agree with the path to the wired inputs. */
  predicate OnWiringPath(p: Prover, v: seq<Zp>) {
    |v| <= 2 * p.numBits && WiringBits(p)[..|v|] == v
  }

  /** The value the gate under test computes from its two wired inputs in
      the cursor layer. */
  function RecomputedValue(p: Prover): (v: Zp)
    requires Consistent(p)
    ensures Evaluated(p.circuit.layers) ==> v == GetLastLayer(p.circuit)[p.currGate].value
  {
    var c := p.circuit;
    assert Wired(c.layers[c.cursor - 1], c.layers[c.cursor]);
    assert Evaluated(c.layers) ==> LayerEvaluated(c.layers[c.cursor - 1], c.layers[c.cursor]);
    Combine(GetLastLayer(c)[p.currGate], GetThisLayer(c))
  }

  /** The eq factor of gate i in entry k: on 0/1 challenges it is 1 exactly
      when i is the gate under test and the challenges, followed by k, stay
      on the path to i's wired inputs (which are then the recorded wiring). */
  lemma TermpOnBits(p: Prover, i: nat, k: nat)
    requires Consistent(p)
    requires |p.randLbls| < 2 * p.numBits && IsBoolVec(p.randLbls)
    requires i < |GetLastLayer(p.circuit)| && k < 2
    ensures var g := GetLastLayer(p.circuit)[i];
            CalcTermp(AssembleS(p.numBits, i, g.w0, g.w1), AssembleU(p, k))
            == if i == p.currGate && OnWiringPath(p, p.randLbls + [FromNat(k)]) then 1 else 0
  {
    var c := p.circuit;
    var n := p.numBits;
    var g := GetLastLayer(c)[i];
    var s := AssembleS(n, i, g.w0, g.w1);
    var u := AssembleU(p, k);
    var ext := p.randLbls + [FromNat(k)];
    assert |c.layers[c.cursor - 1]| <= Pow2(n);
    IntoBitArrIsBool(i, n);
    IntoBitArrIsBool(g.w0, n);
    IntoBitArrIsBool(g.w1, n);
    IntoBitArrIsBool(p.currGate, n);
    assert IsBoolVec(s);
    assert FromNat(k) == k;
    assert IsBoolVec(u);
    CalcTermpOnBits(s, u);
    var gw := IntoBitArr(g.w0, n) + IntoBitArr(g.w1, n);
    assert s[..|u|] == IntoBitArr(i, n) + gw[..|ext|];
    assert u == IntoBitArr(p.currGate, n) + ext;
    Concat2Eq(IntoBitArr(i, n), gw[..|ext|], IntoBitArr(p.currGate, n), ext);
    IntoBitArrInjective(i, p.currGate, n);
  }

  /** On the path, the two labels a round reads for the gate under test are
      exactly its recorded wiring: the challenges overwrite label bits with
      the bits they already had. */
  lemma RoundLabelsOnPath(p: Prover, round: nat, k: nat)
    requires Consistent(p) && RoundShapeOk(p, round)
    requires k < 2
    requires OnWiringPath(p, p.randLbls + [FromNat(k)])
    ensures RoundLabels(p, round, GetLastLayer(p.circuit)[p.currGate], k) == p.currWiring
  {
    var c := p.circuit;
    var n := p.numBits;
    var rl := p.randLbls;
    var kk := FromNat(k);
    var w := p.currWiring;
    var W := WiringBits(p);
    assert Wired(c.layers[c.cursor - 1], c.layers[c.cursor]);
    assert |c.layers[c.cursor]| <= Pow2(n);
    assert W[..|rl| + 1] == rl + [kk];
    if round < n {
      assert W[..|rl| + 1] == IntoBitArr(w.0, n)[..|rl| + 1];
      AssembleGateLabelOfPrefix(n, rl, kk, w.0);
    } else {
      assert rl[..n] == IntoBitArr(w.0, n) by {
        assert rl[..n] == (rl + [kk])[..n] == W[..n];
      }
      AssembleRandLabelRoundTrip(n, w.0);
      assert rl[n..] + [kk] == IntoBitArr(w.1, n)[..|rl[n..]| + 1] by {
        forall j | 0 <= j < |rl| - n + 1
          ensures (rl[n..] + [kk])[j] == IntoBitArr(w.1, n)[j]
        {
          assert (rl[n..] + [kk])[j] == (rl + [kk])[n + j] == W[n + j];
        }
      }
      AssembleGateLabelOfPrefix(n, rl[n..], kk, w.1);
    }
  }

  /** Gate i's contribution to entry k on 0/1 challenges: the recomputed
      value of the gate under test when i is that gate and k stays on the
      path to its inputs, and 0 for every other gate. */
  lemma GateTermOnBits(p: Prover, round: nat, i: nat, k: nat)
    requires Consistent(p) && SumCheckDefined(p, round)
    requires IsBoolVec(p.randLbls)
    requires i < |GetLastLayer(p.circuit)| && k < 2
    ensures GateTerm(p, round, i, k)
            == if i == p.currGate && OnWiringPath(p, p.randLbls + [FromNat(k)]) then RecomputedValue(p) else 0
  {
    var c := p.circuit;
    var g := GetLastLayer(c)[i];
    assert TermReadsInRange(p, round, i, k);
    var lbls := RoundLabels(p, round, g, k);
    var tl := GetGateVal(c, lbls.0);
    var tr := GetGateVal(c, lbls.1);
    TermpOnBits(p, i, k);
    if i == p.currGate && OnWiringPath(p, p.randLbls + [FromNat(k)]) {
      RoundLabelsOnPath(p, round, k);
      Units(Add(tl, tr));
      Units(tl);
    } else {
      Units(Add(tl, tr));
      Units(tl);
      Units(tr);
    }
  }

  /** Entry k over the first m gates: only the gate under test can
      contribute. */
  lemma {:induction false} RoundSumOnBits(p: Prover, round: nat, k: nat, m: nat)
    requires Consistent(p) && SumCheckDefined(p, round)
    requires IsBoolVec(p.randLbls)
    requires m <= |GetLastLayer(p.circuit)| && k < 2
    ensures RoundSum(p, round, k, m)
            == if p.currGate < m && OnWiringPath(p, p.randLbls + [FromNat(k)]) then RecomputedValue(p) else 0
  {
    if m > 0 {
      RoundSumOnBits(p, round, k, m - 1);
      GateTermOnBits(p, round, m - 1, k);
      Units(RecomputedValue(p));
      Units(0);
    }
  }

  /** What one sum-check round sends on 0/1 challenges: entry k (k = 0, 1)
      is the value the gate under test computes from its inputs when the
      challenges followed by k stay on the path to those inputs, and 0 when
      they leave it; entry 2 is 0. */
  lemma SumCheckOnBits(p: Prover, round: nat, r: Zp, k: nat)
    requires Consistent(p) && SumCheckDefined(p, round)
    requires IsBoolVec(p.randLbls)
    requires k < 2
    ensures SumCheck(p, round, r).0[k]
            == if OnWiringPath(p, p.randLbls + [FromNat(k)]) then RecomputedValue(p) else 0
  {
    RoundSumOnBits(p, round, k, |GetLastLayer(p.circuit)|);
  }

  /** The round identity of the sum-check on 0/1 challenges: the two
      computed entries add up to the gate's value while the challenges stay
      on the path to its inputs, and to 0 once they have left it. With no
      challenges yet (the first round) the path is trivially kept. */
  lemma SumCheckRoundIdentity(p: Prover, round: nat, r: Zp)
    requires Consistent(p) && SumCheckDefined(p, round)
    requires IsBoolVec(p.randLbls)
    ensures var poly := SumCheck(p, round, r).0;
            Add(poly[0], poly[1]) == if OnWiringPath(p, p.randLbls) then RecomputedValue(p) else 0
  {
    var rl := p.randLbls;
    var W := WiringBits(p);
    SumCheckOnBits(p, round, r, 0);
    SumCheckOnBits(p, round, r, 1);
    IntoBitArrIsBool(p.currWiring.0, p.numBits);
    IntoBitArrIsBool(p.currWiring.1, p.numBits);
    assert IsBoolVec(W);
    assert FromNat(0) == 0 && FromNat(1) == 1;
    OnWiringPathExtend(p, rl, FromNat(0));
    OnWiringPathExtend(p, rl, FromNat(1));
    Units(RecomputedValue(p));
    Units(0);
  }

  /** One more challenge keeps the path exactly when it is the next bit of
      the path. */
  lemma OnWiringPathExtend(p: Prover, v: seq<Zp>, b: Zp)
    requires |v| < 2 * p.numBits
    ensures OnWiringPath(p, v + [b]) <==> OnWiringPath(p, v) && WiringBits(p)[|v|] == b
  {
    var W := WiringBits(p);
    if OnWiringPath(p, v + [b]) {
      assert W[..|v|] == W[..|v| + 1][..|v|];
      assert (v + [b])[..|v|] == v;
      assert W[|v|] == W[..|v| + 1][|v|];
    }
    if OnWiringPath(p, v) && W[|v|] == b {
      assert W[..|v| + 1] == W[..|v|] + [W[|v|]];
    }
  }

  /** Every label a round reads lies in the cursor layer when that layer is
      full (2^numBits gates) and the challenges are 0/1: such a round never
      panics. */
  lemma SumCheckDefinedOnFullLayer(p: Prover, round: nat)
    requires Consistent(p) && RoundShapeOk(p, round)
    requires p.circuit.cursor < |p.circuit.layers|
    requires IsBoolVec(p.randLbls)
    requires NumGateAtLayer(p.circuit) == Pow2(p.numBits)
    ensures SumCheckDefined(p, round)
  {
    var c := p.circuit;
    var n := p.numBits;
    var rl := p.randLbls;
    assert Wired(c.layers[c.cursor - 1], c.layers[c.cursor]);
    forall i, k | 0 <= i < |GetLastLayer(c)| && 0 <= k < 2
      ensures TermReadsInRange(p, round, i, k)
    {
      var g := GetLastLayer(c)[i];
      assert FromNat(k) == k;
      if round < n {
        AssembleGateLabelBits(n, rl, FromNat(k), g.w0);
      } else {
        assert IsBoolVec(rl[..n]) && IsBoolVec(rl[n..]);
        AssembleRandLabelOnBits(rl[..n]);
        AssembleGateLabelBits(n, rl[n..], FromNat(k), g.w1);
      }
    }
  }
}
