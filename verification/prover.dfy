/** The sum-check prover: its state, the little-endian label machinery, the
    eq-factor product, the random-gate queries, the move to the next layer,
    and one round of the sum-check. */
module CmtProver {
  import opened Field
  import opened Bits
  import opened Mle
  import opened Circuit
  import opened Wrappers

  /** `Prover`: the circuit it reads (with its layer cursor), the label width,
      the gate under test in the layer above the cursor, that gate's wiring
      into the cursor layer, and the challenges received in this layer. */
  datatype Prover = Prover(
    circuit: ArithCircuit,
    numBits: nat,
    currGate: nat,
    currWiring: (nat, nat),
    randLbls: seq<Zp>)

  /** The state every session step expects: the cursor sits one layer below
      the gate under test, the recorded wiring is that gate's, labels fit in a
      machine word, and at most 2 * numBits challenges have been received. */
  predicate Consistent(p: Prover) {
    && Valid(p.circuit)
    && p.numBits == p.circuit.numBits
    && p.numBits <= WORD_BITS
    && 0 < p.circuit.cursor
    && p.currGate < |GetLastLayer(p.circuit)|
    && p.currWiring == (GetLastLayer(p.circuit)[p.currGate].w0, GetLastLayer(p.circuit)[p.currGate].w1)
    && |p.randLbls| <= 2 * p.numBits
  }

  /** `Prover::new`: the gate under test is `startLbl` of the cursor layer;
      its wiring is read BEFORE the cursor advances, so after the advance the
      gate lives in the layer above the cursor and its wiring points into the
      cursor layer. No challenges yet. */
  function New(circ: ArithCircuit, startLbl: nat): (p: Prover)
    requires Valid(circ)
    requires startLbl < NumGateAtLayer(circ)
    ensures p.currGate == startLbl && p.randLbls == [] && p.numBits == circ.numBits
    ensures p.circuit == Circuit.NextLayer(circ)
    ensures p.currWiring == (GetThisLayer(circ)[startLbl].w0, GetThisLayer(circ)[startLbl].w1)
    ensures p.circuit.layers == circ.layers
    ensures circ.cursor + 1 < |circ.layers| ==> p.circuit.cursor == circ.cursor + 1
    ensures circ.cursor + 1 < |circ.layers| && circ.numBits <= WORD_BITS ==> Consistent(p)
  {
    Prover(Circuit.NextLayer(circ), circ.numBits, startLbl, GetGateWiring(circ, startLbl), [])
  }

  // ------------------------------------------------------------ label machinery

  /** The value of `val` in `assemble_rand_label` after the first k
      iterations: `val |= (r[i] as usize) << i`. The shift keeps the low 64
      bits of the product. */
  function ShiftedOr(r: seq<Zp>, k: nat): (v: nat)
    requires k <= |r| <= WORD_BITS
    ensures v < WORD_MOD
  {
    if k == 0 then 0
    else
      var prev := ShiftedOr(r, k - 1);
      var shifted := Wrap64(r[k - 1] * Pow2(k - 1));
      Pow2WordBits();
      BitOrBound(prev, shifted, WORD_BITS);
      BitOr(prev, shifted)
  }

  /** `assemble_rand_label`: assemble a label from a vector of challenges,
      little-endian. The source asserts |r| == numBits; a shift by 64 or more
      overflows, so labels are at most WORD_BITS wide. On arbitrary field
      elements this ORs together shifted representatives. */
  function AssembleRandLabel(numBits: nat, r: seq<Zp>): (lbl: nat)
    requires |r| == numBits <= WORD_BITS
    ensures lbl < WORD_MOD
  {
    ShiftedOr(r, |r|)
  }

  /** `assemble_u(k)`: the label of the gate under test, then the challenges
      received so far, then k. */
  function AssembleU(p: Prover, k: nat): (u: seq<Zp>)
    ensures |u| == p.numBits + |p.randLbls| + 1
    ensures u[..p.numBits] == IntoBitArr(p.currGate, p.numBits)
    ensures u[p.numBits..] == p.randLbls + [FromNat(k)]
  {
    IntoBitArr(p.currGate, p.numBits) + p.randLbls + [FromNat(k)]
  }

  /** `assemble_s(g, gl, gr)`: the labels of a gate and of its two inputs. */
  function AssembleS(numBits: nat, g: nat, gl: nat, gr: nat): (s: seq<Zp>)
    ensures |s| == 3 * numBits
  {
    IntoBitArr(g, numBits) + IntoBitArr(gl, numBits) + IntoBitArr(gr, numBits)
  }

  /** The label vector `assemble_gate_label` builds: r, then k, then the bits
      of g from position |r| + 1 up to numBits. */
  function GateLabelVec(numBits: nat, r: seq<Zp>, k: Zp, g: nat): (v: seq<Zp>)
    requires |r| < numBits
    ensures |v| == numBits
  {
    r + [k] + IntoBitArr(g, numBits)[|r| + 1..]
  }

  /** `assemble_gate_label(r, k, g)`: g with its low |r| + 1 label bits
      replaced by the challenges r and then k. When |r| >= numBits the vector
      is too long and the source's length assertion fails. */
  function AssembleGateLabel(numBits: nat, r: seq<Zp>, k: Zp, g: nat): nat
    requires |r| < numBits <= WORD_BITS
  {
    AssembleRandLabel(numBits, GateLabelVec(numBits, r, k, g))
  }

  /** `calc_termp(s, u)`: the product of x(s[i], u[i]) over the positions of
      u; s must be at least as long as u. It is the equality polynomial of
      the first |u| entries of s, evaluated at u. */
  function CalcTermp(s: seq<Zp>, u: seq<Zp>): Zp
    requires |u| <= |s|
  {
    MleInterpolate(s[..|u|], u)
  }

  // --------------------------------------------------------- random gate labels

  /** `get_rand_gate`: the labels spelled by the two halves of the
      challenges, smaller first. */
  function GetRandGate(p: Prover): (lbls: (nat, nat))
    requires |p.randLbls| == 2 * p.numBits
    requires p.numBits <= WORD_BITS
    ensures lbls.0 <= lbls.1
    ensures var l := AssembleRandLabel(p.numBits, p.randLbls[..p.numBits]);
            var r := AssembleRandLabel(p.numBits, p.randLbls[p.numBits..]);
            lbls == (l, r) || lbls == (r, l)
  {
    var l := AssembleRandLabel(p.numBits, p.randLbls[..p.numBits]);
    var r := AssembleRandLabel(p.numBits, p.randLbls[p.numBits..]);
    if l > r then (r, l) else (l, r)
  }

  /** `get_gate_value`: the values of the two wired inputs of the gate under
      test, read from the cursor layer. */
  function GetGateValue(p: Prover): (Zp, Zp)
    requires p.circuit.cursor < |p.circuit.layers|
    requires p.currWiring.0 < NumGateAtLayer(p.circuit) && p.currWiring.1 < NumGateAtLayer(p.circuit)
  {
    (GetGateVal(p.circuit, p.currWiring.0), GetGateVal(p.circuit, p.currWiring.1))
  }

  /** `get_gate_is_add`: the operation of the gate under test. */
  function GetGateIsAdd(p: Prover): bool
    requires 0 < p.circuit.cursor <= |p.circuit.layers|
    requires p.currGate < |GetLastLayer(p.circuit)|
  {
    IsGateAdd(p.circuit, p.currGate)
  }

  /** The two labels equal the recorded wiring as an unordered pair. */
  predicate MatchesWiring(lbls: (nat, nat), w: (nat, nat)) {
    (lbls.0 == w.0 && lbls.1 == w.1) || (lbls.0 == w.1 && lbls.1 == w.0)
  }

  /** The bounds test of `query_rand_gate` as the source writes it: the left
      label is tested twice and the right one never. */
  predicate OutOfRangeAsWritten(lbls: (nat, nat), n: nat) {
    lbls.0 >= n || lbls.0 >= n
  }

  /** The bounds test as evidently intended: either label out of range. */
  predicate OutOfRange(lbls: (nat, nat), n: nat) {
    lbls.0 >= n || lbls.1 >= n
  }

  /** The source reads the wired values only after passing its bounds test
      and matching the wiring; this is the condition under which those reads
      stay inside the cursor layer. */
  predicate AsWrittenReadsInRange(p: Prover)
    requires |p.randLbls| == 2 * p.numBits <= 2 * WORD_BITS
    requires p.circuit.cursor < |p.circuit.layers|
  {
    var n := NumGateAtLayer(p.circuit);
    var lbls := GetRandGate(p);
    !OutOfRangeAsWritten(lbls, n) && MatchesWiring(lbls, p.currWiring) ==>
      p.currWiring.0 < n && p.currWiring.1 < n
  }

  /** `query_rand_gate` exactly as written (lines 47-48 test lbl_l twice). */
  function QueryRandGateAsWritten(p: Prover): (res: Result<(Zp, Zp), bool>)
    requires |p.randLbls| == 2 * p.numBits <= 2 * WORD_BITS
    requires p.circuit.cursor < |p.circuit.layers|
    requires AsWrittenReadsInRange(p)
    ensures var lbls := GetRandGate(p);
            res.Ok? <==> MatchesWiring(lbls, p.currWiring) && lbls.0 < NumGateAtLayer(p.circuit)
    ensures res.Ok? ==> res.value == (GetThisLayer(p.circuit)[p.currWiring.0].value,
                                      GetThisLayer(p.circuit)[p.currWiring.1].value)
    ensures res.Err? ==> res.error == false
  {
    var lbls := GetRandGate(p);
    if OutOfRangeAsWritten(lbls, NumGateAtLayer(p.circuit)) then Err(false)
    else if MatchesWiring(lbls, p.currWiring) then Ok(GetGateValue(p))
    else Err(false)
  }

  /** `query_rand_gate` with the bounds test on both labels: the values of
      the wired inputs exactly when the challenge labels name the wiring (in
      either order) and both lie in the cursor layer; `Err(false)` otherwise.
      No precondition on the wiring is needed. */
  function QueryRandGate(p: Prover): (res: Result<(Zp, Zp), bool>)
    requires |p.randLbls| == 2 * p.numBits <= 2 * WORD_BITS
    requires p.circuit.cursor < |p.circuit.layers|
    ensures var lbls := GetRandGate(p);
            res.Ok? <==> MatchesWiring(lbls, p.currWiring) && !OutOfRange(lbls, NumGateAtLayer(p.circuit))
    ensures res.Ok? ==> res.value == (GetThisLayer(p.circuit)[p.currWiring.0].value,
                                      GetThisLayer(p.circuit)[p.currWiring.1].value)
    ensures res.Err? ==> res.error == false
  {
    var lbls := GetRandGate(p);
    if OutOfRange(lbls, NumGateAtLayer(p.circuit)) then Err(false)
    else if MatchesWiring(lbls, p.currWiring) then Ok(GetGateValue(p))
    else Err(false)
  }

  /** `get_all_vals`: the values at the two random labels, then at the points
      2..numBits of the line through them, each index reduced modulo the
      layer size (all in 64-bit word arithmetic). */
  function GetAllVals(p: Prover): (vals: seq<Zp>)
    requires |p.randLbls| == 2 * p.numBits <= 2 * WORD_BITS
    requires p.circuit.cursor < |p.circuit.layers|
    requires NumGateAtLayer(p.circuit) > 0
    ensures |vals| == if p.numBits >= 1 then p.numBits + 1 else 2
    ensures forall i :: 0 <= i < |vals| ==> vals[i] == GetGateVal(p.circuit, LinePoint(p, i))
  {
    var lim := NumGateAtLayer(p.circuit);
    var lbls := GetRandGate(p);
    var ends := [GetGateVal(p.circuit, lbls.0 % lim), GetGateVal(p.circuit, lbls.1 % lim)];
    var rest := seq(if p.numBits >= 1 then p.numBits - 1 else 0,
                    j requires 0 <= j => GetGateVal(p.circuit, LinePoint(p, j + 2)));
    var vals := ends + rest;
    assert forall i :: 2 <= i < |vals| ==> vals[i] == GetGateVal(p.circuit, LinePoint(p, i)) by {
      assert forall i :: 2 <= i < |vals| ==> vals[i] == rest[i - 2];
    }
    assert vals[0] == GetGateVal(p.circuit, LinePoint(p, 0)) && vals[1] == GetGateVal(p.circuit, LinePoint(p, 1)) by {
      LinePointEndpoints(p);
    }
    vals
  }

  /** Point n of the line through the two random labels, before any
      reduction: `(lbl_1 - lbl_0) * n + lbl_0`. */
  function LineValue(p: Prover, n: nat): nat
    requires |p.randLbls| == 2 * p.numBits <= 2 * WORD_BITS
  {
    var lbls := GetRandGate(p);
    LineAt(lbls.0, lbls.1 - lbls.0, n)
  }

  /** Point n of the line that starts at `lo` and rises by `d` per step. */
  function LineAt(lo: nat, d: nat, n: nat): nat {
    d * n + lo
  }

  /** The gate of the cursor layer at point n of the line, as `next_layer`
      and `get_all_vals` compute it: in 64-bit word arithmetic, then reduced
      modulo the size of the cursor layer. */
  function LinePoint(p: Prover, n: nat): (g: nat)
    requires |p.randLbls| == 2 * p.numBits <= 2 * WORD_BITS
    requires p.circuit.cursor < |p.circuit.layers|
    requires NumGateAtLayer(p.circuit) > 0
    ensures g < NumGateAtLayer(p.circuit)
  {
    Wrap64(LineValue(p, n)) % NumGateAtLayer(p.circuit)
  }

  /** A word-sized number is unchanged by the wrap-around. */
  lemma WrapSmall(x: nat)
    requires x < WORD_MOD
    ensures Wrap64(x) == x
  {
    DivUnique(x, WORD_MOD, 0, x);
  }

  /** When the point of the line fits in a word, no wrap-around happens and
      the gate is that point reduced modulo the layer size. */
  lemma LinePointNoWrap(p: Prover, n: nat)
    requires |p.randLbls| == 2 * p.numBits <= 2 * WORD_BITS
    requires p.circuit.cursor < |p.circuit.layers|
    requires NumGateAtLayer(p.circuit) > 0
    requires LineValue(p, n) < WORD_MOD
    ensures LinePoint(p, n) == LineValue(p, n) % NumGateAtLayer(p.circuit)
  {
    WrapSmall(LineValue(p, n));
  }

  /** Points 0 and 1 of the line are the two random labels themselves. */
  lemma LinePointEndpoints(p: Prover)
    requires |p.randLbls| == 2 * p.numBits <= 2 * WORD_BITS
    requires p.circuit.cursor < |p.circuit.layers|
    requires NumGateAtLayer(p.circuit) > 0
    ensures LinePoint(p, 0) == GetRandGate(p).0 % NumGateAtLayer(p.circuit)
    ensures LinePoint(p, 1) == GetRandGate(p).1 % NumGateAtLayer(p.circuit)
  {
    var lbls := GetRandGate(p);
    var d := lbls.1 - lbls.0;
    assert LineValue(p, 0) == d * 0 + lbls.0 == lbls.0;
    assert LineValue(p, 1) == d * 1 + lbls.0 == lbls.1;
    WrapSmall(lbls.0);
    WrapSmall(lbls.1);
  }

  /** `Prover::next_layer(n)`: the new gate under test is point n of the line
      through the two random labels, reduced modulo the size of the cursor
      layer; its wiring is reloaded, the cursor advances and the challenges
      are cleared. */
  function NextLayer(p: Prover, n: nat): (q: Prover)
    requires |p.randLbls| == 2 * p.numBits <= 2 * WORD_BITS
    requires p.circuit.cursor < |p.circuit.layers|
    requires NumGateAtLayer(p.circuit) > 0
    ensures q.currGate == LinePoint(p, n) && q.currGate < NumGateAtLayer(p.circuit)
    ensures q.currWiring == (GetThisLayer(p.circuit)[q.currGate].w0, GetThisLayer(p.circuit)[q.currGate].w1)
    ensures q.randLbls == [] && q.numBits == p.numBits
    ensures q.circuit == Circuit.NextLayer(p.circuit)
    ensures Consistent(p) && p.circuit.cursor + 1 < |p.circuit.layers| ==> Consistent(q)
  {
    var g := LinePoint(p, n);
    Prover(Circuit.NextLayer(p.circuit), p.numBits, g, GetGateWiring(p.circuit, g), [])
  }

  // ------------------------------------------------------------ sum-check round

  /** The challenge count fits the round: fewer than 2 * numBits challenges,
      fewer than numBits in the rounds over the left input, at least numBits
      in the rounds over the right input. */
  predicate RoundShapeOk(p: Prover, round: nat) {
    && p.numBits <= WORD_BITS
    && |p.randLbls| < 2 * p.numBits
    && (round < p.numBits ==> |p.randLbls| < p.numBits)
    && (round >= p.numBits ==> p.numBits <= |p.randLbls|)
  }

  /** The two gates of the cursor layer that the term k of gate `g` reads in
      round `round`: in the first numBits rounds the left input label has its
      low bits replaced by the challenges and k, the right one is read as
      wired; afterwards the left label is spelled by the first half of the
      challenges and the right label has its low bits replaced. */
  function RoundLabels(p: Prover, round: nat, g: Gate, k: nat): (nat, nat)
    requires RoundShapeOk(p, round)
  {
    if round < p.numBits then
      (AssembleGateLabel(p.numBits, p.randLbls, FromNat(k), g.w0), g.w1)
    else
      (AssembleRandLabel(p.numBits, p.randLbls[..p.numBits]),
       AssembleGateLabel(p.numBits, p.randLbls[p.numBits..], FromNat(k), g.w1))
  }

  /** The term k of gate i reads inside the cursor layer. */
  predicate TermReadsInRange(p: Prover, round: nat, i: nat, k: nat)
    requires RoundShapeOk(p, round)
    requires 0 < p.circuit.cursor < |p.circuit.layers|
    requires i < |GetLastLayer(p.circuit)|
  {
    var lbls := RoundLabels(p, round, GetLastLayer(p.circuit)[i], k);
    lbls.0 < NumGateAtLayer(p.circuit) && lbls.1 < NumGateAtLayer(p.circuit)
  }

  /** What `sum_check` needs to run without panicking: a layer above the
      cursor, a challenge count that fits the round, and every label it reads
      inside the cursor layer. */
  predicate SumCheckDefined(p: Prover, round: nat) {
    && RoundShapeOk(p, round)
    && 0 < p.circuit.cursor < |p.circuit.layers|
    && forall i, k :: 0 <= i < |GetLastLayer(p.circuit)| && 0 <= k < 2 ==> TermReadsInRange(p, round, i, k)
  }

  /** The contribution of gate i of the layer above the cursor to entry k:
      calc_termp(s, u_k) times (l + r) for an add gate, times l times r for
      a mult gate. */
  function GateTerm(p: Prover, round: nat, i: nat, k: nat): Zp
    requires SumCheckDefined(p, round)
    requires i < |GetLastLayer(p.circuit)| && k < 2
  {
    var g := GetLastLayer(p.circuit)[i];
    var tp := CalcTermp(AssembleS(p.numBits, i, g.w0, g.w1), AssembleU(p, k));
    assert TermReadsInRange(p, round, i, k);
    var lbls := RoundLabels(p, round, g, k);
    var tl := GetGateVal(p.circuit, lbls.0);
    var tr := GetGateVal(p.circuit, lbls.1);
    if g.isAdd then Mul(tp, Add(tl, tr)) else Mul(Mul(tp, tl), tr)
  }

  /** Entry k accumulated over the first m gates of the layer above the cursor. */
  function RoundSum(p: Prover, round: nat, k: nat, m: nat): Zp
    requires SumCheckDefined(p, round)
    requires m <= |GetLastLayer(p.circuit)| && k < 2
  {
    if m == 0 then 0 else Add(RoundSum(p, round, k, m - 1), GateTerm(p, round, m - 1, k))
  }

  /** `sum_check(round, r)`: the three coefficients the prover sends (entry
      k for k = 0, 1 accumulated over all gates of the layer above the
      cursor; entry 2 is never computed and stays 0), and the prover with r
      appended to its challenges, nothing else changed. */
  function SumCheck(p: Prover, round: nat, r: Zp): (res: (seq<Zp>, Prover))
    requires SumCheckDefined(p, round)
    ensures |res.0| == 3 && res.0[2] == 0
    ensures res.1 == p.(randLbls := p.randLbls + [r])
    ensures Consistent(p) ==> Consistent(res.1)
  {
    var m := |GetLastLayer(p.circuit)|;
    ([RoundSum(p, round, 0, m), RoundSum(p, round, 1, m), 0], p.(randLbls := p.randLbls + [r]))
  }
}
