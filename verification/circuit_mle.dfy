/** The two multilinear extensions the circuit exposes to the protocol: of the
    wire values of the cursor layer, and of the wiring predicate of the layer
    above it. */
module CircuitMle {
  import opened Field
  import opened Bits
  import opened Mle
  import opened Circuit

  /** The partial sum of `mle_gate_val` over the first m gates of `layer`:
      value times the basis polynomial of the gate's label, added in index
      order. */
  function GateValSum(layer: seq<Gate>, numBits: nat, q: seq<Zp>, m: nat): Zp
    requires m <= |layer| && |q| == numBits
  {
    if m == 0 then 0
    else Add(GateValSum(layer, numBits, q, m - 1),
             Mul(layer[m - 1].value, MleInterpolate(IntoBitArr(m - 1, numBits), q)))
  }

  /** `mle_gate_val`: the multilinear extension of the cursor layer's values
      at the point q. The source asserts that q has numBits coordinates. */
  function MleGateVal(c: ArithCircuit, q: seq<Zp>): Zp
    requires c.cursor < |c.layers|
    requires |q| == c.numBits
  {
    GateValSum(GetThisLayer(c), c.numBits, q, |GetThisLayer(c)|)
  }

  /** Whether some gate among the first m of `layer` has operation `add`. */
  predicate HasOp(layer: seq<Gate>, add: bool, m: nat)
    requires m <= |layer|
  {
    exists j :: 0 <= j < m && layer[j].isAdd == add
  }

  /** The combined label of gate i: its own label, then those of its inputs. */
  function CombinedLabel(i: nat, g: Gate, numBits: nat): seq<Zp> {
    IntoBitArr(i, numBits) + IntoBitArr(g.w0, numBits) + IntoBitArr(g.w1, numBits)
  }

  /** The partial sum of `mle_wiring` over the first m gates of `layer`. The
      basis polynomial is only evaluated for gates of the requested
      operation, and it needs the query and the combined label to have equal
      lengths. */
  function WiringSum(layer: seq<Gate>, numBits: nat, qg: seq<Zp>, q0: seq<Zp>, q1: seq<Zp>,
                     add: bool, m: nat): Zp
    requires m <= |layer| && |qg| == numBits
    requires HasOp(layer, add, m) ==> |q0| + |q1| == 2 * numBits
  {
    if m == 0 then 0
    else
      var prev := WiringSum(layer, numBits, qg, q0, q1, add, m - 1);
      var g := layer[m - 1];
      if g.isAdd == add then
        Add(prev, MleInterpolate(CombinedLabel(m - 1, g, numBits), qg + q0 + q1))
      else prev
  }

  /** `mle_wiring`: the multilinear extension of the `add` (or `mult`)
      wiring predicate of the layer above the cursor, at the point
      (qg, q0, q1). Only the length of qg is asserted by the function itself;
      the basis polynomial demands matching lengths of the whole point as
      soon as one gate of the requested operation exists. */
  function MleWiring(c: ArithCircuit, qg: seq<Zp>, q0: seq<Zp>, q1: seq<Zp>, add: bool): Zp
    requires 0 < c.cursor <= |c.layers|
    requires |qg| == c.numBits
    requires HasOp(GetLastLayer(c), add, |GetLastLayer(c)|) ==> |q0| + |q1| == 2 * c.numBits
  {
    WiringSum(GetLastLayer(c), c.numBits, qg, q0, q1, add, |GetLastLayer(c)|)
  }

  // ------------------------------------------------------------------ lemmas

  lemma {:induction false} GateValSumOnLabel(layer: seq<Gate>, numBits: nat, j: nat, m: nat)
    requires m <= |layer| <= Pow2(numBits)
    requires j < Pow2(numBits)
    ensures GateValSum(layer, numBits, IntoBitArr(j, numBits), m)
            == if j < m then layer[j].value else 0
  {
    if m > 0 {
      var q := IntoBitArr(j, numBits);
      GateValSumOnLabel(layer, numBits, j, m - 1);
      IntoBitArrIsBool(m - 1, numBits);
      IntoBitArrIsBool(j, numBits);
      MleBasis(IntoBitArr(m - 1, numBits), q);
      IntoBitArrInjective(m - 1, j, numBits);
      Units(layer[m - 1].value);
      if j < m - 1 {
        Units(layer[j].value);
      }
    }
  }

  /** The extension agrees with the layer on the hypercube: at the label of
      gate j it is that gate's value, and at a label past the end of the
      layer (a padding slot) it is 0. */
  lemma MleGateValOnLabel(c: ArithCircuit, j: nat)
    requires Valid(c)
    requires j < Pow2(c.numBits)
    ensures MleGateVal(c, IntoBitArr(j, c.numBits))
            == if j < NumGateAtLayer(c) then GetThisLayer(c)[j].value else 0
  {
    assert |c.layers[c.cursor]| <= Pow2(c.numBits);
    GateValSumOnLabel(GetThisLayer(c), c.numBits, j, |GetThisLayer(c)|);
  }

  /** Splitting two concatenations of equally long parts. */
  lemma Concat3Eq(a: seq<Zp>, b: seq<Zp>, c: seq<Zp>, x: seq<Zp>, y: seq<Zp>, z: seq<Zp>)
    requires |a| == |x| && |b| == |y| && |c| == |z|
    ensures a + b + c == x + y + z <==> a == x && b == y && c == z
  {
    if a + b + c == x + y + z {
      assert a == (a + b + c)[..|a|] && x == (x + y + z)[..|a|];
      assert b == (a + b + c)[|a|..|a| + |b|] && y == (x + y + z)[|a|..|a| + |b|];
      assert c == (a + b + c)[|a| + |b|..] && z == (x + y + z)[|a| + |b|..];
    }
  }

  /** Whether gate i of a layer is the gate g = Gate(a, b, add). */
  predicate IsWiredAs(layer: seq<Gate>, i: nat, a: nat, b: nat, add: bool) {
    i < |layer| && layer[i].isAdd == add && layer[i].w0 == a && layer[i].w1 == b
  }

  /** One gate's term of the wiring sum at a boolean point is the indicator
      that the gate's combined label is that point. */
  lemma WiringTermOnLabels(i: nat, gate: Gate, numBits: nat, g: nat, a: nat, b: nat)
    requires i < Pow2(numBits) && gate.w0 < Pow2(numBits) && gate.w1 < Pow2(numBits)
    requires g < Pow2(numBits) && a < Pow2(numBits) && b < Pow2(numBits)
    ensures MleInterpolate(CombinedLabel(i, gate, numBits),
                           IntoBitArr(g, numBits) + IntoBitArr(a, numBits) + IntoBitArr(b, numBits))
            == if i == g && gate.w0 == a && gate.w1 == b then 1 else 0
  {
    var qg, q0, q1 := IntoBitArr(g, numBits), IntoBitArr(a, numBits), IntoBitArr(b, numBits);
    var lbl := CombinedLabel(i, gate, numBits);
    IntoBitArrIsBool(i, numBits);
    IntoBitArrIsBool(gate.w0, numBits);
    IntoBitArrIsBool(gate.w1, numBits);
    IntoBitArrIsBool(g, numBits);
    IntoBitArrIsBool(a, numBits);
    IntoBitArrIsBool(b, numBits);
    assert IsBoolVec(lbl) && IsBoolVec(qg + q0 + q1);
    MleBasis(lbl, qg + q0 + q1);
    Concat3Eq(IntoBitArr(i, numBits), IntoBitArr(gate.w0, numBits), IntoBitArr(gate.w1, numBits),
              qg, q0, q1);
    IntoBitArrInjective(i, g, numBits);
    IntoBitArrInjective(gate.w0, a, numBits);
    IntoBitArrInjective(gate.w1, b, numBits);
  }

  lemma {:induction false} WiringSumOnLabels(layer: seq<Gate>, numBits: nat, g: nat, a: nat, b: nat,
                                             add: bool, m: nat)
    requires m <= |layer| <= Pow2(numBits)
    requires g < Pow2(numBits) && a < Pow2(numBits) && b < Pow2(numBits)
    requires forall i :: 0 <= i < |layer| ==> layer[i].w0 < Pow2(numBits) && layer[i].w1 < Pow2(numBits)
    ensures WiringSum(layer, numBits, IntoBitArr(g, numBits), IntoBitArr(a, numBits),
                      IntoBitArr(b, numBits), add, m)
            == if g < m && IsWiredAs(layer, g, a, b, add) then 1 else 0
  {
    if m > 0 {
      WiringSumOnLabels(layer, numBits, g, a, b, add, m - 1);
      var gate := layer[m - 1];
      if gate.isAdd == add {
        WiringTermOnLabels(m - 1, gate, numBits, g, a, b);
        Units(1);
        Units(0);
      }
    }
  }

  /** The wiring extension is the wiring predicate on the hypercube: at the
      labels of (g, a, b) it is 1 exactly when gate g of the layer above the
      cursor exists, has operation `add`, and reads gates a and b in that
      order; otherwise it is 0. */
  lemma MleWiringOnLabels(c: ArithCircuit, g: nat, a: nat, b: nat, add: bool)
    requires Valid(c) && 0 < c.cursor
    requires g < Pow2(c.numBits) && a < Pow2(c.numBits) && b < Pow2(c.numBits)
    ensures MleWiring(c, IntoBitArr(g, c.numBits), IntoBitArr(a, c.numBits), IntoBitArr(b, c.numBits), add)
            == if IsWiredAs(GetLastLayer(c), g, a, b, add) then 1 else 0
  {
    var last := GetLastLayer(c);
    assert Wired(c.layers[c.cursor - 1], c.layers[c.cursor]);
    assert |c.layers[c.cursor]| <= Pow2(c.numBits) && |c.layers[c.cursor - 1]| <= Pow2(c.numBits);
    WiringSumOnLabels(last, c.numBits, g, a, b, add, |last|);
  }
}
