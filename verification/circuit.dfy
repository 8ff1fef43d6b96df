/** The layered arithmetic circuit: gates, the bottom-up evaluation pass, the
    layer cursor and the accessors that read relative to it. */
module Circuit {
  import opened Field
  import opened Bits

  /** One gate: the indices of its two inputs in the next, deeper layer, its
      operation (`+` when isAdd, `*` otherwise) and its value. Gates of the
      input layer carry wiring (0, 0) and isAdd = false. */
  datatype Gate = Gate(w0: nat, w1: nat, isAdd: bool, value: Zp)

  /** `ArithCircuit`: the layers from the output layer (index 0) down to the
      input layer (the last index), the layer cursor, and the label width
      numBits. The cursor is an explicit field here; transitions return a new
      circuit value with the moved cursor. */
  datatype ArithCircuit = ArithCircuit(layers: seq<seq<Gate>>, cursor: nat, numBits: nat)

  /** The structural part of a gate, everything but its value. */
  function Wiring(g: Gate): (nat, nat, bool) {
    (g.w0, g.w1, g.isAdd)
  }

  /** Every gate of `upper` reads two gates that exist in `lower`. */
  predicate Wired(upper: seq<Gate>, lower: seq<Gate>) {
    forall j :: 0 <= j < |upper| ==> upper[j].w0 < |lower| && upper[j].w1 < |lower|
  }

  /** At least one layer, and every non-input layer is wired into the next. */
  predicate WellWired(layers: seq<seq<Gate>>) {
    && |layers| >= 1
    && forall i :: 0 <= i < |layers| - 1 ==> Wired(layers[i], layers[i + 1])
  }

  /** Every gate index of every layer has a numBits-bit label. */
  predicate LabelsFit(layers: seq<seq<Gate>>, numBits: nat) {
    forall i :: 0 <= i < |layers| ==> |layers[i]| <= Pow2(numBits)
  }

  /** The shape every circuit built from a description has. */
  predicate Valid(c: ArithCircuit) {
    && WellWired(c.layers)
    && c.cursor < |c.layers|
    && LabelsFit(c.layers, c.numBits)
  }

  /** Two circuits with the same layers, layer sizes, wiring and operations;
      values may differ. */
  predicate SameSkeleton(a: seq<seq<Gate>>, b: seq<seq<Gate>>) {
    && |a| == |b|
    && forall i :: 0 <= i < |a| ==>
         && |a[i]| == |b[i]|
         && forall j :: 0 <= j < |a[i]| ==> Wiring(a[i][j]) == Wiring(b[i][j])
  }

  // ---------------------------------------------------------------- evaluation

  /** The value gate g computes from the layer below it. */
  function Combine(g: Gate, lower: seq<Gate>): Zp
    requires g.w0 < |lower| && g.w1 < |lower|
  {
    var a := lower[g.w0].value;
    var b := lower[g.w1].value;
    if g.isAdd then Add(a, b) else Mul(a, b)
  }

  /** Every gate of `upper` holds the value it computes from `lower`. */
  predicate LayerEvaluated(upper: seq<Gate>, lower: seq<Gate>) {
    && Wired(upper, lower)
    && forall j :: 0 <= j < |upper| ==> upper[j].value == Combine(upper[j], lower)
  }

  /** Every non-input gate holds the value it computes from the layer below. */
  predicate Evaluated(layers: seq<seq<Gate>>) {
    && WellWired(layers)
    && forall i :: 0 <= i < |layers| - 1 ==> LayerEvaluated(layers[i], layers[i + 1])
  }

  /** The inner loop of `evaluate_circuit` for one layer, reading the
      (already evaluated) layer below. */
  function EvaluateLayer(upper: seq<Gate>, lower: seq<Gate>): (r: seq<Gate>)
    requires Wired(upper, lower)
    ensures |r| == |upper|
    ensures forall j :: 0 <= j < |r| ==> Wiring(r[j]) == Wiring(upper[j])
    ensures LayerEvaluated(r, lower)
  {
    seq(|upper|, j requires 0 <= j < |upper| => upper[j].(value := Combine(upper[j], lower)))
  }

  /** `evaluate_circuit`: one bottom-up pass, from the layer above the inputs
      to the output layer, filling each gate with the sum or product of its
      two inputs. Wiring, operations, layer sizes and the input layer are left
      as they are. An out-of-range wiring index makes the source panic; here
      it is excluded by WellWired, which circuit construction checks. */
  function Evaluate(layers: seq<seq<Gate>>): (r: seq<seq<Gate>>)
    requires WellWired(layers)
    ensures SameSkeleton(layers, r)
    ensures r[|r| - 1] == layers[|layers| - 1]
    ensures Evaluated(r)
    decreases |layers|
  {
    if |layers| == 1 then layers
    else
      DropOutputWiring(layers);
      var rest := Evaluate(layers[1..]);
      assert Wired(layers[0], rest[0]) by {
        assert Wired(layers[0], layers[1]);
      }
      var top := EvaluateLayer(layers[0], rest[0]);
      PrependEvaluated(top, rest);
      [top] + rest
  }

  /** The layers below the output layer are wired as well. */
  lemma DropOutputWiring(layers: seq<seq<Gate>>)
    requires |layers| > 1
    requires WellWired(layers)
    ensures WellWired(layers[1..])
  {
    forall i | 0 <= i < |layers[1..]| - 1
      ensures Wired(layers[1..][i], layers[1..][i + 1])
    {
      assert Wired(layers[i + 1], layers[i + 2]);
    }
  }

  /** An evaluated layer on top of an evaluated circuit is evaluated. */
  lemma PrependEvaluated(top: seq<Gate>, rest: seq<seq<Gate>>)
    requires Evaluated(rest)
    requires LayerEvaluated(top, rest[0])
    ensures Evaluated([top] + rest)
  {
    var r := [top] + rest;
    assert forall i :: 0 < i < |r| ==> r[i] == rest[i - 1];
    forall i | 0 <= i < |r| - 1
      ensures LayerEvaluated(r[i], r[i + 1])
    {
      if i > 0 {
        assert LayerEvaluated(rest[i - 1], rest[i]);
      }
    }
  }

  /** Dropping the output layer keeps wiring, evaluation and skeleton. */
  lemma DropOutputLayer(layers: seq<seq<Gate>>, e: seq<seq<Gate>>)
    requires |layers| > 1
    requires WellWired(layers)
    requires SameSkeleton(layers, e)
    requires Evaluated(e)
    ensures WellWired(layers[1..])
    ensures SameSkeleton(layers[1..], e[1..])
    ensures Evaluated(e[1..])
  {
    DropOutputWiring(layers);
    assert Evaluated(e[1..]) by {
      forall i | 0 <= i < |e[1..]| - 1
        ensures LayerEvaluated(e[1..][i], e[1..][i + 1])
      {
        assert LayerEvaluated(e[i + 1], e[i + 2]);
      }
    }
    forall i | 0 <= i < |layers[1..]|
      ensures |layers[1..][i]| == |e[1..][i]|
      ensures forall j :: 0 <= j < |layers[1..][i]| ==> Wiring(layers[1..][i][j]) == Wiring(e[1..][i][j])
    {
      assert layers[1..][i] == layers[i + 1] && e[1..][i] == e[i + 1];
    }
  }

  /** A layer that holds what it computes from a given lower layer is
      determined by its wiring. */
  lemma EvaluatedLayerUnique(upper: seq<Gate>, top: seq<Gate>, lower: seq<Gate>)
    requires Wired(upper, lower)
    requires |upper| == |top|
    requires forall j :: 0 <= j < |upper| ==> Wiring(upper[j]) == Wiring(top[j])
    requires LayerEvaluated(top, lower)
    ensures top == EvaluateLayer(upper, lower)
  {
    var r := EvaluateLayer(upper, lower);
    forall j | 0 <= j < |top|
      ensures top[j] == r[j]
    {
      assert Wiring(upper[j]) == Wiring(top[j]);
    }
  }

  /** The evaluated circuit is the ONLY fully evaluated circuit with the
      given structure and input values: evaluation is determined by wiring,
      operations and inputs alone. */
  lemma {:induction false} EvaluateUnique(layers: seq<seq<Gate>>, e: seq<seq<Gate>>)
    requires WellWired(layers)
    requires SameSkeleton(layers, e)
    requires e[|e| - 1] == layers[|layers| - 1]
    requires Evaluated(e)
    ensures e == Evaluate(layers)
    decreases |layers|
  {
    if |layers| > 1 {
      var r := Evaluate(layers);
      var rest := Evaluate(layers[1..]);
      assert r == [EvaluateLayer(layers[0], rest[0])] + rest;
      DropOutputLayer(layers, e);
      EvaluateUnique(layers[1..], e[1..]);
      assert e[1] == rest[0];
      assert Wired(layers[0], layers[1]);
      EvaluatedLayerUnique(layers[0], e[0], e[1]);
      assert e == [e[0]] + e[1..];
    }
  }

  /** An already evaluated circuit is a fixed point of evaluation. */
  lemma EvaluateFixesEvaluated(layers: seq<seq<Gate>>)
    requires Evaluated(layers)
    ensures Evaluate(layers) == layers
  {
    EvaluateUnique(layers, layers);
  }

  /** Evaluating twice is evaluating once. */
  lemma EvaluateIdempotent(layers: seq<seq<Gate>>)
    requires WellWired(layers)
    ensures Evaluate(Evaluate(layers)) == Evaluate(layers)
  {
    EvaluateFixesEvaluated(Evaluate(layers));
  }

  // ------------------------------------------------------------- layer cursor

  /** `set_curr_layer`: the cursor becomes `layer` reduced modulo the number
      of layers, so it always names an existing layer. */
  function SetCurrLayer(c: ArithCircuit, layer: nat): (r: ArithCircuit)
    requires |c.layers| > 0
    ensures r.layers == c.layers && r.numBits == c.numBits
    ensures r.cursor < |r.layers|
    ensures (layer - r.cursor) % |c.layers| == 0
    ensures layer < |c.layers| ==> r.cursor == layer
  {
    var L := |c.layers|;
    assert (layer - layer % L) % L == 0 by {
      assert layer == L * (layer / L) + layer % L;
      DivUnique(layer - layer % L, L, layer / L, 0);
    }
    c.(cursor := layer % L)
  }

  /** `next_layer`: advance the cursor by one, wrapping from the input layer
      back to the output layer. */
  function NextLayer(c: ArithCircuit): (r: ArithCircuit)
    requires |c.layers| > 0
    ensures r.layers == c.layers && r.numBits == c.numBits
    ensures c.cursor + 1 < |c.layers| ==> r.cursor == c.cursor + 1
    ensures c.cursor + 1 == |c.layers| ==> r.cursor == 0
    ensures Valid(c) ==> Valid(r)
  {
    SetCurrLayer(c, c.cursor + 1)
  }

  /** n successive `next_layer` calls. */
  function Advance(c: ArithCircuit, n: nat): ArithCircuit
    requires |c.layers| > 0
  {
    if n == 0 then c else NextLayer(Advance(c, n - 1))
  }

  /** The cursor is a counter modulo the number of layers: n advances from a
      valid cursor land on (cursor + n) mod |layers|. */
  lemma {:induction false} AdvanceCursor(c: ArithCircuit, n: nat)
    requires |c.layers| > 0 && c.cursor < |c.layers|
    ensures Advance(c, n).layers == c.layers
    ensures Advance(c, n).cursor == (c.cursor + n) % |c.layers|
  {
    if n > 0 {
      AdvanceCursor(c, n - 1);
      ModSucc(c.cursor + n - 1, |c.layers|);
    }
  }

  /** `get_inputs`: the input layer. */
  function GetInputs(c: ArithCircuit): seq<Gate>
    requires |c.layers| > 0
  {
    c.layers[|c.layers| - 1]
  }

  /** `num_layers`: the number of layers below the output layer. */
  function NumLayers(c: ArithCircuit): nat
    requires |c.layers| > 0
  {
    |c.layers| - 1
  }

  /** `get_this_layer`: the layer at the cursor. */
  function GetThisLayer(c: ArithCircuit): seq<Gate>
    requires c.cursor < |c.layers|
  {
    c.layers[c.cursor]
  }

  /** `get_last_layer`: the layer above the cursor (`cursor - 1`); the source
      underflows at cursor 0. */
  function GetLastLayer(c: ArithCircuit): seq<Gate>
    requires 0 < c.cursor <= |c.layers|
  {
    c.layers[c.cursor - 1]
  }

  /** `num_gate_at_layer`: the number of gates at the cursor. The prover calls
      it on the circuit; its definition is not among the lines of
      arith_circuit.rs modelled here, and this is the reading every call
      site relies on (it bounds labels that index the cursor layer). */
  function NumGateAtLayer(c: ArithCircuit): nat
    requires c.cursor < |c.layers|
  {
    |GetThisLayer(c)|
  }

  /** `get_gate_val`: value of gate g at the cursor layer. */
  function GetGateVal(c: ArithCircuit, g: nat): Zp
    requires c.cursor < |c.layers| && g < |GetThisLayer(c)|
  {
    GetThisLayer(c)[g].value
  }

  /** `get_gate_wiring`: input indices of gate g at the cursor layer. */
  function GetGateWiring(c: ArithCircuit, g: nat): (nat, nat)
    requires c.cursor < |c.layers| && g < |GetThisLayer(c)|
  {
    (GetThisLayer(c)[g].w0, GetThisLayer(c)[g].w1)
  }

  /** `is_gate_add`: operation of gate g in the layer ABOVE the cursor. */
  function IsGateAdd(c: ArithCircuit, g: nat): bool
    requires 0 < c.cursor <= |c.layers| && g < |GetLastLayer(c)|
  {
    GetLastLayer(c)[g].isAdd
  }

  /** The two accessor families are one layer apart: after advancing the
      cursor (without wrapping), the "last" layer and `is_gate_add` read what
      `get_this_layer` and the gate accessors read before, and the gates they
      wire into are the new cursor layer. */
  lemma NextLayerShiftsAccessors(c: ArithCircuit, g: nat)
    requires Valid(c) && c.cursor + 1 < |c.layers|
    requires g < |GetThisLayer(c)|
    ensures GetLastLayer(NextLayer(c)) == GetThisLayer(c)
    ensures IsGateAdd(NextLayer(c), g) == GetThisLayer(c)[g].isAdd
    ensures GetGateWiring(c, g).0 < NumGateAtLayer(NextLayer(c))
    ensures GetGateWiring(c, g).1 < NumGateAtLayer(NextLayer(c))
  {
    assert Wired(c.layers[c.cursor], c.layers[c.cursor + 1]);
  }
}
