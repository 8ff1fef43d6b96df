/** `ArithCircuit::new` on the lines of a circuit description: one layer per
    line, the output layer first and the input values last. A line with a
    ',' lists gates `w0,w1,op`; a line without one lists input values. After
    the lines come the evaluation pass, the label width and the cursor
    reset. */
module CircuitParse {
  import opened Field
  import opened Bits
  import opened Wrappers
  import opened Text
  import opened Circuit

  /** One past the largest `usize` (wiring indices). */
  const USIZE_BOUND: nat := WORD_MOD

  /** One past the largest `u32` (input values). */
  const U32_BOUND: nat := 0x1_0000_0000

  /** The ways `new` panics on a description. WrongFormat and BadNumber carry
      the index of the offending line (the layer the panic names);
      NoLayers is the empty description, on which the evaluation pass
      underflows `len() - 1`; WiringOutOfRange is a gate reading a gate
      that the next layer does not have. */
  datatype ParseError =
    | WrongFormat(layer: nat)
    | BadNumber(layer: nat)
    | NoLayers
    | WiringOutOfRange

  /** The two accepted operation fields. */
  predicate IsOp(f: string) {
    f == "+" || f == "*"
  }

  /** The shape a gate token must have before its numbers are read: three
      ','-separated fields, the third one an operation. */
  predicate GateShapeOk(t: string) {
    var f := SplitOn(t, ',');
    |f| == 3 && IsOp(f[2])
  }

  /** One token of a wiring line: the field count is checked, then the
      operation, then w0 and w1 are parsed as `usize`. The value starts at
      0. */
  function ParseGate(t: string, layer: nat): (r: Result<Gate, ParseError>)
    ensures r.Err? ==> (r.error == WrongFormat(layer) <==> !GateShapeOk(t))
    ensures r.Err? ==> r.error == WrongFormat(layer) || r.error == BadNumber(layer)
    ensures r.Ok? ==> r.value.value == 0 && r.value.w0 < USIZE_BOUND && r.value.w1 < USIZE_BOUND
    ensures r.Ok? ==> && GateShapeOk(t)
                      && ParseUnsigned(SplitOn(t, ',')[0], USIZE_BOUND) == Some(r.value.w0)
                      && ParseUnsigned(SplitOn(t, ',')[1], USIZE_BOUND) == Some(r.value.w1)
    ensures r.Ok? <==> && GateShapeOk(t)
                       && ParseUnsigned(SplitOn(t, ',')[0], USIZE_BOUND).Some?
                       && ParseUnsigned(SplitOn(t, ',')[1], USIZE_BOUND).Some?
    ensures r.Ok? ==> GateShapeOk(t) && (r.value.isAdd <==> SplitOn(t, ',')[2] == "+")
  {
    var f := SplitOn(t, ',');
    if |f| != 3 then Err(WrongFormat(layer))
    else if !IsOp(f[2]) then Err(WrongFormat(layer))
    else
      match ParseUnsigned(f[0], USIZE_BOUND)
      case None => Err(BadNumber(layer))
      case Some(w0) =>
        match ParseUnsigned(f[1], USIZE_BOUND)
        case None => Err(BadNumber(layer))
        case Some(w1) => Ok(Gate(w0, w1, f[2] == "+", 0))
  }

  /** One token of an input line: a `u32` value; the gate has wiring (0, 0)
      and is not an add gate. */
  function ParseInput(t: string, layer: nat): (r: Result<Gate, ParseError>)
    ensures r.Ok? <==> ParseUnsigned(t, U32_BOUND).Some?
    ensures r.Ok? ==> r.value == Gate(0, 0, false, FromNat(ParseUnsigned(t, U32_BOUND).value))
    ensures r.Err? ==> r.error == BadNumber(layer)
  {
    match ParseUnsigned(t, U32_BOUND)
    case None => Err(BadNumber(layer))
    case Some(v) => Ok(Gate(0, 0, false, FromNat(v)))
  }

  function ParseToken(t: string, layer: nat, wired: bool): Result<Gate, ParseError> {
    if wired then ParseGate(t, layer) else ParseInput(t, layer)
  }

  /** Each token's parse, in order. */
  function TokenResults(tokens: seq<string>, layer: nat, wired: bool): seq<Result<Gate, ParseError>> {
    seq(|tokens|, i requires 0 <= i < |tokens| => ParseToken(tokens[i], layer, wired))
  }

  /** The gates of one line, token by token; the first failing token ends
      the parse with its error. */
  function ParseTokens(tokens: seq<string>, layer: nat, wired: bool): (r: Result<seq<Gate>, ParseError>)
    ensures r.Ok? <==> forall i :: 0 <= i < |tokens| ==> ParseToken(tokens[i], layer, wired).Ok?
    ensures r.Ok? ==> |r.value| == |tokens|
    ensures r.Ok? ==> forall i :: 0 <= i < |tokens| ==> ParseToken(tokens[i], layer, wired) == Ok(r.value[i])
    ensures r.Err? ==> var k := FirstErr(TokenResults(tokens, layer, wired));
                       && k < |tokens|
                       && ParseToken(tokens[k], layer, wired) == Err(r.error)
                       && forall j :: 0 <= j < k ==> ParseToken(tokens[j], layer, wired).Ok?
  {
    var rs := TokenResults(tokens, layer, wired);
    assert forall i :: 0 <= i < |tokens| ==> rs[i] == ParseToken(tokens[i], layer, wired);
    var r := Collect(rs);
    if forall i :: 0 <= i < |tokens| ==> rs[i].Ok? then
      assert FirstErr(rs) == |tokens|;
      r
    else
      r
  }

  /** `new`'s treatment of one line: one gate per whitespace-separated token,
      read as gates when the line contains a ',' and as input values
      otherwise. */
  function ParseLine(l: string, layer: nat): Result<seq<Gate>, ParseError> {
    ParseTokens(SplitWhitespace(l), layer, ',' in l)
  }

  /** What a parsed line holds: one gate per token; an input line gives
      unwired multiplication gates, a wiring line gives gates whose value is
      still 0; a failure is a WrongFormat or BadNumber for this layer. */
  lemma ParseLineShape(l: string, layer: nat)
    ensures var r := ParseLine(l, layer);
            && (r.Ok? ==> |r.value| == |SplitWhitespace(l)|)
            && (r.Ok? && ',' !in l ==>
                  forall i :: 0 <= i < |r.value| ==> r.value[i].w0 == 0 && r.value[i].w1 == 0 && !r.value[i].isAdd)
            && (r.Ok? && ',' in l ==> forall i :: 0 <= i < |r.value| ==> r.value[i].value == 0)
            && (r.Err? ==> r.error == WrongFormat(layer) || r.error == BadNumber(layer))
  {
  }

  /** Each line's parse; line i is layer first + i. */
  function LineResults(lines: seq<string>, first: nat): (rs: seq<Result<seq<Gate>, ParseError>>)
    ensures |rs| == |lines|
    ensures forall i :: 0 <= i < |lines| ==> rs[i] == ParseLine(lines[i], first + i)
  {
    seq(|lines|, i requires 0 <= i < |lines| => ParseLine(lines[i], first + i))
  }

  /** Lines first, first + 1, ... as layers; the first failing line ends the
      parse with its error. */
  function ParseLayers(lines: seq<string>, first: nat): (r: Result<seq<seq<Gate>>, ParseError>)
    ensures var rs := LineResults(lines, first);
            && (r.Ok? <==> forall i :: 0 <= i < |rs| ==> rs[i].Ok?)
            && (r.Ok? ==> |r.value| == |lines| && forall i :: 0 <= i < |rs| ==> rs[i] == Ok(r.value[i]))
            && (r.Err? ==> FirstErr(rs) < |rs| && rs[FirstErr(rs)] == Err(r.error))
  {
    var rs := LineResults(lines, first);
    var r := Collect(rs);
    if forall i :: 0 <= i < |rs| ==> rs[i].Ok? then
      assert FirstErr(rs) == |rs|;
      r
    else
      r
  }

  /** A failing parse names a line of the description, and fails with
      WrongFormat or BadNumber for it. */
  lemma ParseLayersError(lines: seq<string>, first: nat)
    requires ParseLayers(lines, first).Err?
    ensures var e := ParseLayers(lines, first).error;
            (e.WrongFormat? || e.BadNumber?) && first <= e.layer < first + |lines|
  {
    var k := FirstErr(LineResults(lines, first));
    ParseLineShape(lines[k], first + k);
  }

  /** The size of the largest layer (`max_num_gates`), 0 for no layers. */
  function MaxLayerSize(layers: seq<seq<Gate>>): (m: nat)
    ensures forall i :: 0 <= i < |layers| ==> |layers[i]| <= m
    ensures m == 0 || exists i :: 0 <= i < |layers| && |layers[i]| == m
  {
    if |layers| == 0 then 0
    else
      var init := layers[..|layers| - 1];
      var m := MaxLayerSize(init);
      assert forall i :: 0 <= i < |init| ==> init[i] == layers[i];
      var last := |layers[|layers| - 1]|;
      if m < last then last else m
  }

  /** `ArithCircuit::new`: parse every line, evaluate, set the label width to
      the ceiling of log2 of the largest layer size, and put the cursor at
      the output layer. */
  function ParseCircuit(lines: seq<string>): (r: Result<ArithCircuit, ParseError>)
    ensures r == Err(NoLayers) <==> |lines| == 0
    ensures r.Ok? <==> |lines| > 0 && ParseLayers(lines, 0).Ok? && WellWired(ParseLayers(lines, 0).value)
    ensures |lines| > 0 && ParseLayers(lines, 0).Err? ==> r == Err(ParseLayers(lines, 0).error)
    ensures r == Err(WiringOutOfRange) <==>
              |lines| > 0 && ParseLayers(lines, 0).Ok? && !WellWired(ParseLayers(lines, 0).value)
    ensures r.Ok? ==>
              && ParseLayers(lines, 0).Ok?
              && var parsed := ParseLayers(lines, 0).value;
              var c := r.value;
              && Valid(c)
              && c.cursor == 0
              && Evaluated(c.layers)
              && SameSkeleton(parsed, c.layers)
              && GetInputs(c) == parsed[|parsed| - 1]
              && MaxLayerSize(parsed) <= Pow2(c.numBits)
              && (c.numBits > 0 ==> Pow2(c.numBits - 1) < MaxLayerSize(parsed))
  {
    if |lines| == 0 then Err(NoLayers)
    else
      match ParseLayers(lines, 0)
      case Err(e) => Err(e)
      case Ok(layers) =>
        if !WellWired(layers) then Err(WiringOutOfRange)
        else
          var ev := Evaluate(layers);
          var numBits := CeilLog2(MaxLayerSize(layers));
          SkeletonFits(layers, ev);
          Ok(ArithCircuit(ev, 0, numBits))
  }

  /** Layers of the same sizes as the parsed ones fit the label width chosen
      from the largest parsed layer. */
  lemma SkeletonFits(layers: seq<seq<Gate>>, ev: seq<seq<Gate>>)
    requires SameSkeleton(layers, ev)
    ensures LabelsFit(ev, CeilLog2(MaxLayerSize(layers)))
  {
    var numBits := CeilLog2(MaxLayerSize(layers));
    forall i | 0 <= i < |ev|
      ensures |ev[i]| <= Pow2(numBits)
    {
      assert |ev[i]| == |layers[i]|;
    }
  }

  // ------------------------------------------------------ descriptions

  /** The text of a gate: `w0,w1,+` or `w0,w1,*`. */
  function FormatGate(g: Gate): string {
    Join([NatToString(g.w0), NatToString(g.w1), if g.isAdd then "+" else "*"], ",")
  }

  /** A wiring line: the gates' texts separated by single spaces. */
  function FormatWiredLine(layer: seq<Gate>): string {
    Join(seq(|layer|, i requires 0 <= i < |layer| => FormatGate(layer[i])), " ")
  }

  /** An input line: the values separated by single spaces. */
  function FormatInputLine(values: seq<nat>): string {
    Join(seq(|values|, i requires 0 <= i < |values| => NatToString(values[i])), " ")
  }

  /** The description of a circuit: its wiring layers, then its inputs. */
  function FormatCircuit(wired: seq<seq<Gate>>, inputs: seq<nat>): seq<string> {
    seq(|wired|, i requires 0 <= i < |wired| => FormatWiredLine(wired[i])) + [FormatInputLine(inputs)]
  }

  /** The input layer the values describe. */
  function InputLayer(values: seq<nat>): seq<Gate> {
    seq(|values|, i requires 0 <= i < |values| => Gate(0, 0, false, FromNat(values[i])))
  }

  /** A layer with every value reset to 0, as the parser leaves it. */
  function Unvalued(layer: seq<Gate>): seq<Gate> {
    seq(|layer|, i requires 0 <= i < |layer| => layer[i].(value := 0))
  }

  /** The layers a description stands for, before evaluation. */
  function DescribedLayers(wired: seq<seq<Gate>>, inputs: seq<nat>): seq<seq<Gate>> {
    seq(|wired|, i requires 0 <= i < |wired| => Unvalued(wired[i])) + [InputLayer(inputs)]
  }

  /** Every number fits the type the parser reads it into. */
  predicate Describable(wired: seq<seq<Gate>>, inputs: seq<nat>) {
    && (forall i, j :: 0 <= i < |wired| && 0 <= j < |wired[i]| ==>
          wired[i][j].w0 < USIZE_BOUND && wired[i][j].w1 < USIZE_BOUND)
    && (forall i :: 0 <= i < |inputs| ==> inputs[i] < U32_BOUND)
  }

  /** The fields of a gate's text: the two rendered indices and the
      operation symbol. */
  lemma FormatGateFields(g: Gate)
    ensures SplitOn(FormatGate(g), ',') == [NatToString(g.w0), NatToString(g.w1), if g.isAdd then "+" else "*"]
    ensures IsToken(FormatGate(g)) && ',' in FormatGate(g)
  {
    var op := if g.isAdd then "+" else "*";
    var parts := [NatToString(g.w0), NatToString(g.w1), op];
    DigitsAreToken(NatToString(g.w0));
    DigitsAreToken(NatToString(g.w1));
    assert IsToken(op);
    SplitOnJoin(parts, ',');
    JoinIsToken(parts, ",");
    var t := FormatGate(g);
    assert t == parts[0] + "," + Join(parts[1..], ",");
    assert t[|NatToString(g.w0)|] == ',';
  }

  /** A gate's text parses back to the gate, value reset to 0. */
  lemma ParseFormatGate(g: Gate, layer: nat)
    requires g.w0 < USIZE_BOUND && g.w1 < USIZE_BOUND
    ensures ParseGate(FormatGate(g), layer) == Ok(g.(value := 0))
    ensures IsToken(FormatGate(g)) && ',' in FormatGate(g)
  {
    FormatGateFields(g);
    ParseNatToString(g.w0, USIZE_BOUND);
    ParseNatToString(g.w1, USIZE_BOUND);
  }

  /** A wiring line parses back to its gates, values reset to 0. */
  lemma ParseFormatWiredLine(layer: seq<Gate>, k: nat)
    requires forall j :: 0 <= j < |layer| ==> layer[j].w0 < USIZE_BOUND && layer[j].w1 < USIZE_BOUND
    ensures ParseLine(FormatWiredLine(layer), k) == Ok(Unvalued(layer))
  {
    var tokens := seq(|layer|, i requires 0 <= i < |layer| => FormatGate(layer[i]));
    forall i | 0 <= i < |layer|
      ensures ParseGate(tokens[i], k) == Ok(layer[i].(value := 0))
      ensures IsToken(tokens[i]) && ',' in tokens[i]
    {
      ParseFormatGate(layer[i], k);
    }
    SplitWhitespaceJoin(tokens);
    if |layer| > 0 {
      JoinStartsWith(tokens, " ");
      var l := FormatWiredLine(layer);
      assert ',' in l by {
        var j :| 0 <= j < |tokens[0]| && tokens[0][j] == ',';
        assert l[j] == l[..|tokens[0]|][j];
      }
      var r := ParseTokens(tokens, k, true);
      assert r.value == Unvalued(layer);
    } else {
      assert FormatWiredLine(layer) == "";
      assert SplitWhitespace("") == [];
      assert Unvalued(layer) == [];
    }
  }

  /** An input line parses back to the input layer of its values. */
  lemma ParseFormatInputLine(values: seq<nat>, k: nat)
    requires forall j :: 0 <= j < |values| ==> values[j] < U32_BOUND
    ensures ParseLine(FormatInputLine(values), k) == Ok(InputLayer(values))
  {
    var tokens := seq(|values|, i requires 0 <= i < |values| => NatToString(values[i]));
    forall i | 0 <= i < |values|
      ensures ParseInput(tokens[i], k) == Ok(Gate(0, 0, false, FromNat(values[i])))
      ensures IsToken(tokens[i]) && ',' !in tokens[i]
    {
      DigitsAreToken(tokens[i]);
      ParseNatToString(values[i], U32_BOUND);
    }
    SplitWhitespaceJoin(tokens);
    NotInJoin(tokens, " ", ',');
    var r := ParseTokens(tokens, k, false);
    assert r.value == InputLayer(values);
  }

  /** Round trip: the description of a circuit parses back to that circuit,
      evaluated, with the smallest label width that fits its largest layer
      and the cursor at the output layer. */
  lemma ParseFormatCircuit(wired: seq<seq<Gate>>, inputs: seq<nat>)
    requires Describable(wired, inputs)
    requires WellWired(DescribedLayers(wired, inputs))
    ensures var layers := DescribedLayers(wired, inputs);
            ParseCircuit(FormatCircuit(wired, inputs))
            == Ok(ArithCircuit(Evaluate(layers), 0, CeilLog2(MaxLayerSize(layers))))
  {
    var lines := FormatCircuit(wired, inputs);
    var layers := DescribedLayers(wired, inputs);
    forall i | 0 <= i < |lines|
      ensures ParseLine(lines[i], i) == Ok(layers[i])
    {
      if i < |wired| {
        ParseFormatWiredLine(wired[i], i);
      } else {
        ParseFormatInputLine(inputs, i);
      }
    }
    var r := ParseLayers(lines, 0);
    assert r.value == layers;
  }
}
