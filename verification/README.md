# CMT sum-check prover: layered circuit, labels and one prover round

A Dafny model of the deterministic core of `cmt-software`, a GKR/CMT-style
interactive-proof prover written in Rust. It models two files.

- `src/arith_circuit.rs` holds the layered arithmetic circuit:
  - reading a circuit description, one line per layer;
  - the bottom-up evaluation pass;
  - the layer cursor and the accessors that read relative to it;
  - the multilinear extensions of the wire values (`mle_gate_val`) and of the wiring predicate (`mle_wiring`).
- `src/prover.rs` holds the prover:
  - its state (`Prover::new` and `next_layer`);
  - the little-endian label machinery (`assemble_rand_label`, `assemble_u`, `assemble_s`, `assemble_gate_label`);
  - the eq factor `x` and its product `calc_termp`;
  - the random-gate queries (`get_rand_gate`, `query_rand_gate`, `get_all_vals`);
  - one round of the sum-check (`sum_check`).

The modules are:

- `Field`: `Zp`, an integer in [0, P), and its operations.
- `Bits`: bit labels (`get_bit`, `into_bit_arr`), the reference reading
  `BitsValue`, bitwise OR, 64-bit wrap-around and the integer ceiling of
  log2.
- `Mle`: `x` and `mle_interpolate`.
- `Wrappers`: `Result`, `Option`, and `Collect` (which stops at the first
  failure).
- `Text`: `split_whitespace`, `split(',')` and unsigned `parse`.
- `Circuit`: gates, evaluation, the cursor and the accessors.
- `CircuitMle`: the two extensions.
- `CircuitParse`: `ArithCircuit::new` on the lines of a description, and the
  formatter that inverts it.
- `CmtProver`: the prover's state and operations.
- `ProverLabels`: what the label functions compute on 0/1 challenges.
- `ProverRounds`: how queries, layer moves and sum-check rounds relate to the
  circuit.
- `ProverMle`: a sum-check round that reads the cursor layer through its
  multilinear extension. It is defined for every challenge and agrees with
  `sum_check` wherever the challenges are 0/1.

Design choices:

- The `RefCell` cursor is an explicit field of `ArithCircuit`.
- The prover is an immutable record. Every transition returns a new record.
- A panic in the source, such as an index out of range, an `assert!` or a
  `usize` underflow, becomes a precondition.
- While a description is being parsed, a panic becomes a `ParseError` value.
- `usize` arithmetic is 64-bit and wraps, as in a release build.

The central results are these.

- Evaluation:
  - The evaluated circuit is the only fully evaluated circuit with the given
    wiring and inputs.
  - Evaluation is idempotent.
- Reading descriptions:
  - Parsing a rendered description gives back the circuit.
  - That circuit is evaluated, has the least label width that fits its
    largest layer, and has its cursor at the output layer.
- The extensions agree with the circuit on the hypercube.
- Labels: `assemble_rand_label` and `into_bit_arr` are mutually inverse on
  0/1 vectors.
- The sum-check round, on 0/1 challenges:
  - Entry k of the round is the value the gate under test computes while the
    challenges followed by k stay on the path to that gate's wired inputs,
    and 0 once they leave it.
  - Hence `poly[0] + poly[1]` is that value on the path, which is the round
    identity of the sum-check.
- The sum-check round beyond the full-layer case: the source reads the
  cursor layer at integer labels assembled from the challenges. A
  challenge outside {0, 1} can build any label. On 0/1 challenges a label
  past the layer needs a cursor layer with fewer than 2^numBits gates. With
  at most 2^(numBits-1) gates, round numBits - 1 (the last round on the
  left label) always reads past it (HalfFullLayerOutOfRange), as round 1 of the circuit
  (x0 + x1) * (x2 + x3) already does. In between, it depends on the wiring
  and the challenges. The corrected round reads the extension instead. It keeps the round identity
  on every 0/1 challenge sequence, with no condition on the labels.

## Model

| member | source | states |
|---|---|---|
| Circuit.Evaluate | cmt-software/src/arith_circuit.rs:91-104 | The result is fully evaluated: every non-input gate holds the sum or product of the two gates it reads in the next layer. The number of layers, layer sizes, wiring, operations and the input layer are unchanged. Requires every wiring index to be in range (the source panics otherwise). |
| Circuit.EvaluateUnique | cmt-software/src/arith_circuit.rs:91-104 | Any fully evaluated circuit with the same skeleton and the same input layer equals the evaluated circuit, so evaluation is determined by wiring and inputs alone. |
| Circuit.EvaluateFixesEvaluated | cmt-software/src/arith_circuit.rs:91-104 | On an already evaluated circuit the pass changes nothing. |
| Circuit.EvaluateIdempotent | cmt-software/src/arith_circuit.rs:91-104 | Evaluating twice equals evaluating once. |
| Circuit.EvaluateLayer | cmt-software/src/arith_circuit.rs:94-102 | One inner pass: same size and wiring as the layer it starts from, and every gate holds what it computes from the layer below. |
| Circuit.SetCurrLayer | cmt-software/src/arith_circuit.rs:118-120 | The new cursor is a valid layer index congruent to the requested layer modulo the number of layers; a requested index below the layer count is taken as is; layers and label width are unchanged. |
| Circuit.NextLayer | cmt-software/src/arith_circuit.rs:132-135 | The cursor moves down one layer, and wraps from the input layer back to 0; validity is preserved. |
| Circuit.AdvanceCursor | cmt-software/src/arith_circuit.rs:132-135 | n successive moves put the cursor at (cursor + n) mod the number of layers. |
| Circuit.NextLayerShiftsAccessors | cmt-software/src/arith_circuit.rs:121-148 | After one move, `get_last_layer` and `is_gate_add` read the layer that `get_this_layer` read before. The wiring that `get_gate_wiring` returned points into the new cursor layer. |
| CircuitMle.GateValSumOnLabel | cmt-software/src/arith_circuit.rs:152-155 | On the label of j, the sum over the first m gates is gate j's value if j < m, else 0. |
| CircuitMle.MleGateValOnLabel | cmt-software/src/arith_circuit.rs:149-157 | At the boolean label of j, `mle_gate_val` is gate j's value in the cursor layer when j is below the layer size, and 0 on padding labels. |
| CircuitMle.WiringTermOnLabels | cmt-software/src/arith_circuit.rs:163-171 | One gate's basis term at the point (g, a, b) is 1 exactly when the gate is g and it reads a and b, else 0. |
| CircuitMle.WiringSumOnLabels | cmt-software/src/arith_circuit.rs:161-173 | Over the first m gates, the wiring sum at (g, a, b) is 1 exactly when gate g is among them, has the requested operation and reads (a, b); otherwise it is 0. |
| CircuitMle.MleWiringOnLabels | cmt-software/src/arith_circuit.rs:158-175 | At the labels of (g, a, b), `mle_wiring` is 1 exactly when gate g of the layer above the cursor exists, has operation `add` and reads (a, b) in that order; otherwise it is 0. |
| Text.SplitWhitespace | cmt-software/src/arith_circuit.rs:60 | Every piece is a non-empty run of non-whitespace characters. |
| Text.SplitWhitespaceSkipBlank | cmt-software/src/arith_circuit.rs:60 | Leading whitespace of any length does not change the pieces. |
| Text.SplitWhitespaceUnique | cmt-software/src/arith_circuit.rs:60 | Text made of tokens separated by non-empty whitespace runs, with optional whitespace at either end, splits into exactly those tokens. So the pieces are the maximal whitespace-free runs: "a\tb" gives "a" and "b". |
| Text.SplitWhitespaceKeepsText | cmt-software/src/arith_circuit.rs:60 | The pieces, concatenated, are exactly the non-whitespace characters of the line, in order. |
| Text.SplitWhitespaceJoin | cmt-software/src/arith_circuit.rs:60 | Tokens joined by single spaces split back into the same tokens. |
| Text.SplitOn | cmt-software/src/arith_circuit.rs:61 | At least one piece; no piece contains the separator; the pieces joined by the separator give back the string. |
| Text.SplitOnUnique | cmt-software/src/arith_circuit.rs:61 | Those pieces are the only separator-free pieces that join back to the string. |
| Text.SplitOnJoin | cmt-software/src/arith_circuit.rs:61 | Separator-free pieces joined by the separator split back into the same pieces. |
| Text.ParseUnsigned | cmt-software/src/arith_circuit.rs:69-70 | A parse succeeds exactly when the text is one or more decimal digits, optionally after a single '+', spelling a value below the type's bound. The result is the value of those digits. |
| Text.ParseUnsignedExamples | cmt-software/src/arith_circuit.rs:69-70 | "007" reads as 7 and "+12" as 12. "1a", "-1", a lone "+" and a value at the bound all fail. |
| Text.ParseNatToString | cmt-software/src/arith_circuit.rs:69-70 | The decimal rendering of any in-range value parses back to it, with or without a leading '+'. |
| Text.ParseCanonical | cmt-software/src/arith_circuit.rs:69-70 | A decimal string without leading zeros parses exactly when its value is in range, and the value renders back to the string. |
| CircuitParse.ParseGate | cmt-software/src/arith_circuit.rs:61-71 | A gate token is accepted exactly when it has three ','-fields, the third is `+` or `*`, and both numbers parse as `usize`. A wrong field count or operation gives WrongFormat for this layer; otherwise a failure is BadNumber. An accepted gate has value 0. Its w0 and w1 are the values of the first two fields, and it is an add gate exactly when the third field is `+`. |
| CircuitParse.ParseInput | cmt-software/src/arith_circuit.rs:74-76 | An input token is accepted exactly when it parses as `u32`. It gives an unwired, non-add gate holding that value; a failure is BadNumber for this layer. |
| CircuitParse.ParseTokens | cmt-software/src/arith_circuit.rs:59-77 | A line is accepted exactly when all its tokens are, and then has one gate per token, in order. Otherwise the error is that of the first failing token. |
| CircuitParse.ParseLineShape | cmt-software/src/arith_circuit.rs:59-77 | A parsed line has one gate per whitespace token. A line without ',' gives gates with wiring (0, 0) and no add; a line with ',' gives gates of value 0; a failure is WrongFormat or BadNumber for this layer. |
| CircuitParse.ParseLayers | cmt-software/src/arith_circuit.rs:56-83 | The lines parse exactly when each line parses as its own layer index. On success layer i is line i's gates; otherwise the error is that of the first failing line. |
| CircuitParse.ParseLayersError | cmt-software/src/arith_circuit.rs:56-83 | A failing parse is WrongFormat or BadNumber and names the index of a line of the description. |
| CircuitParse.MaxLayerSize | cmt-software/src/arith_circuit.rs:78-80 | `max_num_gates` bounds every layer size and is attained by some layer (or is 0). |
| Bits.CeilLog2 | cmt-software/src/arith_circuit.rs:87 | n fits in 2^k labels, and k is 0 or 2^(k-1) < n. |
| Bits.CeilLog2Least | cmt-software/src/arith_circuit.rs:87 | Any width whose 2^k reaches n is at least CeilLog2(n): the label width is the least that fits. |
| CircuitParse.ParseCircuit | cmt-software/src/arith_circuit.rs:43-90 | A description is accepted exactly when it has a line, every line parses and every gate reads inside the next layer. An empty description fails with NoLayers. A line that fails to parse fails the description with that line's error. It fails with WiringOutOfRange exactly when its lines parse but some gate reads outside the next layer. On success the circuit has the parsed skeleton and input layer, is evaluated and valid, has its cursor at 0, and its label width is the least k with every layer size at most 2^k. |
| CircuitParse.ParseFormatGate | cmt-software/src/arith_circuit.rs:61-71 | The text `w0,w1,op` of a gate parses back to that gate with value 0. |
| CircuitParse.ParseFormatWiredLine | cmt-software/src/arith_circuit.rs:59-72 | A rendered wiring line parses back to its gates with values reset. |
| CircuitParse.ParseFormatInputLine | cmt-software/src/arith_circuit.rs:73-77 | A rendered input line parses back to the input layer of its values. |
| CircuitParse.ParseFormatCircuit | cmt-software/src/arith_circuit.rs:43-90 | Round trip: the description of a well-wired circuit parses to that circuit, evaluated, with the least fitting label width and the cursor at the output layer. |
| CmtProver.New | cmt-software/src/prover.rs:15-25 | The gate under test is `start_lbl`, there are no challenges, and the width is the circuit's. The recorded wiring is that of `start_lbl`, read before the cursor moves. The circuit is the input circuit after one cursor move: layers are kept, and the cursor advances by one, wrapping to 0 from the input layer. When no wrap happens and labels fit a word, the state is consistent. |
| ProverRounds.NewReadsGateUnderTest | cmt-software/src/prover.rs:15-43 | After `new`, `get_gate_is_add` reports the start gate's operation and `get_gate_value` returns the values of its two inputs in the layer below it. |
| CmtProver.ShiftedOr | cmt-software/src/prover.rs:152-155 | The accumulated `val` always fits in a 64-bit word. |
| ProverLabels.ShiftedOrOnBits | cmt-software/src/prover.rs:152-155 | On 0/1 entries, the first k iterations give the number the first k entries spell little-endian. |
| CmtProver.AssembleRandLabel | cmt-software/src/prover.rs:150-157 | Requires exactly numBits entries (the `assert!`); the label fits in a word. |
| ProverLabels.AssembleRandLabelOnBits | cmt-software/src/prover.rs:150-157 | On a 0/1 vector the label is the number it spells little-endian, and it is below 2^numBits. |
| ProverLabels.AssembleRandLabelRoundTrip | cmt-software/src/prover.rs:150-157 | Assembling the numBits-bit label of any n < 2^numBits gives n. |
| ProverLabels.AssembleRandLabelBits | cmt-software/src/prover.rs:150-157 | The label of an assembled 0/1 vector is the vector itself. |
| CmtProver.AssembleU | cmt-software/src/prover.rs:119-127 | u has numBits + \|rand_lbls\| + 1 entries: the label of `curr_gate`, then the challenges, then k. |
| CmtProver.AssembleS | cmt-software/src/prover.rs:128-140 | s has 3·numBits entries. |
| ProverLabels.AssembleSRoundTrip | cmt-software/src/prover.rs:128-140 | Reading each third of s back as a label gives g, gl and gr. |
| CmtProver.GateLabelVec | cmt-software/src/prover.rs:142-147 | The vector `assemble_gate_label` builds has numBits entries (the length its `assert!` needs when \|r\| < numBits). |
| ProverLabels.GateLabelVecEntries | cmt-software/src/prover.rs:142-147 | For any challenges r and any k, entry i is r[i] below \|r\|, k at \|r\|, and bit i of g above; the vector is 0/1 when r and k are. |
| ProverLabels.AssembleGateLabelBits | cmt-software/src/prover.rs:141-149 | On 0/1 entries the result is g with its low \|r\|+1 bits replaced by r followed by k, and it stays below 2^numBits. |
| ProverLabels.AssembleGateLabelOfPrefix | cmt-software/src/prover.rs:141-149 | When r followed by k are already the low bits of g, the result is g. |
| Mle.XOnBits | cmt-software/src/prover.rs:165-171 | On 0/1 arguments, `x(s, u)` is the indicator of s = u. |
| Mle.MleBasis | cmt-software/src/prover.rs:158-171 | On equally long 0/1 vectors the eq product is 1 exactly when the vectors are equal, else 0. |
| ProverLabels.CalcTermpOnBits | cmt-software/src/prover.rs:158-164 | On 0/1 vectors, `calc_termp(s, u)` is 1 exactly when u is a prefix of s, else 0. |
| CmtProver.GetRandGate | cmt-software/src/prover.rs:59-67 | Requires 2·numBits challenges. Returns the labels of the two halves, smaller first, so the difference used later never underflows. |
| ProverLabels.GetRandGateOnLabels | cmt-software/src/prover.rs:59-67 | When the halves are the labels of a and b, the result is (min(a, b), max(a, b)). |
| CmtProver.QueryRandGateAsWritten | cmt-software/src/prover.rs:44-58 | As written, it returns Ok exactly when the ordered labels equal the wiring as an unordered pair and the left label is in range; the Ok value is the two wired inputs' values, and the error is always `false`. |
| CmtProver.QueryRandGate | cmt-software/src/prover.rs:44-58 | Ok exactly when the labels equal the wiring as an unordered pair and both labels are in range. The Ok value is the wired inputs' values; otherwise `Err(false)`. |
| ProverRounds.ConsistentReadsInRange | cmt-software/src/prover.rs:44-58 | In a consistent state the wiring lies in the cursor layer, so the query as written never reads outside it. |
| ProverRounds.QueryRandGateAgrees | cmt-software/src/prover.rs:47-50 | Wherever the as-written query stays in range, it equals the corrected query. |
| ProverRounds.RightLabelUnchecked | cmt-software/src/prover.rs:47-48 | A concrete state where the right label 1 lies outside a one-gate layer: the as-written test passes and the labels match the wiring, so the source would read out of range. The corrected query answers `Err(false)`. |
| ProverRounds.QueryRandGateOnBits | cmt-software/src/prover.rs:44-58 | On 0/1 challenges in a consistent state, the query succeeds exactly when the challenges spell the two wired labels in either order; both versions agree. |
| CmtProver.LinePoint | cmt-software/src/prover.rs:75 | The index read at point n of the line is below the cursor-layer size. |
| CmtProver.LinePointNoWrap | cmt-software/src/prover.rs:75 | Without word overflow, the index is `((r1 - r0)·n + r0) mod size`. |
| CmtProver.LinePointEndpoints | cmt-software/src/prover.rs:68-79 | Points 0 and 1 of the line are the two random labels reduced modulo the layer size, which is what lines 72-73 read. |
| CmtProver.GetAllVals | cmt-software/src/prover.rs:68-79 | numBits + 1 values (2 when numBits = 0); value i is the cursor-layer gate at point i of the line. |
| CmtProver.NextLayer | cmt-software/src/prover.rs:26-33 | The new gate under test is point n of the line through the random labels, in word arithmetic and reduced modulo the cursor-layer size (LinePointNoWrap gives the unwrapped formula). It is below that size, and its wiring is reloaded from that layer. The cursor advances by one, challenges are cleared and the width is unchanged. Consistency is preserved when a deeper layer exists. |
| ProverRounds.NextLayerFollowsReportedValue | cmt-software/src/prover.rs:26-33 | After `next_layer(n)` the gate under test, read above the new cursor, holds the value `get_all_vals` reported at position n. |
| ProverRounds.NextLayerEndpoints | cmt-software/src/prover.rs:26-33 | `next_layer(0)` and `next_layer(1)` move to the random labels themselves, when those labels are in range. |
| CmtProver.SumCheck | cmt-software/src/prover.rs:83-117 | Three entries with entry 2 always 0. The only state change is appending r to the challenges, and consistency is preserved. |
| ProverRounds.RecomputedValue | cmt-software/src/arith_circuit.rs:95-101 | In an evaluated circuit, the value the gate under test recomputes from its inputs is its stored value. |
| ProverRounds.TermpOnBits | cmt-software/src/prover.rs:87-91 | On 0/1 challenges, gate i's eq factor is 1 exactly when i is the gate under test and the challenges followed by k stay on the path to its wired inputs. |
| ProverRounds.RoundLabelsOnPath | cmt-software/src/prover.rs:94-104 | On that path, the two labels a round reads for the gate under test are its recorded wiring. |
| ProverRounds.GateTermOnBits | cmt-software/src/prover.rs:85-111 | Gate i's contribution to entry k is the recomputed value for the gate under test on the path, and 0 for every other gate or off the path. |
| ProverRounds.RoundSumOnBits | cmt-software/src/prover.rs:85-114 | Accumulated over the first m gates, only the gate under test can contribute. |
| ProverRounds.SumCheckOnBits | cmt-software/src/prover.rs:83-117 | Entry k (k = 0, 1) is the recomputed value when the challenges followed by k stay on the wiring path, else 0. |
| ProverRounds.SumCheckRoundIdentity | cmt-software/src/prover.rs:83-117 | `poly[0] + poly[1]` is the gate's value while the challenges so far are on the path to its inputs, and 0 once they left it. |
| ProverRounds.SumCheckDefinedOnFullLayer | cmt-software/src/prover.rs:94-106 | With 0/1 challenges and a full cursor layer (2^numBits gates), every label a round reads is in range, so the round cannot panic. |
| ProverMle.SumCheckOutOfRange | cmt-software/src/prover.rs:94-106 | A consistent prover with label width 1, a full two-gate cursor layer and the one challenge 2: in round 1 the left label assembles to 2, past the layer, so the round as written cannot run. |
| ProverMle.ProductOfSumsRound0 | cmt-software/src/prover.rs:15-25 | The prover started on the output gate of (x0 + x1) * (x2 + x3) is consistent, and round 0 reads only inside the two-gate middle layer. |
| ProverMle.ProductOfSumsRound1OutOfRange | cmt-software/src/prover.rs:94-106 | For either 0/1 challenge r0, after round 0 the prover is consistent with the right challenge count for round 1. There, entry k = 1 of the output gate reads label r0 + 2 of a two-gate layer, so the round as written cannot run. |
| ProverMle.RoundPoints | cmt-software/src/prover.rs:94-104 | The two points have numBits coordinates, and they are the vectors whose assembled labels are the labels the source reads. |
| ProverMle.SumCheckMle | cmt-software/src/prover.rs:83-117 | The corrected round is defined in every consistent state with the right challenge count. It sends three entries with entry 2 equal to 0, appends r to the challenges and preserves consistency. |
| ProverMle.MleGateValOnBits | cmt-software/src/arith_circuit.rs:149-157 | At a 0/1 point the extension is the value of the gate the point spells, or 0 past the end of the layer. |
| ProverMle.RoundPointsOnBits | cmt-software/src/prover.rs:94-104 | On 0/1 challenges both points are 0/1 vectors. |
| ProverMle.RoundPointsOnPath | cmt-software/src/prover.rs:94-106 | On the path to the inputs of the gate under test, the corrected round reads exactly the values of those inputs. |
| ProverMle.GateTermMleOnBits | cmt-software/src/prover.rs:85-111 | On 0/1 challenges, gate i's corrected contribution to entry k is the recomputed value for the gate under test on the path, and 0 otherwise. |
| ProverMle.HalfFullLayerOutOfRange | cmt-software/src/prover.rs:94-106 | On 0/1 challenges, when the cursor layer has at most 2^(numBits-1) gates, entry k = 1 of round numBits - 1 (the last round on the left label) reads a left label of at least 2^(numBits-1), so the round as written cannot run. |
| ProverMle.RoundSumMleStep | cmt-software/src/prover.rs:85-114 | Adding gate m - 1 to the corrected partial sum adds the recomputed value only when it is the gate under test on the path. |
| ProverMle.RoundSumMleOnBits | cmt-software/src/prover.rs:85-114 | Over the first m gates, only the gate under test contributes to the corrected entry. |
| ProverMle.SumCheckMleOnBits | cmt-software/src/prover.rs:83-117 | On 0/1 challenges, corrected entry k is the recomputed value when the challenges followed by k stay on the wiring path, else 0. No condition on the labels is needed. |
| ProverMle.SumCheckMleRoundIdentity | cmt-software/src/prover.rs:83-117 | On every 0/1 challenge sequence, the corrected `poly[0] + poly[1]` is the gate's value on the path and 0 off it. |
| ProverMle.SumCheckMleAgrees | cmt-software/src/prover.rs:83-117 | Wherever the source's round runs on 0/1 challenges, the corrected round sends the same entries and moves to the same prover. |

## Left out

- File reading, timing and printing (`fs::read_to_string`, `Instant`,
  `println!`, `print_circuit`, `info!`) are left out. A description is
  taken as its sequence of lines, so the line splitting of `str::lines` is
  not modelled.
- `verifier.rs` is not part of this model: its checks are stubs. `main.rs`,
  the entry point, is not part of it either. Challenges are parameters.
- `math_helper` is not part of this model. `Zp` is an integer modulo a
  stand-in prime P = 2^31 - 1. The general theorems do not depend on P's
  value or primality; the concrete examples use field elements up to 21
  and need P > 21.
  `Zp::new` is taken to reduce modulo P. `get_bit`, `into_bit_arr` and
  `mle_interpolate` follow their usual definitions: bit i of n, the
  little-endian low bits, and the product of eq factors over equally long
  vectors.
- `ArithCircuit` in `arith_circuit.rs` defines no `num_gate_at_layer`,
  which `prover.rs` calls; it is modelled as the size of the cursor layer,
  the reading every call site needs.
- The `f64` computation `log2().ceil()` is replaced by an exact integer
  ceiling of log2. For an all-empty circuit both give 0. Floating-point
  rounding on huge layer sizes is not modelled.
- `usize` arithmetic wraps at 2^64, as in a release build; a debug build
  would panic instead. A shift by 64 or more would overflow, so label
  widths are at most 64.
- Panics on out-of-range indices, failed `assert!`s and the cursor-0
  underflow are modelled as preconditions. They are not modelled as error
  values.
- The trivial getters (`get_curr_wiring`, `Gate::get_wiring`, `is_add`,
  `val`) are field reads and have no contract of their own.
- Soundness and completeness of the protocol are not stated: there is no
  working verifier to state them against.
- CmtProver.AssembleRandLabel: its own contract states only the word bound.
  On challenges other than 0 and 1 the source ORs shifted representatives,
  which has no label meaning, so the meaning is proved for 0/1 entries
  only.
- CmtProver.ShiftedOr: same as above; ShiftedOrOnBits gives the meaning on
  0/1 entries.
- CmtProver.SumCheck: the entries are characterised on 0/1 challenges
  only, and only where every label read is in range. The labels the source
  assembles can lie past the cursor layer, and the round then panics. A
  challenge outside {0, 1} can build any label. On 0/1 challenges this
  needs a cursor layer with fewer than 2^numBits gates. It is certain in
  round numBits - 1 when the layer has at most 2^(numBits-1) gates, and
  otherwise depends on the wiring and the challenges. The model requires
  every label it reads to be in range, so no entries are stated there (see
  Findings). ProverMle.SumCheckMle is the round defined for every
  challenge.
- CmtProver.AssembleS: the contract gives the length; the contents are
  stated by AssembleSRoundTrip.
- Text.SplitWhitespace: splits on the Unicode White_Space set, the set
  `char::is_whitespace` uses. The set is written out here and not derived
  from a Unicode table.
- Text.ParseUnsigned: accepts only ASCII decimal digits with an optional
  leading '+', as `str::parse` does for unsigned types. The reason a parse
  fails is not distinguished.

## Findings

| source | as written | input that shows it | evidently intended | confidence | as-written member | corrected member |
|---|---|---|---|---|---|---|
| cmt-software/src/prover.rs:47-48 | The bounds test checks `lbl_l` twice, so `lbl_r` is never checked before `get_gate_value` reads the wired gates. | A cursor layer of one gate, a gate under test recorded with wiring (0, 1), and challenges spelling labels 0 and 1. The test passes, the labels match the wiring, and gate 1 would be read. | Test `lbl_l` and `lbl_r` against the layer size. In consistent states the two agree (QueryRandGateAgrees, ConsistentReadsInRange). | not executed | CmtProver.QueryRandGateAsWritten, ProverRounds.RightLabelUnchecked | CmtProver.QueryRandGate |
| cmt-software/src/prover.rs:94-106 | Each round reads `get_gate_val` at labels that `assemble_rand_label` (line 154) builds by OR-ing shifted raw challenge values. A label can lie past the cursor layer, and the read then panics. A challenge outside {0, 1} can build any label. On 0/1 challenges a label past the layer needs fewer than 2^numBits gates in the cursor layer. It is certain, in round numBits - 1, when the layer has at most 2^(numBits-1) gates; otherwise it depends on the wiring and the challenges. | (1) Label width 1, a full cursor layer of two gates, and the one challenge 2 in round 1: the left label is 2. (2) The circuit (x0 + x1) * (x2 + x3), started on its output gate: after round 0 with any challenge r0 in {0, 1}, entry k = 1 of round 1 reads label r0 + 2 of a two-gate layer. | Read the cursor layer through its multilinear extension at the challenge point (`mle_gate_val`, as the protocol does). This agrees with the integer reads on 0/1 challenges (SumCheckMleAgrees) and keeps the round identity (SumCheckMleRoundIdentity). | not executed | CmtProver.SumCheck, ProverMle.SumCheckOutOfRange, ProverMle.ProductOfSumsRound1OutOfRange, ProverMle.HalfFullLayerOutOfRange | ProverMle.SumCheckMle |
