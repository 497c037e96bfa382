// The gated-delta recurrence oracle: a slot of state is one matrix per value
// head, kept as the list of all its rows, and every token rewrites one slot.
module GatedDelta {
  import opened Analysis
  import opened Blocks
  import opened Vectors

  const RMS_EPSILON: real := 0.000001
  const DELTA_SCALE: real := 0.08838835

  datatype Shape = Shape(headDim: nat, keyHeads: nat, valueHeads: nat) {
    predicate Valid() {
      headDim > 0 && keyHeads > 0 && valueHeads > 0 && valueHeads % keyHeads == 0
    }

    function QkWidth(): nat { keyHeads * headDim }

    function ValueWidth(): nat { valueHeads * headDim }

    function QkvRows(): nat { 2 * QkWidth() + ValueWidth() }

    function InputRows(): nat { QkvRows() + ValueWidth() }

    // The value head owning row j of a slot.
    function ValueHead(j: nat): (head: nat)
      requires Valid() && j < ValueWidth()
      ensures head < valueHeads
    {
      QuotientBound(j, headDim, valueHeads);
      j / headDim
    }

    // Value heads share key heads in equal consecutive groups.
    function KeyHead(valueHead: nat): (head: nat)
      requires Valid() && valueHead < valueHeads
      ensures head < keyHeads
    {
      GroupSize(valueHeads, keyHeads);
      QuotientBound(valueHead, valueHeads / keyHeads, keyHeads);
      valueHead / (valueHeads / keyHeads)
    }
  }

  lemma GroupSize(n: nat, k: nat)
    requires n > 0 && k > 0 && n % k == 0
    ensures n / k > 0 && (n / k) * k == n
  {
  }

  type Slot = seq<seq<real>>

  // What one token feeds to a slot: normalized query and key heads, one value
  // and gate per row, one decay and beta per value head.
  datatype Token = Token(
    query: seq<seq<real>>, key: seq<seq<real>>, value: seq<real>, gate: seq<real>,
    decay: seq<real>, beta: seq<real>)

  predicate Fits(shape: Shape, token: Token) {
    && |token.query| == |token.key| == shape.keyHeads
    && (forall h :: 0 <= h < shape.keyHeads ==> |token.query[h]| == |token.key[h]| == shape.headDim)
    && |token.value| == |token.gate| == shape.ValueWidth()
    && |token.decay| == |token.beta| == shape.valueHeads
  }

  predicate SlotFits(shape: Shape, slot: Slot) {
    |slot| == shape.ValueWidth() && forall j :: 0 <= j < |slot| ==> |slot[j]| == shape.headDim
  }

  function RowUpdate(row: seq<real>, key: seq<real>, value: real, decay: real, beta: real): real
    requires |row| == |key|
  {
    beta * (value - decay * Dot(row, key))
  }

  // row' = decay * row + beta * (value - decay * (row . key)) * key
  function RowStep(row: seq<real>, key: seq<real>, value: real, decay: real, beta: real): (next: seq<real>)
    requires |row| == |key|
    ensures |next| == |row|
    ensures Combines(next, decay, row, RowUpdate(row, key, value, decay, beta), key)
  {
    var update := RowUpdate(row, key, value, decay, beta);
    seq(|row|, c requires 0 <= c < |row| => decay * row[c] + update * key[c])
  }

  function SlotRowStep(shape: Shape, row: seq<real>, token: Token, j: nat): (next: seq<real>)
    requires shape.Valid() && Fits(shape, token) && j < shape.ValueWidth() && |row| == shape.headDim
    ensures |next| == |row|
  {
    var h := shape.ValueHead(j);
    RowStep(row, token.key[shape.KeyHead(h)], token.value[j], token.decay[h], token.beta[h])
  }

  function SlotStep(shape: Shape, slot: Slot, token: Token): (next: Slot)
    requires shape.Valid() && Fits(shape, token) && SlotFits(shape, slot)
    ensures SlotFits(shape, next)
  {
    seq(|slot|, j requires 0 <= j < |slot| => SlotRowStep(shape, slot[j], token, j))
  }

  // The rows of one value head, all stepped against the same key ...
  function HeadStep(rows: seq<seq<real>>, key: seq<real>, values: seq<real>, decay: real, beta: real)
      : (next: seq<seq<real>>)
    requires |rows| == |values| && forall r :: 0 <= r < |rows| ==> |rows[r]| == |key|
    ensures |next| == |rows|
  {
    seq(|rows|, r requires 0 <= r < |rows| => RowStep(rows[r], key, values[r], decay, beta))
  }

  // ... and then read with the same query.
  function HeadRead(rows: seq<seq<real>>, query: seq<real>): (values: seq<real>)
    requires forall r :: 0 <= r < |rows| ==> |rows[r]| == |query|
    ensures |values| == |rows|
  {
    seq(|rows|, r requires 0 <= r < |rows| => DELTA_SCALE * Dot(rows[r], query))
  }

  // The rows of a slot that belong to one value head.
  function HeadRows<T>(shape: Shape, rows: seq<T>, head: nat): (mine: seq<T>)
    requires shape.Valid() && |rows| == shape.ValueWidth() && head < shape.valueHeads
    ensures |mine| == shape.headDim
  {
    Gap(shape.headDim, head, shape.valueHeads);
    Block(rows, shape.headDim, head)
  }

  function SlotHead(shape: Shape, slot: Slot, head: nat): (mine: seq<seq<real>>)
    requires shape.Valid() && SlotFits(shape, slot) && head < shape.valueHeads
    ensures |mine| == shape.headDim
    ensures forall r :: 0 <= r < |mine| ==> |mine[r]| == shape.headDim
  {
    Gap(shape.headDim, head, shape.valueHeads);
    HeadRows(shape, slot, head)
  }

  function HeadRecurrent(shape: Shape, slot: Slot, token: Token, head: nat): (values: seq<real>)
    requires shape.Valid() && Fits(shape, token) && SlotFits(shape, slot) && head < shape.valueHeads
    ensures |values| == shape.headDim
  {
    HeadRead(SlotHead(shape, slot, head), token.query[shape.KeyHead(head)])
  }

  // A step of the slot is a step of each value head, with its grouped key head.
  lemma HeadStepped(shape: Shape, slot: Slot, token: Token, head: nat)
    requires shape.Valid() && Fits(shape, token) && SlotFits(shape, slot) && head < shape.valueHeads
    ensures SlotHead(shape, SlotStep(shape, slot, token), head)
         == HeadStep(SlotHead(shape, slot, head), token.key[shape.KeyHead(head)],
              HeadRows(shape, token.value, head), token.decay[head], token.beta[head])
  {
    hide RowStep;
    var d := shape.headDim;
    Gap(d, head, shape.valueHeads);
    var mine := SlotHead(shape, SlotStep(shape, slot, token), head);
    var stepped := HeadStep(SlotHead(shape, slot, head), token.key[shape.KeyHead(head)],
      HeadRows(shape, token.value, head), token.decay[head], token.beta[head]);
    forall r | 0 <= r < d
      ensures mine[r] == stepped[r]
    {
      DivMod(d, head, r);
    }
  }

  function RootMeanSquare(f: Functions, values: seq<real>): (rms: real)
    requires f.Lawful() && |values| > 0
    ensures rms > 0.0
  {
    SquaredNormNonNegative(values);
    f.sqrt(SquaredNorm(values) / |values| as real + RMS_EPSILON)
  }

  function GatedCell(f: Functions, value: real, rms: real, weight: real, gate: real): real
    requires f.Lawful() && rms > 0.0
  {
    value / rms * weight * f.Silu(gate)
  }

  // The gated, normalized output of one value head ...
  function HeadOutput(f: Functions, weight: seq<real>, gate: seq<real>, recurrent: seq<real>): (cells: seq<real>)
    requires f.Lawful() && |weight| == |gate| == |recurrent| > 0
    ensures |cells| == |gate|
  {
    var rms := RootMeanSquare(f, recurrent);
    seq(|gate|, r requires 0 <= r < |gate| => GatedCell(f, recurrent[r], rms, weight[r], gate[r]))
  }

  // ... and of all of them, for a slot that already holds the token's update.
  function Output(shape: Shape, f: Functions, weight: seq<real>, slot: Slot, token: Token): (output: seq<real>)
    requires shape.Valid() && f.Lawful() && |weight| == shape.headDim
    requires Fits(shape, token) && SlotFits(shape, slot)
    ensures |output| == shape.ValueWidth()
  {
    seq(|slot|, j requires 0 <= j < |slot| =>
      var head := shape.ValueHead(j);
      HeadOutput(f, weight, HeadRows(shape, token.gate, head), HeadRecurrent(shape, slot, token, head))
        [j % shape.headDim])
  }

  lemma HeadOutputs(shape: Shape, f: Functions, weight: seq<real>, slot: Slot, token: Token, head: nat)
    requires shape.Valid() && f.Lawful() && |weight| == shape.headDim
    requires Fits(shape, token) && SlotFits(shape, slot) && head < shape.valueHeads
    ensures HeadRows(shape, Output(shape, f, weight, slot, token), head)
         == HeadOutput(f, weight, HeadRows(shape, token.gate, head), HeadRecurrent(shape, slot, token, head))
  {
    hide HeadOutput, HeadRecurrent;
    var d := shape.headDim;
    Gap(d, head, shape.valueHeads);
    var mine := HeadRows(shape, Output(shape, f, weight, slot, token), head);
    var cells := HeadOutput(f, weight, HeadRows(shape, token.gate, head), HeadRecurrent(shape, slot, token, head));
    forall r | 0 <= r < d
      ensures mine[r] == cells[r]
    {
      DivMod(d, head, r);
    }
  }

  // The tokens one slot receives, in order.
  function SlotRun(shape: Shape, slot: Slot, tokens: seq<Token>): (next: Slot)
    requires shape.Valid() && SlotFits(shape, slot)
    requires forall t :: 0 <= t < |tokens| ==> Fits(shape, tokens[t])
    ensures SlotFits(shape, next)
  {
    if |tokens| == 0 then slot
    else SlotStep(shape, SlotRun(shape, slot, tokens[..|tokens| - 1]), tokens[|tokens| - 1])
  }

  ghost predicate Routed(shape: Shape, states: seq<Slot>, tokens: seq<Token>, slots: seq<nat>) {
    && shape.Valid()
    && |tokens| == |slots|
    && (forall s :: 0 <= s < |states| ==> SlotFits(shape, states[s]))
    && (forall t :: 0 <= t < |tokens| ==> Fits(shape, tokens[t]) && slots[t] < |states|)
  }

  // All slots, token t rewriting slot slots[t].
  ghost function Run(shape: Shape, states: seq<Slot>, tokens: seq<Token>, slots: seq<nat>): (next: seq<Slot>)
    requires Routed(shape, states, tokens, slots)
    ensures |next| == |states|
    ensures forall s :: 0 <= s < |next| ==> SlotFits(shape, next[s])
    decreases |tokens|
  {
    if |tokens| == 0 then states
    else
      var n := |tokens| - 1;
      var before := Run(shape, states, tokens[..n], slots[..n]);
      before[slots[n] := SlotStep(shape, before[slots[n]], tokens[n])]
  }

  ghost function OutputAt(
      shape: Shape, f: Functions, weight: seq<real>, states: seq<Slot>, tokens: seq<Token>, slots: seq<nat>, t: nat)
      : (output: seq<real>)
    requires Routed(shape, states, tokens, slots) && t < |tokens|
    requires f.Lawful() && |weight| == shape.headDim
    ensures |output| == shape.ValueWidth()
  {
    Output(shape, f, weight, Run(shape, states, tokens[..t + 1], slots[..t + 1])[slots[t]], tokens[t])
  }

  // ---- The flat planes a token is read from ---------------------------------

  datatype Fixture = Fixture(
    qkv: seq<real>, projected: seq<real>, logDecay: seq<real>, beta: seq<real>, normWeight: seq<real>)

  predicate Covers(shape: Shape, fixture: Fixture, rows: nat) {
    && |fixture.qkv| == rows * shape.QkvRows()
    && |fixture.projected| == rows * shape.InputRows()
    && |fixture.logDecay| == |fixture.beta| == rows * shape.valueHeads
    && |fixture.normWeight| == shape.headDim
  }

  function InverseNorm(f: Functions, x: seq<real>): (inverse: real)
    requires f.Lawful()
    ensures inverse > 0.0
    ensures inverse * inverse * (SquaredNorm(x) + RMS_EPSILON) == 1.0
  {
    SquaredNormNonNegative(x);
    var sum := SquaredNorm(x) + RMS_EPSILON;
    var root := f.sqrt(sum);
    assert 1.0 / root * root == 1.0;
    assert 1.0 / root * (1.0 / root) * (root * root) == (1.0 / root * root) * (1.0 / root * root);
    1.0 / root
  }

  function Normalize(f: Functions, x: seq<real>): (y: seq<real>)
    requires f.Lawful()
    ensures |y| == |x|
  {
    var inverse := InverseNorm(f, x);
    seq(|x|, i requires 0 <= i < |x| => x[i] * inverse)
  }

  function NormalizedHeads(shape: Shape, f: Functions, plane: seq<real>): (heads: seq<seq<real>>)
    requires f.Lawful() && |plane| == shape.QkWidth()
    ensures |heads| == shape.keyHeads
    ensures forall h :: 0 <= h < |heads| ==> |heads[h]| == shape.headDim
  {
    seq(shape.keyHeads, h requires 0 <= h < shape.keyHeads =>
      Gap(shape.headDim, h, shape.keyHeads);
      Normalize(f, Block(plane, shape.headDim, h)))
  }

  function TokenAt(shape: Shape, f: Functions, fixture: Fixture, rows: nat, t: nat): (token: Token)
    requires f.Lawful() && Covers(shape, fixture, rows) && t < rows
    ensures Fits(shape, token)
  {
    Gap(shape.QkvRows(), t, rows);
    Gap(shape.InputRows(), t, rows);
    Gap(shape.valueHeads, t, rows);
    var qkv := Block(fixture.qkv, shape.QkvRows(), t);
    var qk := shape.QkWidth();
    var logDecay := Block(fixture.logDecay, shape.valueHeads, t);
    Token(
      NormalizedHeads(shape, f, qkv[..qk]),
      NormalizedHeads(shape, f, qkv[qk..2 * qk]),
      qkv[2 * qk..],
      Block(fixture.projected, shape.InputRows(), t)[shape.QkvRows()..],
      seq(shape.valueHeads, h requires 0 <= h < shape.valueHeads => f.exp(logDecay[h])),
      Block(fixture.beta, shape.valueHeads, t))
  }

  function Tokens(shape: Shape, f: Functions, fixture: Fixture, rows: nat): (tokens: seq<Token>)
    requires f.Lawful() && Covers(shape, fixture, rows)
    ensures |tokens| == rows
    ensures forall t :: 0 <= t < rows ==> Fits(shape, tokens[t])
  {
    seq(rows, t requires 0 <= t < rows => TokenAt(shape, f, fixture, rows, t))
  }

  // Which slot each row of a launch rewrites: a decode batch maps row to
  // sequence, a longer prompt or a causal run keeps the first sequence.
  function Route(stateRows: seq<nat>, causal: bool, rows: nat): (slots: seq<nat>)
    requires |stateRows| > 0
    ensures |slots| == rows
  {
    seq(rows, t requires 0 <= t < rows =>
      if !causal && rows <= |stateRows| then stateRows[t] else stateRows[0])
  }
}
