// The oracle itself: nested loops that rewrite a flat state buffer in place,
// proved to compute the run of GatedDelta.
module GatedDeltaOracle {
  import opened Analysis
  import opened Blocks
  import opened GatedDelta
  import opened Vectors

  // One state row read against the key.
  method StateKey(state: array<real>, d: nat, i: nat, key: seq<real>) returns (stateKey: real)
    requires i * d + d <= state.Length && |key| == d
    ensures stateKey == Dot(Block(state[..], d, i), key)
  {
    var base := i * d;
    ghost var row := Block(state[..], d, i);
    stateKey := 0.0;
    for column := 0 to d
      invariant stateKey == Dot(row[..column], key[..column])
    {
      DotExtend(row, key, column);
      stateKey := stateKey + state[base + column] * key[column];
    }
    assert row[..d] == row && key[..d] == key;
  }

  lemma StepCell(row: seq<real>, key: seq<real>, value: real, decay: real, beta: real, c: nat)
    requires c < |row| == |key|
    ensures RowStep(row, key, value, decay, beta)[c]
         == decay * row[c] + RowUpdate(row, key, value, decay, beta) * key[c]
  {
    hide Dot, RowUpdate;
  }

  // Rewrites one state row: the row is read against the key in full before
  // its first cell changes.
  method UpdateRow(
      state: array<real>, d: nat, n: nat, i: nat,
      key: seq<real>, query: seq<real>, value: real, decay: real, beta: real)
      returns (recurrent: real)
    requires state.Length == n * d && i < n && i * d + d <= n * d && |key| == |query| == d
    modifies state
    ensures Rows(state[..], d, n)
         == old(Rows(state[..], d, n))[i := RowStep(old(Block(state[..], d, i)), key, value, decay, beta)]
    ensures recurrent == DELTA_SCALE * Dot(Block(state[..], d, i), query)
  {
    hide Dot, RowStep, Combines, Rows;
    var base := i * d;
    ghost var before := state[..];
    ghost var row := Block(before, d, i);
    var stateKey := StateKey(state, d, i, key);
    var update := beta * (value - decay * stateKey);
    assert update == RowUpdate(row, key, value, decay, beta);
    ghost var next := RowStep(row, key, value, decay, beta);
    recurrent := 0.0;
    assert Dot(next[..0], query[..0]) == 0.0 by { DotEmpty(next, query); }
    for column := 0 to d
      invariant forall k :: 0 <= k < state.Length && !(base <= k < base + column) ==> state[k] == before[k]
      invariant forall c :: 0 <= c < column ==> state[base + c] == next[c]
      invariant recurrent == Dot(next[..column], query[..column])
    {
      assert state[base + column] == row[column];
      state[base + column] := decay * state[base + column] + update * key[column];
      StepCell(row, key, value, decay, beta, column);
      DotExtend(next, query, column);
      recurrent := recurrent + state[base + column] * query[column];
    }
    assert next[..d] == next && query[..d] == query;
    recurrent := recurrent * DELTA_SCALE;
    assert Block(state[..], d, i) == next;
    RowsUpdate(before, state[..], d, n, i, next);
  }

  // Rewrites the d rows of one value head, from row first on.
  method UpdateHead(
      state: array<real>, d: nat, n: nat, first: nat,
      key: seq<real>, query: seq<real>, values: seq<real>, decay: real, beta: real)
      returns (recurrent: seq<real>)
    requires state.Length == n * d && first + d <= n && |key| == |query| == |values| == d
    modifies state
    ensures var before, after := old(Rows(state[..], d, n)), Rows(state[..], d, n);
      var next := HeadStep(before[first..first + d], key, values, decay, beta);
      after == before[..first] + next + before[first + d..] && recurrent == HeadRead(next, query)
  {
    hide Dot, RowStep, Combines, Rows, Overwritten;
    ghost var before := Rows(state[..], d, n);
    ghost var next := HeadStep(before[first..first + d], key, values, decay, beta);
    recurrent := [];
    Untouched(before, next, first);
    for row := 0 to d
      invariant |recurrent| == row
      invariant Overwritten(before, next, Rows(state[..], d, n), first, row)
      invariant forall r :: 0 <= r < row ==> recurrent[r] == DELTA_SCALE * Dot(next[r], query)
    {
      ghost var now := Rows(state[..], d, n);
      PendingOne(before, next, now, first, row);
      Gap(d, first + row, n);
      RowIs(state[..], d, n, first + row);
      var value := UpdateRow(state, d, n, first + row, key, query, values[row], decay, beta);
      RowIs(state[..], d, n, first + row);
      OverwriteOne(before, next, now, first, row, Rows(state[..], d, n));
      recurrent := recurrent + [value];
    }
    Complete(before, next, Rows(state[..], d, n), first);
  }

  method MeasureRms(f: Functions, values: seq<real>) returns (rms: real)
    requires f.Lawful() && |values| > 0
    ensures rms == RootMeanSquare(f, values)
  {
    var sum := 0.0;
    for i := 0 to |values|
      invariant sum == Dot(values[..i], values[..i])
    {
      DotExtend(values, values, i);
      sum := sum + values[i] * values[i];
    }
    assert values[..|values|] == values;
    SquaredNormNonNegative(values);
    rms := f.sqrt(sum / |values| as real + RMS_EPSILON);
  }

  method GateCell(f: Functions, value: real, rms: real, weight: real, gate: real) returns (cell: real)
    requires f.Lawful() && rms > 0.0
    ensures cell == GatedCell(f, value, rms, weight, gate)
  {
    var silu := gate / (1.0 + f.exp(-gate));
    cell := value / rms * weight * silu;
  }

  // Writes the gated, normalized output of one value head.
  method WriteHead(
      f: Functions, weight: seq<real>, gate: seq<real>, recurrent: seq<real>, output: array<real>, base: nat)
    requires f.Lawful() && |weight| == |gate| == |recurrent| > 0
    requires base + |gate| <= output.Length
    modifies output
    ensures output[..] == old(output[..base]) + HeadOutput(f, weight, gate, recurrent) + old(output[base + |gate|..])
  {
    hide Dot, RootMeanSquare, GatedCell, Overwritten;
    var rms := MeasureRms(f, recurrent);
    ghost var written, next := output[..], HeadOutput(f, weight, gate, recurrent);
    Untouched(written, next, base);
    for row := 0 to |gate|
      invariant Overwritten(written, next, output[..], base, row)
    {
      ghost var now := output[..];
      PendingOne(written, next, now, base, row);
      output[base + row] := GateCell(f, recurrent[row], rms, weight[row], gate[row]);
      OverwriteOne(written, next, now, base, row, output[..]);
    }
    Complete(written, next, output[..], base);
  }

  // One value head of one token: its rows, then its output.
  method StepHead(
      shape: Shape, f: Functions, weight: seq<real>, state: array<real>, n: nat, first: nat,
      ghost slot: Slot, token: Token, head: nat, output: array<real>, base: nat)
    requires shape.Valid() && f.Lawful() && |weight| == shape.headDim && Fits(shape, token)
    requires SlotFits(shape, slot) && head < shape.valueHeads
    requires state.Length == n * shape.headDim && first + shape.headDim <= n
    requires Rows(state[..], shape.headDim, n)[first..first + shape.headDim] == SlotHead(shape, slot, head)
    requires base + shape.headDim <= output.Length && state != output
    modifies state, output
    ensures var d, next := shape.headDim, SlotStep(shape, slot, token);
      var before, after := old(Rows(state[..], d, n)), Rows(state[..], d, n);
      && after == before[..first] + SlotHead(shape, next, head) + before[first + d..]
      && output[..] == old(output[..base]) + HeadRows(shape, Output(shape, f, weight, next, token), head)
        + old(output[base + d..])
  {
    hide Dot, RowStep, Combines, Rows, SlotStep, HeadRecurrent, HeadStep, HeadRead, HeadOutput, Output, HeadRows;
    var keyHead := shape.KeyHead(head);
    HeadStepped(shape, slot, token, head);
    HeadOutputs(shape, f, weight, SlotStep(shape, slot, token), token, head);
    var recurrent := UpdateHead(state, shape.headDim, n, first, token.key[keyHead], token.query[keyHead],
      HeadRows(shape, token.value, head), token.decay[head], token.beta[head]);
    RecurrentOf(shape, SlotStep(shape, slot, token), token, head);
    WriteHead(f, weight, HeadRows(shape, token.gate, head), recurrent, output, base);
  }

  lemma RecurrentOf(shape: Shape, slot: Slot, token: Token, head: nat)
    requires shape.Valid() && Fits(shape, token) && SlotFits(shape, slot) && head < shape.valueHeads
    ensures HeadRecurrent(shape, slot, token, head)
         == HeadRead(SlotHead(shape, slot, head), token.query[shape.KeyHead(head)])
  {
    hide HeadRead, SlotHead;
  }

  // How far the heads of one token have come: the first lo rows of its slot
  // and of its output are final.
  ghost predicate Stepped(
      shape: Shape, f: Functions, weight: seq<real>, token: Token,
      before: seq<seq<real>>, rows: seq<seq<real>>, first: nat, written: seq<real>, cells: seq<real>, base: nat,
      lo: nat)
    requires shape.Valid() && f.Lawful() && |weight| == shape.headDim && Fits(shape, token)
    requires first + shape.ValueWidth() <= |before|
    requires forall q :: 0 <= q < |before| ==> |before[q]| == shape.headDim
  {
    var next := SlotStep(shape, before[first..first + shape.ValueWidth()], token);
    && Overwritten(before, next, rows, first, lo)
    && Overwritten(written, Output(shape, f, weight, next, token), cells, base, lo)
  }

  method AdvanceHead(
      shape: Shape, f: Functions, weight: seq<real>, state: array<real>, n: nat, first: nat,
      token: Token, head: nat, output: array<real>, base: nat,
      ghost before: seq<seq<real>>, ghost written: seq<real>, lo: nat)
    requires shape.Valid() && f.Lawful() && |weight| == shape.headDim && Fits(shape, token)
    requires head < shape.valueHeads && lo == head * shape.headDim
    requires state.Length == n * shape.headDim && first + shape.ValueWidth() <= n == |before| && state != output
    requires forall q :: 0 <= q < |before| ==> |before[q]| == shape.headDim
    requires Stepped(shape, f, weight, token,
      before, Rows(state[..], shape.headDim, n), first, written, output[..], base, lo)
    modifies state, output
    ensures Stepped(shape, f, weight, token,
      before, Rows(state[..], shape.headDim, n), first, written, output[..], base, lo + shape.headDim)
  {
    hide Dot, RowStep, Combines, Rows, SlotStep, Output, Overwritten;
    var d, w := shape.headDim, shape.ValueWidth();
    ghost var slot := before[first..first + w];
    ghost var next := SlotStep(shape, slot, token);
    ghost var all := Output(shape, f, weight, next, token);
    Gap(d, head, shape.valueHeads);
    ghost var rows, cells := Rows(state[..], d, n), output[..];
    OverwrittenFits(before, next, rows, first, lo);
    OverwrittenFits(written, all, cells, base, lo);
    assert rows[first + lo..first + lo + d] == SlotHead(shape, slot, head) by {
      Pending(before, next, rows, first, lo, d);
      assert slot[lo..lo + d] == before[first + lo..first + lo + d];
    }
    StepHead(shape, f, weight, state, n, first + lo, slot, token, head, output, base + lo);
    Overwrite(before, next, rows, first, lo, d, Rows(state[..], d, n));
    Overwrite(written, all, cells, base, lo, d, output[..]);
  }

  // One token: every value head of its slot, then that head's output.
  method UpdateSlot(
      shape: Shape, f: Functions, weight: seq<real>, state: array<real>, n: nat, first: nat,
      token: Token, output: array<real>, base: nat)
    requires shape.Valid() && f.Lawful() && |weight| == shape.headDim && Fits(shape, token)
    requires state.Length == n * shape.headDim && first + shape.ValueWidth() <= n
    requires base + shape.ValueWidth() <= output.Length && state != output
    modifies state, output
    ensures var d, w := shape.headDim, shape.ValueWidth();
      var before, after := old(Rows(state[..], d, n)), Rows(state[..], d, n);
      var next := SlotStep(shape, before[first..first + w], token);
      && after == before[..first] + next + before[first + w..]
      && output[..] == old(output[..base]) + Output(shape, f, weight, next, token) + old(output[base + w..])
  {
    hide Dot, RowStep, Combines, Rows, SlotStep, Output, Overwritten, Stepped;
    var d, w := shape.headDim, shape.ValueWidth();
    ghost var before, written := Rows(state[..], d, n), output[..];
    StepStart(shape, f, weight, token, before, first, written, base);
    var lo := 0;
    for head := 0 to shape.valueHeads
      invariant lo == head * d
      invariant Stepped(shape, f, weight, token, before, Rows(state[..], d, n), first, written, output[..], base, lo)
    {
      AdvanceHead(shape, f, weight, state, n, first, token, head, output, base, before, written, lo);
      NextMultiple(d, head);
      lo := lo + d;
    }
    StepEnd(shape, f, weight, token, before, Rows(state[..], d, n), first, written, output[..], base);
  }

  lemma StepStart(
      shape: Shape, f: Functions, weight: seq<real>, token: Token,
      before: seq<seq<real>>, first: nat, written: seq<real>, base: nat)
    requires shape.Valid() && f.Lawful() && |weight| == shape.headDim && Fits(shape, token)
    requires first + shape.ValueWidth() <= |before| && base + shape.ValueWidth() <= |written|
    requires forall q :: 0 <= q < |before| ==> |before[q]| == shape.headDim
    ensures Stepped(shape, f, weight, token, before, before, first, written, written, base, 0)
  {
    hide SlotStep, Output, Overwritten;
    var next := SlotStep(shape, before[first..first + shape.ValueWidth()], token);
    Untouched(before, next, first);
    Untouched(written, Output(shape, f, weight, next, token), base);
  }

  lemma StepEnd(
      shape: Shape, f: Functions, weight: seq<real>, token: Token,
      before: seq<seq<real>>, rows: seq<seq<real>>, first: nat, written: seq<real>, cells: seq<real>, base: nat)
    requires shape.Valid() && f.Lawful() && |weight| == shape.headDim && Fits(shape, token)
    requires first + shape.ValueWidth() <= |before| && base + shape.ValueWidth() <= |written|
    requires forall q :: 0 <= q < |before| ==> |before[q]| == shape.headDim
    requires Stepped(shape, f, weight, token, before, rows, first, written, cells, base, shape.ValueWidth())
    ensures var w := shape.ValueWidth();
      var next := SlotStep(shape, before[first..first + w], token);
      && rows == before[..first] + next + before[first + w..]
      && cells == written[..base] + Output(shape, f, weight, next, token) + written[base + w..]
  {
    hide SlotStep, Output, Overwritten;
    var next := SlotStep(shape, before[first..first + shape.ValueWidth()], token);
    Complete(before, next, rows, first);
    Complete(written, Output(shape, f, weight, next, token), cells, base);
  }

  method NormalizeHead(f: Functions, plane: seq<real>, base: nat, d: nat) returns (head: seq<real>)
    requires f.Lawful() && base + d <= |plane|
    ensures head == Normalize(f, plane[base..base + d])
  {
    hide Dot;
    ghost var source := plane[base..base + d];
    var sum := SumOfSquares(plane, base, d);
    SquaredNormNonNegative(source);
    var inverse := 1.0 / f.sqrt(sum + RMS_EPSILON);
    assert inverse == InverseNorm(f, source);
    ghost var normalized := Normalize(f, source);
    hide Normalize, InverseNorm, SquaredNorm;
    head := [];
    for column := 0 to d
      invariant |head| == column
      invariant head == normalized[..column]
    {
      var value := plane[base + column];
      assert value == source[column];
      NormalizedCell(f, source, column);
      assert value * inverse == normalized[column];
      head := head + [value * inverse];
    }
  }

  lemma NormalizedCell(f: Functions, x: seq<real>, i: nat)
    requires f.Lawful() && i < |x|
    ensures Normalize(f, x)[i] == x[i] * InverseNorm(f, x)
  {
    hide InverseNorm;
  }

  method SumOfSquares(plane: seq<real>, base: nat, d: nat) returns (sum: real)
    requires base + d <= |plane|
    ensures sum == SquaredNorm(plane[base..base + d])
  {
    ghost var source := plane[base..base + d];
    sum := 0.0;
    for column := 0 to d
      invariant sum == Dot(source[..column], source[..column])
    {
      DotExtend(source, source, column);
      assert source[column] == plane[base + column];
      sum := sum + plane[base + column] * plane[base + column];
    }
    assert source[..d] == source;
  }

  method NormalizeHeads(shape: Shape, f: Functions, plane: seq<real>) returns (heads: seq<seq<real>>)
    requires f.Lawful() && |plane| == shape.QkWidth()
    ensures heads == NormalizedHeads(shape, f, plane)
  {
    heads := [];
    for head := 0 to shape.keyHeads
      invariant heads == NormalizedHeads(shape, f, plane)[..head]
    {
      Gap(shape.headDim, head, shape.keyHeads);
      var normalized := NormalizeHead(f, plane, head * shape.headDim, shape.headDim);
      heads := heads + [normalized];
    }
  }

  method ReadToken(shape: Shape, f: Functions, fixture: Fixture, capacity: nat, t: nat) returns (token: Token)
    requires f.Lawful() && Covers(shape, fixture, capacity) && t < capacity
    ensures token == TokenAt(shape, f, fixture, capacity, t)
  {
    Gap(shape.QkvRows(), t, capacity);
    Gap(shape.InputRows(), t, capacity);
    Gap(shape.valueHeads, t, capacity);
    var qkv := Block(fixture.qkv, shape.QkvRows(), t);
    var qk := shape.QkWidth();
    var query := NormalizeHeads(shape, f, qkv[..qk]);
    var key := NormalizeHeads(shape, f, qkv[qk..2 * qk]);
    var logDecay := Block(fixture.logDecay, shape.valueHeads, t);
    token := Token(query, key, qkv[2 * qk..],
      Block(fixture.projected, shape.InputRows(), t)[shape.QkvRows()..],
      seq(shape.valueHeads, h requires 0 <= h < shape.valueHeads => f.exp(logDecay[h])),
      Block(fixture.beta, shape.valueHeads, t));
  }

  // One more token of a run.
  lemma RunExtends(
      shape: Shape, f: Functions, weight: seq<real>,
      states: seq<Slot>, tokens: seq<Token>, slots: seq<nat>, t: nat)
    requires Routed(shape, states, tokens, slots) && t < |tokens|
    requires f.Lawful() && |weight| == shape.headDim
    ensures var held := Run(shape, states, tokens[..t], slots[..t]);
      var next := SlotStep(shape, held[slots[t]], tokens[t]);
      && Run(shape, states, tokens[..t + 1], slots[..t + 1]) == held[slots[t] := next]
      && OutputAt(shape, f, weight, states, tokens, slots, t) == Output(shape, f, weight, next, tokens[t])
  {
    hide SlotStep, Output;
    assert tokens[..t + 1][..t] == tokens[..t] && slots[..t + 1][..t] == slots[..t];
  }

  method StepToken(
      shape: Shape, f: Functions, weight: seq<real>, state: array<real>, count: nat, slot: nat,
      token: Token, output: array<real>, rows: nat, t: nat)
    requires shape.Valid() && f.Lawful() && |weight| == shape.headDim && Fits(shape, token)
    requires state.Length == count * shape.ValueWidth() * shape.headDim && slot < count
    requires output.Length == rows * shape.ValueWidth() && t < rows && state != output
    modifies state, output
    ensures var d, w := shape.headDim, shape.ValueWidth();
      var held := old(Slots(state[..], d, w, count));
      var next := SlotStep(shape, held[slot], token);
      && Slots(state[..], d, w, count) == held[slot := next]
      && Rows(output[..], w, rows) == old(Rows(output[..], w, rows))[t := Output(shape, f, weight, next, token)]
  {
    hide Dot, SlotStep, Output;
    var d, w, n := shape.headDim, shape.ValueWidth(), count * shape.ValueWidth();
    Gap(w, slot, count);
    Gap(w, t, rows);
    ghost var held, written := Rows(state[..], d, n), output[..];
    UpdateSlot(shape, f, weight, state, n, slot * w, token, output, t * w);
    ghost var next := SlotStep(shape, Block(held, w, slot), token);
    RowsSplice(held, next, Rows(state[..], d, n), w, count, slot);
    RowsSplice(written, Output(shape, f, weight, next, token), output[..], w, rows, t);
  }

  lemma LaunchRouted(
      shape: Shape, f: Functions, fixture: Fixture, capacity: nat, stateRows: seq<nat>, causal: bool,
      rows: nat, before: seq<Slot>)
    requires shape.Valid() && f.Lawful() && Covers(shape, fixture, capacity) && rows <= capacity
    requires |stateRows| > 0 && forall k :: 0 <= k < |stateRows| ==> stateRows[k] < |before|
    requires forall s :: 0 <= s < |before| ==> SlotFits(shape, before[s])
    ensures Routed(shape, before, Tokens(shape, f, fixture, capacity)[..rows], Route(stateRows, causal, rows))
  {
    hide TokenAt;
  }

  lemma LaunchRow(
      shape: Shape, f: Functions, fixture: Fixture, capacity: nat, stateRows: seq<nat>, causal: bool, rows: nat, t: nat)
    requires f.Lawful() && Covers(shape, fixture, capacity) && t < rows <= capacity && |stateRows| > 0
    ensures Tokens(shape, f, fixture, capacity)[..rows][t] == TokenAt(shape, f, fixture, capacity, t)
    ensures Route(stateRows, causal, rows)[t]
         == if !causal && rows <= |stateRows| then stateRows[t] else stateRows[0]
  {
    hide TokenAt;
  }

  // The oracle: copies the state, rewrites one slot per row of the launch, and
  // returns the whole state with one output row per token.
  method Oracle(
      shape: Shape, f: Functions, fixture: Fixture, capacity: nat, stateRows: seq<nat>, causal: bool,
      rows: nat, initial: seq<real>, count: nat)
      returns (state: array<real>, output: array<real>)
    requires shape.Valid() && f.Lawful() && Covers(shape, fixture, capacity) && rows <= capacity
    requires |stateRows| > 0 && forall k :: 0 <= k < |stateRows| ==> stateRows[k] < count
    requires |initial| == count * shape.ValueWidth() * shape.headDim
    ensures state.Length == |initial| && output.Length == rows * shape.ValueWidth()
    ensures var tokens := Tokens(shape, f, fixture, capacity)[..rows];
      var slots := Route(stateRows, causal, rows);
      var before := Slots(initial, shape.headDim, shape.ValueWidth(), count);
      && Routed(shape, before, tokens, slots)
      && Slots(state[..], shape.headDim, shape.ValueWidth(), count) == Run(shape, before, tokens, slots)
      && (forall t :: 0 <= t < rows ==>
        Rows(output[..], shape.ValueWidth(), rows)[t]
        == OutputAt(shape, f, fixture.normWeight, before, tokens, slots, t))
  {
    var d, w, n := shape.headDim, shape.ValueWidth(), count * shape.ValueWidth();
    state := new real[|initial|](i requires 0 <= i < |initial| => initial[i]);
    output := new real[rows * w](_ => 0.0);
    ghost var tokens := Tokens(shape, f, fixture, capacity)[..rows];
    ghost var slots := Route(stateRows, causal, rows);
    ghost var before := Slots(initial, d, w, count);
    assert state[..] == initial;
    LaunchRouted(shape, f, fixture, capacity, stateRows, causal, rows, before);
    assert Run(shape, before, tokens[..0], slots[..0]) == before;
    hide Dot, SlotStep, Output, Slots, Rows, Tokens, TokenAt, Run, Route, OutputAt;
    for t := 0 to rows
      invariant Slots(state[..], d, w, count) == Run(shape, before, tokens[..t], slots[..t])
      invariant forall u :: 0 <= u < t ==>
        Rows(output[..], w, rows)[u] == OutputAt(shape, f, fixture.normWeight, before, tokens, slots, u)
    {
      var slot := if !causal && rows <= |stateRows| then stateRows[t] else stateRows[0];
      var token := ReadToken(shape, f, fixture, capacity, t);
      LaunchRow(shape, f, fixture, capacity, stateRows, causal, rows, t);
      RunExtends(shape, f, fixture.normWeight, before, tokens, slots, t);
      StepToken(shape, f, fixture.normWeight, state, count, slot, token, output, rows, t);
    }
    assert tokens[..rows] == tokens && slots[..rows] == slots;
  }
}
