// The attention-output fixture and the eight token oracles that stand in for
// every token: rows repeat with period eight.
module AttentionFixture {
  import opened Analysis
  import opened Blocks
  import opened E4m3
  import opened Projection
  import opened Quantize

  // heads * dim attention columns a token; in its qkv row each head packs dim
  // query cells and dim gate cells.
  datatype Shape = Shape(heads: nat, dim: nat, qkvRows: nat) {
    predicate Valid() {
      dim > 0 && heads * (2 * dim) <= qkvRows && qkvRows > 0
    }

    function Columns(): nat {
      heads * dim
    }
  }

  const GATE_PATTERN: seq<real> := [0.0, -1.0, -0.5, -0.25, 0.25, 0.5, 0.75, 1.0]
  const TOKEN_FACTORS: seq<real> := [1.0, 0.875, 0.75, 0.625, 0.5, 0.375, 0.25, 0.125]

  // ---- The fixture ---------------------------------------------------------------------

  function Gate(token: nat, head: nat, dimension: nat): real {
    GATE_PATTERN[(dimension + head + token) % 8]
  }

  function Attention(token: nat, head: nat, dimension: nat): Float {
    var magnitude := if Gate(token, head, dimension) == 0.0 then 1.0 else 0.25;
    var negative := (dimension + head * 3 + token) % 2 != 0;
    Finite(negative, magnitude * TOKEN_FACTORS[token % 8])
  }

  function AttentionAt(s: Shape, index: nat): Float
    requires s.Valid() && s.Columns() > 0
  {
    var token, column := index / s.Columns(), index % s.Columns();
    Attention(token, column / s.dim, column % s.dim)
  }

  function GateOffset(s: Shape, token: nat, head: nat, dimension: nat): nat {
    token * s.qkvRows + head * (2 * s.dim) + s.dim + dimension
  }

  // What the fixture leaves at a flat index: a gate in the gate half of a packed
  // head, the sentinel anywhere else.
  function GateAt(s: Shape, sentinel: Float, index: nat): Float
    requires s.Valid()
  {
    GateInRow(s, sentinel, index / s.qkvRows, index % s.qkvRows)
  }

  lemma HeadOfRow(row: nat, width: nat)
    requires width > 0
    ensures row / width >= 0 && row % width >= 0
  {
  }

  function GateInRow(s: Shape, sentinel: Float, token: nat, row: nat): Float
    requires s.dim > 0
  {
    HeadOfRow(row, 2 * s.dim);
    GateInHead(s, sentinel, token, row / (2 * s.dim), row % (2 * s.dim))
  }

  function GateInHead(s: Shape, sentinel: Float, token: nat, head: nat, place: nat): Float {
    if head < s.heads && place >= s.dim then FloatOf(Gate(token, head, place - s.dim)) else sentinel
  }

  // Everything before the frontier is as the fixture leaves it, the rest still
  // the sentinel.
  ghost predicate FilledTo(s: Shape, sentinel: Float, qkv: seq<Float>, frontier: nat)
    requires s.Valid()
  {
    forall i :: 0 <= i < |qkv| ==> qkv[i] == if i < frontier then GateAt(s, sentinel, i) else sentinel
  }

  function HeadOffset(s: Shape, token: nat, head: nat): nat {
    token * s.qkvRows + head * (2 * s.dim)
  }

  lemma HeadFits(s: Shape, rows: nat, token: nat, head: nat)
    requires s.Valid() && token < rows && head < s.heads
    ensures head * (2 * s.dim) + 2 * s.dim <= s.qkvRows
    ensures HeadOffset(s, token, head) + 2 * s.dim <= rows * s.qkvRows
    ensures HeadOffset(s, token, head + 1) == HeadOffset(s, token, head) + 2 * s.dim
  {
    Gap(2 * s.dim, head, s.heads);
    Gap(s.qkvRows, token, rows);
    NextMultiple(2 * s.dim, head);
  }

  lemma RowCell(s: Shape, sentinel: Float, token: nat, row: nat)
    requires s.Valid() && row < s.qkvRows
    ensures GateAt(s, sentinel, token * s.qkvRows + row) == GateInRow(s, sentinel, token, row)
  {
    hide GateInRow;
    DivMod(s.qkvRows, token, row);
  }

  lemma HeadCell(s: Shape, sentinel: Float, token: nat, head: nat, place: nat)
    requires s.Valid() && place < 2 * s.dim
    ensures GateInRow(s, sentinel, token, head * (2 * s.dim) + place) == GateInHead(s, sentinel, token, head, place)
  {
    hide GateInHead;
    DivMod(2 * s.dim, head, place);
  }

  // What lies at a place of a packed head.
  lemma PlaceOfHead(s: Shape, sentinel: Float, rows: nat, token: nat, head: nat, place: nat)
    requires s.Valid() && token < rows && head < s.heads && place < 2 * s.dim
    ensures GateAt(s, sentinel, HeadOffset(s, token, head) + place) ==
      if place >= s.dim then FloatOf(Gate(token, head, place - s.dim)) else sentinel
  {
    hide FloatOf, Gate, GateAt, GateInRow;
    HeadFits(s, rows, token, head);
    RowCell(s, sentinel, token, head * (2 * s.dim) + place);
    HeadCell(s, sentinel, token, head, place);
  }

  // The query half before a head's gates holds none.
  lemma SkipQueries(s: Shape, sentinel: Float, rows: nat, qkv: seq<Float>, token: nat, head: nat)
    requires s.Valid() && token < rows && head < s.heads
    requires FilledTo(s, sentinel, qkv, HeadOffset(s, token, head))
    ensures FilledTo(s, sentinel, qkv, HeadOffset(s, token, head) + s.dim)
  {
    hide GateAt;
    var start := HeadOffset(s, token, head);
    forall i | start <= i < start + s.dim
      ensures GateAt(s, sentinel, i) == sentinel
    {
      PlaceOfHead(s, sentinel, rows, token, head, i - start);
    }
  }

  // Nor do the keys and values after the last head.
  lemma SkipTail(s: Shape, sentinel: Float, qkv: seq<Float>, token: nat)
    requires s.Valid() && FilledTo(s, sentinel, qkv, HeadOffset(s, token, s.heads))
    ensures FilledTo(s, sentinel, qkv, HeadOffset(s, token + 1, 0))
  {
    hide GateAt;
    NextMultiple(s.qkvRows, token);
    var start := HeadOffset(s, token, s.heads);
    forall i | start <= i < HeadOffset(s, token + 1, 0)
      ensures GateAt(s, sentinel, i) == sentinel
    {
      TailCell(s, sentinel, token, i - token * s.qkvRows);
    }
  }

  lemma TailCell(s: Shape, sentinel: Float, token: nat, row: nat)
    requires s.Valid() && s.heads * (2 * s.dim) <= row < s.qkvRows
    ensures GateAt(s, sentinel, token * s.qkvRows + row) == sentinel
  {
    hide FloatOf, Gate;
    RowCell(s, sentinel, token, row);
    var wide, head := 2 * s.dim, row / (2 * s.dim);
    if head < s.heads {
      Gap(wide, head, s.heads);
    }
  }

  lemma FillOne(s: Shape, sentinel: Float, qkv: seq<Float>, next: seq<Float>, at: nat)
    requires s.Valid() && at < |qkv| && FilledTo(s, sentinel, qkv, at)
    requires next == qkv[at := GateAt(s, sentinel, at)]
    ensures FilledTo(s, sentinel, next, at + 1)
  {
    hide GateAt;
  }

  method MakeGates(s: Shape, sentinel: Float, rows: nat) returns (qkv: array<Float>)
    requires s.Valid()
    ensures fresh(qkv) && qkv.Length == rows * s.qkvRows
    ensures forall i :: 0 <= i < qkv.Length ==> qkv[i] == GateAt(s, sentinel, i)
  {
    hide GateAt, FloatOf, Gate, HeadOffset;
    qkv := new Float[rows * s.qkvRows](_ => sentinel);
    Origin(s, 0);
    for token := 0 to rows
      invariant FilledTo(s, sentinel, qkv[..], HeadOffset(s, token, 0))
    {
      for head := 0 to s.heads
        invariant FilledTo(s, sentinel, qkv[..], HeadOffset(s, token, head))
      {
        HeadFits(s, rows, token, head);
        SkipQueries(s, sentinel, rows, qkv[..], token, head);
        for dimension := 0 to s.dim
          invariant FilledTo(s, sentinel, qkv[..], HeadOffset(s, token, head) + s.dim + dimension)
        {
          var gate := token * s.qkvRows + head * 2 * s.dim + s.dim + dimension;
          GateIndex(s, token, head, dimension);
          PlaceOfHead(s, sentinel, rows, token, head, s.dim + dimension);
          ghost var before := qkv[..];
          qkv[gate] := FloatOf(Gate(token, head, dimension));
          FillOne(s, sentinel, before, qkv[..], gate);
        }
      }
      SkipTail(s, sentinel, qkv[..], token);
    }
    Origin(s, rows);
  }

  lemma Origin(s: Shape, token: nat)
    ensures HeadOffset(s, token, 0) == token * s.qkvRows
  {
  }

  lemma GateIndex(s: Shape, token: nat, head: nat, dimension: nat)
    ensures token * s.qkvRows + head * 2 * s.dim + s.dim + dimension == HeadOffset(s, token, head) + s.dim + dimension
    ensures HeadOffset(s, token, head) + s.dim + dimension == GateOffset(s, token, head, dimension)
  {
  }

  // ---- Gated rows -----------------------------------------------------------------------

  datatype Fixture = Fixture(shape: Shape, rows: nat, sentinel: Float, attention: seq<Float>, qkv: seq<Float>) {
    // The planes are the ones the fixture builds.
    ghost predicate Valid() {
      && shape.Valid() && shape.Columns() > 0
      && |attention| == rows * shape.Columns() && |qkv| == rows * shape.qkvRows
      && (forall i :: 0 <= i < |attention| ==> attention[i] == AttentionAt(shape, i))
      && (forall i :: 0 <= i < |qkv| ==> qkv[i] == GateAt(shape, sentinel, i))
    }
  }

  function AttentionOffset(s: Shape, token: nat, column: nat): nat {
    token * s.Columns() + column
  }

  function ColumnGate(s: Shape, token: nat, column: nat): nat
    requires s.dim > 0
  {
    GateOffset(s, token, column / s.dim, column % s.dim)
  }

  function GatedValue(f: Functions, value: Float, gate: real): Float
    requires f.Lawful()
  {
    Divide(value, Finite(false, 1.0 + f.exp(-gate)))
  }

  // What the gated row of a token holds in a column.
  function Expected(f: Functions, s: Shape, token: nat, column: nat): Float
    requires f.Lawful() && s.dim > 0
  {
    var head, dimension := column / s.dim, column % s.dim;
    GatedValue(f, Attention(token, head, dimension), Gate(token, head, dimension))
  }

  lemma ColumnFits(s: Shape, rows: nat, token: nat, column: nat)
    requires s.Valid() && token < rows && column < s.Columns()
    ensures AttentionOffset(s, token, column) < rows * s.Columns()
    ensures column / s.dim < s.heads && column % s.dim < s.dim
    ensures ColumnGate(s, token, column) < rows * s.qkvRows
  {
    Gap(s.Columns(), token, rows);
    QuotientBound(column, s.dim, s.heads);
    HeadFits(s, rows, token, column / s.dim);
    GateIndex(s, token, column / s.dim, column % s.dim);
  }

  lemma AttentionCell(x: Fixture, token: nat, column: nat)
    requires x.Valid() && token < x.rows && column < x.shape.Columns()
    ensures x.shape.dim > 0 && AttentionOffset(x.shape, token, column) < |x.attention|
    ensures x.attention[AttentionOffset(x.shape, token, column)]
      == Attention(token, column / x.shape.dim, column % x.shape.dim)
  {
    hide Attention, GateAt, AttentionAt, ColumnGate, AttentionOffset, Shape.Columns;
    ColumnFits(x.shape, x.rows, token, column);
    AttentionPlace(x.shape, token, column);
  }

  lemma AttentionPlace(s: Shape, token: nat, column: nat)
    requires s.Valid() && column < s.Columns()
    ensures AttentionAt(s, AttentionOffset(s, token, column)) == Attention(token, column / s.dim, column % s.dim)
  {
    hide Attention, Shape.Columns;
    DivMod(s.Columns(), token, column);
  }

  lemma GateCell(x: Fixture, token: nat, column: nat)
    requires x.Valid() && token < x.rows && column < x.shape.Columns()
    ensures ColumnGate(x.shape, token, column) < |x.qkv|
    ensures x.qkv[ColumnGate(x.shape, token, column)]
      == FloatOf(Gate(token, column / x.shape.dim, column % x.shape.dim))
  {
    hide Gate, FloatOf, GateAt, AttentionAt;
    var s := x.shape;
    var head, dimension := column / s.dim, column % s.dim;
    ColumnFits(s, x.rows, token, column);
    GateIndex(s, token, head, dimension);
    PlaceOfHead(s, x.sentinel, x.rows, token, head, s.dim + dimension);
    hide HeadOffset, GateOffset, Shape.Columns;
    assert x.qkv[ColumnGate(s, token, column)] == GateAt(s, x.sentinel, ColumnGate(s, token, column));
  }

  // One token's attention over one plus the exponential of its negated gate,
  // column by column.
  function Gated(f: Functions, x: Fixture, token: nat): (gated: seq<Float>)
    requires f.Lawful() && x.Valid() && token < x.rows
    ensures |gated| == x.shape.Columns()
  {
    seq(x.shape.Columns(), column requires 0 <= column < x.shape.Columns() => GatedAt(f, x, token, column))
  }

  function GatedAt(f: Functions, x: Fixture, token: nat, column: nat): Float
    requires f.Lawful() && x.Valid() && token < x.rows && column < x.shape.Columns()
  {
    hide *;
    AttentionCell(x, token, column);
    GateCell(x, token, column);
    FloatIsSigned(Gate(token, column / x.shape.dim, column % x.shape.dim));
    GatedValue(
      f, x.attention[AttentionOffset(x.shape, token, column)], Signed(x.qkv[ColumnGate(x.shape, token, column)]))
  }

  lemma GatedIs(f: Functions, x: Fixture, token: nat, column: nat)
    requires f.Lawful() && x.Valid() && token < x.rows && column < x.shape.Columns()
    ensures x.shape.dim > 0 && Gated(f, x, token)[column] == Expected(f, x.shape, token, column)
  {
    hide Attention, Gate, GatedValue, FloatOf, Signed, Fixture.Valid, AttentionOffset, ColumnGate, Shape.Columns;
    AttentionCell(x, token, column);
    GateCell(x, token, column);
    FloatIsSigned(Gate(token, column / x.shape.dim, column % x.shape.dim));
  }

  // What the fixture feeds to a cell: a gate of the pattern, and one of its factors
  // with the parity's sign, four times as large beside a zero gate.
  function GateValue(token: nat, head: nat, dimension: nat): real {
    GATE_PATTERN[(dimension + head + token) % 8]
  }

  function Strength(token: nat, head: nat, dimension: nat): real {
    (if (dimension + head * 3 + token) % 2 == 0 then 1.0 else -1.0)
    * (if GateValue(token, head, dimension) == 0.0 then 1.0 else 0.25) * TOKEN_FACTORS[token % 8]
  }

  lemma StrengthIsSigned(token: nat, head: nat, dimension: nat)
    ensures Gate(token, head, dimension) == GateValue(token, head, dimension)
    ensures Attention(token, head, dimension).Finite?
    ensures Signed(Attention(token, head, dimension)) == Strength(token, head, dimension)
  {
  }

  lemma GatedSigned(f: Functions, value: Float, gate: real, size: real)
    requires f.Lawful() && value.Finite? && Signed(value) == size
    ensures GatedValue(f, value, gate).Finite?
    ensures Signed(GatedValue(f, value, gate)) * (1.0 + f.exp(-gate)) == size
  {
    var d := 1.0 + f.exp(-gate);
    MagnitudeRatio(value, d);
    SignedRatio(value, d);
    assert size / d * d == size;
  }

  // A gated cell, multiplied out: the logistic function of the cell's own gate is
  // taken of the cell's own attention.
  lemma GatedCell(f: Functions, x: Fixture, token: nat, head: nat, dimension: nat)
    requires f.Lawful() && x.Valid() && token < x.rows && head < x.shape.heads && dimension < x.shape.dim
    ensures head * x.shape.dim + dimension < x.shape.Columns()
    ensures var cell := Gated(f, x, token)[head * x.shape.dim + dimension];
      && cell.Finite?
      && Signed(cell) * (1.0 + f.exp(-GateValue(token, head, dimension))) == Strength(token, head, dimension)
  {
    hide Attention, Gate, GatedValue, Signed, Strength, GateValue, Gated;
    var column := head * x.shape.dim + dimension;
    Gap(x.shape.dim, head, x.shape.heads);
    DivMod(x.shape.dim, head, dimension);
    GatedIs(f, x, token, column);
    StrengthIsSigned(token, head, dimension);
    GatedSigned(f, Attention(token, head, dimension), Gate(token, head, dimension), Strength(token, head, dimension));
  }

  lemma CellPeriod(token: nat, head: nat, dimension: nat)
    ensures Gate(token, head, dimension) == Gate(token % 8, head, dimension)
    ensures Attention(token, head, dimension) == Attention(token % 8, head, dimension)
  {
    Eighths(dimension + head, token);
    Halves(dimension + head * 3, token);
  }

  lemma Eighths(x: nat, token: nat)
    ensures (x + token) % 8 == (x + token % 8) % 8 && token % 8 % 8 == token % 8
  {
  }

  lemma Halves(x: nat, token: nat)
    ensures (x + token) % 2 == (x + token % 8) % 2
  {
  }

  lemma GatedPeriod(f: Functions, x: Fixture, token: nat)
    requires f.Lawful() && x.Valid() && token < x.rows
    ensures Gated(f, x, token) == Gated(f, x, token % 8)
  {
    hide Gated, Attention, Gate, GatedValue, Fixture.Valid, Shape.Columns;
    var here, there := Gated(f, x, token), Gated(f, x, token % 8);
    forall column | 0 <= column < x.shape.Columns()
      ensures here[column] == there[column]
    {
      GatedIs(f, x, token, column);
      GatedIs(f, x, token % 8, column);
      CellPeriod(token, column / x.shape.dim, column % x.shape.dim);
    }
  }

  // ---- Token oracles ------------------------------------------------------------------------

  datatype Oracle = Oracle(gated: seq<Float>, codes: seq<nat>, scale: real, correlations: seq<real>)

  // The oracle belongs to a token when it is what that token's own row gives.
  ghost predicate IsOracle(f: Functions, x: Fixture, token: nat, oracle: Oracle)
    requires f.Lawful() && x.Valid() && token < x.rows
  {
    && oracle.gated == Gated(f, x, token)
    && QuantizeRow(oracle.gated) == Quantize.Ok(TokenOracle(oracle.codes, oracle.scale, RepresentedSum(oracle.codes)))
    && (forall i :: 0 <= i < |oracle.codes| ==> IsNumber(oracle.codes[i]))
    && Correlate(oracle.codes, oracle.correlations)
  }

  lemma GatedIsFinite(f: Functions, x: Fixture, token: nat)
    requires f.Lawful() && x.Valid() && token < x.rows
    ensures AllFinite(Gated(f, x, token))
  {
    hide Gated, Fixture.Valid;
    forall column | 0 <= column < x.shape.Columns()
      ensures Gated(f, x, token)[column].Finite?
    {
      GatedIs(f, x, token, column);
    }
  }

  lemma CodesAreNumbers(row: seq<Float>, oracle: TokenOracle)
    requires QuantizeRow(row) == Quantize.Ok(oracle)
    ensures |oracle.codes| == |row| && forall i :: 0 <= i < |row| ==> IsNumber(oracle.codes[i])
    ensures oracle.representedSum == RepresentedSum(oracle.codes)
  {
    QuantizeIs(row, oracle);
    hide QuantizeRow, Encode, Divide, Decode, Nearest;
    forall i | 0 <= i < |row|
      ensures IsNumber(oracle.codes[i])
    {
      var ratio := Divide(row[i], Finite(false, oracle.scale));
      EncodeMeaning(ratio, oracle.codes[i]);
      NearestIsFinite(Clamp(ratio.magnitude), oracle.codes[i] % 128);
      DecodeMeaning(oracle.codes[i]);
    }
  }

  method MakeOracle(f: Functions, x: Fixture, token: nat) returns (oracle: Oracle)
    requires f.Lawful() && x.Valid() && token < x.rows
    ensures IsOracle(f, x, token, oracle)
  {
    hide Gated, Fixture.Valid, QuantizeRow, Correlate, IsNumber, RepresentedSum, AllFinite;
    var gated := Gated(f, x, token);
    GatedIsFinite(f, x, token);
    QuantizeMeaning(gated);
    var quantized := QuantizeRow(gated).value;
    CodesAreNumbers(gated, quantized);
    NumbersAreBytes(quantized.codes);
    var correlations := WeightCorrelations(quantized.codes);
    oracle := Oracle(gated, quantized.codes, quantized.scale, correlations.value);
  }

  lemma NumbersAreBytes(codes: seq<nat>)
    requires forall i :: 0 <= i < |codes| ==> IsNumber(codes[i])
    ensures forall i :: 0 <= i < |codes| ==> codes[i] < 256
  {
    forall i | 0 <= i < |codes|
      ensures codes[i] < 256
    {
      assert IsNumber(codes[i]);
    }
  }

  // Eight oracles, one for each phase, and entry t mod 8 belongs to every token t.
  method MakeOracles(f: Functions, x: Fixture) returns (oracles: seq<Oracle>)
    requires f.Lawful() && x.Valid() && x.rows >= 8
    ensures |oracles| == 8
    ensures forall token :: 0 <= token < x.rows ==> IsOracle(f, x, token, oracles[token % 8])
  {
    hide IsOracle, Fixture.Valid;
    oracles := [];
    for token := 0 to 8
      invariant |oracles| == token
      invariant forall t :: 0 <= t < token ==> IsOracle(f, x, t, oracles[t])
    {
      var oracle := MakeOracle(f, x, token);
      oracles := oracles + [oracle];
    }
    forall token | 0 <= token < x.rows
      ensures IsOracle(f, x, token, oracles[token % 8])
    {
      OracleIsShared(f, x, token, oracles[token % 8]);
    }
  }

  lemma OracleIsShared(f: Functions, x: Fixture, token: nat, oracle: Oracle)
    requires f.Lawful() && x.Valid() && token < x.rows
    ensures IsOracle(f, x, token, oracle)
      <==> IsOracle(f, x, token % 8, oracle)
  {
    hide Gated, Fixture.Valid, QuantizeRow, Correlate, IsNumber;
    GatedPeriod(f, x, token);
  }

  // The output the device must come near, for any token and output row: the
  // phase's correlation, scaled, is the dot product of that token's own
  // dequantized row with that row of the dequantized weight plane.
  lemma SharedOracleProjects(
      f: Functions, x: Fixture, token: nat, oracle: Oracle, plane: seq<nat>, outputs: nat, row: nat)
    requires f.Lawful() && x.Valid() && token < x.rows && IsOracle(f, x, token % 8, oracle)
    requires row < outputs && |plane| == outputs * x.shape.Columns()
    requires forall i :: 0 <= i < |plane| ==> plane[i] == WeightAt(x.shape.Columns(), i)
    ensures oracle.gated == Gated(f, x, token) && |oracle.codes| == x.shape.Columns()
    ensures row * x.shape.Columns() + x.shape.Columns() <= |plane| && |oracle.correlations| == 4
    ensures forall i :: 0 <= i < |oracle.codes| ==> IsNumber(oracle.codes[i])
    ensures Projects(oracle.codes, oracle.scale, oracle.correlations, Block(plane, x.shape.Columns(), row), row)
  {
    hide *;
    OracleIsShared(f, x, token, oracle);
    OracleCodes(f, x, token, oracle);
    PositiveColumns(x);
    EveryRowProjects(oracle.codes, oracle.scale, oracle.correlations, plane, outputs, row);
  }

  lemma PositiveColumns(x: Fixture)
    requires x.Valid()
    ensures x.shape.Columns() > 0
  {
  }

  lemma OracleCodes(f: Functions, x: Fixture, token: nat, oracle: Oracle)
    requires f.Lawful() && x.Valid() && token < x.rows && IsOracle(f, x, token, oracle)
    ensures oracle.gated == Gated(f, x, token) && |oracle.codes| == x.shape.Columns()
    ensures (forall i :: 0 <= i < |oracle.codes| ==> IsNumber(oracle.codes[i]))
    ensures Correlate(oracle.codes, oracle.correlations) && |oracle.correlations| == 4
  {
    hide Gated, QuantizeRow, Fixture.Valid, IsNumber;
    CodesAreNumbers(oracle.gated, TokenOracle(oracle.codes, oracle.scale, RepresentedSum(oracle.codes)));
  }
}
