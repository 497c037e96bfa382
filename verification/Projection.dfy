// The projection oracles' fast forms: four running correlations stand in for
// the dot product of every output row with its cyclic row of weights.
module Projection {
  import opened Blocks
  import opened E4m3
  import opened Optional
  import opened Vectors
  import Quantize

  const WEIGHT_CODES: seq<nat> := [0x38, 0xb0, 0x30, 0x28]
  const WEIGHT_VALUES: seq<real> := [1.0, -0.5, 0.5, 0.25]
  const SCALE_VALUES: seq<real> := [1.0, 0.5, 0.25, 2.0]

  // The weight words are the words of the weight values.
  lemma WeightsAgree(phase: nat)
    requires phase < 4
    ensures WEIGHT_CODES[phase] < 256 && WEIGHT_CODES[phase] % 128 <= TOP
    ensures Decode(WEIGHT_CODES[phase]) == Some(Word(WEIGHT_CODES[phase]))
    ensures Signed(Word(WEIGHT_CODES[phase])) == WEIGHT_VALUES[phase]
  {
    hide Decode;
    DecodeMeaning(WEIGHT_CODES[phase]);
    assert TwoTo(3) == 8;
    assert TwoTo(4) == 16;
    assert TwoTo(5) == 32;
    assert TwoTo(6) == 64;
  }

  // ---- The weight plane -------------------------------------------------------------------

  function WeightAt(columns: nat, index: nat): nat
    requires columns > 0
  {
    WEIGHT_CODES[(index / columns + index % columns) % 4]
  }

  // Row r of the plane: the four words over and over, starting at r.
  function CyclicCodes(row: nat, columns: nat): (codes: seq<nat>)
    ensures |codes| == columns
  {
    seq(columns, column requires 0 <= column < columns => WEIGHT_CODES[(row + column) % 4])
  }

  method MakeWeights(rows: nat, columns: nat) returns (codes: array<nat>)
    requires columns > 0
    ensures fresh(codes) && codes.Length == rows * columns
    ensures forall i :: 0 <= i < codes.Length ==> codes[i] == WeightAt(columns, i)
  {
    codes := new nat[rows * columns];
    for row := 0 to rows
      invariant forall i :: 0 <= i < row * columns <= codes.Length ==> codes[i] == WeightAt(columns, i)
    {
      Gap(columns, row, rows);
      NextMultiple(columns, row);
      for column := 0 to columns
        invariant forall i :: 0 <= i < row * columns + column <= codes.Length ==> codes[i] == WeightAt(columns, i)
      {
        DivMod(columns, row, column);
        codes[row * columns + column] := WEIGHT_CODES[(row + column) % 4];
      }
    }
  }

  lemma RowIsCyclic(plane: seq<nat>, rows: nat, columns: nat, row: nat)
    requires columns > 0 && row < rows && |plane| == rows * columns
    requires forall i :: 0 <= i < |plane| ==> plane[i] == WeightAt(columns, i)
    ensures row * columns + columns <= |plane| && Block(plane, columns, row) == CyclicCodes(row, columns)
  {
    Gap(columns, row, rows);
    forall column | 0 <= column < columns
      ensures Block(plane, columns, row)[column] == CyclicCodes(row, columns)[column]
    {
      DivMod(columns, row, column);
    }
  }

  // ---- Correlations --------------------------------------------------------------------------

  predicate IsNumber(code: nat) {
    code < 256 && Decode(code).Some?
  }

  function Activation(code: nat): real
    requires IsNumber(code)
  {
    Signed(Decode(code).value)
  }

  function Values(codes: seq<nat>): (values: seq<real>)
    requires forall i :: 0 <= i < |codes| ==> IsNumber(codes[i])
    ensures |values| == |codes|
    ensures forall i :: 0 <= i < |values| ==> values[i] == Activation(codes[i])
  {
    seq(|codes|, i requires 0 <= i < |codes| => Activation(codes[i]))
  }

  function CyclicValues(row: nat, columns: nat): (values: seq<real>)
    ensures |values| == columns
    ensures forall column :: 0 <= column < columns ==> values[column] == WEIGHT_VALUES[(row + column) % 4]
  {
    seq(columns, column requires 0 <= column < columns => WEIGHT_VALUES[(row + column) % 4])
  }

  // One sum for each phase the weights can start at.
  ghost predicate Correlate(codes: seq<nat>, correlations: seq<real>)
    requires forall i :: 0 <= i < |codes| ==> IsNumber(codes[i])
  {
    |correlations| == 4 && forall phase :: 0 <= phase < 4 ==> correlations[phase] == Partial(codes, phase)
  }

  // Four sums in one pass; a word that is no number is an error.
  method WeightCorrelations(codes: seq<nat>) returns (correlations: Option<seq<real>>)
    requires forall i :: 0 <= i < |codes| ==> codes[i] < 256
    ensures correlations.Some? <==> forall i :: 0 <= i < |codes| ==> IsNumber(codes[i])
    ensures correlations.Some? ==> Correlate(codes, correlations.value)
  {
    hide Decode, Partial, Activation;
    var sums := [0.0, 0.0, 0.0, 0.0];
    NoColumns();
    for column := 0 to |codes|
      invariant forall i :: 0 <= i < column ==> IsNumber(codes[i])
      invariant Correlate(codes[..column], sums)
    {
      if Decode(codes[column]).None? {
        return None;
      }
      var activation := Activation(codes[column]);
      ghost var before := sums;
      for phase := 0 to 4
        invariant |sums| == 4
        invariant forall p :: phase <= p < 4 ==> sums[p] == before[p]
        invariant forall p :: 0 <= p < phase ==> sums[p] == Partial(codes[..column + 1], p)
      {
        OneColumn(codes, column, phase);
        sums := sums[phase := sums[phase] + activation * WEIGHT_VALUES[(phase + column) % 4]];
      }
    }
    assert codes[..|codes|] == codes;
    correlations := Some(sums);
  }

  function Partial(codes: seq<nat>, phase: nat): real
    requires forall i :: 0 <= i < |codes| ==> IsNumber(codes[i])
  {
    Dot(Values(codes), CyclicValues(phase, |codes|))
  }

  lemma NoColumns()
    ensures forall phase: nat :: Partial([], phase) == 0.0
  {
  }

  lemma OneColumn(codes: seq<nat>, column: nat, phase: nat)
    requires column < |codes| && forall i :: 0 <= i <= column ==> IsNumber(codes[i])
    ensures Partial(codes[..column + 1], phase) == Partial(codes[..column], phase)
      + Activation(codes[column]) * WEIGHT_VALUES[(phase + column) % 4]
  {
    hide Activation, IsNumber;
    var values, weights := Values(codes[..column + 1]), CyclicValues(phase, column + 1);
    assert values[..column] == Values(codes[..column]);
    assert weights[..column] == CyclicValues(phase, column);
  }

  // ---- The full projection ------------------------------------------------------------------

  lemma CyclicPeriod(row: nat, columns: nat)
    ensures CyclicCodes(row, columns) == CyclicCodes(row % 4, columns)
    ensures CyclicValues(row, columns) == CyclicValues(row % 4, columns)
  {
    forall column | 0 <= column < columns
      ensures CyclicCodes(row, columns)[column] == CyclicCodes(row % 4, columns)[column]
      ensures CyclicValues(row, columns)[column] == CyclicValues(row % 4, columns)[column]
    {
      assert (row + column) % 4 == (row % 4 + column) % 4;
    }
  }

  lemma CyclicValuesDecode(row: nat, columns: nat)
    ensures forall column :: 0 <= column < columns ==> IsNumber(CyclicCodes(row, columns)[column])
    ensures Values(CyclicCodes(row, columns)) == CyclicValues(row, columns)
  {
    hide Decode, Word;
    forall column | 0 <= column < columns
      ensures IsNumber(CyclicCodes(row, columns)[column])
      ensures Activation(CyclicCodes(row, columns)[column]) == CyclicValues(row, columns)[column]
    {
      WeightsAgree((row + column) % 4);
    }
  }

  // For every output row of any plane MakeWeights builds, the correlation of the
  // row's phase is its whole dot product with the activations.
  lemma CorrelationIsFullDot(codes: seq<nat>, correlations: seq<real>, plane: seq<nat>, rows: nat, row: nat)
    requires |codes| > 0 && (forall i :: 0 <= i < |codes| ==> IsNumber(codes[i])) && Correlate(codes, correlations)
    requires row < rows && |plane| == rows * |codes|
    requires forall i :: 0 <= i < |plane| ==> plane[i] == WeightAt(|codes|, i)
    ensures row * |codes| + |codes| <= |plane|
    ensures forall i :: 0 <= i < |codes| ==> IsNumber(Block(plane, |codes|, row)[i])
    ensures correlations[row % 4] == Dot(Values(codes), Values(Block(plane, |codes|, row)))
  {
    hide Dot, Activation, IsNumber;
    RowIsCyclic(plane, rows, |codes|, row);
    CyclicPeriod(row, |codes|);
    CyclicValuesDecode(row, |codes|);
  }

  function Scale(x: real, a: seq<real>): (scaled: seq<real>)
    ensures |scaled| == |a| && forall i :: 0 <= i < |a| ==> scaled[i] == x * a[i]
  {
    seq(|a|, i requires 0 <= i < |a| => x * a[i])
  }

  lemma DotScale(x: real, a: seq<real>, b: seq<real>, d: real)
    requires |a| == |b| && d == Dot(a, b)
    ensures Dot(Scale(x, a), b) == x * d
  {
    hide Dot;
    DotCombines(Scale(x, a), x, a, 0.0, a, b);
  }

  // The expected output: scaling the correlation is scaling every activation
  // and every weight.
  lemma ExpectedIsProjection(values: seq<real>, weights: seq<real>, scale: real, rowScale: real, dot: real)
    requires |values| == |weights| && dot == Dot(values, weights)
    ensures dot * scale * rowScale == Dot(Scale(scale, values), Scale(rowScale, weights))
  {
    hide Dot, Scale;
    var scaled, part := Scale(scale, values), scale * dot;
    DotScale(scale, values, weights, dot);
    DotSymmetric(scaled, weights);
    DotScale(rowScale, weights, scaled, part);
    DotSymmetric(Scale(rowScale, weights), scaled);
    assert dot * scale * rowScale == rowScale * part;
  }

  // ---- Constant rows ------------------------------------------------------------------------

  // A weight plane whose row r repeats one word.
  function ConstantCodes(row: nat, columns: nat): (codes: seq<nat>)
    ensures |codes| == columns && forall column :: 0 <= column < columns ==> codes[column] == WEIGHT_CODES[row % 4]
  {
    seq(columns, _ => WEIGHT_CODES[row % 4])
  }

  lemma {:induction false} SumTimesWeight(values: seq<real>, weights: seq<real>, codes: seq<nat>, weight: real)
    requires |values| == |weights| == |codes| && forall i :: 0 <= i < |codes| ==> weights[i] == weight
    requires forall i :: 0 <= i < |codes| ==> Word(codes[i]).Finite? && values[i] == Signed(Word(codes[i]))
    ensures Dot(values, weights) == Quantize.RepresentedSum(codes) * weight
  {
    hide Value, Signed;
    if |codes| == 0 {
    } else {
      var n := |codes| - 1;
      SumTimesWeight(values[..n], weights[..n], codes[..n], weight);
      var last := SameProduct(values[n], weights[n], Signed(Word(codes[n])), weight);
    }
  }

  lemma ConstantValues(row: nat, columns: nat)
    ensures forall i :: 0 <= i < columns ==> IsNumber(ConstantCodes(row, columns)[i])
    ensures forall i :: 0 <= i < columns ==> Values(ConstantCodes(row, columns))[i] == WEIGHT_VALUES[row % 4]
  {
    hide Decode, Word;
    WeightsAgree(row % 4);
  }

  lemma ValuesAreWords(codes: seq<nat>)
    requires forall i :: 0 <= i < |codes| ==> IsNumber(codes[i])
    ensures forall i :: 0 <= i < |codes| ==> Word(codes[i]).Finite? && Values(codes)[i] == Signed(Word(codes[i]))
  {
    hide Decode, Value, Signed;
    forall i | 0 <= i < |codes|
      ensures Values(codes)[i] == Signed(Word(codes[i]))
    {
      DecodeMeaning(codes[i]);
    }
  }

  lemma SumProjects(
      codes: seq<nat>, values: seq<real>, weights: seq<real>, weight: real, scale: real, rowScale: real)
    requires |values| == |weights| == |codes| && forall i :: 0 <= i < |codes| ==> weights[i] == weight
    requires forall i :: 0 <= i < |codes| ==> Word(codes[i]).Finite? && values[i] == Signed(Word(codes[i]))
    ensures Quantize.RepresentedSum(codes) * weight * scale * rowScale
      == Dot(Scale(scale, values), Scale(rowScale, weights))
  {
    hide *;
    SumTimesWeight(values, weights, codes, weight);
    ExpectedIsProjection(values, weights, scale, rowScale, Quantize.RepresentedSum(codes) * weight);
  }

  // For a constant weight row the sum of what the words represent is all that is
  // needed: scaled, it is the dot product of the dequantized rows.
  lemma ConstantRowProjects(codes: seq<nat>, row: nat, weight: real, scale: real, rowScale: real)
    requires forall i :: 0 <= i < |codes| ==> IsNumber(codes[i])
    requires weight == WEIGHT_VALUES[row % 4] && rowScale == SCALE_VALUES[row % 4]
    ensures forall i :: 0 <= i < |codes| ==> IsNumber(ConstantCodes(row, |codes|)[i])
    ensures Quantize.RepresentedSum(codes) * weight * scale * rowScale
      == Dot(Scale(scale, Values(codes)), Scale(rowScale, Values(ConstantCodes(row, |codes|))))
  {
    ConstantValues(row, |codes|);
    hide *;
    ValuesAreWords(codes);
    SumProjects(codes, Values(codes), Values(ConstantCodes(row, |codes|)), weight, scale, rowScale);
  }

  // What output row `row` of the plane is expected to hold.
  ghost predicate Projects(codes: seq<nat>, scale: real, correlations: seq<real>, weights: seq<nat>, row: nat)
    requires |correlations| == 4 && |weights| == |codes|
    requires forall i :: 0 <= i < |codes| ==> IsNumber(codes[i])
  {
    && (forall i :: 0 <= i < |weights| ==> IsNumber(weights[i]))
    && correlations[row % 4] * scale * SCALE_VALUES[row % 4]
      == Dot(Scale(scale, Values(codes)), Scale(SCALE_VALUES[row % 4], Values(weights)))
  }

  // The device output is compared with the dot product of the dequantized
  // activations and the dequantized weight row.
  lemma EveryRowProjects(
      codes: seq<nat>, scale: real, correlations: seq<real>, plane: seq<nat>, rows: nat, row: nat)
    requires |codes| > 0 && (forall i :: 0 <= i < |codes| ==> IsNumber(codes[i])) && Correlate(codes, correlations)
    requires row < rows && |plane| == rows * |codes|
    requires forall i :: 0 <= i < |plane| ==> plane[i] == WeightAt(|codes|, i)
    ensures row * |codes| + |codes| <= |plane| && |correlations| == 4
    ensures Projects(codes, scale, correlations, Block(plane, |codes|, row), row)
  {
    hide Dot, IsNumber, Activation, WeightAt, Block, Partial, Scale;
    CorrelationIsFullDot(codes, correlations, plane, rows, row);
    ExpectedIsProjection(
      Values(codes), Values(Block(plane, |codes|, row)), scale, SCALE_VALUES[row % 4], correlations[row % 4]);
  }
}
