// The down-projection fixture: every token's row is one pattern times the
// token's factor, so a single quantized row determines them all.
module DownFixture {
  import opened Blocks
  import opened E4m3
  import opened Quantize

  const INPUT_PATTERN: seq<real> := [
    0.875, -0.875, 0.5, -0.5, 0.25, -0.25, 0.125, -0.125,
    0.0625, -0.0625, 0.03125, -0.03125, 0.0, 0.5, -0.25, 0.125
  ]
  const TOKEN_FACTORS: seq<real> := [1.0, 0.5, 0.25, 0.125, -1.0, -0.5, -0.25, -0.125]

  // A float product keeps the sign of a zero.
  function Times(x: real, y: real): Float {
    Finite((x < 0.0) != (y < 0.0), Size(x) * Size(y))
  }

  function InputAt(width: nat, index: nat): Float
    requires width > 0
  {
    Times(INPUT_PATTERN[index % 16], TOKEN_FACTORS[index / width % 8])
  }

  function MakeInput(width: nat, rows: nat): (input: seq<Float>)
    requires width > 0
    ensures |input| == rows * width && forall i :: 0 <= i < |input| ==> input[i] == InputAt(width, i)
  {
    seq(rows * width, i requires 0 <= i < rows * width => InputAt(width, i))
  }

  // A cell is the product of its pattern value and its token's factor.
  lemma InputCell(width: nat, rows: nat, token: nat, column: nat, index: nat, value: real, factor: real)
    requires width > 0 && token < rows && column < width && index == token * width + column
    requires value == INPUT_PATTERN[index % 16] && factor == TOKEN_FACTORS[token % 8]
    ensures index < rows * width
    ensures var cell := MakeInput(width, rows)[index];
      cell.Finite? && Signed(cell) == value * factor && (cell.negative <==> (value < 0.0) != (factor < 0.0))
  {
    InputPlace(width, token, column, index);
    hide *;
    Gap(width, token, rows);
    SignedProduct(value, factor);
  }

  lemma InputPlace(width: nat, token: nat, column: nat, index: nat)
    requires column < width && index == token * width + column
    ensures InputAt(width, index) == Times(INPUT_PATTERN[index % 16], TOKEN_FACTORS[token % 8])
  {
    hide Times;
    DivMod(width, token, column);
  }

  lemma SignedProduct(x: real, y: real)
    ensures Times(x, y).Finite? && Signed(Times(x, y)) == x * y
    ensures Times(x, y).negative <==> (x < 0.0) != (y < 0.0)
  {
    assert -x * -y == x * y && -x * y == -(x * y) && x * -y == -(x * y);
  }

  // One period of the pattern after another, times one factor.
  function PatternRow(width: nat, factor: real): (row: seq<Float>)
    ensures |row| == width
    ensures forall column :: 0 <= column < width ==> row[column] == Times(INPUT_PATTERN[column % 16], factor)
  {
    seq(width, column requires 0 <= column < width => Times(INPUT_PATTERN[column % 16], factor))
  }

  lemma PatternPlace(width: nat, token: nat, column: nat)
    requires width % 16 == 0
    ensures (token * width + column) % 16 == column % 16
  {
    var periods := width / 16;
    assert token * width + column == (token * periods + column / 16) * 16 + column % 16;
    DivMod(16, token * periods + column / 16, column % 16);
  }

  // When the width is a multiple of the pattern's sixteen, every token's row is
  // the pattern from its beginning.
  lemma RowOfToken(width: nat, rows: nat, token: nat)
    requires width > 0 && width % 16 == 0 && token < rows
    ensures token * width + width <= rows * width
    ensures Block(MakeInput(width, rows), width, token) == PatternRow(width, TOKEN_FACTORS[token % 8])
  {
    hide Times;
    Gap(width, token, rows);
    forall column | 0 <= column < width
      ensures Block(MakeInput(width, rows), width, token)[column]
        == PatternRow(width, TOKEN_FACTORS[token % 8])[column]
    {
      PatternPlace(width, token, column);
      DivMod(width, token, column);
    }
  }

  // The codes and scale of every token follow from those of the factor 1: a
  // smaller factor only shrinks the scale, a negative one only flips signs.
  lemma TokensShareCodes(width: nat, token: nat, unit: TokenOracle, scale: real)
    requires width > 0 && QuantizeRow(PatternRow(width, 1.0)) == Ok(unit)
    requires scale == Size(TOKEN_FACTORS[token % 8]) * unit.scale
    ensures QuantizeRow(PatternRow(width, TOKEN_FACTORS[token % 8])) == Ok(
      if TOKEN_FACTORS[token % 8] > 0.0 then unit.(scale := scale)
      else TokenOracle(FlipSigns(unit.codes), scale, -unit.representedSum))
  {
    hide QuantizeRow, PatternRow, AllZero, FlipSigns;
    var factor := TOKEN_FACTORS[token % 8];
    var size := Size(factor);
    PatternIsNotZero(width);
    StretchedPattern(width, size);
    ScaleIsEquivariant(PatternRow(width, 1.0), size, unit, scale);
    if factor < 0.0 {
      NegatedPattern(width, size);
      NegationFlipsSigns(PatternRow(width, size), unit.(scale := scale));
    }
  }

  lemma PatternIsNotZero(width: nat)
    requires width > 0
    ensures !AllZero(PatternRow(width, 1.0))
  {
    assert PatternRow(width, 1.0)[0] == Finite(false, 0.875);
  }

  lemma StretchedPattern(width: nat, size: real)
    requires size > 0.0
    ensures StretchRow(PatternRow(width, 1.0), size) == PatternRow(width, size)
  {
    hide Times, Stretch;
    forall column | 0 <= column < width
      ensures StretchRow(PatternRow(width, 1.0), size)[column] == PatternRow(width, size)[column]
    {
      StretchedProduct(INPUT_PATTERN[column % 16], size);
    }
  }

  lemma StretchedProduct(x: real, size: real)
    requires size > 0.0
    ensures Stretch(Times(x, 1.0), size) == Times(x, size)
  {
    Product(size, Size(x));
    assert size * Size(x) == Size(x) * size;
  }

  lemma NegatedPattern(width: nat, size: real)
    requires size > 0.0
    ensures NegateRow(PatternRow(width, size)) == PatternRow(width, -size)
  {
  }
}
