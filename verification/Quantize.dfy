// Dynamic quantization of an activation row: one scale brings its largest
// magnitude to 448, and every value is rounded to an E4M3 word.
module Quantize {
  import opened E4m3
  import opened Optional

  datatype Result<+T> = Ok(value: T) | NotFinite

  datatype TokenOracle = TokenOracle(codes: seq<nat>, scale: real, representedSum: real)

  // ---- The float steps --------------------------------------------------------------

  // The larger of a running maximum and a value's magnitude; like the float
  // maximum it passes over what is not a number.
  function Larger(current: Float, value: Float): Float
    requires !current.NotANumber?
  {
    if value.NotANumber? then current
    else if value.Infinite? || current.Infinite? then Infinite(false)
    else Finite(false, if value.magnitude > current.magnitude then value.magnitude else current.magnitude)
  }

  function Maximum(row: seq<Float>): (maximum: Float)
    ensures !maximum.NotANumber?
  {
    if |row| == 0 then Finite(false, 0.0) else Larger(Maximum(row[..|row| - 1]), row[|row| - 1])
  }

  function ScaleOf(maximum: Float): Float {
    if !maximum.Finite? then maximum
    else if maximum.magnitude == 0.0 then Finite(false, 1.0)
    else Finite(false, maximum.magnitude / FP8_MAX)
  }

  function Divide(value: Float, scale: Float): Float
    requires scale.Finite? ==> scale.magnitude > 0.0
  {
    if value.NotANumber? || scale.NotANumber? then NotANumber
    else if value.Infinite? then (if scale.Infinite? then NotANumber else value)
    else if scale.Infinite? then Finite(value.negative, 0.0)
    else
      Positive(value.magnitude, scale.magnitude);
      Finite(value.negative, value.magnitude / scale.magnitude)
  }

  lemma Positive(x: real, y: real)
    requires x >= 0.0 && y > 0.0
    ensures x / y >= 0.0
  {
  }

  // ---- Quantizing a row ----------------------------------------------------------------

  function Codes(row: seq<Float>, scale: Float): Result<seq<nat>>
    requires scale.Finite? ==> scale.magnitude > 0.0
  {
    if |row| == 0 then Ok([])
    else
      var before := Codes(row[..|row| - 1], scale);
      var code := Encode(Divide(row[|row| - 1], scale));
      if before.NotFinite? || code.None? then NotFinite else Ok(before.value + [code.value])
  }

  function RepresentedSum(codes: seq<nat>): real {
    if |codes| == 0 then 0.0
    else RepresentedSum(codes[..|codes| - 1]) + Signed(Word(codes[|codes| - 1]))
  }

  function QuantizeRow(row: seq<Float>): Result<TokenOracle> {
    var scale := ScaleOf(Maximum(row));
    var codes := Codes(row, scale);
    if codes.NotFinite? || !scale.Finite? then NotFinite
    else Ok(TokenOracle(codes.value, scale.magnitude, RepresentedSum(codes.value)))
  }

  ghost predicate AllFinite(row: seq<Float>) {
    forall i :: 0 <= i < |row| ==> row[i].Finite?
  }

  // The running maximum of a finite row bounds it and is reached.
  ghost predicate IsPeak(row: seq<Float>, peak: real)
    requires AllFinite(row)
  {
    && peak >= 0.0
    && (forall i :: 0 <= i < |row| ==> row[i].magnitude <= peak)
    && (peak > 0.0 ==> exists i :: 0 <= i < |row| && row[i].magnitude == peak)
  }

  lemma {:induction false} MaximumIsPeak(row: seq<Float>)
    requires AllFinite(row)
    ensures Maximum(row).Finite? && !Maximum(row).negative && IsPeak(row, Maximum(row).magnitude)
  {
    if |row| == 0 {
    } else {
      var n := |row| - 1;
      MaximumIsPeak(row[..n]);
      var before, peak := Maximum(row[..n]).magnitude, Maximum(row).magnitude;
      if peak > 0.0 {
        if peak == row[n].magnitude {
        } else {
          var i :| 0 <= i < n && row[..n][i].magnitude == before;
          assert row[i].magnitude == peak;
        }
      }
      forall i | 0 <= i < |row|
        ensures row[i].magnitude <= peak
      {
        assert i < n ==> row[..n][i] == row[i];
      }
    }
  }

  // A peak is the row's only one.
  lemma PeakIsUnique(row: seq<Float>, p: real, q: real)
    requires AllFinite(row) && IsPeak(row, p) && IsPeak(row, q)
    ensures p == q
  {
  }

  // One value that is not finite makes the whole row fail, whatever the scale.
  lemma {:induction false} CodesSucceed(row: seq<Float>, scale: Float)
    requires scale.Finite? ==> scale.magnitude > 0.0
    ensures Codes(row, scale).Ok? ==> AllFinite(row) && |Codes(row, scale).value| == |row|
    ensures AllFinite(row) && scale.Finite? ==> Codes(row, scale).Ok?
    ensures Codes(row, scale).Ok? ==> forall i :: 0 <= i < |row| ==>
      Encode(Divide(row[i], scale)) == Some(Codes(row, scale).value[i])
  {
    hide Encode;
    if |row| == 0 {
    } else {
      var n := |row| - 1;
      CodesSucceed(row[..n], scale);
      EncodeAccepts(Divide(row[n], scale));
      assert row == row[..n] + [row[n]];
    }
  }

  lemma EncodeAccepts(value: Float)
    ensures Encode(value).Some? <==> value.Finite?
  {
  }

  // ---- The scale --------------------------------------------------------------------------

  // The scale a peak calls for.
  ghost predicate Scales(peak: real, scale: real) {
    if peak == 0.0 then scale == 1.0 else scale > 0.0 && peak / FP8_MAX == scale
  }

  // The codes are the row's values over the scale, rounded.
  ghost predicate Rounds(row: seq<Float>, scale: real, codes: seq<nat>) {
    && |codes| == |row| && scale > 0.0
    && forall i :: 0 <= i < |row| ==> Encode(Divide(row[i], Finite(false, scale))) == Some(codes[i])
  }

  // A row quantizes exactly when all its values are finite, and then its codes
  // round the values over the scale its peak calls for.
  lemma QuantizeMeaning(row: seq<Float>)
    ensures QuantizeRow(row).Ok? <==> AllFinite(row)
    ensures QuantizeRow(row).Ok? ==>
      var oracle := QuantizeRow(row).value;
      && IsPeak(row, Maximum(row).magnitude) && Scales(Maximum(row).magnitude, oracle.scale)
      && oracle.representedSum == RepresentedSum(oracle.codes) && Rounds(row, oracle.scale, oracle.codes)
  {
    hide Codes, Encode, IsPeak, Divide, Maximum;
    if AllFinite(row) {
      MaximumIsPeak(row);
      var peak := Maximum(row).magnitude;
      PositiveScale(peak);
    }
    CodesSucceed(row, ScaleOf(Maximum(row)));
  }

  lemma PositiveScale(peak: real)
    requires peak >= 0.0
    ensures peak > 0.0 ==> peak / FP8_MAX > 0.0
  {
  }

  // The same codes and scale from any row with the same ratios.
  lemma CodesDetermined(row: seq<Float>, peak: real, scale: real, codes: seq<nat>)
    requires AllFinite(row) && IsPeak(row, peak) && Scales(peak, scale) && Rounds(row, scale, codes)
    ensures QuantizeRow(row) == Ok(TokenOracle(codes, scale, RepresentedSum(codes)))
  {
    QuantizeMeaning(row);
    PeakIsUnique(row, peak, Maximum(row).magnitude);
    hide IsPeak, Divide, Encode, Maximum, QuantizeRow;
    var oracle := QuantizeRow(row).value;
    assert oracle.scale == scale;
    assert oracle.codes == codes;
  }

  lemma RatioBound(x: real, peak: real, scale: real) returns (ratio: real)
    requires 0.0 <= x <= peak && scale > 0.0 && Scales(peak, scale)
    ensures ratio == x / scale && 0.0 <= ratio <= FP8_MAX
    ensures x == peak && peak > 0.0 ==> ratio == FP8_MAX
  {
    ratio := x / scale;
    assert ratio * scale == x;
    if ratio > FP8_MAX {
      ScaledUp(ratio, scale, FP8_MAX);
    }
  }

  lemma ScaledUp(a: real, s: real, b: real)
    requires a > b && s > 0.0
    ensures a * s > b * s
  {
  }

  ghost predicate AllZero(row: seq<Float>) {
    forall i :: 0 <= i < |row| ==> row[i].Finite? && row[i].magnitude == 0.0
  }

  // Some value is exactly 448 over the scale and has the largest word of its sign.
  ghost predicate ReachesTop(row: seq<Float>, scale: Float, codes: seq<nat>)
    requires AllFinite(row) && |codes| == |row| && scale.Finite? && scale.magnitude > 0.0
  {
    exists i :: 0 <= i < |row| &&
      Divide(row[i], scale).magnitude == FP8_MAX && codes[i] == (if row[i].negative then 0xfe else 0x7e)
  }

  // The scale is positive and no value exceeds 448 over it; unless the row is
  // all zeros some value reaches 448 exactly and gets the largest word of its
  // sign, and a row of zeros keeps the scale 1.
  lemma ScaleIsTight(row: seq<Float>)
    requires QuantizeRow(row).Ok?
    ensures QuantizeRow(row).value.scale > 0.0
    ensures |QuantizeRow(row).value.codes| == |row| && AllFinite(row)
    ensures var scale := Finite(false, QuantizeRow(row).value.scale);
      && (forall i :: 0 <= i < |row| ==> Divide(row[i], scale).magnitude <= FP8_MAX)
      && if AllZero(row) then scale.magnitude == 1.0 else ReachesTop(row, scale, QuantizeRow(row).value.codes)
  {
    QuantizeMeaning(row);
    MaximumIsPeak(row);
    hide QuantizeRow, Encode, Maximum, Divide, ReachesTop;
    var oracle, peak := QuantizeRow(row).value, Maximum(row).magnitude;
    var scale := Finite(false, oracle.scale);
    forall i | 0 <= i < |row|
      ensures Divide(row[i], scale).magnitude <= FP8_MAX
    {
      ShareOfPeak(row[i], peak, oracle.scale);
    }
    if peak > 0.0 {
      var i :| 0 <= i < |row| && row[i].magnitude == peak;
      ShareOfPeak(row[i], peak, oracle.scale);
      Saturates(Divide(row[i], scale));
      TopIsReached(row, scale, oracle.codes, i);
    }
  }

  lemma ShareOfPeak(value: Float, peak: real, scale: real)
    requires value.Finite? && value.magnitude <= peak && scale > 0.0 && Scales(peak, scale)
    ensures var share := Divide(value, Finite(false, scale));
      && share.Finite? && share.negative == value.negative && share.magnitude <= FP8_MAX
      && (value.magnitude == peak && peak > 0.0 ==> share.magnitude == FP8_MAX)
  {
    hide Scales;
    MagnitudeRatio(value, scale);
    var ratio := RatioBound(value.magnitude, peak, scale);
  }

  lemma TopIsReached(row: seq<Float>, scale: Float, codes: seq<nat>, i: nat)
    requires AllFinite(row) && |codes| == |row| && scale.Finite? && scale.magnitude > 0.0 && i < |row|
    requires Divide(row[i], scale).magnitude == FP8_MAX && codes[i] == if row[i].negative then 0xfe else 0x7e
    ensures ReachesTop(row, scale, codes)
  {
  }

  // ---- Scaling a row ------------------------------------------------------------------------

  function Stretch(value: Float, c: real): Float
    requires c > 0.0
  {
    if value.Finite? then
      Product(c, value.magnitude);
      Finite(value.negative, c * value.magnitude)
    else value
  }

  function StretchRow(row: seq<Float>, c: real): (stretched: seq<Float>)
    requires c > 0.0
    ensures |stretched| == |row| && forall i :: 0 <= i < |row| ==> stretched[i] == Stretch(row[i], c)
  {
    seq(|row|, i requires 0 <= i < |row| => Stretch(row[i], c))
  }

  lemma Product(c: real, x: real)
    requires c > 0.0 && x >= 0.0
    ensures c * x >= 0.0
  {
  }

  lemma RatioKept(c: real, x: real, s: real)
    requires c > 0.0 && s > 0.0
    ensures c * s > 0.0 && (c * x) / (c * s) == x / s
  {
    var q := x / s;
    assert q * s == x;
    var t := c * s;
    assert t > 0.0;
    assert q * t == c * x;
    QuotientIs(c * x, t, q);
  }

  lemma QuotientIs(x: real, t: real, q: real)
    requires t > 0.0 && q * t == x
    ensures x / t == q
  {
  }

  lemma StretchedBelow(c: real, value: Float, peak: real, newPeak: real)
    requires c > 0.0 && value.Finite? && value.magnitude <= peak && newPeak == c * peak
    ensures Stretch(value, c).Finite? && Stretch(value, c).magnitude <= newPeak
    ensures value.magnitude == peak ==> Stretch(value, c).magnitude == newPeak
  {
    Product(c, peak - value.magnitude);
  }

  lemma StretchedPeak(row: seq<Float>, peak: real, c: real, newPeak: real)
    requires c > 0.0 && AllFinite(row) && IsPeak(row, peak) && newPeak == c * peak
    ensures AllFinite(StretchRow(row, c)) && IsPeak(StretchRow(row, c), newPeak)
  {
    hide Stretch;
    var stretched := StretchRow(row, c);
    Product(c, peak);
    forall i | 0 <= i < |row|
      ensures stretched[i].Finite? && stretched[i].magnitude <= newPeak
      ensures row[i].magnitude == peak ==> stretched[i].magnitude == newPeak
    {
      StretchedBelow(c, row[i], peak, newPeak);
    }
    if newPeak > 0.0 {
      var i :| 0 <= i < |row| && row[i].magnitude == peak;
      assert stretched[i].magnitude == newPeak;
    }
  }

  lemma StretchedScale(peak: real, scale: real, c: real, newPeak: real, newScale: real)
    requires c > 0.0 && peak > 0.0 && Scales(peak, scale) && newPeak == c * peak && newScale == c * scale
    ensures newScale > 0.0 && Scales(newPeak, newScale)
  {
    assert peak == scale * FP8_MAX;
    assert newPeak == newScale * FP8_MAX;
  }

  lemma StretchedRatio(value: Float, c: real, scale: real, newScale: real)
    requires c > 0.0 && scale > 0.0 && newScale == c * scale && newScale > 0.0
    ensures Divide(Stretch(value, c), Finite(false, newScale)) == Divide(value, Finite(false, scale))
  {
    if value.Finite? {
      RatioKept(c, value.magnitude, scale);
    }
  }

  lemma StretchedRounds(row: seq<Float>, c: real, scale: real, newScale: real, codes: seq<nat>)
    requires c > 0.0 && newScale == c * scale && newScale > 0.0 && Rounds(row, scale, codes)
    ensures Rounds(StretchRow(row, c), newScale, codes)
  {
    hide Encode, Divide, Stretch;
    var stretched := StretchRow(row, c);
    forall i | 0 <= i < |row|
      ensures Encode(Divide(stretched[i], Finite(false, newScale))) == Some(codes[i])
    {
      StretchedRatio(row[i], c, scale, newScale);
    }
  }

  lemma PositivePeak(row: seq<Float>, oracle: TokenOracle) returns (peak: real)
    requires QuantizeRow(row) == Ok(oracle) && !AllZero(row)
    ensures AllFinite(row) && IsPeak(row, peak) && peak > 0.0 && Scales(peak, oracle.scale)
    ensures Rounds(row, oracle.scale, oracle.codes) && oracle.representedSum == RepresentedSum(oracle.codes)
    ensures oracle.scale > 0.0
  {
    hide QuantizeRow, Divide, Encode;
    QuantizeMeaning(row);
    MaximumIsPeak(row);
    peak := Maximum(row).magnitude;
  }

  // Multiplying a row that is not all zeros by a positive factor multiplies the
  // scale and changes no code.
  lemma ScaleIsEquivariant(row: seq<Float>, c: real, oracle: TokenOracle, newScale: real)
    requires c > 0.0 && QuantizeRow(row) == Ok(oracle) && !AllZero(row) && newScale == c * oracle.scale
    ensures QuantizeRow(StretchRow(row, c)) == Ok(oracle.(scale := newScale))
  {
    hide *;
    var peak := PositivePeak(row, oracle);
    var newPeak := c * peak;
    StretchedPeak(row, peak, c, newPeak);
    StretchedScale(peak, oracle.scale, c, newPeak, newScale);
    StretchedRounds(row, c, oracle.scale, newScale, oracle.codes);
    CodesDetermined(StretchRow(row, c), newPeak, newScale, oracle.codes);
  }

  // ---- Negating a row -----------------------------------------------------------------------

  function Negate(value: Float): Float {
    match value
    case NotANumber => value
    case Infinite(negative) => Infinite(!negative)
    case Finite(negative, magnitude) => Finite(!negative, magnitude)
  }

  function NegateRow(row: seq<Float>): (negated: seq<Float>)
    ensures |negated| == |row| && forall i :: 0 <= i < |row| ==> negated[i] == Negate(row[i])
  {
    seq(|row|, i requires 0 <= i < |row| => Negate(row[i]))
  }

  function FlipSign(code: nat): nat {
    if code < 128 then code + 128 else code - 128
  }

  function FlipSigns(codes: seq<nat>): (flipped: seq<nat>)
    ensures |flipped| == |codes| && forall i :: 0 <= i < |codes| ==> flipped[i] == FlipSign(codes[i])
  {
    seq(|codes|, i requires 0 <= i < |codes| => FlipSign(codes[i]))
  }

  lemma NegatedCode(value: Float, scale: real, code: nat)
    requires scale > 0.0 && Encode(Divide(value, Finite(false, scale))) == Some(code)
    ensures Encode(Divide(Negate(value), Finite(false, scale))) == Some(FlipSign(code))
  {
    hide Encode, Divide;
    var ratio := Divide(value, Finite(false, scale));
    NegatedRatio(value, scale);
    NegatedWord(ratio, code);
  }

  lemma NegatedRatio(value: Float, scale: real)
    requires scale > 0.0
    ensures Divide(Negate(value), Finite(false, scale)) == Negate(Divide(value, Finite(false, scale)))
  {
  }

  lemma NegatedWord(value: Float, code: nat)
    requires Encode(value) == Some(code)
    ensures Encode(Negate(value)) == Some(FlipSign(code))
  {
    hide Encode, Nearest, Clamp;
    EncodeMeaning(value, code);
    EncodeMeaning(Negate(value), FlipSign(code));
    assert FlipSign(code) % 128 == code % 128;
  }

  lemma {:induction false} FlippedSum(codes: seq<nat>)
    requires forall i :: 0 <= i < |codes| ==> codes[i] < 256
    ensures RepresentedSum(FlipSigns(codes)) == -RepresentedSum(codes)
  {
    hide Value;
    if |codes| == 0 {
    } else {
      var n := |codes| - 1;
      assert FlipSigns(codes)[..n] == FlipSigns(codes[..n]);
      FlippedSum(codes[..n]);
      assert FlipSign(codes[n]) % 128 == codes[n] % 128;
    }
  }

  lemma NegatedRounds(row: seq<Float>, scale: real, codes: seq<nat>)
    requires Rounds(row, scale, codes)
    ensures Rounds(NegateRow(row), scale, FlipSigns(codes))
    ensures forall i :: 0 <= i < |codes| ==> codes[i] < 256
  {
    hide Encode, Divide, FlipSign, Negate, Nearest;
    forall i | 0 <= i < |row|
      ensures Encode(Divide(NegateRow(row)[i], Finite(false, scale))) == Some(FlipSigns(codes)[i])
      ensures codes[i] < 256
    {
      NegatedCode(row[i], scale, codes[i]);
      EncodeMeaning(Divide(row[i], Finite(false, scale)), codes[i]);
    }
  }

  lemma NegatedPeak(row: seq<Float>, peak: real)
    requires AllFinite(row) && IsPeak(row, peak)
    ensures AllFinite(NegateRow(row)) && IsPeak(NegateRow(row), peak)
  {
    if peak > 0.0 {
      var i :| 0 <= i < |row| && row[i].magnitude == peak;
      assert NegateRow(row)[i].magnitude == peak;
    }
  }

  // Negating a row keeps its scale and flips the sign of every word.
  lemma NegationFlipsSigns(row: seq<Float>, oracle: TokenOracle)
    requires QuantizeRow(row) == Ok(oracle)
    ensures QuantizeRow(NegateRow(row))
      == Ok(TokenOracle(FlipSigns(oracle.codes), oracle.scale, -oracle.representedSum))
  {
    hide QuantizeRow, Maximum, IsPeak, Rounds, RepresentedSum, Scales;
    QuantizeMeaning(row);
    QuantizeIs(row, oracle);
    MaximumIsPeak(row);
    NegatedPeak(row, Maximum(row).magnitude);
    NegatedRounds(row, oracle.scale, oracle.codes);
    FlippedSum(oracle.codes);
    CodesDetermined(NegateRow(row), Maximum(row).magnitude, oracle.scale, FlipSigns(oracle.codes));
  }

  // ---- What the words represent -----------------------------------------------------------------

  function Represented(oracle: TokenOracle): (row: seq<Float>)
    requires oracle.scale > 0.0
    ensures |row| == |oracle.codes|
    ensures forall i :: 0 <= i < |row| ==> row[i] == Stretch(Word(oracle.codes[i]), oracle.scale)
  {
    seq(|oracle.codes|, i requires 0 <= i < |oracle.codes| => Stretch(Word(oracle.codes[i]), oracle.scale))
  }

  // scale times w is within a sixteenth of size, or half a step, of x.
  predicate CloseTo(x: real, size: real, scale: real, w: real) {
    Apart(x, scale * w) <= size / 16.0 || Apart(x, scale * w) <= scale / 1024.0
  }

  predicate Close(value: Float, scale: real, code: nat)
    requires value.Finite?
  {
    CloseTo(Signed(value), value.magnitude, scale, Signed(Word(code)))
  }

  lemma RoundedIsClose(value: Float, scale: real, code: nat)
    requires value.Finite? && scale > 0.0
    requires Divide(value, Finite(false, scale)).magnitude <= FP8_MAX
    requires Encode(Divide(value, Finite(false, scale))) == Some(code)
    ensures Close(value, scale, code)
  {
    hide Divide, Signed, Encode, Apart, CloseTo;
    var ratio := Divide(value, Finite(false, scale));
    MagnitudeRatio(value, scale);
    SignedRatio(value, scale);
    RoundingError(ratio);
    ErrorScales(Signed(value), value.magnitude, scale, Signed(ratio), ratio.magnitude, Signed(Word(code)));
  }

  lemma MagnitudeRatio(value: Float, scale: real)
    requires value.Finite? && scale > 0.0
    ensures Divide(value, Finite(false, scale)) == Finite(value.negative, value.magnitude / scale)
  {
  }

  lemma SignedRatio(value: Float, scale: real)
    requires value.Finite? && scale > 0.0
    ensures Signed(Divide(value, Finite(false, scale))) == Signed(value) / scale
  {
    var q := value.magnitude / scale;
    var x: real := value.magnitude;
    assert q * scale == x && (-q) * scale == -x;
    QuotientIs(-x, scale, -q);
  }

  // A value and what its word represents differ by at most a sixteenth of the
  // value, or by half the smallest step of the scale.
  lemma RepresentationError(row: seq<Float>, i: nat)
    requires QuantizeRow(row).Ok? && i < |row|
    ensures |QuantizeRow(row).value.codes| == |row| && row[i].Finite?
    ensures Close(row[i], QuantizeRow(row).value.scale, QuantizeRow(row).value.codes[i])
  {
    QuantizeMeaning(row);
    ScaleIsTight(row);
    hide QuantizeRow, Encode, Divide, Close;
    var oracle := QuantizeRow(row).value;
    RoundedIsClose(row[i], oracle.scale, oracle.codes[i]);
  }

  lemma ErrorScales(x: real, size: real, s: real, ratio: real, share: real, w: real)
    requires s > 0.0 && ratio == x / s && share == size / s
    requires Apart(ratio, w) <= share / 16.0 || Apart(ratio, w) <= 1.0 / 1024.0
    ensures CloseTo(x, size, s, w)
  {
    assert x == ratio * s && size == share * s;
    var d := if ratio < w then w - ratio else ratio - w;
    var bound := if d <= share / 16.0 then share / 16.0 else 1.0 / 1024.0;
    Product(s, bound - d);
    assert s * (bound - d) == s * bound - s * d;
    assert s * d == if ratio < w then s * w - x else x - s * w;
    Product(s, d);
  }

  lemma DivideStretched(word: Float, scale: real)
    requires word.Finite? && scale > 0.0
    ensures Divide(Stretch(word, scale), Finite(false, scale)) == word
  {
    QuotientIs(scale * word.magnitude, scale, word.magnitude);
  }

  lemma RoundedWord(value: Float, code: nat)
    requires Encode(value) == Some(code)
    ensures code < 256 && Word(code).magnitude <= FP8_MAX && Encode(Word(code)) == Some(code)
    ensures value.magnitude == 0.0 ==> Word(code).magnitude == 0.0
  {
    hide Value, Encode, Decode, Nearest;
    EncodeMeaning(value, code);
    NearestIsFinite(Clamp(value.magnitude), code % 128);
    DecodeMeaning(code);
    RoundTrip(code);
    if value.magnitude == 0.0 {
      EncodeZero(value.negative);
      TopIsMax();
    }
  }

  lemma NearestIsFinite(x: real, m: nat)
    requires Nearest(x, m)
    ensures m <= TOP && Value(m) <= FP8_MAX
  {
    hide Value;
    ValuesOrdered(m, TOP);
    TopIsMax();
  }

  lemma RepresentedRounds(oracle: TokenOracle, row: seq<Float>)
    requires oracle.scale > 0.0 && Rounds(row, oracle.scale, oracle.codes)
    ensures AllFinite(Represented(oracle)) && Rounds(Represented(oracle), oracle.scale, oracle.codes)
  {
    hide Encode, Word, Divide;
    var represented := Represented(oracle);
    forall i | 0 <= i < |row|
      ensures represented[i].Finite?
      ensures Encode(Divide(represented[i], Finite(false, oracle.scale))) == Some(oracle.codes[i])
    {
      RoundedWord(Divide(row[i], Finite(false, oracle.scale)), oracle.codes[i]);
      WordIsFinite(oracle.codes[i]);
      DivideStretched(Word(oracle.codes[i]), oracle.scale);
    }
  }

  lemma WordIsFinite(code: nat)
    ensures Word(code).Finite?
  {
  }

  lemma RepresentedPeak(oracle: TokenOracle, row: seq<Float>, top: nat, peak: real)
    requires oracle.scale > 0.0 && Rounds(row, oracle.scale, oracle.codes) && AllFinite(Represented(oracle))
    requires top < |row| && oracle.codes[top] in {0x7e, 0xfe} && peak == oracle.scale * FP8_MAX
    ensures IsPeak(Represented(oracle), peak) && Scales(peak, oracle.scale)
  {
    hide Encode, Value, Divide, Word;
    var represented := Represented(oracle);
    forall i | 0 <= i < |row|
      ensures represented[i].magnitude <= peak
    {
      RoundedWord(Divide(row[i], Finite(false, oracle.scale)), oracle.codes[i]);
      WordIsFinite(oracle.codes[i]);
      Product(oracle.scale, FP8_MAX - Word(oracle.codes[i]).magnitude);
    }
    TopWords();
    assert represented[top].magnitude == peak;
  }

  lemma TopWords()
    ensures Word(0x7e) == Finite(false, FP8_MAX) && Word(0xfe) == Finite(true, FP8_MAX)
  {
    hide Value;
    TopIsMax();
  }

  // Quantizing what the words represent gives the same words and scale again.
  lemma RequantizingIsIdentity(row: seq<Float>, oracle: TokenOracle)
    requires QuantizeRow(row) == Ok(oracle)
    ensures oracle.scale > 0.0 && QuantizeRow(Represented(oracle)) == Ok(oracle)
  {
    QuantizeIs(row, oracle);
    hide *;
    ScaleIsTight(row);
    RepresentedRounds(oracle, row);
    if AllZero(row) {
      ZerosRepresentZeros(oracle, row);
      CodesDetermined(Represented(oracle), 0.0, oracle.scale, oracle.codes);
    } else {
      var top := ReachedAt(row, oracle.scale, oracle.codes);
      var peak := oracle.scale * FP8_MAX;
      RepresentedPeak(oracle, row, top, peak);
      CodesDetermined(Represented(oracle), peak, oracle.scale, oracle.codes);
    }
  }

  lemma QuantizeIs(row: seq<Float>, oracle: TokenOracle)
    requires QuantizeRow(row) == Ok(oracle)
    ensures oracle.scale > 0.0 && Rounds(row, oracle.scale, oracle.codes) && |oracle.codes| == |row|
    ensures oracle.representedSum == RepresentedSum(oracle.codes)
  {
    QuantizeMeaning(row);
  }

  lemma ReachedAt(row: seq<Float>, scale: real, codes: seq<nat>) returns (top: nat)
    requires AllFinite(row) && |codes| == |row| && scale > 0.0
    requires ReachesTop(row, Finite(false, scale), codes)
    ensures top < |row| && codes[top] in {0x7e, 0xfe}
  {
    hide Divide;
    top :| 0 <= top < |row| && codes[top] == if row[top].negative then 0xfe else 0x7e;
  }

  lemma ZerosRepresentZeros(oracle: TokenOracle, row: seq<Float>)
    requires oracle.scale == 1.0 && Rounds(row, 1.0, oracle.codes) && AllZero(row)
    ensures AllFinite(Represented(oracle)) && IsPeak(Represented(oracle), 0.0) && Scales(0.0, oracle.scale)
  {
    hide Encode, Word;
    forall i | 0 <= i < |row|
      ensures Represented(oracle)[i].Finite? && Represented(oracle)[i].magnitude == 0.0
    {
      RoundedWord(Divide(row[i], Finite(false, 1.0)), oracle.codes[i]);
      WordIsFinite(oracle.codes[i]);
    }
  }
}
