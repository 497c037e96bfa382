// The gated-delta update as a linear map: what it recalls, and how fast two
// runs fed the same tokens forget that they started differently.
module GatedDeltaContraction {
  import opened Analysis
  import opened Blocks
  import opened GatedDelta
  import opened GatedDeltaRuns
  import opened Vectors

  // ---- One row ------------------------------------------------------------

  // Reading any direction x out of an updated row:
  // row' . x = decay * row . x + beta * (value - decay * row . key) * key . x
  lemma RowReads(row: seq<real>, key: seq<real>, value: real, decay: real, beta: real, x: seq<real>)
    requires |row| == |key| == |x|
    ensures Dot(RowStep(row, key, value, decay, beta), x)
         == decay * Dot(row, x) + beta * (value - decay * Dot(row, key)) * Dot(key, x)
  {
    hide Dot, RowStep, Combines, RowUpdate;
    var update := RowUpdate(row, key, value, decay, beta);
    DotCombines(RowStep(row, key, value, decay, beta), decay, row, update, key, x);
    UpdateIs(row, key, value, decay, beta);
    var written := SameProduct(update, Dot(key, x), beta * (value - decay * Dot(row, key)), Dot(key, x));
  }

  lemma UpdateIs(row: seq<real>, key: seq<real>, value: real, decay: real, beta: real)
    requires |row| == |key|
    ensures RowUpdate(row, key, value, decay, beta) == beta * (value - decay * Dot(row, key))
  {
  }

  // Writing a value under a key leaves (1 - beta * |key|^2) of the recall error.
  lemma WriteShrinksRecallError(row: seq<real>, key: seq<real>, value: real, decay: real, beta: real)
    requires |row| == |key|
    ensures value - Dot(RowStep(row, key, value, decay, beta), key)
         == (1.0 - beta * SquaredNorm(key)) * (value - decay * Dot(row, key))
  {
    hide Dot;
    RowReads(row, key, value, decay, beta, key);
    var k, e := SquaredNorm(key), value - decay * Dot(row, key);
    assert beta * e * k == beta * k * e;
  }

  // From a zero row only the write is left: row' = beta * value * key.
  lemma ZeroRowStep(row: seq<real>, key: seq<real>, value: real, decay: real, beta: real)
    requires |row| == |key| && forall c :: 0 <= c < |row| ==> row[c] == 0.0
    ensures forall c :: 0 <= c < |row| ==> RowStep(row, key, value, decay, beta)[c] == beta * value * key[c]
  {
    hide Dot;
    DotZero(row, key);
    assert RowUpdate(row, key, value, decay, beta) == beta * value;
  }

  // What every row of a value head reads after its first write.
  function FirstRead(shape: Shape, token: Token, head: nat): (recurrent: seq<real>)
    requires shape.Valid() && Fits(shape, token) && head < shape.valueHeads
    ensures |recurrent| == shape.headDim
  {
    var values, k := HeadRows(shape, token.value, head), shape.KeyHead(head);
    var overlap := Dot(token.key[k], token.query[k]);
    seq(shape.headDim, r requires 0 <= r < shape.headDim =>
      DELTA_SCALE * (token.beta[head] * values[r] * overlap))
  }

  ghost predicate ZeroSlot(slot: Slot) {
    forall j, c :: 0 <= j < |slot| && 0 <= c < |slot[j]| ==> slot[j][c] == 0.0
  }

  lemma FirstReadRow(row: seq<real>, key: seq<real>, value: real, decay: real, beta: real, query: seq<real>)
    requires |row| == |key| == |query| && forall c :: 0 <= c < |row| ==> row[c] == 0.0
    ensures Dot(RowStep(row, key, value, decay, beta), query) == beta * value * Dot(key, query)
  {
    hide Dot, RowStep;
    RowReads(row, key, value, decay, beta, query);
    DotZero(row, key);
    DotZero(row, query);
    var written := SameProduct(beta * (value - decay * Dot(row, key)), Dot(key, query), beta * value, Dot(key, query));
  }

  // So from a zero slot the whole output of a token is the gated, normalized
  // overlap of its key and query, scaled by beta and its values: the decay and
  // the state have dropped out.
  lemma FirstOutput(shape: Shape, f: Functions, weight: seq<real>, slot: Slot, token: Token, head: nat)
    requires shape.Valid() && f.Lawful() && |weight| == shape.headDim
    requires Fits(shape, token) && SlotFits(shape, slot) && ZeroSlot(slot) && head < shape.valueHeads
    ensures HeadRows(shape, Output(shape, f, weight, SlotStep(shape, slot, token), token), head)
      == HeadOutput(f, weight, HeadRows(shape, token.gate, head), FirstRead(shape, token, head))
  {
    hide HeadOutput, Output;
    HeadOutputs(shape, f, weight, SlotStep(shape, slot, token), token, head);
    ReadFromZero(shape, slot, token, head);
  }

  lemma ReadFromZero(shape: Shape, slot: Slot, token: Token, head: nat)
    requires shape.Valid() && Fits(shape, token) && SlotFits(shape, slot) && ZeroSlot(slot) && head < shape.valueHeads
    ensures HeadRecurrent(shape, SlotStep(shape, slot, token), token, head) == FirstRead(shape, token, head)
  {
    hide Dot, RowStep, SlotStep, SlotHead, Shape.KeyHead;
    var k, mine := shape.KeyHead(head), SlotHead(shape, slot, head);
    var key, query, values := token.key[k], token.query[k], HeadRows(shape, token.value, head);
    HeadStepped(shape, slot, token, head);
    var recurrent := HeadRecurrent(shape, SlotStep(shape, slot, token), token, head);
    forall r | 0 <= r < shape.headDim
      ensures recurrent[r] == FirstRead(shape, token, head)[r]
    {
      ZeroHead(shape, slot, head, r);
      FirstReadRow(mine[r], key, values[r], token.decay[head], token.beta[head], query);
    }
  }

  lemma ZeroHead(shape: Shape, slot: Slot, head: nat, r: nat)
    requires shape.Valid() && SlotFits(shape, slot) && ZeroSlot(slot) && head < shape.valueHeads && r < shape.headDim
    ensures forall c :: 0 <= c < shape.headDim ==> SlotHead(shape, slot, head)[r][c] == 0.0
  {
    Gap(shape.headDim, head, shape.valueHeads);
  }

  lemma {:induction false} DotZero(row: seq<real>, key: seq<real>)
    requires |row| == |key| && forall c :: 0 <= c < |row| ==> row[c] == 0.0
    ensures Dot(row, key) == 0.0
    decreases |row|
  {
    if |row| == 0 {
    } else {
      DotZero(row[..|row| - 1], key[..|key| - 1]);
    }
  }

  lemma {:induction false} DotDifference(a: seq<real>, b: seq<real>, key: seq<real>)
    requires |a| == |b| == |key|
    ensures Dot(Difference(a, b), key) == Dot(a, key) - Dot(b, key)
    decreases |a|
  {
    if |a| == 0 {
    } else {
      var n := |a| - 1;
      DotDifference(a[..n], b[..n], key[..n]);
      assert Difference(a, b)[..n] == Difference(a[..n], b[..n]);
      assert (a[n] - b[n]) * key[n] == a[n] * key[n] - b[n] * key[n];
    }
  }

  // How much of the key the difference of two rows picks up in one update.
  function Shift(d: seq<real>, key: seq<real>, decay: real, beta: real): real
    requires |d| == |key|
  {
    -(beta * decay * Dot(d, key))
  }

  lemma RowDifference(a: seq<real>, b: seq<real>, key: seq<real>, value: real, decay: real, beta: real)
    requires |a| == |b| == |key|
    ensures var d := Difference(a, b);
      Combines(Difference(RowStep(a, key, value, decay, beta), RowStep(b, key, value, decay, beta)),
        decay, d, Shift(d, key, decay, beta), key)
  {
    hide Dot, RowStep, RowUpdate, Shift;
    var d := Difference(a, b);
    UpdateDifference(a, b, key, value, decay, beta);
    var a', b' := RowStep(a, key, value, decay, beta), RowStep(b, key, value, decay, beta);
    CombinesDifference(a', a, RowUpdate(a, key, value, decay, beta), b', b, RowUpdate(b, key, value, decay, beta),
      decay, key);
  }

  lemma CombinesDifference(
      a': seq<real>, a: seq<real>, ua: real, b': seq<real>, b: seq<real>, ub: real, decay: real, key: seq<real>)
    requires Combines(a', decay, a, ua, key) && Combines(b', decay, b, ub, key)
    ensures Combines(Difference(a', b'), decay, Difference(a, b), ua - ub, key)
  {
    forall c | 0 <= c < |a|
      ensures Difference(a', b')[c] == decay * Difference(a, b)[c] + (ua - ub) * key[c]
    {
      Cell(a[c], b[c], key[c], decay, ua, ub, a'[c], b'[c]);
    }
  }

  lemma UpdateDifference(a: seq<real>, b: seq<real>, key: seq<real>, value: real, decay: real, beta: real)
    requires |a| == |b| == |key|
    ensures RowUpdate(a, key, value, decay, beta) - RowUpdate(b, key, value, decay, beta)
         == Shift(Difference(a, b), key, decay, beta)
  {
    hide Dot;
    DotDifference(a, b, key);
    var ak, bk := Dot(a, key), Dot(b, key);
    assert beta * (value - decay * ak) - beta * (value - decay * bk) == -(beta * decay * (ak - bk));
  }

  lemma Cell(a: real, b: real, k: real, decay: real, ua: real, ub: real, a': real, b': real)
    requires a' == decay * a + ua * k && b' == decay * b + ub * k
    ensures a' - b' == decay * (a - b) + (ua - ub) * k
  {
  }

  // What one update leaves of a squared distance dd whose key component is dk.
  function Remaining(decay: real, beta: real, kk: real, dd: real, dk: real): real {
    decay * decay * (dd - beta * (2.0 - beta * kk) * (dk * dk))
  }

  // The squared distance of two updated rows, exactly.
  lemma RowDistance(a: seq<real>, b: seq<real>, key: seq<real>, value: real, decay: real, beta: real)
    requires |a| == |b| == |key|
    ensures var d := Difference(a, b);
      SquaredNorm(Difference(RowStep(a, key, value, decay, beta), RowStep(b, key, value, decay, beta)))
      == Remaining(decay, beta, SquaredNorm(key), SquaredNorm(d), Dot(d, key))
  {
    hide Dot, RowStep, Combines, Shift, Remaining, Expanded;
    var d := Difference(a, b);
    RowDifference(a, b, key, value, decay, beta);
    SquaredNormCombines(
      Difference(RowStep(a, key, value, decay, beta), RowStep(b, key, value, decay, beta)),
      decay, d, Shift(d, key, decay, beta), key);
    ShiftedNorm(d, key, decay, beta);
  }

  lemma ShiftedNorm(d: seq<real>, key: seq<real>, decay: real, beta: real)
    requires |d| == |key|
    ensures Expanded(decay, Shift(d, key, decay, beta), SquaredNorm(d), Dot(d, key), SquaredNorm(key))
         == Remaining(decay, beta, SquaredNorm(key), SquaredNorm(d), Dot(d, key))
  {
    hide Dot, Expanded, Remaining;
    Collect(decay, beta, Shift(d, key, decay, beta), Dot(d, key), SquaredNorm(d), SquaredNorm(key));
  }

  lemma Collect(decay: real, beta: real, y: real, dk: real, dd: real, kk: real)
    requires y == -(beta * decay * dk)
    ensures Expanded(decay, y, dd, dk, kk) == Remaining(decay, beta, kk, dd, dk)
  {
    assert decay * y * dk == -(decay * decay * (beta * (dk * dk)));
    assert y * y * kk == decay * decay * (beta * beta * kk * (dk * dk));
    var p, q := beta * (dk * dk), beta * beta * kk * (dk * dk);
    assert beta * (2.0 - beta * kk) * (dk * dk) == 2.0 * p - q;
    assert decay * decay * (dd - (2.0 * p - q)) == decay * decay * dd - 2.0 * (decay * decay * p) + decay * decay * q;
  }

  lemma ProductPositive(x: real, y: real) returns (product: real)
    requires x > 0.0 && y > 0.0
    ensures product == x * y && product > 0.0
  {
    product := x * y;
  }

  lemma SquarePositive(x: real) returns (square: real)
    requires x != 0.0
    ensures square == x * x && square > 0.0
  {
    var y := if x < 0.0 then -x else x;
    square := ProductPositive(y, y);
  }

  lemma {:induction false} ZeroNormReadsNothing(d: seq<real>, key: seq<real>)
    requires |d| == |key| && SquaredNorm(key) == 0.0
    ensures Dot(d, key) == 0.0
    decreases |key|
  {
    if |key| == 0 {
    } else {
      var n := |key| - 1;
      SquaredNormNonNegative(key[..n]);
      assert key[n] == 0.0 by {
        if key[n] != 0.0 {
          var square := SquarePositive(key[n]);
        }
      }
      ZeroNormReadsNothing(d[..n], key[..n]);
    }
  }

  // Two rows never move apart by more than the decay ...
  lemma RowContracts(a: seq<real>, b: seq<real>, key: seq<real>, value: real, decay: real, beta: real)
    requires |a| == |b| == |key|
    requires 0.0 <= beta * SquaredNorm(key) <= 2.0
    ensures SquaredNorm(Difference(RowStep(a, key, value, decay, beta), RowStep(b, key, value, decay, beta)))
         <= decay * decay * SquaredNorm(Difference(a, b))
  {
    hide Dot, RowStep, Remaining;
    RowDistance(a, b, key, value, decay, beta);
    var d := Difference(a, b);
    SquaredNormNonNegative(key);
    if SquaredNorm(key) == 0.0 {
      ZeroNormReadsNothing(d, key);
    }
    Bounded(decay, beta, SquaredNorm(key), SquaredNorm(d), Dot(d, key));
  }

  lemma Bounded(decay: real, beta: real, kk: real, dd: real, dk: real)
    requires kk >= 0.0 && 0.0 <= beta * kk <= 2.0
    requires kk == 0.0 ==> dk == 0.0
    ensures Remaining(decay, beta, kk, dd, dk) <= decay * decay * dd
  {
    if kk > 0.0 {
      Gain(beta, kk);
    }
    Monotone(decay, dd, beta * (2.0 - beta * kk), dk);
  }

  lemma Gain(beta: real, k: real)
    requires k > 0.0 && 0.0 <= beta * k <= 2.0
    ensures beta * (2.0 - beta * k) >= 0.0
  {
    assert beta >= 0.0;
  }

  lemma Monotone(decay: real, dd: real, gain: real, dk: real)
    requires gain >= 0.0 || dk == 0.0
    ensures decay * decay * (dd - gain * (dk * dk)) <= decay * decay * dd
  {
    assert gain * (dk * dk) >= 0.0 by {
      assert dk * dk >= 0.0;
    }
    assert decay * decay >= 0.0;
    assert (decay * decay) * (gain * (dk * dk)) >= 0.0;
  }

  ghost predicate NeverLengthens(key: seq<real>, decay: real, beta: real) {
    forall a: seq<real>, b: seq<real>, value: real :: |a| == |b| == |key| ==>
      SquaredNorm(Difference(RowStep(a, key, value, decay, beta), RowStep(b, key, value, decay, beta)))
      <= decay * decay * SquaredNorm(Difference(a, b))
  }

  // ... and exactly the steps with 0 <= beta * |key|^2 <= 2 have that property.
  lemma ContractionIsExact(key: seq<real>, decay: real, beta: real)
    requires decay != 0.0
    ensures NeverLengthens(key, decay, beta) <==> 0.0 <= beta * SquaredNorm(key) <= 2.0
  {
    hide Dot, RowStep;
    if NeverLengthens(key, decay, beta) {
      OwnKeyWitness(key, decay, beta);
    }
    if 0.0 <= beta * SquaredNorm(key) <= 2.0 {
      forall a: seq<real>, b: seq<real>, value: real | |a| == |b| == |key|
        ensures SquaredNorm(Difference(RowStep(a, key, value, decay, beta), RowStep(b, key, value, decay, beta)))
             <= decay * decay * SquaredNorm(Difference(a, b))
      {
        RowContracts(a, b, key, value, decay, beta);
      }
    }
  }

  // A row equal to the key itself, against the zero row, needs the bound.
  lemma OwnKeyWitness(key: seq<real>, decay: real, beta: real)
    requires decay != 0.0 && NeverLengthens(key, decay, beta)
    ensures 0.0 <= beta * SquaredNorm(key) <= 2.0
  {
    hide Dot, RowStep, Remaining, NeverLengthens;
    var zero := seq(|key|, _ => 0.0);
    RowDistance(key, zero, key, 0.0, decay, beta);
    OwnKeyInstance(key, zero, decay, beta);
    assert Difference(key, zero) == key;
    SquaredNormNonNegative(key);
    var k := SquaredNorm(key);
    assert Remaining(decay, beta, k, k, k) <= decay * decay * k;
    OwnKeyBound(decay, beta, k);
  }

  lemma OwnKeyInstance(key: seq<real>, zero: seq<real>, decay: real, beta: real)
    requires |zero| == |key| && NeverLengthens(key, decay, beta)
    ensures SquaredNorm(Difference(RowStep(key, key, 0.0, decay, beta), RowStep(zero, key, 0.0, decay, beta)))
         <= decay * decay * SquaredNorm(Difference(key, zero))
  {
    hide Dot, RowStep;
  }

  lemma OwnKeyBound(decay: real, beta: real, k: real)
    requires decay != 0.0 && k >= 0.0
    requires Remaining(decay, beta, k, k, k) <= decay * decay * k
    ensures 0.0 <= beta * k <= 2.0
  {
    var x := beta * k;
    var s := SquarePositive(decay);
    var loss := k * (x * (2.0 - x));
    assert beta * (2.0 - x) * (k * k) == loss;
    assert s * (k - loss) == s * k - s * loss;
    Sign(s, loss);
    if k > 0.0 {
      Sign(k, x * (2.0 - x));
      Parabola(x);
    }
  }

  lemma Sign(k: real, y: real)
    requires k > 0.0 && k * y >= 0.0
    ensures y >= 0.0
  {
  }

  lemma Parabola(x: real)
    requires x * (2.0 - x) >= 0.0
    ensures 0.0 <= x <= 2.0
  {
  }

  // ---- Whole runs ---------------------------------------------------------

  // |x / sqrt(|x|^2 + eps)|^2 = |x|^2 / (|x|^2 + eps) < 1
  lemma NormalizedBelowOne(f: Functions, x: seq<real>)
    requires f.Lawful()
    ensures SquaredNorm(Normalize(f, x)) * (SquaredNorm(x) + RMS_EPSILON) == SquaredNorm(x)
    ensures 0.0 <= SquaredNorm(Normalize(f, x)) < 1.0
  {
    hide Dot, InverseNorm;
    var i, n, s := InverseNorm(f, x), SquaredNorm(Normalize(f, x)), SquaredNorm(x);
    NormalizedSquare(f, x);
    SquaredNormNonNegative(x);
    SquaredNormNonNegative(Normalize(f, x));
    Quotient(i, n, s);
  }

  lemma NormalizedSquare(f: Functions, x: seq<real>)
    requires f.Lawful()
    ensures SquaredNorm(Normalize(f, x)) == InverseNorm(f, x) * InverseNorm(f, x) * SquaredNorm(x)
  {
    hide Dot, InverseNorm, Expanded;
    var i := InverseNorm(f, x);
    SquaredNormCombines(Normalize(f, x), i, x, 0.0, x);
    Collapse(i, SquaredNorm(x), Dot(x, x));
  }

  lemma Collapse(i: real, s: real, p: real)
    ensures Expanded(i, 0.0, s, p, s) == i * i * s
  {
  }

  lemma Quotient(i: real, n: real, s: real)
    requires n == i * i * s && i * i * (s + RMS_EPSILON) == 1.0 && s >= 0.0 && n >= 0.0
    ensures n * (s + RMS_EPSILON) == s
    ensures n < 1.0
  {
    var e := RMS_EPSILON;
    assert n * (s + e) == s * (i * i * (s + e));
    AtLeastOne(n, s + e);
  }

  lemma AtLeastOne(n: real, d: real)
    requires d > 0.0 && n * d < d
    ensures n < 1.0
  {
    assert (1.0 - n) * d > 0.0;
  }

  predicate Contractive(shape: Shape, token: Token)
    requires Fits(shape, token)
  {
    && (forall h :: 0 <= h < shape.keyHeads ==> SquaredNorm(token.key[h]) <= 1.0)
    && (forall h :: 0 <= h < shape.valueHeads ==>
      0.0 <= token.decay[h] <= 1.0 && 0.0 <= token.beta[h] <= 1.0)
  }

  ghost predicate AllContractive(shape: Shape, tokens: seq<Token>) {
    forall t :: 0 <= t < |tokens| ==> Fits(shape, tokens[t]) && Contractive(shape, tokens[t])
  }

  // The squared decays of one value head over a run.
  function Retention(shape: Shape, tokens: seq<Token>, head: nat): real
    requires head < shape.valueHeads && forall t :: 0 <= t < |tokens| ==> Fits(shape, tokens[t])
  {
    if |tokens| == 0 then 1.0
    else
      var n := |tokens| - 1;
      assert Fits(shape, tokens[n]);
      tokens[n].decay[head] * tokens[n].decay[head] * Retention(shape, tokens[..n], head)
  }

  lemma {:induction false} RetentionBounded(shape: Shape, tokens: seq<Token>, head: nat)
    requires head < shape.valueHeads
    requires AllContractive(shape, tokens)
    ensures 0.0 <= Retention(shape, tokens, head) <= 1.0
    decreases |tokens|
  {
    if |tokens| == 0 {
    } else {
      var n := |tokens| - 1;
      RetentionBounded(shape, tokens[..n], head);
      var decay := tokens[n].decay[head];
      UnitProduct(decay, decay);
      UnitProduct(decay * decay, Retention(shape, tokens[..n], head));
    }
  }

  lemma UnitProduct(x: real, y: real)
    requires 0.0 <= x <= 1.0 && 0.0 <= y <= 1.0
    ensures 0.0 <= x * y <= 1.0
  {
    var p := NonNegativeProduct(x, y);
    var q := NonNegativeProduct(1.0 - x, y);
    assert p + q == y;
  }

  lemma NonNegativeProduct(x: real, y: real) returns (product: real)
    requires x >= 0.0 && y >= 0.0
    ensures product == x * y && product >= 0.0
  {
    product := x * y;
  }

  function Distance(a: seq<real>, b: seq<real>): real
    requires |a| == |b|
  {
    SquaredNorm(Difference(a, b))
  }

  // Fed the same tokens, two slots forget how they differed: no row distance
  // ever exceeds what the decays of its head retain of the starting distance.
  lemma {:induction false} SlotForgets(shape: Shape, a: Slot, b: Slot, tokens: seq<Token>, j: nat)
    requires shape.Valid() && SlotFits(shape, a) && SlotFits(shape, b) && j < shape.ValueWidth()
    requires AllContractive(shape, tokens)
    ensures Distance(SlotRun(shape, a, tokens)[j], SlotRun(shape, b, tokens)[j])
         <= Retention(shape, tokens, shape.ValueHead(j)) * Distance(a[j], b[j])
    decreases |tokens|
  {
    hide Dot, RowStep, Distance, Contractive, SlotStep;
    if |tokens| == 0 {
    } else {
      var n, head := |tokens| - 1, shape.ValueHead(j);
      var before := tokens[..n];
      SlotForgets(shape, a, b, before, j);
      var a', b' := SlotRun(shape, a, before), SlotRun(shape, b, before);
      StepForgets(shape, a', b', tokens[n], j);
      Scale(tokens[n].decay[head], Distance(a'[j], b'[j]), Retention(shape, before, head), Distance(a[j], b[j]));
    }
  }

  lemma StepForgets(shape: Shape, a: Slot, b: Slot, token: Token, j: nat)
    requires shape.Valid() && SlotFits(shape, a) && SlotFits(shape, b) && j < shape.ValueWidth()
    requires Fits(shape, token) && Contractive(shape, token)
    ensures var decay := token.decay[shape.ValueHead(j)];
      Distance(SlotStep(shape, a, token)[j], SlotStep(shape, b, token)[j])
      <= decay * decay * Distance(a[j], b[j])
  {
    hide Dot, RowStep, SquaredNorm;
    var head := shape.ValueHead(j);
    var key := token.key[shape.KeyHead(head)];
    SquaredNormNonNegative(key);
    UnitProduct(token.beta[head], SquaredNorm(key));
    RowContracts(a[j], b[j], key, token.value[j], token.decay[head], token.beta[head]);
  }

  lemma Scale(decay: real, d: real, r: real, d0: real)
    requires d <= r * d0
    ensures decay * decay * d <= decay * decay * r * d0
  {
    assert decay * decay >= 0.0;
    assert decay * decay * (r * d0 - d) >= 0.0;
  }

  // The tokens an oracle launch reads are contractive as soon as its control
  // planes are in range: the keys need no assumption.
  lemma TokensContractive(shape: Shape, f: Functions, fixture: Fixture, capacity: nat, t: nat)
    requires f.Lawful() && Covers(shape, fixture, capacity) && t < capacity
    requires forall k :: 0 <= k < |fixture.beta| ==> fixture.logDecay[k] < 0.0 && 0.0 < fixture.beta[k] < 1.0
    ensures Contractive(shape, TokenAt(shape, f, fixture, capacity, t))
  {
    hide Normalize, SquaredNorm;
    var token := TokenAt(shape, f, fixture, capacity, t);
    Gap(shape.QkvRows(), t, capacity);
    Gap(shape.valueHeads, t, capacity);
    var keys := Block(fixture.qkv, shape.QkvRows(), t)[shape.QkWidth()..2 * shape.QkWidth()];
    forall h | 0 <= h < shape.keyHeads
      ensures SquaredNorm(token.key[h]) <= 1.0
    {
      Gap(shape.headDim, h, shape.keyHeads);
      NormalizedBelowOne(f, Block(keys, shape.headDim, h));
    }
  }

  // Rows j of two slots end no further apart than the decays of their head
  // retain of the starting distance, and so no further apart than they began.
  ghost predicate Forgotten(shape: Shape, tokens: seq<Token>, a: Slot, b: Slot, a': Slot, b': Slot, j: nat)
    requires shape.Valid() && j < shape.ValueWidth()
    requires SlotFits(shape, a) && SlotFits(shape, b) && SlotFits(shape, a') && SlotFits(shape, b')
    requires forall t :: 0 <= t < |tokens| ==> Fits(shape, tokens[t])
  {
    var retained := Retention(shape, tokens, shape.ValueHead(j)) * Distance(a[j], b[j]);
    Distance(a'[j], b'[j]) <= retained <= Distance(a[j], b[j])
  }

  // Whole launches: from any two starting states, every row of every slot
  // ends no further apart than its own tokens' decays allow.
  lemma LaunchForgets(
      shape: Shape, a: seq<Slot>, b: seq<Slot>, tokens: seq<Token>, slots: seq<nat>, slot: nat, j: nat)
    requires Routed(shape, a, tokens, slots) && Routed(shape, b, tokens, slots) && |a| == |b|
    requires slot < |a| && j < shape.ValueWidth() && AllContractive(shape, tokens)
    ensures AllContractive(shape, Select(tokens, slots, slot))
    ensures Forgotten(shape, Select(tokens, slots, slot), a[slot], b[slot],
      Run(shape, a, tokens, slots)[slot], Run(shape, b, tokens, slots)[slot], j)
  {
    hide Forgotten, SlotStep, Run, SlotRun, Contractive, Fits, SlotFits, Select, AllContractive;
    SelectContractive(shape, tokens, slots, slot);
    var mine := Select(tokens, slots, slot);
    EndsAlone(shape, a, b, tokens, slots, slot, mine, j);
    SlotNeverDiverges(shape, a[slot], b[slot], mine, j);
  }

  // Both launches end a slot where its own tokens take it.
  lemma EndsAlone(
      shape: Shape, a: seq<Slot>, b: seq<Slot>, tokens: seq<Token>, slots: seq<nat>, slot: nat, mine: seq<Token>,
      j: nat)
    requires Routed(shape, a, tokens, slots) && Routed(shape, b, tokens, slots) && |a| == |b|
    requires slot < |a| && j < shape.ValueWidth() && mine == Select(tokens, slots, slot)
    ensures SlotFits(shape, a[slot]) && SlotFits(shape, b[slot])
    ensures forall t :: 0 <= t < |mine| ==> Fits(shape, mine[t])
    ensures Run(shape, a, tokens, slots)[slot] == SlotRun(shape, a[slot], mine)
    ensures Run(shape, b, tokens, slots)[slot] == SlotRun(shape, b[slot], mine)
  {
    hide Run, SlotRun, Fits, SlotFits, Select;
    Demultiplexed(shape, a, tokens, slots, slot);
    Demultiplexed(shape, b, tokens, slots, slot);
  }

  lemma SlotNeverDiverges(shape: Shape, a: Slot, b: Slot, tokens: seq<Token>, j: nat)
    requires shape.Valid() && SlotFits(shape, a) && SlotFits(shape, b) && j < shape.ValueWidth()
    requires AllContractive(shape, tokens)
    ensures Forgotten(shape, tokens, a, b, SlotRun(shape, a, tokens), SlotRun(shape, b, tokens), j)
  {
    hide Dot, SlotStep, Distance, Retention, SlotRun, Contractive, Fits;
    var head := shape.ValueHead(j);
    SlotForgets(shape, a, b, tokens, j);
    RetentionBounded(shape, tokens, head);
    DistanceNonNegative(a[j], b[j]);
    Shrink(Retention(shape, tokens, head), Distance(a[j], b[j]));
  }

  lemma {:induction false} SelectContractive(shape: Shape, tokens: seq<Token>, slots: seq<nat>, slot: nat)
    requires |tokens| == |slots|
    requires AllContractive(shape, tokens)
    ensures AllContractive(shape, Select(tokens, slots, slot))
    decreases |tokens|
  {
    if |tokens| == 0 {
    } else {
      SelectContractive(shape, tokens[..|tokens| - 1], slots[..|tokens| - 1], slot);
    }
  }

  lemma DistanceNonNegative(a: seq<real>, b: seq<real>)
    requires |a| == |b|
    ensures Distance(a, b) >= 0.0
  {
    SquaredNormNonNegative(Difference(a, b));
  }

  lemma Shrink(r: real, d: real)
    requires 0.0 <= r <= 1.0 && d >= 0.0
    ensures r * d <= d
  {
  }
}
