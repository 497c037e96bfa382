// The decay and beta controls of the gated-delta recurrence.
module Controls {
  import opened Analysis
  import opened Blocks
  import opened Vectors

  // Controls above this value are their own softplus in the resident-layer check.
  const SOFTPLUS_LIMIT: real := 20.0

  function LogDecay(f: Functions, aLog: real, control: real): (log: real)
    requires f.Lawful()
  {
    -f.exp(aLog) * f.ln(1.0 + f.exp(control))
  }

  function ThresholdedLogDecay(f: Functions, aLog: real, control: real): (log: real)
    requires f.Lawful()
  {
    -f.exp(aLog) * (if control > SOFTPLUS_LIMIT then control else f.ln(1.0 + f.exp(control)))
  }

  function Beta(f: Functions, sum: real): (beta: real)
    requires f.Lawful()
  {
    1.0 / (1.0 + f.exp(-sum))
  }

  lemma NegativeProduct(x: real, y: real)
    requires x > 0.0 && y > 0.0
    ensures -x * y < 0.0
  {
  }

  // Whatever the projected controls are, decay and beta are strictly between
  // zero and one, with and without the softplus shortcut.
  lemma ControlsInRange(f: Functions, aLog: real, control: real, sum: real)
    requires f.Lawful()
    ensures LogDecay(f, aLog, control) < 0.0 && 0.0 < f.exp(LogDecay(f, aLog, control)) < 1.0
    ensures ThresholdedLogDecay(f, aLog, control) < 0.0
    ensures 0.0 < f.exp(ThresholdedLogDecay(f, aLog, control)) < 1.0
    ensures 0.0 < Beta(f, sum) < 1.0
  {
    NegativeProduct(f.exp(aLog), f.ln(1.0 + f.exp(control)));
    if control > SOFTPLUS_LIMIT {
      NegativeProduct(f.exp(aLog), control);
    }
    var e := f.exp(-sum);
    assert e > 0.0;
    assert Beta(f, sum) * (1.0 + e) == 1.0;
  }

  // The two formulas for a control differ past the limit only.
  lemma ThresholdedIs(f: Functions, aLog: real, control: real)
    requires f.Lawful()
    ensures control <= 20.0 ==> ThresholdedLogDecay(f, aLog, control) == LogDecay(f, aLog, control)
    ensures control > 20.0 ==> ThresholdedLogDecay(f, aLog, control) == -(f.exp(aLog) * control)
    ensures ThresholdedLogDecay(f, aLog, control) == LogDecay(f, aLog, control)
      <==> control <= 20.0 || f.ln(1.0 + f.exp(control)) == control
  {
    var scale, softplus := f.exp(aLog), f.ln(1.0 + f.exp(control));
    Cancel(scale, softplus, control);
  }

  lemma Cancel(scale: real, x: real, y: real)
    requires scale > 0.0
    ensures -scale * x == -scale * y <==> x == y
    ensures -scale * x == -(scale * x) && -scale * y == -(scale * y)
  {
    if x != y {
      assert scale * (x - y) != 0.0;
      assert scale * (x - y) == scale * x - scale * y;
    }
  }

  datatype Fixture = Fixture(
    input: seq<real>, weights: seq<real>, aLog: seq<real>, dtBias: seq<real>)

  predicate Covers(fixture: Fixture, hidden: nat, controls: nat, rows: nat) {
    && |fixture.input| == rows * hidden
    && |fixture.weights| == 2 * controls * hidden
    && |fixture.aLog| == |fixture.dtBias| == controls
  }

  // The projection of one token onto one control row.
  function Projection(fixture: Fixture, hidden: nat, controls: nat, rows: nat, t: nat, row: nat): real
    requires Covers(fixture, hidden, controls, rows) && t < rows && row < 2 * controls
  {
    Gap(hidden, t, rows);
    Gap(hidden, row, 2 * controls);
    Dot(Block(fixture.input, hidden, t), Block(fixture.weights, hidden, row))
  }

  function LogDecayAt(f: Functions, fixture: Fixture, hidden: nat, controls: nat, rows: nat, t: nat, row: nat): real
    requires f.Lawful() && Covers(fixture, hidden, controls, rows) && t < rows && row < controls
  {
    LogDecay(f, fixture.aLog[row], Projection(fixture, hidden, controls, rows, t, row) + fixture.dtBias[row])
  }

  function BetaAt(f: Functions, fixture: Fixture, hidden: nat, controls: nat, rows: nat, t: nat, row: nat): real
    requires f.Lawful() && Covers(fixture, hidden, controls, rows) && t < rows && row < controls
  {
    Beta(f, Projection(fixture, hidden, controls, rows, t, controls + row))
  }

  method Accumulate(input: seq<real>, base: nat, weights: seq<real>, first: nat, hidden: nat) returns (sum: real)
    requires base + hidden <= |input| && first + hidden <= |weights|
    ensures sum == Dot(input[base..base + hidden], weights[first..first + hidden])
  {
    ghost var row, weight := input[base..base + hidden], weights[first..first + hidden];
    sum := 0.0;
    for column := 0 to hidden
      invariant sum == Dot(row[..column], weight[..column])
    {
      DotExtend(row, weight, column);
      sum := sum + input[base + column] * weights[first + column];
    }
    assert row[..hidden] == row && weight[..hidden] == weight;
  }

  method Project(fixture: Fixture, hidden: nat, controls: nat, rows: nat, t: nat, row: nat) returns (sum: real)
    requires Covers(fixture, hidden, controls, rows) && t < rows && row < 2 * controls
    ensures sum == Projection(fixture, hidden, controls, rows, t, row)
  {
    var base, first := t * hidden, row * hidden;
    Gap(hidden, t, rows);
    Gap(hidden, row, 2 * controls);
    sum := Accumulate(fixture.input, base, fixture.weights, first, hidden);
  }

  // The projection of a token onto a row of the weights, on the flat planes.
  function FlatProjection(fixture: Fixture, hidden: nat, controls: nat, rows: nat, t: nat, row: nat): real
    requires Covers(fixture, hidden, controls, rows) && t < rows && row < 2 * controls
  {
    Gap(hidden, t, rows);
    Gap(hidden, row, 2 * controls);
    FlatDot(fixture.input, t * hidden, fixture.weights, row * hidden, hidden)
  }

  // Row r of the first half of the weights gives the decay of control r, row r of
  // the second half its beta, the logistic function of the projection.
  lemma ControlsAre(f: Functions, fixture: Fixture, hidden: nat, controls: nat, rows: nat, t: nat, r: nat)
    requires f.Lawful() && Covers(fixture, hidden, controls, rows) && t < rows && r < controls
    ensures var control := FlatProjection(fixture, hidden, controls, rows, t, r) + fixture.dtBias[r];
      LogDecayAt(f, fixture, hidden, controls, rows, t, r)
      == -(f.exp(fixture.aLog[r]) * f.ln(1.0 + f.exp(control)))
    ensures var sum := FlatProjection(fixture, hidden, controls, rows, t, controls + r);
      BetaAt(f, fixture, hidden, controls, rows, t, r) * (1.0 + f.exp(-sum)) == 1.0
  {
    hide Projection, FlatProjection, LogDecay, Beta;
    ProjectionIs(fixture, hidden, controls, rows, t, r);
    ProjectionIs(fixture, hidden, controls, rows, t, controls + r);
    LogDecayIs(f, fixture.aLog[r], Projection(fixture, hidden, controls, rows, t, r) + fixture.dtBias[r]);
    BetaIs(f, Projection(fixture, hidden, controls, rows, t, controls + r));
  }

  lemma ProjectionIs(fixture: Fixture, hidden: nat, controls: nat, rows: nat, t: nat, row: nat)
    requires Covers(fixture, hidden, controls, rows) && t < rows && row < 2 * controls
    ensures Projection(fixture, hidden, controls, rows, t, row)
      == FlatProjection(fixture, hidden, controls, rows, t, row)
  {
    hide Dot, FlatDot;
    Gap(hidden, t, rows);
    Gap(hidden, row, 2 * controls);
    FlatDotIs(fixture.input, t * hidden, fixture.weights, row * hidden, hidden);
  }

  lemma LogDecayIs(f: Functions, aLog: real, control: real)
    requires f.Lawful()
    ensures LogDecay(f, aLog, control) == -(f.exp(aLog) * f.ln(1.0 + f.exp(control)))
  {
    Cancel(f.exp(aLog), f.ln(1.0 + f.exp(control)), 0.0);
  }

  lemma BetaIs(f: Functions, sum: real)
    requires f.Lawful()
    ensures Beta(f, sum) * (1.0 + f.exp(-sum)) == 1.0
  {
    assert f.exp(-sum) > 0.0;
  }

  // Both control planes of one token, in the order the check visits them: the
  // first half of the projected rows are decays, the second half betas.
  method ControlRows(f: Functions, fixture: Fixture, hidden: nat, controls: nat, rows: nat, t: nat)
      returns (logDecay: seq<real>, beta: seq<real>)
    requires f.Lawful() && Covers(fixture, hidden, controls, rows) && t < rows
    ensures |logDecay| == |beta| == controls
    ensures forall r :: 0 <= r < controls ==>
      logDecay[r] == LogDecayAt(f, fixture, hidden, controls, rows, t, r) < 0.0
    ensures forall r :: 0 <= r < controls ==>
      beta[r] == BetaAt(f, fixture, hidden, controls, rows, t, r) && 0.0 < beta[r] < 1.0
  {
    hide Projection, LogDecay, Beta;
    logDecay, beta := [], [];
    for row := 0 to 2 * controls
      invariant |logDecay| == (if row < controls then row else controls)
      invariant |beta| == (if row < controls then 0 else row - controls)
      invariant forall r :: 0 <= r < |logDecay| ==>
        logDecay[r] == LogDecayAt(f, fixture, hidden, controls, rows, t, r) < 0.0
      invariant forall r :: 0 <= r < |beta| ==>
        beta[r] == BetaAt(f, fixture, hidden, controls, rows, t, r) && 0.0 < beta[r] < 1.0
    {
      var sum := Project(fixture, hidden, controls, rows, t, row);
      if row < controls {
        var control := sum + fixture.dtBias[row];
        ControlsInRange(f, fixture.aLog[row], control, sum);
        logDecay := logDecay + [LogDecay(f, fixture.aLog[row], control)];
      } else {
        ControlsInRange(f, 0.0, sum, sum);
        beta := beta + [Beta(f, sum)];
      }
    }
  }
}
