// Head normalization followed by the rotary embedding of its leading pairs.
module Rotary {
  import opened Analysis
  import opened Blocks
  import opened Vectors

  // epsilon and pair count are shape contracts of the caller.
  datatype Config = Config(headDim: nat, pairs: nat, epsilon: real) {
    predicate Valid() {
      headDim > 0 && 2 * pairs <= headDim && epsilon > 0.0
    }
  }

  function Rms(f: Functions, config: Config, x: seq<real>): (root: real)
    requires f.Lawful() && config.Valid()
    ensures root > 0.0
  {
    SquaredNormNonNegative(x);
    f.sqrt(SquaredNorm(x) / config.headDim as real + config.epsilon)
  }

  // Root-mean-square normalization with unit-offset weights.
  function Normalized(f: Functions, config: Config, x: seq<real>, norm: seq<real>): (y: seq<real>)
    requires f.Lawful() && config.Valid() && |x| == |norm| == config.headDim
    ensures |y| == config.headDim
  {
    var inverse := 1.0 / Rms(f, config, x);
    seq(|x|, i requires 0 <= i < |x| => x[i] * inverse * (1.0 + norm[i]))
  }

  // Dimension d of a vector whose pair p = (d, d + pairs) is turned by the
  // angle with cosine c[p] and sine s[p]; later dimensions pass through.
  function RotatedAt(pairs: nat, x: seq<real>, c: seq<real>, s: seq<real>, d: nat): real
    requires 2 * pairs <= |x| && |c| == |s| == pairs && d < |x|
  {
    if d < pairs then x[d] * c[d] - x[d + pairs] * s[d]
    else if d < 2 * pairs then x[d - pairs] * s[d - pairs] + x[d] * c[d - pairs]
    else x[d]
  }

  function Rotate(pairs: nat, x: seq<real>, c: seq<real>, s: seq<real>): (y: seq<real>)
    requires 2 * pairs <= |x| && |c| == |s| == pairs
    ensures |y| == |x|
  {
    seq(|x|, d requires 0 <= d < |x| => RotatedAt(pairs, x, c, s, d))
  }

  function Prepared(
      f: Functions, config: Config, x: seq<real>, norm: seq<real>, c: seq<real>, s: seq<real>): (y: seq<real>)
    requires f.Lawful() && config.Valid() && |x| == |norm| == config.headDim && |c| == |s| == config.pairs
    ensures |y| == config.headDim
  {
    Rotate(config.pairs, Normalized(f, config, x, norm), c, s)
  }

  // ---- The in-place form -------------------------------------------------------

  method Normalize(f: Functions, config: Config, x: seq<real>, norm: seq<real>) returns (y: seq<real>)
    requires f.Lawful() && config.Valid() && |x| == |norm| == config.headDim
    ensures y == Normalized(f, config, x, norm)
  {
    var sum := 0.0;
    for i := 0 to |x|
      invariant sum == Dot(x[..i], x[..i])
    {
      DotExtend(x, x, i);
      sum := sum + x[i] * x[i];
    }
    assert x[..|x|] == x;
    SquaredNormNonNegative(x);
    var inverse := 1.0 / f.sqrt(sum / config.headDim as real + config.epsilon);
    assert inverse == 1.0 / Rms(f, config, x);
    y := seq(|x|, i requires 0 <= i < |x| => x[i] * inverse * (1.0 + norm[i]));
  }

  // Writes one prepared head into its place of the output buffer.
  method NormalizeRotate(
      f: Functions, config: Config, x: seq<real>, norm: seq<real>, c: seq<real>, s: seq<real>,
      output: array<real>, base: nat)
    requires f.Lawful() && config.Valid() && |x| == |norm| == config.headDim && |c| == |s| == config.pairs
    requires base + config.headDim <= output.Length
    modifies output
    ensures output[..] == old(output[..base]) + Prepared(f, config, x, norm, c, s)
      + old(output[base + config.headDim..])
  {
    hide Dot, Normalized, RotatedAt, Overwritten;
    var pairs := config.pairs;
    var normalized := Normalize(f, config, x, norm);
    ghost var before, next := output[..], Prepared(f, config, x, norm, c, s);
    Untouched(before, next, base);
    for dimension := 0 to config.headDim
      invariant Overwritten(before, next, output[..], base, dimension)
    {
      ghost var now := output[..];
      PendingOne(before, next, now, base, dimension);
      output[base + dimension] := RotateCell(pairs, normalized, c, s, dimension);
      OverwriteOne(before, next, now, base, dimension, output[..]);
    }
    Complete(before, next, output[..], base);
  }

  method RotateCell(pairs: nat, x: seq<real>, c: seq<real>, s: seq<real>, d: nat) returns (value: real)
    requires 2 * pairs <= |x| && |c| == |s| == pairs && d < |x|
    ensures value == RotatedAt(pairs, x, c, s, d)
  {
    if d < pairs {
      value := x[d] * c[d] - x[d + pairs] * s[d];
    } else if d < 2 * pairs {
      var pair := d - pairs;
      value := x[pair] * s[pair] + x[d] * c[pair];
    } else {
      value := x[d];
    }
  }
}
