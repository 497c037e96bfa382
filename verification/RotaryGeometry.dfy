// The rotary step as geometry: turns compose, undo each other, keep lengths,
// and inner products see only the relative angle.
module RotaryGeometry {
  import opened Analysis
  import opened Rotary
  import opened Vectors

  // ---- Turns compose -------------------------------------------------------------

  // Cosines and sines of the sum of two angles per pair.
  function SumCosine(c1: seq<real>, s1: seq<real>, c2: seq<real>, s2: seq<real>): (c: seq<real>)
    requires |c1| == |s1| == |c2| == |s2|
    ensures |c| == |c1|
  {
    seq(|c1|, p requires 0 <= p < |c1| => c1[p] * c2[p] - s1[p] * s2[p])
  }

  function SumSine(c1: seq<real>, s1: seq<real>, c2: seq<real>, s2: seq<real>): (s: seq<real>)
    requires |c1| == |s1| == |c2| == |s2|
    ensures |s| == |c1|
  {
    seq(|c1|, p requires 0 <= p < |c1| => s1[p] * c2[p] + c1[p] * s2[p])
  }

  lemma Turned(a: real, b: real, c1: real, s1: real, c2: real, s2: real)
    ensures (a * c1 - b * s1) * c2 - (a * s1 + b * c1) * s2 == a * (c1 * c2 - s1 * s2) - b * (s1 * c2 + c1 * s2)
    ensures (a * c1 - b * s1) * s2 + (a * s1 + b * c1) * c2 == a * (s1 * c2 + c1 * s2) + b * (c1 * c2 - s1 * s2)
  {
  }

  lemma RotationsCompose(
      pairs: nat, x: seq<real>, c1: seq<real>, s1: seq<real>, c2: seq<real>, s2: seq<real>)
    requires 2 * pairs <= |x| && |c1| == |s1| == |c2| == |s2| == pairs
    ensures Rotate(pairs, Rotate(pairs, x, c1, s1), c2, s2)
         == Rotate(pairs, x, SumCosine(c1, s1, c2, s2), SumSine(c1, s1, c2, s2))
  {
    var twice := Rotate(pairs, Rotate(pairs, x, c1, s1), c2, s2);
    var once := Rotate(pairs, x, SumCosine(c1, s1, c2, s2), SumSine(c1, s1, c2, s2));
    forall d | 0 <= d < |x|
      ensures twice[d] == once[d]
    {
      if d < 2 * pairs {
        var p := if d < pairs then d else d - pairs;
        Turned(x[p], x[p + pairs], c1[p], s1[p], c2[p], s2[p]);
      }
    }
  }

  ghost predicate UnitCircle(c: seq<real>, s: seq<real>) {
    |c| == |s| && forall p :: 0 <= p < |c| ==> c[p] * c[p] + s[p] * s[p] == 1.0
  }

  function Constant(n: nat, x: real): (xs: seq<real>)
    ensures |xs| == n
  {
    seq(n, _ => x)
  }

  function Negated(s: seq<real>): (t: seq<real>)
    ensures |t| == |s|
  {
    seq(|s|, p requires 0 <= p < |s| => -s[p])
  }

  lemma NoTurn(pairs: nat, x: seq<real>)
    requires 2 * pairs <= |x|
    ensures Rotate(pairs, x, Constant(pairs, 1.0), Constant(pairs, 0.0)) == x
  {
  }

  lemma OppositeTurn(c: real, s: real)
    ensures c * c - s * -s == c * c + s * s
    ensures s * c + c * -s == 0.0
  {
  }

  // Negating the sine undoes the turn.
  lemma RotationUndone(pairs: nat, x: seq<real>, c: seq<real>, s: seq<real>)
    requires 2 * pairs <= |x| && |c| == pairs && UnitCircle(c, s)
    ensures Rotate(pairs, Rotate(pairs, x, c, s), c, Negated(s)) == x
  {
    RotationsCompose(pairs, x, c, s, c, Negated(s));
    var cosine, sine := SumCosine(c, s, c, Negated(s)), SumSine(c, s, c, Negated(s));
    forall p | 0 <= p < pairs
      ensures cosine[p] == 1.0 && sine[p] == 0.0
    {
      OppositeTurn(c[p], s[p]);
    }
    assert cosine == Constant(pairs, 1.0) && sine == Constant(pairs, 0.0);
    NoTurn(pairs, x);
  }

  lemma PassThrough(pairs: nat, x: seq<real>, c: seq<real>, s: seq<real>)
    requires 2 * pairs <= |x| && |c| == |s| == pairs
    ensures Rotate(pairs, x, c, s)[2 * pairs..] == x[2 * pairs..]
  {
  }

  // ---- Inner products ------------------------------------------------------------

  lemma RotatedPair(pairs: nat, x: seq<real>, c: seq<real>, s: seq<real>, p: nat)
    requires 2 * pairs <= |x| && |c| == |s| == pairs && p < pairs
    ensures Rotate(pairs, x, c, s)[p] == x[p] * c[p] - x[p + pairs] * s[p]
    ensures Rotate(pairs, x, c, s)[p + pairs] == x[p] * s[p] + x[p + pairs] * c[p]
  {
  }

  // What the first n pairs contribute when w and v are the cosine and sine of
  // the angle between the two turns.
  function PairSum(pairs: nat, n: nat, a: seq<real>, b: seq<real>, w: seq<real>, v: seq<real>): real
    requires n <= pairs && 2 * pairs <= |a| == |b| && |w| == |v| == pairs
  {
    if n == 0 then 0.0
    else
      var p, q := n - 1, n - 1 + pairs;
      PairSum(pairs, p, a, b, w, v) + PairTerm(a[p], a[q], b[p], b[q], w[p], v[p])
  }

  function PairTerm(a: real, a': real, b: real, b': real, w: real, v: real): real {
    (a * b + a' * b') * w + (a * b' - a' * b) * v
  }

  lemma PairCell(
      a: real, a': real, b: real, b': real, c1: real, s1: real, c2: real, s2: real,
      x: real, x': real, y: real, y': real, w: real, v: real)
    requires x == a * c1 - a' * s1 && x' == a * s1 + a' * c1
    requires y == b * c2 - b' * s2 && y' == b * s2 + b' * c2
    requires w == c1 * c2 + s1 * s2 && v == s1 * c2 - c1 * s2
    ensures x * y + x' * y' == PairTerm(a, a', b, b', w, v)
  {
    PairProduct(a, a', b, b', c1, s1, c2, s2, x, x', y, y');
    var along, across := a * b + a' * b', a * b' - a' * b;
    var turned := SameProduct(along, w, along, c1 * c2 + s1 * s2);
    var twisted := SameProduct(across, v, across, s1 * c2 - c1 * s2);
  }

  lemma PairProduct(
      a: real, a': real, b: real, b': real, c1: real, s1: real, c2: real, s2: real,
      x: real, x': real, y: real, y': real)
    requires x == a * c1 - a' * s1 && x' == a * s1 + a' * c1
    requires y == b * c2 - b' * s2 && y' == b * s2 + b' * c2
    ensures x * y + x' * y'
         == (a * b + a' * b') * (c1 * c2 + s1 * s2) + (a * b' - a' * b) * (s1 * c2 - c1 * s2)
  {
    assert x * y == a * b * (c1 * c2) - a * b' * (c1 * s2) - a' * b * (s1 * c2) + a' * b' * (s1 * s2);
    assert x' * y' == a * b * (s1 * s2) + a * b' * (s1 * c2) + a' * b * (c1 * s2) + a' * b' * (c1 * c2);
  }

  // The angle between two turns, per pair.
  ghost predicate Between(
      c1: seq<real>, s1: seq<real>, c2: seq<real>, s2: seq<real>, w: seq<real>, v: seq<real>) {
    && |c1| == |s1| == |c2| == |s2| == |w| == |v|
    && forall p :: 0 <= p < |c1| ==> w[p] == c1[p] * c2[p] + s1[p] * s2[p] && v[p] == s1[p] * c2[p] - c1[p] * s2[p]
  }

  lemma {:induction false} PairSums(
      pairs: nat, n: nat, a: seq<real>, b: seq<real>,
      c1: seq<real>, s1: seq<real>, c2: seq<real>, s2: seq<real>, w: seq<real>, v: seq<real>)
    requires n <= pairs && 2 * pairs <= |a| == |b| && |c1| == pairs && Between(c1, s1, c2, s2, w, v)
    ensures var x, y := Rotate(pairs, a, c1, s1), Rotate(pairs, b, c2, s2);
      Dot(x[..n], y[..n]) + Dot(x[pairs..][..n], y[pairs..][..n]) == PairSum(pairs, n, a, b, w, v)
  {
    hide Dot, Rotate, PairTerm;
    var x, y := Rotate(pairs, a, c1, s1), Rotate(pairs, b, c2, s2);
    if n == 0 {
      DotEmpty(x, y);
      DotEmpty(x[pairs..], y[pairs..]);
    } else {
      var p := n - 1;
      PairSums(pairs, p, a, b, c1, s1, c2, s2, w, v);
      PairStep(pairs, p, a, b, c1, s1, c2, s2, w, v);
    }
  }

  // One more pair of a sum over pairs.
  lemma PairStep(
      pairs: nat, p: nat, a: seq<real>, b: seq<real>,
      c1: seq<real>, s1: seq<real>, c2: seq<real>, s2: seq<real>, w: seq<real>, v: seq<real>)
    requires p < pairs && 2 * pairs <= |a| == |b| && |c1| == pairs && Between(c1, s1, c2, s2, w, v)
    ensures var x, y := Rotate(pairs, a, c1, s1), Rotate(pairs, b, c2, s2);
      Dot(x[..p + 1], y[..p + 1]) + Dot(x[pairs..][..p + 1], y[pairs..][..p + 1])
      == Dot(x[..p], y[..p]) + Dot(x[pairs..][..p], y[pairs..][..p])
        + PairTerm(a[p], a[p + pairs], b[p], b[p + pairs], w[p], v[p])
  {
    hide Dot, Rotate, PairTerm;
    var x, y, q := Rotate(pairs, a, c1, s1), Rotate(pairs, b, c2, s2), p + pairs;
    DotExtend(x, y, p);
    DotExtend(x[pairs..], y[pairs..], p);
    RotatedPair(pairs, a, c1, s1, p);
    RotatedPair(pairs, b, c2, s2, p);
    var upper := SameProduct(x[pairs..][p], y[pairs..][p], x[q], y[q]);
    PairCell(a[p], a[q], b[p], b[q], c1[p], s1[p], c2[p], s2[p], x[p], x[q], y[p], y[q], w[p], v[p]);
  }

  // The inner product of two turned vectors sees the two turns only through
  // the angle between them; the dimensions past the pairs contribute as they are.
  lemma RelativeProduct(
      pairs: nat, a: seq<real>, b: seq<real>,
      c1: seq<real>, s1: seq<real>, c2: seq<real>, s2: seq<real>, w: seq<real>, v: seq<real>)
    requires 2 * pairs <= |a| == |b| && |c1| == pairs && Between(c1, s1, c2, s2, w, v)
    ensures Dot(Rotate(pairs, a, c1, s1), Rotate(pairs, b, c2, s2))
         == PairSum(pairs, pairs, a, b, w, v) + Dot(a[2 * pairs..], b[2 * pairs..])
  {
    hide Dot, PairSum, Rotate;
    var x, y := Rotate(pairs, a, c1, s1), Rotate(pairs, b, c2, s2);
    PairSums(pairs, pairs, a, b, c1, s1, c2, s2, w, v);
    DotSplit(x, y, pairs);
    DotSplit(x[pairs..], y[pairs..], pairs);
    assert x[pairs..][pairs..] == x[2 * pairs..] && y[pairs..][pairs..] == y[2 * pairs..];
    PassThrough(pairs, a, c1, s1);
    PassThrough(pairs, b, c2, s2);
  }

  // So turning both vectors by the same angle keeps inner products, and with
  // them lengths.
  lemma RotationIsometry(pairs: nat, a: seq<real>, b: seq<real>, c: seq<real>, s: seq<real>)
    requires 2 * pairs <= |a| == |b| && |c| == pairs && UnitCircle(c, s)
    ensures Dot(Rotate(pairs, a, c, s), Rotate(pairs, b, c, s)) == Dot(a, b)
  {
    hide Dot, PairSum, Rotate;
    var one, zero := Constant(pairs, 1.0), Constant(pairs, 0.0);
    SameAngle(c, s);
    RelativeProduct(pairs, a, b, c, s, c, s, one, zero);
    RelativeProduct(pairs, a, b, one, zero, one, zero, one, zero);
    NoTurn(pairs, a);
    NoTurn(pairs, b);
  }

  lemma SameAngle(c: seq<real>, s: seq<real>)
    requires UnitCircle(c, s)
    ensures Between(c, s, c, s, Constant(|c|, 1.0), Constant(|c|, 0.0))
  {
  }

  // A prepared head is exactly as long as its normalization made it.
  lemma PreparedKeepsNorm(
      f: Functions, config: Config, x: seq<real>, norm: seq<real>, c: seq<real>, s: seq<real>)
    requires f.Lawful() && config.Valid() && |x| == |norm| == config.headDim
    requires |c| == config.pairs && UnitCircle(c, s)
    ensures SquaredNorm(Prepared(f, config, x, norm, c, s)) == SquaredNorm(Normalized(f, config, x, norm))
  {
    hide Dot, Rotate, Normalized;
    var y := Normalized(f, config, x, norm);
    RotationIsometry(config.pairs, y, y, c, s);
  }
}
