// Finite real vectors: the inner products the numerical oracles accumulate.
module Vectors {

  // Accumulated left to right, as the loops of the oracles do.
  function Dot(a: seq<real>, b: seq<real>): real
    requires |a| == |b|
    decreases |a|
  {
    if |a| == 0 then 0.0
    else Dot(a[..|a| - 1], b[..|b| - 1]) + a[|a| - 1] * b[|b| - 1]
  }

  function SquaredNorm(a: seq<real>): real {
    Dot(a, a)
  }

  // c is x * a + y * b.
  ghost predicate Combines(c: seq<real>, x: real, a: seq<real>, y: real, b: seq<real>) {
    |c| == |a| == |b| && forall i :: 0 <= i < |c| ==> c[i] == x * a[i] + y * b[i]
  }

  function Difference(a: seq<real>, b: seq<real>): (c: seq<real>)
    requires |a| == |b|
    ensures |c| == |a|
    ensures forall i :: 0 <= i < |a| ==> c[i] == a[i] - b[i]
  {
    seq(|a|, i requires 0 <= i < |a| => a[i] - b[i])
  }

  lemma DotEmpty(a: seq<real>, b: seq<real>)
    ensures Dot(a[..0], b[..0]) == 0.0
  {
  }

  // The inner product of n consecutive cells of two flat buffers.
  function FlatDot(a: seq<real>, i: nat, b: seq<real>, j: nat, n: nat): real
    requires i + n <= |a| && j + n <= |b|
  {
    if n == 0 then 0.0 else FlatDot(a, i, b, j, n - 1) + a[i + n - 1] * b[j + n - 1]
  }

  lemma {:induction false} FlatDotIs(a: seq<real>, i: nat, b: seq<real>, j: nat, n: nat)
    requires i + n <= |a| && j + n <= |b|
    ensures FlatDot(a, i, b, j, n) == Dot(a[i..i + n], b[j..j + n])
  {
    if n == 0 {
    } else {
      FlatDotIs(a, i, b, j, n - 1);
      assert a[i..i + n][..n - 1] == a[i..i + n - 1] && b[j..j + n][..n - 1] == b[j..j + n - 1];
    }
  }

  // Products of equal factors, where only the factors are known to be equal.
  lemma SameProduct(a: real, b: real, c: real, d: real) returns (product: real)
    requires a == c && b == d
    ensures product == a * b && product == c * d
  {
    product := a * b;
  }

  // One step of an accumulation loop.
  lemma DotExtend(a: seq<real>, b: seq<real>, n: nat)
    requires n < |a| == |b|
    ensures Dot(a[..n + 1], b[..n + 1]) == Dot(a[..n], b[..n]) + a[n] * b[n]
  {
    assert a[..n + 1][..n] == a[..n];
    assert b[..n + 1][..n] == b[..n];
  }

  lemma {:induction false} DotSymmetric(a: seq<real>, b: seq<real>)
    requires |a| == |b|
    ensures Dot(a, b) == Dot(b, a)
    decreases |a|
  {
    if |a| == 0 {
    } else {
      DotSymmetric(a[..|a| - 1], b[..|b| - 1]);
    }
  }

  lemma Expand(x: real, a: real, y: real, b: real, z: real, p: real, q: real)
    ensures x * p + y * q + (x * a + y * b) * z == x * (p + a * z) + y * (q + b * z)
  {
    assert (x * a + y * b) * z == x * (a * z) + y * (b * z);
  }

  lemma {:induction false} DotCombines(c: seq<real>, x: real, a: seq<real>, y: real, b: seq<real>, z: seq<real>)
    requires Combines(c, x, a, y, b) && |z| == |c|
    ensures Dot(c, z) == x * Dot(a, z) + y * Dot(b, z)
    decreases |c|
  {
    if |c| == 0 {
    } else {
      var n := |a| - 1;
      DotCombines(c[..n], x, a[..n], y, b[..n], z[..n]);
      Expand(x, a[n], y, b[n], z[n], Dot(a[..n], z[..n]), Dot(b[..n], z[..n]));
    }
  }

  lemma {:induction false} DotSplit(a: seq<real>, b: seq<real>, n: nat)
    requires n <= |a| == |b|
    ensures Dot(a, b) == Dot(a[..n], b[..n]) + Dot(a[n..], b[n..])
    decreases |a|
  {
    var m := |a| - 1;
    if n == |a| {
      assert a[..n] == a && b[..n] == b;
    } else {
      DotSplit(a[..m], b[..m], n);
      assert a[..m][..n] == a[..n] && b[..m][..n] == b[..n];
      assert a[n..][..m - n] == a[..m][n..] && b[n..][..m - n] == b[..m][n..];
    }
  }

  lemma {:induction false} SquaredNormNonNegative(a: seq<real>)
    ensures SquaredNorm(a) >= 0.0
    decreases |a|
  {
    if |a| == 0 {
    } else {
      SquaredNormNonNegative(a[..|a| - 1]);
      var x := a[|a| - 1];
      assert x * x >= 0.0;
    }
  }

  function Expanded(x: real, y: real, aa: real, ab: real, bb: real): real {
    x * x * aa + 2.0 * (x * y) * ab + y * y * bb
  }

  lemma Square(x: real, y: real, aa: real, ab: real, bb: real, ac: real, bc: real, cc: real)
    requires ac == x * aa + y * ab && bc == x * ab + y * bb && cc == x * ac + y * bc
    ensures cc == Expanded(x, y, aa, ab, bb)
  {
    assert x * (x * aa + y * ab) == x * x * aa + (x * y) * ab;
    assert y * (x * ab + y * bb) == (x * y) * ab + y * y * bb;
  }

  // |x * a + y * b|^2 expanded.
  lemma SquaredNormCombines(c: seq<real>, x: real, a: seq<real>, y: real, b: seq<real>)
    requires Combines(c, x, a, y, b)
    ensures SquaredNorm(c) == Expanded(x, y, SquaredNorm(a), Dot(a, b), SquaredNorm(b))
  {
    hide Dot, Expanded;
    var ac, bc, cc := Dot(c, a), Dot(c, b), Dot(c, c);
    assert cc == x * ac + y * bc by {
      DotCombines(c, x, a, y, b, c);
      DotSymmetric(a, c);
      DotSymmetric(b, c);
    }
    assert ac == x * Dot(a, a) + y * Dot(a, b) by {
      DotCombines(c, x, a, y, b, a);
      DotSymmetric(b, a);
    }
    assert bc == x * Dot(a, b) + y * Dot(b, b) by {
      DotCombines(c, x, a, y, b, b);
    }
    Square(x, y, Dot(a, a), Dot(a, b), Dot(b, b), ac, bc, cc);
  }
}
