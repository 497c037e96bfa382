// Flat buffers seen as consecutive blocks of equal size, and the index
// arithmetic every flattened loop nest of the repository rests on.
module Blocks {

  // Blocks of n do not overlap.
  lemma Gap(n: nat, p: int, q: int)
    requires p < q
    ensures p * n + n <= q * n
  {
    assert q * n == p * n + n + (q - p - 1) * n;
  }

  lemma NextMultiple(d: nat, i: nat)
    ensures (i + 1) * d == i * d + d
  {
  }

  lemma DivMod(n: nat, q: nat, r: nat)
    requires r < n
    ensures (q * n + r) / n == q
    ensures (q * n + r) % n == r
  {
    var x := q * n + r;
    DivModUnique(n, x / n, x % n, q, r);
  }

  // A quotient-remainder pair is determined by the flat index it encodes.
  lemma DivModUnique(n: nat, q1: int, r1: int, q2: int, r2: int)
    requires 0 <= r1 < n && 0 <= r2 < n
    requires q1 * n + r1 == q2 * n + r2
    ensures q1 == q2 && r1 == r2
  {
    if q1 < q2 {
      Gap(n, q1, q2);
    } else if q2 < q1 {
      Gap(n, q2, q1);
    }
  }

  lemma QuotientBound(x: nat, n: nat, count: nat)
    requires n > 0 && x < count * n
    ensures x / n < count
  {
  }

  // Block i of a flat sequence cut into blocks of d.
  function Block<T>(s: seq<T>, d: nat, i: nat): (b: seq<T>)
    requires i * d + d <= |s|
    ensures |b| == d
  {
    s[i * d..i * d + d]
  }

  // A slice of a slice.
  lemma SliceOfSlice<T>(s: seq<T>, a: nat, n: nat, from: nat, to: nat)
    requires a + n <= |s| && from <= to <= n
    ensures s[a..a + n][from..to] == s[a + from..a + to]
  {
    var whole, part := s[a..a + n], s[a + from..a + to];
    assert |whole[from..to]| == |part| && forall i :: 0 <= i < |part| ==> whole[from..to][i] == part[i];
  }

  lemma NestedSlice<T>(s: seq<T>, a: nat, w: nat, from: nat, to: nat, b: nat, d: nat)
    requires a + w <= |s| && from <= to <= w && b + d <= to - from
    ensures s[a..a + w][from..to][b..b + d] == s[a + from + b..a + from + b + d]
  {
    SliceOfSlice(s, a, w, from, to);
    SliceOfSlice(s, a + from, to - from, b, b + d);
  }

  // Prefixes of two sequences joined.
  lemma TakeJoined<T>(a: seq<T>, b: seq<T>, n: nat)
    requires n <= |a| + |b|
    ensures (a + b)[..n] == if n <= |a| then a[..n] else a + b[..n - |a|]
  {
  }

  // The first n blocks of a flat sequence.
  function Rows<T>(s: seq<T>, d: nat, n: nat): (rows: seq<seq<T>>)
    requires |s| == n * d
    ensures |rows| == n
    ensures forall i :: 0 <= i < n ==> |rows[i]| == d
  {
    seq(n, i requires 0 <= i < n => Gap(d, i, n); Block(s, d, i))
  }

  lemma RowIs<T>(s: seq<T>, d: nat, n: nat, i: nat)
    requires |s| == n * d && i < n && i * d + d <= |s|
    ensures Rows(s, d, n)[i] == Block(s, d, i)
  {
  }

  // Changing nothing outside block i changes exactly row i.
  lemma RowsUpdate<T>(s: seq<T>, t: seq<T>, d: nat, n: nat, i: nat, row: seq<T>)
    requires |s| == |t| == n * d && i < n && i * d + d <= n * d
    requires Block(t, d, i) == row
    requires forall k :: 0 <= k < |s| && !(i * d <= k < i * d + d) ==> t[k] == s[k]
    ensures Rows(t, d, n) == Rows(s, d, n)[i := row]
  {
    forall j | 0 <= j < n
      ensures Rows(t, d, n)[j] == Rows(s, d, n)[i := row][j]
    {
      Gap(d, j, n);
      if j < i {
        Gap(d, j, i);
      } else if i < j {
        Gap(d, i, j);
      }
      if j != i {
        assert Block(t, d, j) == Block(s, d, j);
      }
    }
  }

  lemma RowsSplice<T>(before: seq<T>, next: seq<T>, after: seq<T>, d: nat, n: nat, i: nat)
    requires |before| == n * d && i < n && |next| == d && i * d + d <= n * d
    requires after == before[..i * d] + next + before[i * d + d..]
    ensures |after| == n * d
    ensures Rows(after, d, n) == Rows(before, d, n)[i := next]
  {
    assert Block(after, d, i) == next;
    RowsUpdate(before, after, d, n, i, next);
  }

  // A flat sequence is determined by its rows.
  lemma RowsDetermine<T>(s: seq<T>, t: seq<T>, d: nat, n: nat)
    requires |s| == |t| == n * d && Rows(s, d, n) == Rows(t, d, n)
    ensures s == t
  {
    forall k | 0 <= k < |s|
      ensures s[k] == t[k]
    {
      CellOfRow(s, d, n, k);
      CellOfRow(t, d, n, k);
    }
  }

  lemma CellOfRow<T>(s: seq<T>, d: nat, n: nat, k: nat)
    requires |s| == n * d && k < |s|
    ensures d > 0 && k / d < n && s[k] == Rows(s, d, n)[k / d][k % d]
  {
    hide Rows;
    QuotientBound(k, d, n);
    Gap(d, k / d, n);
    RowIs(s, d, n, k / d);
    PlaceInBlock(s, d, k / d, k % d);
  }

  lemma PlaceInBlock<T>(s: seq<T>, d: nat, i: nat, r: nat)
    requires i * d + d <= |s| && r < d
    ensures Block(s, d, i)[r] == s[i * d + r]
  {
  }

  // Blocks of blocks: a flat buffer of count slots of w rows of d cells.
  function Slots<T>(s: seq<T>, d: nat, w: nat, count: nat): (slots: seq<seq<seq<T>>>)
    requires |s| == count * w * d
    ensures |slots| == count
    ensures forall k :: 0 <= k < count ==> |slots[k]| == w
    ensures forall k, r :: 0 <= k < count && 0 <= r < w ==> |slots[k][r]| == d
  {
    var rows := Rows(s, d, count * w);
    SlotRows(rows, d, w, count);
    Rows(rows, w, count)
  }

  lemma SlotsAre<T>(s: seq<T>, d: nat, w: nat, count: nat)
    requires |s| == count * w * d
    ensures Slots(s, d, w, count) == Rows(Rows(s, d, count * w), w, count)
  {
  }

  lemma SlotCell<T>(s: seq<T>, d: nat, w: nat, count: nat, k: nat, r: nat)
    requires |s| == count * w * d && k < count && r < w
    ensures k * w + r < count * w && Slots(s, d, w, count)[k][r] == Rows(s, d, count * w)[k * w + r]
  {
    hide Rows;
    Gap(w, k, count);
    SlotsAre(s, d, w, count);
    RowIs(Rows(s, d, count * w), w, count, k);
  }

  // A row of a slot lies in one piece of the flat buffer.
  lemma SlotPlace<T>(s: seq<T>, d: nat, w: nat, count: nat, k: nat, r: nat, place: nat)
    requires |s| == count * w * d && k < count && r < w && place == (k * w + r) * d
    ensures place + d <= |s| && Slots(s, d, w, count)[k][r] == s[place..place + d]
  {
    hide Rows, Slots;
    SlotCell(s, d, w, count, k, r);
    Gap(d, k * w + r, count * w);
    RowIs(s, d, count * w, k * w + r);
  }

  lemma SlotsDetermine<T>(s: seq<T>, t: seq<T>, d: nat, w: nat, count: nat)
    requires |s| == |t| == count * w * d && Slots(s, d, w, count) == Slots(t, d, w, count)
    ensures s == t
  {
    hide Rows, Slots;
    SlotsAre(s, d, w, count);
    SlotsAre(t, d, w, count);
    RowsDetermine(Rows(s, d, count * w), Rows(t, d, count * w), w, count);
    RowsDetermine(s, t, d, count * w);
  }

  lemma SlotRows<T>(rows: seq<seq<T>>, d: nat, w: nat, count: nat)
    requires |rows| == count * w && forall q :: 0 <= q < |rows| ==> |rows[q]| == d
    ensures forall k, r :: 0 <= k < count && 0 <= r < w ==> |Rows(rows, w, count)[k][r]| == d
  {
    forall k, r | 0 <= k < count && 0 <= r < w
      ensures |Rows(rows, w, count)[k][r]| == d
    {
      Gap(w, k, count);
      assert Rows(rows, w, count)[k][r] == rows[k * w + r];
    }
  }

  // now is before with next written over it from first on, as far as lo.
  ghost predicate Overwritten<T>(before: seq<T>, next: seq<T>, now: seq<T>, first: nat, lo: nat) {
    lo <= |next| && first + |next| <= |before| && now == before[..first] + next[..lo] + before[first + lo..]
  }

  lemma OverwrittenFits<T>(before: seq<T>, next: seq<T>, now: seq<T>, first: nat, lo: nat)
    requires Overwritten(before, next, now, first, lo)
    ensures |now| == |before| && first + |next| <= |before| && lo <= |next|
  {
  }

  lemma Untouched<T>(before: seq<T>, next: seq<T>, first: nat)
    requires first + |next| <= |before|
    ensures Overwritten(before, next, before, first, 0)
  {
  }

  lemma Complete<T>(before: seq<T>, next: seq<T>, now: seq<T>, first: nat)
    requires Overwritten(before, next, now, first, |next|)
    ensures first + |next| <= |before|
    ensures now == before[..first] + next + before[first + |next|..]
  {
    assert next[..|next|] == next;
  }

  lemma Pending<T>(before: seq<T>, next: seq<T>, now: seq<T>, first: nat, lo: nat, d: nat)
    requires Overwritten(before, next, now, first, lo) && lo + d <= |next|
    ensures now[first + lo..first + lo + d] == before[first + lo..first + lo + d]
  {
    assert now[first + lo..] == before[first + lo..];
  }

  lemma Overwrite<T>(before: seq<T>, next: seq<T>, now: seq<T>, first: nat, lo: nat, d: nat, later: seq<T>)
    requires Overwritten(before, next, now, first, lo) && lo + d <= |next|
    requires later == now[..first + lo] + next[lo..lo + d] + now[first + lo + d..]
    ensures Overwritten(before, next, later, first, lo + d)
  {
    assert now[..first + lo] == before[..first] + next[..lo];
    assert now[first + lo + d..] == before[first + lo + d..];
    assert next[..lo + d] == next[..lo] + next[lo..lo + d];
  }

  lemma OverwriteOne<T>(before: seq<T>, next: seq<T>, now: seq<T>, first: nat, lo: nat, later: seq<T>)
    requires Overwritten(before, next, now, first, lo) && lo < |next|
    requires |now| == |before| && later == now[first + lo := next[lo]]
    ensures Overwritten(before, next, later, first, lo + 1)
  {
    assert later == now[..first + lo] + [next[lo]] + now[first + lo + 1..];
    assert next[lo..lo + 1] == [next[lo]];
    Overwrite(before, next, now, first, lo, 1, later);
  }

  lemma PendingOne<T>(before: seq<T>, next: seq<T>, now: seq<T>, first: nat, lo: nat)
    requires Overwritten(before, next, now, first, lo) && lo < |next|
    ensures |now| == |before| && now[first + lo] == before[first + lo]
  {
  }
}
