// Order statistics of a list of readings.
module Statistics {

  ghost predicate Ascending(s: seq<real>) {
    forall i, j :: 0 <= i < j < |s| ==> s[i] <= s[j]
  }

  lemma Prepended(x: real, s: seq<real>)
    requires Ascending(s) && (|s| > 0 ==> x <= s[0])
    ensures Ascending([x] + s)
  {
  }

  lemma Rest(s: seq<real>)
    requires Ascending(s) && |s| > 0
    ensures Ascending(s[1..]) && (|s| > 1 ==> s[0] <= s[1]) && s == [s[0]] + s[1..]
  {
  }

  function Insert(x: real, s: seq<real>): (r: seq<real>)
    requires Ascending(s)
    ensures Ascending(r) && |r| == |s| + 1
    ensures r[0] == if |s| == 0 || x <= s[0] then x else s[0]
    ensures multiset(r) == multiset(s) + multiset{x}
  {
    hide Ascending;
    if |s| == 0 || x <= s[0] then
      Prepended(x, s);
      [x] + s
    else
      Rest(s);
      var rest := Insert(x, s[1..]);
      Prepended(s[0], rest);
      [s[0]] + rest
  }

  // The ascending arrangement of a list.
  function Sort(s: seq<real>): (r: seq<real>)
    ensures Ascending(r) && |r| == |s| && multiset(r) == multiset(s)
  {
    if |s| == 0 then []
    else
      assert s == s[..|s| - 1] + [s[|s| - 1]];
      Insert(s[|s| - 1], Sort(s[..|s| - 1]))
  }

  lemma HeadIsLeast(a: seq<real>, x: real)
    requires Ascending(a) && x in multiset(a)
    ensures |a| > 0 && a[0] <= x
  {
    assert x in a;
  }

  // There is only one ascending arrangement, however it is computed.
  lemma {:induction false} SortIsUnique(a: seq<real>, b: seq<real>)
    requires Ascending(a) && Ascending(b) && multiset(a) == multiset(b)
    ensures a == b
    decreases |a|
  {
    hide Ascending;
    SameLength(a, b);
    if |a| == 0 {
    } else {
      SameHead(a, b);
      Tail(a);
      Tail(b);
      SortIsUnique(a[1..], b[1..]);
    }
  }

  lemma SameLength(a: seq<real>, b: seq<real>)
    requires multiset(a) == multiset(b)
    ensures |a| == |b|
  {
    assert |a| == |multiset(a)| && |b| == |multiset(b)|;
  }

  lemma SameHead(a: seq<real>, b: seq<real>)
    requires |a| > 0 && |b| > 0 && Ascending(a) && Ascending(b) && multiset(a) == multiset(b)
    ensures a[0] == b[0]
  {
    hide Ascending;
    assert a[0] in multiset(a) && b[0] in multiset(b);
    HeadIsLeast(b, a[0]);
    HeadIsLeast(a, b[0]);
  }

  lemma Tail(a: seq<real>)
    requires |a| > 0 && Ascending(a)
    ensures Ascending(a[1..])
    ensures multiset(a[1..]) == multiset(a) - multiset{a[0]}
    ensures a == [a[0]] + a[1..]
  {
    assert a == [a[0]] + a[1..];
  }

  // Floor rank of tenths / 10 among n ascending readings.
  function Rank(n: nat, tenths: nat): (k: nat)
    requires n > 0 && tenths <= 10
    ensures k < n
  {
    assert (n - 1) * tenths <= (n - 1) * 10;
    (n - 1) * tenths / 10
  }

  lemma RanksOrdered(n: nat, low: nat, high: nat)
    requires n > 0 && low <= high <= 10
    ensures Rank(n, low) <= Rank(n, high)
  {
    assert (n - 1) * high == (n - 1) * low + (n - 1) * (high - low);
    TenthsOrdered((n - 1) * low, (n - 1) * high);
  }

  lemma TenthsOrdered(a: nat, b: nat)
    requires a <= b
    ensures a / 10 <= b / 10
  {
  }

  function Percentile(sorted: seq<real>, tenths: nat): (value: real)
    requires |sorted| > 0 && tenths <= 10
  {
    sorted[Rank(|sorted|, tenths)]
  }

  function SampleMedian(samples: seq<real>): real
    requires |samples| > 0
  {
    Percentile(Sort(samples), 5)
  }

  // ---- What a percentile means ---------------------------------------------------

  function CountAtMost(s: seq<real>, v: real): nat {
    if |s| == 0 then 0 else CountAtMost(s[..|s| - 1], v) + (if s[|s| - 1] <= v then 1 else 0)
  }

  function CountAtLeast(s: seq<real>, v: real): nat {
    if |s| == 0 then 0 else CountAtLeast(s[..|s| - 1], v) + (if s[|s| - 1] >= v then 1 else 0)
  }

  lemma {:induction false} CountsAppend(a: seq<real>, b: seq<real>, v: real)
    ensures CountAtMost(a + b, v) == CountAtMost(a, v) + CountAtMost(b, v)
    ensures CountAtLeast(a + b, v) == CountAtLeast(a, v) + CountAtLeast(b, v)
    decreases |b|
  {
    if |b| == 0 {
      assert a + b == a;
    } else {
      CountsAppend(a, b[..|b| - 1], v);
      assert (a + b)[..|a + b| - 1] == a + b[..|b| - 1];
    }
  }

  lemma {:induction false} CountsInserted(x: real, s: seq<real>, v: real)
    requires Ascending(s)
    ensures CountAtMost(Insert(x, s), v) == CountAtMost(s, v) + (if x <= v then 1 else 0)
    ensures CountAtLeast(Insert(x, s), v) == CountAtLeast(s, v) + (if x >= v then 1 else 0)
    decreases |s|
  {
    CountsAppend([x], s, v);
    assert [x][..0] == [];
    if |s| == 0 || x <= s[0] {
    } else {
      CountsInserted(x, s[1..], v);
      CountsAppend([s[0]], s[1..], v);
      CountsAppend([s[0]], Insert(x, s[1..]), v);
      assert s == [s[0]] + s[1..];
    }
  }

  lemma {:induction false} CountsSorted(s: seq<real>, v: real)
    ensures CountAtMost(Sort(s), v) == CountAtMost(s, v)
    ensures CountAtLeast(Sort(s), v) == CountAtLeast(s, v)
    decreases |s|
  {
    if |s| == 0 {
    } else {
      CountsSorted(s[..|s| - 1], v);
      CountsInserted(s[|s| - 1], Sort(s[..|s| - 1]), v);
    }
  }

  lemma {:induction false} CountAll(s: seq<real>, v: real)
    ensures (forall i :: 0 <= i < |s| ==> s[i] <= v) ==> CountAtMost(s, v) == |s|
    ensures (forall i :: 0 <= i < |s| ==> s[i] >= v) ==> CountAtLeast(s, v) == |s|
    decreases |s|
  {
    if |s| == 0 {
    } else {
      CountAll(s[..|s| - 1], v);
    }
  }

  // The percentile of any list of readings: its rank k leaves more than k
  // readings at most as large and at least n - k at least as large.
  lemma PercentileRank(samples: seq<real>, tenths: nat)
    requires |samples| > 0 && tenths <= 10
    ensures var value, k := Percentile(Sort(samples), tenths), Rank(|samples|, tenths);
      CountAtMost(samples, value) >= k + 1 && CountAtLeast(samples, value) >= |samples| - k
  {
    hide Sort, CountAtMost, CountAtLeast, Rank;
    var k := Rank(|samples|, tenths);
    CountsSorted(samples, Sort(samples)[k]);
    RankCounts(Sort(samples), k);
  }

  lemma RankCounts(sorted: seq<real>, k: nat)
    requires Ascending(sorted) && k < |sorted|
    ensures CountAtMost(sorted, sorted[k]) >= k + 1 && CountAtLeast(sorted, sorted[k]) >= |sorted| - k
  {
    hide CountAtMost, CountAtLeast;
    var value := sorted[k];
    assert sorted == sorted[..k + 1] + sorted[k + 1..] && sorted == sorted[..k] + sorted[k..];
    CountsAppend(sorted[..k + 1], sorted[k + 1..], value);
    CountsAppend(sorted[..k], sorted[k..], value);
    CountAll(sorted[..k + 1], value);
    CountAll(sorted[k..], value);
  }

  lemma PercentilesOrdered(samples: seq<real>, low: nat, high: nat)
    requires |samples| > 0 && low <= high <= 10
    ensures Percentile(Sort(samples), low) <= Percentile(Sort(samples), high)
  {
    hide Sort, Rank;
    RanksOrdered(|samples|, low, high);
  }

  function CountBelow(s: seq<real>, v: real): nat {
    if |s| == 0 then 0 else CountBelow(s[..|s| - 1], v) + (if s[|s| - 1] < v then 1 else 0)
  }

  lemma {:induction false} BelowOrAtLeast(s: seq<real>, v: real)
    ensures CountBelow(s, v) + CountAtLeast(s, v) == |s|
  {
    if |s| == 0 {
    } else {
      BelowOrAtLeast(s[..|s| - 1], v);
    }
  }

  lemma {:induction false} AtMostIsBelow(s: seq<real>, v: real, w: real)
    requires v < w
    ensures CountAtMost(s, v) <= CountBelow(s, w)
  {
    if |s| == 0 {
    } else {
      AtMostIsBelow(s[..|s| - 1], v, w);
    }
  }

  // The reading that has k + 1 readings at most as large, but not k + 1 smaller ones.
  ghost predicate IsRanked(s: seq<real>, k: nat, v: real) {
    v in s && CountBelow(s, v) <= k < CountAtMost(s, v)
  }

  ghost predicate IsMedian(s: seq<real>, v: real) {
    |s| > 0 && IsRanked(s, (|s| - 1) / 2, v)
  }

  lemma RankIs(n: nat, tenths: nat, k: nat)
    requires n > 0 && tenths <= 10
    ensures Rank(n, tenths) == k <==> 10 * k <= (n - 1) * tenths < 10 * (k + 1)
  {
    var x := (n - 1) * tenths;
    assert x == x / 10 * 10 + x % 10;
  }

  // A percentile is the one reading ranked by the floor of its share of the others.
  lemma PercentileIsExact(samples: seq<real>, tenths: nat, k: nat, v: real)
    requires |samples| > 0 && tenths <= 10 && 10 * k <= (|samples| - 1) * tenths < 10 * (k + 1)
    ensures v == Percentile(Sort(samples), tenths) <==> IsRanked(samples, k, v)
  {
    hide Sort, CountAtMost, CountAtLeast, CountBelow, Rank;
    RankIs(|samples|, tenths, k);
    var value := Percentile(Sort(samples), tenths);
    PercentileRank(samples, tenths);
    BelowOrAtLeast(samples, value);
    assert value in multiset(Sort(samples)) && value in multiset(samples);
    if v < value {
      AtMostIsBelow(samples, v, value);
    } else if value < v {
      AtMostIsBelow(samples, value, v);
    }
  }

  // The sample median is the median.
  lemma MedianIsExact(samples: seq<real>, v: real)
    requires |samples| > 0
    ensures v == SampleMedian(samples) <==> IsMedian(samples, v)
  {
    hide Sort, Percentile, IsRanked;
    PercentileIsExact(samples, 5, (|samples| - 1) / 2, v);
  }

  // ---- Stability of a window --------------------------------------------------------

  function Minimum(s: seq<real>): (m: real)
    requires |s| > 0
    ensures m in s && forall x :: x in s ==> m <= x
  {
    if |s| == 1 then s[0]
    else
      assert s == s[..|s| - 1] + [s[|s| - 1]];
      var m := Minimum(s[..|s| - 1]);
      if s[|s| - 1] < m then s[|s| - 1] else m
  }

  function Maximum(s: seq<real>): (m: real)
    requires |s| > 0
    ensures m in s && forall x :: x in s ==> x <= m
  {
    if |s| == 1 then s[0]
    else
      assert s == s[..|s| - 1] + [s[|s| - 1]];
      var m := Maximum(s[..|s| - 1]);
      if s[|s| - 1] > m then s[|s| - 1] else m
  }

  predicate MedianWindowStable(history: seq<real>, window: nat, relativeSpread: real)
    requires window > 0
  {
    |history| >= window &&
    var recent := history[|history| - window..];
    var center := SampleMedian(recent);
    center > 0.0 && (Maximum(recent) - Minimum(recent)) / center <= relativeSpread
  }

  lemma QuotientAtMost(x: real, center: real, spread: real)
    requires center > 0.0
    ensures x / center <= spread <==> x <= spread * center
  {
    assert x / center * center == x;
    if x / center <= spread {
      assert (spread - x / center) * center >= 0.0;
    } else {
      assert (x / center - spread) * center > 0.0;
    }
  }

  // A window is stable exactly when its median is positive and no two of its
  // entries differ by more than the spread allows around it.
  lemma StableMeansClose(history: seq<real>, window: nat, spread: real)
    requires 0 < window <= |history|
    ensures var recent := history[|history| - window..];
      var center := SampleMedian(recent);
      MedianWindowStable(history, window, spread) <==>
        center > 0.0 && forall x, y :: x in recent && y in recent ==> x - y <= spread * center
  {
    hide SampleMedian;
    var recent := history[|history| - window..];
    var center := SampleMedian(recent);
    if center > 0.0 {
      QuotientAtMost(Maximum(recent) - Minimum(recent), center, spread);
    }
  }
}
