// The order in which one sampling round visits its tasks: forwards or
// backwards by parity, rotated by the round number.
module RoundOrder {
  import opened Blocks
  import opened Permutations

  function Reversed<T>(s: seq<T>): (r: seq<T>)
    ensures |r| == |s|
    ensures forall i :: 0 <= i < |s| ==> r[i] == s[|s| - 1 - i]
  {
    seq(|s|, i requires 0 <= i < |s| => s[|s| - 1 - i])
  }

  // The task visited at position p of round sample.
  function TaskAt(sample: nat, n: nat, p: nat): (task: nat)
    requires p < n
    ensures task < n
  {
    var shifted := (p + sample) % n;
    if sample % 2 == 1 then n - 1 - shifted else shifted
  }

  method MeasurementOrder(sample: nat, n: nat) returns (order: seq<nat>)
    ensures |order| == n && forall p :: 0 <= p < n ==> order[p] == TaskAt(sample, n, p)
  {
    if n == 0 {
      return [];
    }
    order := seq(n, i requires 0 <= i < n => i);
    if sample % 2 == 1 {
      order := Reversed(order);
    }
    var k := sample % n;
    ghost var before := order;
    order := order[k..] + order[..k];
    forall p | 0 <= p < n
      ensures order[p] == TaskAt(sample, n, p)
    {
      ShiftedMod(p, sample, n);
    }
  }

  lemma ShiftedMod(p: nat, sample: nat, n: nat)
    requires p < n
    ensures var k := sample % n;
      (p + sample) % n == if p + k < n then p + k else p + k - n
  {
    var q, k := sample / n, sample % n;
    assert p + sample == q * n + (p + k);
    if p + k < n {
      DivMod(n, q, p + k);
    } else {
      assert p + sample == (q + 1) * n + (p + k - n);
      DivMod(n, q + 1, p + k - n);
    }
  }

  // ---- Every round is a permutation -------------------------------------------------

  // The position at which a round visits a task.
  function PositionOf(sample: nat, n: nat, task: nat): (p: nat)
    requires task < n
    ensures p < n
  {
    var target := if sample % 2 == 1 then n - 1 - task else task;
    (target + n - sample % n) % n
  }

  lemma VisitedOnce(sample: nat, n: nat, p: nat, task: nat)
    requires p < n && task < n
    ensures TaskAt(sample, n, p) == task <==> p == PositionOf(sample, n, task)
  {
    var k := sample % n;
    var target := if sample % 2 == 1 then n - 1 - task else task;
    ShiftedMod(p, sample, n);
    if target >= k {
      DivMod(n, 1, target - k);
    } else {
      DivMod(n, 0, target + n - k);
    }
  }

  lemma OrderIsPermutation(sample: nat, n: nat, order: seq<nat>)
    requires |order| == n && forall p :: 0 <= p < n ==> order[p] == TaskAt(sample, n, p)
    ensures IsPermutation(order, n)
  {
    forall t: nat | t < n
      ensures t in order
    {
      VisitedOnce(sample, n, PositionOf(sample, n, t), t);
      assert order[PositionOf(sample, n, t)] == t;
    }
    forall i, j | 0 <= i < j < n
      ensures order[i] != order[j]
    {
      VisitedOnce(sample, n, i, order[j]);
      VisitedOnce(sample, n, j, order[j]);
    }
  }

  // ---- Balance over 2n rounds --------------------------------------------------------

  // The rounds among the first 2n that put a task at a position.
  ghost function Rounds(n: nat, p: nat, task: nat): set<nat>
    requires p < n && task < n
  {
    set s: nat | s < 2 * n && TaskAt(s, n, p) == task
  }

  // The residue an even round must have, and the one an odd round must have.
  function EvenResidue(n: nat, p: nat, task: nat): (r: nat)
    requires p < n && task < n
    ensures r < n && (r == task - p || r == task - p + n)
  {
    if task >= p then task - p else task - p + n
  }

  lemma RoundResidue(n: nat, p: nat, task: nat, s: nat)
    requires p < n && task < n && s < 2 * n
    ensures var r := EvenResidue(n, p, if s % 2 == 1 then n - 1 - task else task);
      TaskAt(s, n, p) == task <==> s == r || s == r + n
  {
    ShiftedMod(p, s, n);
    if s < n {
      DivMod(n, 0, s);
    } else {
      DivMod(n, 1, s - n);
    }
  }

  lemma RoundMember(n: nat, p: nat, task: nat, s: nat)
    requires p < n && task < n
    ensures var even, odd := EvenResidue(n, p, task), EvenResidue(n, p, n - 1 - task);
      s in Rounds(n, p, task)
      <==> (s % 2 == 0 && (s == even || s == even + n)) || (s % 2 == 1 && (s == odd || s == odd + n))
  {
    if s < 2 * n {
      RoundResidue(n, p, task, s);
    }
  }

  lemma OneOfParity(r: nat, n: nat, parity: nat, s: nat)
    requires n % 2 == 1 && parity < 2
    ensures s % 2 == parity && (s == r || s == r + n) <==> s == if r % 2 == parity then r else r + n
  {
  }

  lemma BothOfParity(r: nat, n: nat, parity: nat, s: nat)
    requires n % 2 == 0
    ensures s % 2 == parity && (s == r || s == r + n) <==> r % 2 == parity && (s == r || s == r + n)
  {
  }

  // With an odd number of tasks every task is at every position exactly twice.
  lemma OddBalance(n: nat, p: nat, task: nat)
    requires p < n && task < n && n % 2 == 1
    ensures |Rounds(n, p, task)| == 2
  {
    hide Rounds, EvenResidue;
    var even, odd := EvenResidue(n, p, task), EvenResidue(n, p, n - 1 - task);
    var a := if even % 2 == 0 then even else even + n;
    var b := if odd % 2 == 1 then odd else odd + n;
    forall s: nat
      ensures s in Rounds(n, p, task) <==> s == a || s == b
    {
      RoundMember(n, p, task, s);
      OneOfParity(even, n, 0, s);
      OneOfParity(odd, n, 1, s);
    }
    OneOfParity(even, n, 0, a);
    OneOfParity(odd, n, 1, b);
    Pair(Rounds(n, p, task), a, b);
  }

  lemma Pair(s: set<nat>, a: nat, b: nat)
    requires a != b && forall x: nat :: x in s <==> x == a || x == b
    ensures |s| == 2
  {
    assert s == {a, b};
  }

  // With an even number, exactly four times at positions of its own parity and
  // never at the others.
  lemma EvenBalance(n: nat, p: nat, task: nat)
    requires p < n && task < n && n % 2 == 0
    ensures |Rounds(n, p, task)| == if p % 2 == task % 2 then 4 else 0
  {
    hide Rounds, EvenResidue;
    var even, odd := EvenResidue(n, p, task), EvenResidue(n, p, n - 1 - task);
    ResidueParity(n, p, task);
    forall s: nat
      ensures s in Rounds(n, p, task)
         <==> p % 2 == task % 2 && (s == even || s == even + n || s == odd || s == odd + n)
    {
      RoundMember(n, p, task, s);
      BothOfParity(even, n, 0, s);
      BothOfParity(odd, n, 1, s);
    }
    if p % 2 == task % 2 {
      BothOfParity(even, n, 0, even + n);
      BothOfParity(odd, n, 1, odd + n);
      Four(Rounds(n, p, task), even, even + n, odd, odd + n);
    } else {
      assert Rounds(n, p, task) == {};
    }
  }

  lemma ResidueParity(n: nat, p: nat, task: nat)
    requires p < n && task < n && n % 2 == 0
    ensures EvenResidue(n, p, task) % 2 == if p % 2 == task % 2 then 0 else 1
    ensures EvenResidue(n, p, n - 1 - task) % 2 == if p % 2 == task % 2 then 1 else 0
  {
    OneResidueParity(n, p, task);
    OneResidueParity(n, p, n - 1 - task);
    Parity(n, 1 + task);
    Parity(1, task);
  }

  lemma OneResidueParity(n: nat, p: nat, task: nat)
    requires p < n && task < n && n % 2 == 0
    ensures EvenResidue(n, p, task) % 2 == if p % 2 == task % 2 then 0 else 1
  {
    Parity(task, p);
    Parity(task + n, p);
    assert (task + n) % 2 == task % 2;
  }

  lemma Parity(a: int, b: int)
    ensures (a - b) % 2 == if a % 2 == b % 2 then 0 else 1
    ensures (a + b) % 2 == if a % 2 == b % 2 then 0 else 1
  {
  }

  lemma Four(s: set<nat>, a: nat, b: nat, c: nat, d: nat)
    requires a != b && a != c && a != d && b != c && b != d && c != d
    requires forall x: nat :: x in s <==> x == a || x == b || x == c || x == d
    ensures |s| == 4
  {
    assert s == {a, b, c, d};
  }
}
