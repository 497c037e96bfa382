// Which state slots a launch may change, and how its check counts their cells.
module GatedDeltaAccounting {
  import opened Blocks
  import opened GatedDelta
  import opened GatedDeltaRuns
  import opened Permutations

  // The check's own test for a slot, independent of the routing.
  predicate IsActive(stateRows: seq<nat>, causal: bool, rows: nat, slot: nat)
    requires |stateRows| > 0
  {
    if !causal && rows <= |stateRows| then slot in stateRows[..rows] else slot == stateRows[0]
  }

  function ActiveStateRows(stateRows: seq<nat>, causal: bool, rows: nat): nat {
    if !causal && rows <= |stateRows| then rows else 1
  }

  // The slots the check calls active are exactly the ones some token is routed to.
  lemma ActiveIsRouted(stateRows: seq<nat>, causal: bool, rows: nat, slot: nat)
    requires |stateRows| > 0 && rows > 0
    ensures IsActive(stateRows, causal, rows, slot) <==> slot in Route(stateRows, causal, rows)
  {
    var route := Route(stateRows, causal, rows);
    if !causal && rows <= |stateRows| {
      assert route == stateRows[..rows];
    } else {
      assert route[0] == stateRows[0];
    }
  }

  lemma {:induction false} SelectNothing(tokens: seq<Token>, slots: seq<nat>, slot: nat)
    requires |tokens| == |slots| && slot !in slots
    ensures Select(tokens, slots, slot) == []
    decreases |tokens|
  {
    if |tokens| == 0 {
    } else {
      assert slots[|slots| - 1] in slots;
      SelectNothing(tokens[..|tokens| - 1], slots[..|slots| - 1], slot);
    }
  }

  // An inactive slot ends any launch as it began.
  lemma InactiveStateUntouched(
      shape: Shape, states: seq<Slot>, tokens: seq<Token>, stateRows: seq<nat>, causal: bool, slot: nat)
    requires |stateRows| > 0 && |tokens| > 0 && slot < |states|
    requires Routed(shape, states, tokens, Route(stateRows, causal, |tokens|))
    requires !IsActive(stateRows, causal, |tokens|, slot)
    ensures Run(shape, states, tokens, Route(stateRows, causal, |tokens|))[slot] == states[slot]
  {
    hide Run, Route, IsActive, SlotStep, Fits, SlotFits;
    var slots := Route(stateRows, causal, |tokens|);
    ActiveIsRouted(stateRows, causal, |tokens|, slot);
    SelectNothing(tokens, slots, slot);
    Demultiplexed(shape, states, tokens, slots, slot);
  }

  // ---- Counting cells --------------------------------------------------------------------

  function ActiveBelow(stateRows: seq<nat>, causal: bool, rows: nat, n: nat): (count: nat)
    requires |stateRows| > 0
    ensures count <= n
  {
    if n == 0 then 0
    else
      ActiveBelow(stateRows, causal, rows, n - 1)
      + (if IsActive(stateRows, causal, rows, n - 1) then 1 else 0)
  }

  // Walks the flat state and counts each cell as active or inactive.
  method CountState(stateRows: seq<nat>, causal: bool, rows: nat, perRow: nat, count: nat)
    returns (active: nat, inactive: nat)
    requires |stateRows| > 0 && perRow > 0
    ensures active == ActiveBelow(stateRows, causal, rows, count) * perRow
    ensures active + inactive == count * perRow
  {
    hide IsActive;
    active, inactive := 0, 0;
    var slot, cell := 0, 0;
    for index := 0 to count * perRow
      invariant index == slot * perRow + cell && cell < perRow && slot <= count
      invariant active == ActiveBelow(stateRows, causal, rows, slot) * perRow
        + (if IsActive(stateRows, causal, rows, slot) then cell else 0)
      invariant active + inactive == index
    {
      DivMod(perRow, slot, cell);
      if IsActive(stateRows, causal, rows, index / perRow) {
        active := active + 1;
      } else {
        inactive := inactive + 1;
      }
      NextMultiple(perRow, slot);
      NextMultiple(perRow, ActiveBelow(stateRows, causal, rows, slot));
      if cell + 1 == perRow {
        slot, cell := slot + 1, 0;
      } else {
        cell := cell + 1;
      }
    }
    DivModUnique(perRow, slot, cell, count, 0);
  }

  // The slots below n that a launch may change.
  ghost function ActiveSlots(stateRows: seq<nat>, causal: bool, rows: nat, n: nat): set<nat>
    requires |stateRows| > 0
  {
    set s: nat | s < n && IsActive(stateRows, causal, rows, s)
  }

  lemma {:induction false} CountIsCardinality(stateRows: seq<nat>, causal: bool, rows: nat, n: nat)
    requires |stateRows| > 0
    ensures ActiveBelow(stateRows, causal, rows, n) == |ActiveSlots(stateRows, causal, rows, n)|
  {
    hide IsActive;
    if n == 0 {
    } else {
      CountIsCardinality(stateRows, causal, rows, n - 1);
      var before, now := ActiveSlots(stateRows, causal, rows, n - 1), ActiveSlots(stateRows, causal, rows, n);
      if IsActive(stateRows, causal, rows, n - 1) {
        assert now == before + {n - 1};
      } else {
        assert now == before;
      }
    }
  }

  lemma {:induction false} DistinctCardinality(s: seq<nat>, members: set<nat>)
    requires Distinct(s) && forall x: nat :: x in members <==> x in s
    ensures |members| == |s|
  {
    if |s| == 0 {
      assert members == {};
    } else {
      var n := |s| - 1;
      assert forall x: nat :: x in s <==> x in s[..n] || x == s[n];
      assert s[n] !in s[..n];
      DistinctCardinality(s[..n], members - {s[n]});
    }
  }

  // With pairwise distinct state rows the number of active slots is the closed
  // form the reports use.
  lemma ActiveCount(stateRows: seq<nat>, causal: bool, rows: nat, count: nat)
    requires |stateRows| > 0 && Distinct(stateRows) && forall k :: 0 <= k < |stateRows| ==> stateRows[k] < count
    ensures ActiveBelow(stateRows, causal, rows, count) == ActiveStateRows(stateRows, causal, rows)
  {
    CountIsCardinality(stateRows, causal, rows, count);
    var active := ActiveSlots(stateRows, causal, rows, count);
    if !causal && rows <= |stateRows| {
      DistinctCardinality(stateRows[..rows], active);
    } else {
      assert active == {stateRows[0]};
    }
  }

  // Repeating a state row breaks that count: the closed form holds exactly when
  // the rows a decode batch uses are pairwise distinct.
  lemma ActiveCountIsExact(stateRows: seq<nat>, rows: nat, count: nat)
    requires |stateRows| > 0 && rows <= |stateRows|
    requires forall k :: 0 <= k < |stateRows| ==> stateRows[k] < count
    ensures ActiveBelow(stateRows, false, rows, count) == rows <==> Distinct(stateRows[..rows])
  {
    var used := stateRows[..rows];
    CountIsCardinality(stateRows, false, rows, count);
    var active := ActiveSlots(stateRows, false, rows, count);
    if Distinct(used) {
      DistinctCardinality(used, active);
    } else {
      var i, j :| 0 <= i < j < rows && used[i] == used[j];
      var fewer := used[..j] + used[j + 1..];
      assert forall x: nat :: x in used <==> x in fewer by {
        assert used == used[..j] + [used[j]] + used[j + 1..];
        assert used[..j][i] == used[j];
      }
      MembersBound(fewer, active);
    }
  }

  lemma {:induction false} MembersBound(s: seq<nat>, members: set<nat>)
    requires forall x :: x in members ==> x in s
    ensures |members| <= |s|
  {
    if |s| == 0 {
      assert members == {};
    } else {
      var n := |s| - 1;
      assert s == s[..n] + [s[n]];
      MembersBound(s[..n], members - {s[n]});
    }
  }
}
