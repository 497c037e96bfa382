// What whole runs of the gated-delta recurrence do: slots are independent,
// runs can be cut anywhere, and the update forgets its starting state.
module GatedDeltaRuns {
  import opened Analysis
  import opened Blocks
  import opened GatedDelta
  import opened Permutations

  // ---- Slots are independent -------------------------------------------

  // The tokens routed to one slot, in order.
  function Select(tokens: seq<Token>, slots: seq<nat>, slot: nat): (mine: seq<Token>)
    requires |tokens| == |slots|
    ensures forall t :: t in mine ==> t in tokens
    decreases |tokens|
  {
    if |tokens| == 0 then []
    else
      var n := |tokens| - 1;
      var before := Select(tokens[..n], slots[..n], slot);
      if slots[n] == slot then before + [tokens[n]] else before
  }

  lemma SelectFits(shape: Shape, tokens: seq<Token>, slots: seq<nat>, slot: nat)
    requires |tokens| == |slots|
    requires forall t :: 0 <= t < |tokens| ==> Fits(shape, tokens[t])
    ensures var mine := Select(tokens, slots, slot);
      forall t :: 0 <= t < |mine| ==> Fits(shape, mine[t])
  {
    var mine := Select(tokens, slots, slot);
    forall t | 0 <= t < |mine|
      ensures Fits(shape, mine[t])
    {
      assert mine[t] in tokens;
    }
  }

  // Whatever the routing, each slot ends where its own tokens alone take it.
  lemma {:induction false} Demultiplexed(
      shape: Shape, states: seq<Slot>, tokens: seq<Token>, slots: seq<nat>, slot: nat)
    requires Routed(shape, states, tokens, slots) && slot < |states|
    ensures var mine := Select(tokens, slots, slot);
      && (forall t :: 0 <= t < |mine| ==> Fits(shape, mine[t]))
      && Run(shape, states, tokens, slots)[slot] == SlotRun(shape, states[slot], mine)
    decreases |tokens|
  {
    hide SlotStep;
    SelectFits(shape, tokens, slots, slot);
    if |tokens| == 0 {
    } else {
      var n := |tokens| - 1;
      Demultiplexed(shape, states, tokens[..n], slots[..n], slot);
      var mine := Select(tokens, slots, slot);
      if slots[n] == slot {
        assert mine[..|mine| - 1] == Select(tokens[..n], slots[..n], slot);
      }
    }
  }

  // ... and each output is the one its slot's own tokens produce.
  lemma OutputDemultiplexed(
      shape: Shape, f: Functions, weight: seq<real>,
      states: seq<Slot>, tokens: seq<Token>, slots: seq<nat>, t: nat)
    requires Routed(shape, states, tokens, slots) && t < |tokens|
    requires f.Lawful() && |weight| == shape.headDim
    ensures var mine := Select(tokens[..t + 1], slots[..t + 1], slots[t]);
      && (forall u :: 0 <= u < |mine| ==> Fits(shape, mine[u]))
      && OutputAt(shape, f, weight, states, tokens, slots, t)
      == Output(shape, f, weight, SlotRun(shape, states[slots[t]], mine), tokens[t])
  {
    hide SlotStep, Output;
    Demultiplexed(shape, states, tokens[..t + 1], slots[..t + 1], slots[t]);
  }

  // ---- Batched decode ---------------------------------------------------

  lemma {:induction false} SelectDistinct(tokens: seq<Token>, slots: seq<nat>, slot: nat)
    requires |tokens| == |slots| && Distinct(slots)
    ensures slot !in slots ==> Select(tokens, slots, slot) == []
    ensures forall t :: 0 <= t < |slots| && slots[t] == slot ==> Select(tokens, slots, slot) == [tokens[t]]
    decreases |tokens|
  {
    if |tokens| == 0 {
    } else {
      var n := |tokens| - 1;
      SelectDistinct(tokens[..n], slots[..n], slot);
      if slots[n] == slot {
        assert slot !in slots[..n];
      }
    }
  }

  // With pairwise distinct slots a batched step is every sequence stepped
  // alone: a mapped slot takes its one token, an unmapped slot is untouched.
  lemma BatchIsolated(
      shape: Shape, f: Functions, weight: seq<real>, states: seq<Slot>, tokens: seq<Token>, slots: seq<nat>)
    requires Routed(shape, states, tokens, slots) && Distinct(slots)
    requires f.Lawful() && |weight| == shape.headDim
    ensures forall t :: 0 <= t < |tokens| ==>
      && Run(shape, states, tokens, slots)[slots[t]] == SlotStep(shape, states[slots[t]], tokens[t])
      && OutputAt(shape, f, weight, states, tokens, slots, t)
      == Output(shape, f, weight, SlotStep(shape, states[slots[t]], tokens[t]), tokens[t])
    ensures forall s :: 0 <= s < |states| && s !in slots ==> Run(shape, states, tokens, slots)[s] == states[s]
  {
    hide SlotStep, Output;
    forall t | 0 <= t < |tokens|
      ensures Run(shape, states, tokens, slots)[slots[t]] == SlotStep(shape, states[slots[t]], tokens[t])
      ensures OutputAt(shape, f, weight, states, tokens, slots, t)
           == Output(shape, f, weight, SlotStep(shape, states[slots[t]], tokens[t]), tokens[t])
    {
      Demultiplexed(shape, states, tokens, slots, slots[t]);
      SelectDistinct(tokens, slots, slots[t]);
      SingleRun(shape, states[slots[t]], tokens[t]);
      OutputDemultiplexed(shape, f, weight, states, tokens, slots, t);
      assert slots[..t + 1][t] == slots[t];
      SelectDistinct(tokens[..t + 1], slots[..t + 1], slots[t]);
    }
    forall s | 0 <= s < |states| && s !in slots
      ensures Run(shape, states, tokens, slots)[s] == states[s]
    {
      Demultiplexed(shape, states, tokens, slots, s);
      SelectDistinct(tokens, slots, s);
    }
  }

  lemma SingleRun(shape: Shape, slot: Slot, token: Token)
    requires shape.Valid() && SlotFits(shape, slot) && Fits(shape, token)
    ensures SlotRun(shape, slot, [token]) == SlotStep(shape, slot, token)
  {
    hide SlotStep;
    assert [token][..0] == [];
    assert SlotRun(shape, slot, []) == slot;
  }

  // Reordering a batch with distinct slots leaves the final state the same ...
  lemma BatchStatePermuted(
      shape: Shape, states: seq<Slot>, tokens: seq<Token>, slots: seq<nat>, order: seq<nat>)
    requires Routed(shape, states, tokens, slots) && Distinct(slots)
    requires IsPermutation(order, |tokens|)
    ensures Routed(shape, states, Reorder(tokens, order), Reorder(slots, order))
    ensures Run(shape, states, Reorder(tokens, order), Reorder(slots, order)) == Run(shape, states, tokens, slots)
  {
    hide SlotStep, Output;
    var tokens', slots' := Reorder(tokens, order), Reorder(slots, order);
    ReorderDistinct(slots, order);
    forall s | 0 <= s < |states|
      ensures Run(shape, states, tokens', slots')[s] == Run(shape, states, tokens, slots)[s]
    {
      Demultiplexed(shape, states, tokens, slots, s);
      Demultiplexed(shape, states, tokens', slots', s);
      SelectDistinct(tokens, slots, s);
      SelectDistinct(tokens', slots', s);
      ReorderMembers(slots, order, s);
      if s in slots' {
        var k :| 0 <= k < |slots'| && slots'[k] == s;
        assert Select(tokens', slots', s) == [tokens'[k]] == Select(tokens, slots, s);
      }
    }
  }

  // ... and reorders its outputs.
  lemma BatchOutputsPermuted(
      shape: Shape, f: Functions, weight: seq<real>,
      states: seq<Slot>, tokens: seq<Token>, slots: seq<nat>, order: seq<nat>, k: nat)
    requires Routed(shape, states, tokens, slots) && Distinct(slots)
    requires f.Lawful() && |weight| == shape.headDim
    requires IsPermutation(order, |tokens|) && k < |order|
    ensures Routed(shape, states, Reorder(tokens, order), Reorder(slots, order))
    ensures OutputAt(shape, f, weight, states, Reorder(tokens, order), Reorder(slots, order), k)
         == OutputAt(shape, f, weight, states, tokens, slots, order[k])
  {
    hide SlotStep, Output;
    var tokens', slots' := Reorder(tokens, order), Reorder(slots, order);
    ReorderDistinct(slots, order);
    BatchIsolated(shape, f, weight, states, tokens, slots);
    BatchIsolated(shape, f, weight, states, tokens', slots');
  }

  // ---- Cutting a run ------------------------------------------------------

  lemma RoutedPrefix(shape: Shape, states: seq<Slot>, tokens: seq<Token>, slots: seq<nat>, n: nat)
    requires Routed(shape, states, tokens, slots) && n <= |tokens|
    ensures |tokens| == |slots| && Routed(shape, states, tokens[..n], slots[..n])
  {
    hide Fits, SlotFits;
  }

  lemma RoutedJoined(
      shape: Shape, states: seq<Slot>,
      tokens1: seq<Token>, slots1: seq<nat>, tokens2: seq<Token>, slots2: seq<nat>)
    requires Routed(shape, states, tokens1, slots1) && Routed(shape, states, tokens2, slots2)
    ensures |tokens1| == |slots1| && |tokens2| == |slots2|
    ensures Routed(shape, states, tokens1 + tokens2, slots1 + slots2)
    ensures Routed(shape, Run(shape, states, tokens1, slots1), tokens2, slots2)
  {
    hide Fits, SlotFits, Run;
  }

  // One slot of many stepped.
  function StepAt(shape: Shape, states: seq<Slot>, slot: nat, token: Token): seq<Slot>
    requires shape.Valid() && slot < |states| && Fits(shape, token) && SlotFits(shape, states[slot])
  {
    states[slot := SlotStep(shape, states[slot], token)]
  }

  lemma RunLast(shape: Shape, states: seq<Slot>, tokens: seq<Token>, slots: seq<nat>)
    requires Routed(shape, states, tokens, slots) && |tokens| > 0
    ensures var n := |tokens| - 1;
      var before := Run(shape, states, tokens[..n], slots[..n]);
      slots[n] < |before| && Run(shape, states, tokens, slots) == StepAt(shape, before, slots[n], tokens[n])
  {
    hide SlotStep, Fits, SlotFits;
  }

  // A run of n + m tokens is a run of n followed by a run of m from the
  // resulting state, in state and in outputs.
  lemma {:induction false} RunChunked(
      shape: Shape, states: seq<Slot>,
      tokens1: seq<Token>, slots1: seq<nat>, tokens2: seq<Token>, slots2: seq<nat>)
    requires Routed(shape, states, tokens1, slots1) && Routed(shape, states, tokens2, slots2)
    ensures Routed(shape, states, tokens1 + tokens2, slots1 + slots2)
    ensures Run(shape, states, tokens1 + tokens2, slots1 + slots2)
         == Run(shape, Run(shape, states, tokens1, slots1), tokens2, slots2)
    decreases |tokens2|
  {
    hide StepAt, Fits, SlotFits, Routed;
    var tokens, slots := tokens1 + tokens2, slots1 + slots2;
    RoutedJoined(shape, states, tokens1, slots1, tokens2, slots2);
    var middle := Run(shape, states, tokens1, slots1);
    if |tokens2| == 0 {
      assert tokens == tokens1 && slots == slots1;
    } else {
      hide Run;
      var m, n := |tokens2| - 1, |tokens1|;
      RoutedPrefix(shape, states, tokens2, slots2, m);
      RunChunked(shape, states, tokens1, slots1, tokens2[..m], slots2[..m]);
      TakeJoined(tokens1, tokens2, n + m);
      TakeJoined(slots1, slots2, n + m);
      RunLast(shape, states, tokens, slots);
      RunLast(shape, middle, tokens2, slots2);
    }
  }

  lemma OutputsChunked(
      shape: Shape, f: Functions, weight: seq<real>, states: seq<Slot>,
      tokens1: seq<Token>, slots1: seq<nat>, tokens2: seq<Token>, slots2: seq<nat>, t: nat)
    requires Routed(shape, states, tokens1, slots1) && Routed(shape, states, tokens2, slots2)
    requires f.Lawful() && |weight| == shape.headDim && t < |tokens1| + |tokens2|
    ensures Routed(shape, states, tokens1 + tokens2, slots1 + slots2)
    ensures OutputAt(shape, f, weight, states, tokens1 + tokens2, slots1 + slots2, t)
      == if t < |tokens1| then OutputAt(shape, f, weight, states, tokens1, slots1, t)
         else OutputAt(shape, f, weight, Run(shape, states, tokens1, slots1), tokens2, slots2, t - |tokens1|)
  {
    hide OutputAt, Routed, Run;
    RoutedJoined(shape, states, tokens1, slots1, tokens2, slots2);
    if t < |tokens1| {
      EarlyOutput(shape, f, weight, states, tokens1, slots1, tokens2, slots2, t);
    } else {
      LateOutput(shape, f, weight, states, tokens1, slots1, tokens2, slots2, t - |tokens1|);
    }
  }

  lemma EarlyOutput(
      shape: Shape, f: Functions, weight: seq<real>, states: seq<Slot>,
      tokens1: seq<Token>, slots1: seq<nat>, tokens2: seq<Token>, slots2: seq<nat>, t: nat)
    requires Routed(shape, states, tokens1, slots1) && Routed(shape, states, tokens1 + tokens2, slots1 + slots2)
    requires f.Lawful() && |weight| == shape.headDim && t < |tokens1|
    ensures OutputAt(shape, f, weight, states, tokens1 + tokens2, slots1 + slots2, t)
      == OutputAt(shape, f, weight, states, tokens1, slots1, t)
  {
    hide Output, Fits, SlotFits, Run;
    TakeJoined(tokens1, tokens2, t + 1);
    TakeJoined(slots1, slots2, t + 1);
  }

  lemma LateOutput(
      shape: Shape, f: Functions, weight: seq<real>, states: seq<Slot>,
      tokens1: seq<Token>, slots1: seq<nat>, tokens2: seq<Token>, slots2: seq<nat>, u: nat)
    requires Routed(shape, states, tokens1, slots1) && Routed(shape, states, tokens2, slots2)
    requires Routed(shape, states, tokens1 + tokens2, slots1 + slots2)
    requires Routed(shape, Run(shape, states, tokens1, slots1), tokens2, slots2)
    requires f.Lawful() && |weight| == shape.headDim && u < |tokens2|
    ensures OutputAt(shape, f, weight, states, tokens1 + tokens2, slots1 + slots2, |tokens1| + u)
      == OutputAt(shape, f, weight, Run(shape, states, tokens1, slots1), tokens2, slots2, u)
  {
    hide Output, Fits, SlotFits, Run;
    var n := |tokens1|;
    RunChunked(shape, states, tokens1, slots1, tokens2[..u + 1], slots2[..u + 1]);
    TakeJoined(tokens1, tokens2, n + u + 1);
    TakeJoined(slots1, slots2, n + u + 1);
  }

  // A causal launch can always be cut; a causal launch of one row is a decode
  // batch of one, and a prompt wider than the batch keeps one slot throughout.
  lemma CausalRoutes(stateRows: seq<nat>, n: nat, m: nat)
    requires |stateRows| > 0
    ensures Route(stateRows, true, n + m) == Route(stateRows, true, n) + Route(stateRows, true, m)
    ensures Route(stateRows, true, 1) == Route(stateRows, false, 1)
    ensures n > |stateRows| ==> Route(stateRows, false, n) == Route(stateRows, true, n)
  {
    assert Route(stateRows, true, 1)[0] == Route(stateRows, false, 1)[0];
  }

  const SUITE_ROWS: seq<nat> := [7, 0, 5, 2, 6, 1, 4, 3]

  // Two sequences of the suite launched together step their own slots; launched
  // one by one without the causal flag both would step the first slot.
  lemma UnflaggedSplitExample(shape: Shape, states: seq<Slot>, a: Token, b: Token)
    requires shape.Valid() && |states| == 8 && Fits(shape, a) && Fits(shape, b)
    requires forall s :: 0 <= s < |states| ==> SlotFits(shape, states[s])
    ensures Route(SUITE_ROWS, false, 2) == [7, 0] && Route(SUITE_ROWS, false, 1) == [7]
    ensures Run(shape, states, [a, b], Route(SUITE_ROWS, false, 2))
      == states[7 := SlotStep(shape, states[7], a)][0 := SlotStep(shape, states[0], b)]
    ensures Run(shape, Run(shape, states, [a], Route(SUITE_ROWS, false, 1)), [b], Route(SUITE_ROWS, false, 1))
      == states[7 := SlotStep(shape, SlotStep(shape, states[7], a), b)]
  {
    hide SlotStep, Fits, SlotFits;
    assert Route(SUITE_ROWS, false, 2) == [7, 0];
    assert Route(SUITE_ROWS, false, 1) == [7];
    OneStep(shape, states, a, 7);
    var stepped := Run(shape, states, [a], [7]);
    OneStep(shape, stepped, b, 7);
    assert [a, b][..1] == [a] && [7, 0][..1] == [7];
    RunLast(shape, states, [a, b], [7, 0]);
  }

  lemma OneStep(shape: Shape, states: seq<Slot>, token: Token, slot: nat)
    requires Routed(shape, states, [token], [slot])
    requires slot < |states| && Fits(shape, token) && SlotFits(shape, states[slot])
    ensures Run(shape, states, [token], [slot]) == states[slot := SlotStep(shape, states[slot], token)]
  {
    hide SlotStep, Fits, SlotFits;
    assert [token][..0] == [] && [slot][..0] == [];
    assert Run(shape, states, [], []) == states;
  }

  // A launch without the causal flag is cut safely exactly when it is wider
  // than the batch and neither part is a batch of two or more sequences.
  lemma UnflaggedSplitIsExact(stateRows: seq<nat>, n: nat, m: nat)
    requires |stateRows| > 0 && Distinct(stateRows) && n > 0 && m > 0
    ensures Route(stateRows, false, n + m) == Route(stateRows, false, n) + Route(stateRows, false, m)
      <==> n + m > |stateRows| && (n == 1 || n > |stateRows|) && (m == 1 || m > |stateRows|)
  {
    var whole := Route(stateRows, false, n + m);
    var parts := Route(stateRows, false, n) + Route(stateRows, false, m);
    assert parts[n] == Route(stateRows, false, m)[0] == stateRows[0];
    if n + m <= |stateRows| {
      assert whole[n] == stateRows[n];
    } else if 1 < n <= |stateRows| {
      assert parts[1] == stateRows[1] && whole[1] == stateRows[0];
    } else if 1 < m <= |stateRows| {
      assert parts[n + 1] == stateRows[1] && whole[n + 1] == stateRows[0];
    } else {
      assert whole == parts;
    }
  }
}
