// What whole launches of the causal convolution compute.
module CausalConvolutionRuns {
  import opened Analysis
  import opened Blocks
  import opened CausalConvolution
  import opened Permutations
  import opened Vectors
  import GatedDelta

  // ---- One slot, many tokens --------------------------------------------------

  ghost function Column<W>(launch: Launch<W>, count: nat, n: nat, channel: nat): (words: seq<W>)
    requires launch.Valid(count) && n <= |launch.slots| && channel < launch.channels
    ensures |words| == n
  {
    seq(n, t requires 0 <= t < n => launch.Word(t, channel))
  }

  lemma {:induction false} SingleSlotInputs<W>(launch: Launch<W>, count: nat, t: nat, slot: nat, channel: nat)
    requires launch.Valid(count) && t <= |launch.slots| && channel < launch.channels
    requires forall u :: 0 <= u < |launch.slots| ==> launch.slots[u] == slot
    ensures Inputs(launch, count, t, slot, channel) == Column(launch, count, t, channel)
  {
    if t == 0 {
    } else {
      SingleSlotInputs(launch, count, t - 1, slot, channel);
    }
  }

  // In a causal run every response reads four consecutive entries of history
  // ++ stream, and the registers end on its last three.
  lemma CausalWindows<W>(launch: Launch<W>, before: seq<seq<seq<W>>>, slot: nat, channel: nat)
    requires launch.Valid(|before|) && HistoryFits(before, launch.channels)
    requires slot < |before| && channel < launch.channels
    requires forall u :: 0 <= u < |launch.slots| ==> launch.slots[u] == slot
    ensures var line := before[slot][channel] + Column(launch, |before|, |launch.slots|, channel);
      && (forall t :: 0 <= t < |launch.slots| ==>
        Window(launch, before, t, channel) == line[t..t + HISTORY_TAPS + 1])
      && Stream(launch, before, |launch.slots|, slot, channel) == line
  {
    var line := before[slot][channel] + Column(launch, |before|, |launch.slots|, channel);
    SingleSlotInputs(launch, |before|, |launch.slots|, slot, channel);
    forall t | 0 <= t < |launch.slots|
      ensures Window(launch, before, t, channel) == line[t..t + HISTORY_TAPS + 1]
    {
      SingleSlotInputs(launch, |before|, t + 1, slot, channel);
      assert Stream(launch, before, t + 1, slot, channel) == line[..t + 1 + HISTORY_TAPS];
    }
  }

  // ---- One token per slot -----------------------------------------------------

  lemma {:induction false} DistinctInputs<W>(launch: Launch<W>, count: nat, t: nat, slot: nat, channel: nat)
    requires launch.Valid(count) && t <= |launch.slots| && channel < launch.channels
    requires Distinct(launch.slots)
    ensures (forall u :: 0 <= u < t ==> launch.slots[u] != slot) ==> Inputs(launch, count, t, slot, channel) == []
    ensures forall u :: 0 <= u < t && launch.slots[u] == slot ==>
      Inputs(launch, count, t, slot, channel) == [launch.Word(u, channel)]
  {
    if t == 0 {
    } else {
      DistinctInputs(launch, count, t - 1, slot, channel);
    }
  }

  // A mapped slot is fed its own word and nothing else ...
  lemma MappedAlone<W>(
      launch: Launch<W>, before: seq<seq<seq<W>>>, after: seq<seq<seq<W>>>, t: nat, channel: nat)
    requires launch.Valid(|before|) && HistoryFits(before, launch.channels)
    requires Distinct(launch.slots) && t < |launch.slots| && channel < launch.channels
    requires Registers(launch, before, after, |launch.slots|)
    ensures |after| == |before| && |after[launch.slots[t]]| == launch.channels
    ensures |before[launch.slots[t]]| == launch.channels && |before[launch.slots[t]][channel]| == HISTORY_TAPS
    ensures Window(launch, before, t, channel) == before[launch.slots[t]][channel] + [launch.Word(t, channel)]
    ensures after[launch.slots[t]][channel] == Shift(before[launch.slots[t]][channel], launch.Word(t, channel))
  {
    hide Inputs;
    var slot, n := launch.slots[t], |launch.slots|;
    DistinctInputs(launch, |before|, t + 1, slot, channel);
    DistinctInputs(launch, |before|, n, slot, channel);
    LastGrows(before[slot][channel], launch.Word(t, channel));
    hide Launch.Word;
    RegisterIs(launch, before, after, n, slot, channel);
  }

  // ... and an unmapped one is fed nothing.
  lemma UnmappedAlone<W>(
      launch: Launch<W>, before: seq<seq<seq<W>>>, after: seq<seq<seq<W>>>, slot: nat, channel: nat)
    requires launch.Valid(|before|) && HistoryFits(before, launch.channels)
    requires Distinct(launch.slots) && slot < |before| && slot !in launch.slots && channel < launch.channels
    requires Registers(launch, before, after, |launch.slots|)
    ensures |after| == |before| && |after[slot]| == |before[slot]| == launch.channels
    ensures after[slot][channel] == before[slot][channel]
  {
    hide Inputs;
    DistinctInputs(launch, |before|, |launch.slots|, slot, channel);
    RegisterIs(launch, before, after, |launch.slots|, slot, channel);
    assert before[slot][channel] + [] == before[slot][channel];
  }

  // With pairwise distinct slots every sequence is stepped alone: a response
  // sees its own history and word, unmapped registers keep their words.
  lemma BatchIsolated<W>(launch: Launch<W>, before: seq<seq<seq<W>>>, after: seq<seq<seq<W>>>, channel: nat)
    requires launch.Valid(|before|) && HistoryFits(before, launch.channels)
    requires Distinct(launch.slots) && channel < launch.channels
    requires Registers(launch, before, after, |launch.slots|)
    ensures forall t :: 0 <= t < |launch.slots| ==>
      && Window(launch, before, t, channel) == before[launch.slots[t]][channel] + [launch.Word(t, channel)]
      && after[launch.slots[t]][channel] == Shift(before[launch.slots[t]][channel], launch.Word(t, channel))
    ensures forall s :: 0 <= s < |before| && s !in launch.slots ==> after[s][channel] == before[s][channel]
  {
    hide Inputs, Window, Shift, Registers, Launch.Word, Distinct;
    forall t | 0 <= t < |launch.slots|
      ensures |after| == |before| && |after[launch.slots[t]]| == launch.channels
      ensures Window(launch, before, t, channel) == before[launch.slots[t]][channel] + [launch.Word(t, channel)]
      ensures after[launch.slots[t]][channel] == Shift(before[launch.slots[t]][channel], launch.Word(t, channel))
    {
      MappedAlone(launch, before, after, t, channel);
    }
    forall s | 0 <= s < |before| && s !in launch.slots
      ensures |after| == |before| && |after[s]| == launch.channels
      ensures after[s][channel] == before[s][channel]
    {
      UnmappedAlone(launch, before, after, s, channel);
    }
  }

  // The same launch with its rows in another order.
  ghost predicate Reordered<W(!new)>(launch: Launch<W>, other: Launch<W>, order: seq<nat>, count: nat) {
    && launch.Valid(count) && other.Valid(count)
    && IsPermutation(order, |launch.slots|)
    && other == launch.(projected := other.projected, slots := Reorder(launch.slots, order))
    && forall k, c :: 0 <= k < |order| && 0 <= c < launch.channels ==> other.Word(k, c) == launch.Word(order[k], c)
  }

  lemma StreamReordered<W(!new)>(
      launch: Launch<W>, other: Launch<W>, order: seq<nat>, before: seq<seq<seq<W>>>, slot: nat, channel: nat)
    requires Reordered(launch, other, order, |before|) && HistoryFits(before, launch.channels)
    requires Distinct(launch.slots) && slot < |before| && channel < launch.channels
    ensures Stream(other, before, |order|, slot, channel) == Stream(launch, before, |order|, slot, channel)
  {
    ReorderDistinct(launch.slots, order);
    ReorderMembers(launch.slots, order, slot);
    DistinctInputs(launch, |before|, |order|, slot, channel);
    DistinctInputs(other, |before|, |order|, slot, channel);
    if slot in other.slots {
      var k :| 0 <= k < |order| && other.slots[k] == slot;
      assert launch.slots[order[k]] == slot;
    }
  }

  // Permuting a batch with distinct slots permutes its outputs and leaves the
  // final registers the same.
  lemma BatchPermuted<W(!new)>(
      f: Functions, launch: Launch<W>, other: Launch<W>, order: seq<nat>,
      before: seq<seq<seq<W>>>, after: seq<seq<seq<W>>>)
    requires f.Lawful() && Reordered(launch, other, order, |before|) && HistoryFits(before, launch.channels)
    requires Distinct(launch.slots) && Registers(launch, before, after, |order|)
    ensures Registers(other, before, after, |order|)
    ensures forall k :: 0 <= k < |order| ==> Expected(f, other, before, k) == Expected(f, launch, before, order[k])
  {
    hide Response, Stream;
    forall s, c | 0 <= s < |before| && 0 <= c < launch.channels
      ensures Stream(other, before, |order|, s, c) == Stream(launch, before, |order|, s, c)
    {
      StreamReordered(launch, other, order, before, s, c);
    }
    assert Registers(other, before, after, |order|);
    ReorderDistinct(launch.slots, order);
    forall k | 0 <= k < |order|
      ensures Expected(f, other, before, k) == Expected(f, launch, before, order[k])
    {
      forall c | 0 <= c < launch.channels
        ensures Window(other, before, k, c) == Window(launch, before, order[k], c)
      {
        BatchIsolated(launch, before, after, c);
        BatchIsolated(other, before, after, c);
      }
      SameResponses(f, launch, other, before, order[k], k);
    }
  }

  lemma SameResponses<W>(
      f: Functions, launch: Launch<W>, other: Launch<W>, before: seq<seq<seq<W>>>, t: nat, k: nat)
    requires f.Lawful() && launch.Valid(|before|) && other.Valid(|before|) && HistoryFits(before, launch.channels)
    requires t < |launch.slots| && k < |other.slots|
    requires other.decode == launch.decode && other.weights == launch.weights && other.channels == launch.channels
    requires forall c :: 0 <= c < launch.channels ==> Window(other, before, k, c) == Window(launch, before, t, c)
    ensures Expected(f, other, before, k) == Expected(f, launch, before, t)
  {
    forall c | 0 <= c < launch.channels
      ensures Expected(f, other, before, k)[c] == Expected(f, launch, before, t)[c]
    {
      assert Window(other, before, k, c) == Window(launch, before, t, c);
    }
  }

  // ---- Cutting a launch -------------------------------------------------------

  // whole runs the rows of a, then the rows of b.
  ghost predicate Joined<W>(whole: Launch<W>, a: Launch<W>, b: Launch<W>, count: nat) {
    && a.Valid(count) && b.Valid(count)
    && a.inputRows == b.inputRows
    && b == a.(projected := b.projected, slots := b.slots)
    && whole == a.(projected := a.projected + b.projected, slots := a.slots + b.slots)
  }

  lemma JoinedCell<W>(a: seq<W>, b: seq<W>, width: nat, n: nat, m: nat, t: nat, c: nat)
    requires |a| == n * width && |b| == m * width && t < n + m && c < width
    ensures t * width + c < |a| + |b|
    ensures if t < n then t * width + c < |a| && (a + b)[t * width + c] == a[t * width + c]
      else (t - n) * width + c < |b| && (a + b)[t * width + c] == b[(t - n) * width + c]
  {
    if t < n {
      Gap(width, t, n);
    } else {
      Gap(width, t - n, m);
      Distribute(n, t - n, width);
    }
  }

  lemma Distribute(a: nat, b: nat, n: nat)
    ensures (a + b) * n == a * n + b * n
  {
  }

  lemma JoinedWord<W>(whole: Launch<W>, a: Launch<W>, b: Launch<W>, count: nat, t: nat, channel: nat)
    requires Joined(whole, a, b, count) && t < |a.slots| + |b.slots| && channel < a.channels
    ensures whole.Valid(count)
    ensures whole.Word(t, channel)
         == if t < |a.slots| then a.Word(t, channel) else b.Word(t - |a.slots|, channel)
  {
    JoinedValid(whole, a, b, count);
    JoinedCell(a.projected, b.projected, a.inputRows, |a.slots|, |b.slots|, t, channel);
  }

  // What row t of a launch feeds to a channel of a slot.
  ghost function Fed<W>(launch: Launch<W>, count: nat, t: nat, slot: nat, channel: nat): seq<W>
    requires launch.Valid(count) && t < |launch.slots| && channel < launch.channels
  {
    if launch.slots[t] == slot then [launch.Word(t, channel)] else []
  }

  lemma InputsNext<W>(launch: Launch<W>, count: nat, t: nat, slot: nat, channel: nat)
    requires launch.Valid(count) && t < |launch.slots| && channel < launch.channels
    ensures Inputs(launch, count, t + 1, slot, channel)
      == Inputs(launch, count, t, slot, channel) + Fed(launch, count, t, slot, channel)
  {
  }

  lemma JoinedFed<W>(
      whole: Launch<W>, a: Launch<W>, b: Launch<W>, count: nat, t: nat, slot: nat, channel: nat)
    requires Joined(whole, a, b, count) && t < |a.slots| + |b.slots| && channel < a.channels
    ensures whole.Valid(count) && t < |whole.slots| && whole.channels == a.channels == b.channels
    ensures Fed(whole, count, t, slot, channel) ==
      if t < |a.slots| then Fed(a, count, t, slot, channel) else Fed(b, count, t - |a.slots|, slot, channel)
  {
    hide Joined, Launch.Valid, Launch.Word;
    JoinedValid(whole, a, b, count);
    JoinedWord(whole, a, b, count, t, channel);
  }

  lemma {:induction false} JoinedInputs<W>(
      whole: Launch<W>, a: Launch<W>, b: Launch<W>, count: nat, t: nat, slot: nat, channel: nat)
    requires Joined(whole, a, b, count) && t <= |a.slots| + |b.slots| && channel < a.channels
    ensures whole.Valid(count)
    ensures Inputs(whole, count, t, slot, channel)
         == if t <= |a.slots| then Inputs(a, count, t, slot, channel)
            else Inputs(a, count, |a.slots|, slot, channel) + Inputs(b, count, t - |a.slots|, slot, channel)
    decreases t
  {
    hide Joined, Launch.Valid, Inputs, Fed;
    JoinedValid(whole, a, b, count);
    NoInputs(whole, count, slot, channel);
    NoInputs(a, count, slot, channel);
    NoInputs(b, count, slot, channel);
    if t == 0 {
    } else {
      var u, n := t - 1, |a.slots|;
      JoinedInputs(whole, a, b, count, u, slot, channel);
      JoinedFed(whole, a, b, count, u, slot, channel);
      InputsNext(whole, count, u, slot, channel);
      if u < n {
        InputsNext(a, count, u, slot, channel);
      } else {
        InputsNext(b, count, u - n, slot, channel);
      }
    }
  }

  lemma JoinedValid<W>(whole: Launch<W>, a: Launch<W>, b: Launch<W>, count: nat)
    requires Joined(whole, a, b, count)
    ensures whole.Valid(count) && a.Valid(count) && b.Valid(count)
    ensures whole.slots == a.slots + b.slots && whole.channels == a.channels == b.channels
  {
    assert (|a.slots| + |b.slots|) * a.inputRows == |a.slots| * a.inputRows + |b.slots| * a.inputRows;
  }

  // A launch of n + m rows is a launch of n followed by a launch of m from the
  // registers the first one left: the same final registers ...
  lemma RegistersChunked<W>(
      whole: Launch<W>, a: Launch<W>, b: Launch<W>,
      before: seq<seq<seq<W>>>, middle: seq<seq<seq<W>>>, after: seq<seq<seq<W>>>)
    requires Joined(whole, a, b, |before|) && HistoryFits(before, a.channels)
    requires Registers(a, before, middle, |a.slots|) && Registers(b, middle, after, |b.slots|)
    ensures whole.Valid(|before|) && Registers(whole, before, after, |whole.slots|)
  {
    JoinedValid(whole, a, b, |before|);
    var n := |a.slots|;
    hide Inputs, Stream, Last, Launch.Valid;
    forall s, c | 0 <= s < |before| && 0 <= c < a.channels
      ensures after[s][c] == Last(Stream(whole, before, |whole.slots|, s, c), HISTORY_TAPS)
    {
      JoinedStream(whole, a, b, before, |b.slots|, s, c);
      LastOfJoined(Stream(a, before, n, s, c), Inputs(b, |before|, |b.slots|, s, c), HISTORY_TAPS);
      RegisterIs(a, before, middle, n, s, c);
      RegisterIs(b, middle, after, |b.slots|, s, c);
    }
  }

  lemma RegisterIs<W>(launch: Launch<W>, before: seq<seq<seq<W>>>, after: seq<seq<seq<W>>>, t: nat, s: nat, c: nat)
    requires launch.Valid(|before|) && HistoryFits(before, launch.channels) && t <= |launch.slots|
    requires Registers(launch, before, after, t) && s < |before| && c < launch.channels
    ensures |after| == |before| && |after[s]| == launch.channels && |before[s]| == launch.channels
    ensures Stream(launch, before, t, s, c) == before[s][c] + Inputs(launch, |before|, t, s, c)
    ensures after[s][c] == Last(Stream(launch, before, t, s, c), HISTORY_TAPS)
  {
  }

  // What a joined launch meets is what its first part met, then what its second
  // part reads.
  lemma JoinedStream<W>(
      whole: Launch<W>, a: Launch<W>, b: Launch<W>, before: seq<seq<seq<W>>>, k: nat, s: nat, c: nat)
    requires Joined(whole, a, b, |before|) && HistoryFits(before, a.channels)
    requires k <= |b.slots| && s < |before| && c < a.channels
    ensures whole.Valid(|before|) && |a.slots| + k <= |whole.slots| && a.channels == whole.channels
    ensures Stream(whole, before, |a.slots| + k, s, c)
      == Stream(a, before, |a.slots|, s, c) + Inputs(b, |before|, k, s, c)
  {
    hide Inputs, Launch.Valid, Joined;
    JoinedValid(whole, a, b, |before|);
    JoinedInputs(whole, a, b, |before|, |a.slots| + k, s, c);
    if k == 0 {
      NoInputs(b, |before|, s, c);
    }
  }

  lemma NoInputs<W>(launch: Launch<W>, count: nat, s: nat, c: nat)
    requires launch.Valid(count) && c < launch.channels
    ensures Inputs(launch, count, 0, s, c) == []
  {
  }

  lemma LastOfJoined<T>(s: seq<T>, more: seq<T>, n: nat)
    requires |s| >= HISTORY_TAPS && n <= HISTORY_TAPS + |more|
    ensures Last(s + more, n) == Last(Last(s, HISTORY_TAPS) + more, n)
  {
  }

  // ... and the same outputs.
  lemma OutputsChunked<W>(
      f: Functions, whole: Launch<W>, a: Launch<W>, b: Launch<W>,
      before: seq<seq<seq<W>>>, middle: seq<seq<seq<W>>>, t: nat)
    requires f.Lawful() && Joined(whole, a, b, |before|) && whole.Valid(|before|) && HistoryFits(before, a.channels)
    requires Registers(a, before, middle, |a.slots|) && t < |whole.slots|
    ensures Expected(f, whole, before, t)
         == if t < |a.slots| then Expected(f, a, before, t) else Expected(f, b, middle, t - |a.slots|)
  {
    hide Response;
    var n := |a.slots|;
    var row := if t < n then Expected(f, a, before, t) else Expected(f, b, middle, t - n);
    forall c | 0 <= c < a.channels
      ensures Expected(f, whole, before, t)[c] == row[c]
    {
      ChunkedWindow(whole, a, b, before, middle, t, c);
      SameResponse(f, whole, a, c, Window(whole, before, t, c));
      SameResponse(f, whole, b, c, Window(whole, before, t, c));
    }
  }

  lemma SameResponse<W>(f: Functions, whole: Launch<W>, part: Launch<W>, channel: nat, window: seq<W>)
    requires f.Lawful() && |whole.weights| == whole.channels * (HISTORY_TAPS + 1)
    requires channel < whole.channels && |window| == HISTORY_TAPS + 1
    requires part.decode == whole.decode && part.weights == whole.weights && part.channels == whole.channels
    ensures Response(f, whole, channel, window) == Response(f, part, channel, window)
  {
  }

  lemma JoinedSlots<W>(whole: Launch<W>, a: Launch<W>, b: Launch<W>, count: nat, t: nat)
    requires Joined(whole, a, b, count) && t < |whole.slots|
    ensures |whole.slots| == |a.slots| + |b.slots| && whole.slots[t] < count
    ensures whole.channels == a.channels == b.channels && a.Valid(count) && b.Valid(count)
    ensures whole.slots[t] == if t < |a.slots| then a.slots[t] else b.slots[t - |a.slots|]
  {
    JoinedValid(whole, a, b, count);
  }

  lemma NextInput<W>(launch: Launch<W>, count: nat, t: nat, channel: nat)
    requires launch.Valid(count) && t < |launch.slots| && channel < launch.channels
    ensures |Inputs(launch, count, t + 1, launch.slots[t], channel)| > 0
  {
  }

  lemma ChunkedWindow<W>(
      whole: Launch<W>, a: Launch<W>, b: Launch<W>,
      before: seq<seq<seq<W>>>, middle: seq<seq<seq<W>>>, t: nat, channel: nat)
    requires Joined(whole, a, b, |before|) && whole.Valid(|before|) && HistoryFits(before, a.channels)
    requires Registers(a, before, middle, |a.slots|) && t < |whole.slots| && channel < a.channels
    ensures Window(whole, before, t, channel)
         == if t < |a.slots| then Window(a, before, t, channel) else Window(b, middle, t - |a.slots|, channel)
  {
    hide Joined, Launch.Valid, Inputs, Last, Launch.Word;
    JoinedSlots(whole, a, b, |before|, t);
    var n, slot := |a.slots|, whole.slots[t];
    if t < n {
      JoinedInputs(whole, a, b, |before|, t + 1, slot, channel);
    } else {
      hide Stream;
      var more := Inputs(b, |before|, t - n + 1, slot, channel);
      NextInput(b, |before|, t - n, channel);
      JoinedStream(whole, a, b, before, t - n + 1, slot, channel);
      LastOfJoined(Stream(a, before, n, slot, channel), more, HISTORY_TAPS + 1);
      RegisterIs(a, before, middle, n, slot, channel);
      StreamIs(b, middle, t - n + 1, slot, channel);
    }
  }

  lemma StreamIs<W>(launch: Launch<W>, before: seq<seq<seq<W>>>, t: nat, s: nat, c: nat)
    requires launch.Valid(|before|) && HistoryFits(before, launch.channels) && t <= |launch.slots|
    requires s < |before| && c < launch.channels
    ensures |before[s]| == launch.channels
    ensures Stream(launch, before, t, s, c) == before[s][c] + Inputs(launch, |before|, t, s, c)
  {
  }

  // ---- Causal launches --------------------------------------------------------

  // A launch routed the way the recurrence is: to one slot a row for a decode
  // batch, to the first slot throughout for a causal run.
  function RoutedLaunch<W>(launch: Launch<W>, stateRows: seq<nat>, causal: bool, rows: nat): Launch<W>
    requires |stateRows| > 0
  {
    launch.(slots := GatedDelta.Route(stateRows, causal, rows))
  }

  // A causal run of one token is a decode batch of one: the same launch, so the
  // same registers and the same response.
  lemma OneRowAgrees<W>(
      f: Functions, launch: Launch<W>, stateRows: seq<nat>, before: seq<seq<seq<W>>>, after: seq<seq<seq<W>>>)
    requires f.Lawful() && |stateRows| > 0 && HistoryFits(before, launch.channels)
    requires RoutedLaunch(launch, stateRows, true, 1).Valid(|before|)
    ensures var causal, batch := RoutedLaunch(launch, stateRows, true, 1), RoutedLaunch(launch, stateRows, false, 1);
      && batch.Valid(|before|)
      && (Registers(causal, before, after, 1) <==> Registers(batch, before, after, 1))
      && Expected(f, causal, before, 0) == Expected(f, batch, before, 0)
  {
    assert GatedDelta.Route(stateRows, true, 1) == GatedDelta.Route(stateRows, false, 1);
  }

  // A causal launch of n + m rows is a causal launch of n followed by one of m.
  lemma CausalLaunchesJoin<W>(
      a: Launch<W>, b: Launch<W>, stateRows: seq<nat>, n: nat, m: nat, count: nat)
    requires |stateRows| > 0 && a == RoutedLaunch(a, stateRows, true, n) && b == RoutedLaunch(b, stateRows, true, m)
    requires a.Valid(count) && b.Valid(count) && b == a.(projected := b.projected, slots := b.slots)
    ensures var whole := a.(projected := a.projected + b.projected);
      Joined(RoutedLaunch(whole, stateRows, true, n + m), a, b, count)
  {
    hide Launch.Valid;
    assert GatedDelta.Route(stateRows, true, n + m)
        == GatedDelta.Route(stateRows, true, n) + GatedDelta.Route(stateRows, true, m);
  }

  // ---- From an empty history --------------------------------------------------

  // A first token meets only zeros: the register then holds two zeros and the
  // token ...
  lemma FirstRegister<W>(launch: Launch<W>, before: seq<seq<seq<W>>>, after: seq<seq<seq<W>>>, zero: W, c: nat)
    requires launch.Valid(|before|) && HistoryFits(before, launch.channels)
    requires |launch.slots| == 1 && c < launch.channels
    requires before[launch.slots[0]][c] == [zero, zero, zero]
    requires Registers(launch, before, after, 1)
    ensures after[launch.slots[0]][c] == [zero, zero, launch.Word(0, c)]
    ensures Window(launch, before, 0, c) == [zero, zero, zero, launch.Word(0, c)]
  {
    BatchIsolated(launch, before, after, c);
  }

  // ... and the response is the last tap alone.
  lemma FirstResponse<W>(f: Functions, launch: Launch<W>, c: nat, zero: W, word: W)
      returns (sum: real)
    requires f.Lawful() && |launch.weights| == launch.channels * (HISTORY_TAPS + 1)
    requires c < launch.channels && launch.decode(zero) == 0.0
    ensures c * 4 + 3 < |launch.weights|
    ensures sum == launch.decode(launch.weights[c * 4 + 3]) * launch.decode(word)
    ensures Response(f, launch, c, [zero, zero, zero, word]) == f.Silu(sum)
  {
    hide Dot;
    Gap(HISTORY_TAPS + 1, c, launch.channels);
    var weights := Decoded(launch.decode, Block(launch.weights, HISTORY_TAPS + 1, c));
    var values := Decoded(launch.decode, [zero, zero, zero, word]);
    var tap := launch.weights[c * 4 + 3];
    assert Block(launch.weights, HISTORY_TAPS + 1, c)[3] == tap;
    LastTap(weights, values);
    sum := SameProduct(weights[3], values[3], launch.decode(tap), launch.decode(word));
    assert weights[3] * values[3] == sum;
  }

  lemma LastTap(weights: seq<real>, values: seq<real>)
    requires |weights| == |values| == 4 && values[0] == values[1] == values[2] == 0.0
    ensures Dot(weights, values) == weights[3] * values[3]
  {
    hide Dot;
    DotEmpty(weights, values);
    DotExtend(weights, values, 0);
    DotExtend(weights, values, 1);
    DotExtend(weights, values, 2);
    DotExtend(weights, values, 3);
    assert weights[..4] == weights && values[..4] == values;
  }
}
