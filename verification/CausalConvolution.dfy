// The causal convolution oracle: per slot and channel a register of the last
// three input words, shifted in place by every token. The register is proved
// to be a window on the slot's whole input stream.
module CausalConvolution {
  import opened Analysis
  import opened Blocks
  import opened Vectors

  const HISTORY_TAPS: nat := 3

  // The words of one launch. Row t of projected starts with one word per channel.
  datatype Launch<!W> = Launch(
    decode: W -> real, projected: seq<W>, inputRows: nat, weights: seq<W>, channels: nat, slots: seq<nat>)
  {
    ghost predicate Valid(count: nat) {
      && channels <= inputRows
      && |projected| == |slots| * inputRows
      && |weights| == channels * (HISTORY_TAPS + 1)
      && forall t :: 0 <= t < |slots| ==> slots[t] < count
    }

    function Word(t: nat, channel: nat): W
      requires channels <= inputRows && |projected| == |slots| * inputRows && t < |slots| && channel < channels
    {
      Gap(inputRows, t, |slots|);
      projected[t * inputRows + channel]
    }
  }

  // Everything the first t tokens feed to one channel of one slot.
  ghost function Inputs<W>(launch: Launch<W>, count: nat, t: nat, slot: nat, channel: nat): (words: seq<W>)
    requires launch.Valid(count) && t <= |launch.slots| && channel < launch.channels
  {
    if t == 0 then []
    else
      Inputs(launch, count, t - 1, slot, channel)
      + (if launch.slots[t - 1] == slot then [launch.Word(t - 1, channel)] else [])
  }

  // A slot's history followed by everything it was fed.
  ghost function Stream<W>(launch: Launch<W>, history: seq<seq<seq<W>>>, t: nat, slot: nat, channel: nat)
      : (words: seq<W>)
    requires launch.Valid(|history|) && t <= |launch.slots| && slot < |history| && channel < launch.channels
    requires HistoryFits(history, launch.channels)
    ensures |words| >= HISTORY_TAPS
  {
    history[slot][channel] + Inputs(launch, |history|, t, slot, channel)
  }

  ghost predicate HistoryFits<W>(history: seq<seq<seq<W>>>, channels: nat) {
    && (forall s :: 0 <= s < |history| ==> |history[s]| == channels)
    && (forall s, c :: 0 <= s < |history| && 0 <= c < channels ==> |history[s][c]| == HISTORY_TAPS)
  }

  function Last<T>(s: seq<T>, n: nat): (tail: seq<T>)
    requires n <= |s|
    ensures |tail| == n
  {
    s[|s| - n..]
  }

  function Decoded<W>(decode: W -> real, words: seq<W>): (values: seq<real>)
    ensures |values| == |words|
    ensures forall i :: 0 <= i < |words| ==> values[i] == decode(words[i])
  {
    seq(|words|, i requires 0 <= i < |words| => decode(words[i]))
  }

  // The activated filter response to four consecutive words of a channel.
  function Response<W>(f: Functions, launch: Launch<W>, channel: nat, window: seq<W>): real
    requires f.Lawful() && |launch.weights| == launch.channels * (HISTORY_TAPS + 1)
    requires channel < launch.channels && |window| == HISTORY_TAPS + 1
  {
    Gap(HISTORY_TAPS + 1, channel, launch.channels);
    var weights := Block(launch.weights, HISTORY_TAPS + 1, channel);
    f.Silu(Dot(Decoded(launch.decode, weights), Decoded(launch.decode, window)))
  }

  // What a whole launch must leave behind: every register holds the last three
  // words of its stream ...
  ghost predicate Registers<W>(launch: Launch<W>, before: seq<seq<seq<W>>>, after: seq<seq<seq<W>>>, t: nat)
    requires launch.Valid(|before|) && HistoryFits(before, launch.channels) && t <= |launch.slots|
  {
    && |after| == |before|
    && HistoryFits(after, launch.channels)
    && forall s, c :: 0 <= s < |before| && 0 <= c < launch.channels ==>
        after[s][c] == Last(Stream(launch, before, t, s, c), HISTORY_TAPS)
  }

  // ... and every output is the response to the last four.
  ghost function Expected<W>(f: Functions, launch: Launch<W>, before: seq<seq<seq<W>>>, t: nat): (row: seq<real>)
    requires f.Lawful() && launch.Valid(|before|) && HistoryFits(before, launch.channels) && t < |launch.slots|
    ensures |row| == launch.channels
  {
    seq(launch.channels, c requires 0 <= c < launch.channels =>
      Response(f, launch, c, Window(launch, before, t, c)))
  }

  ghost function Window<W>(launch: Launch<W>, before: seq<seq<seq<W>>>, t: nat, channel: nat): (window: seq<W>)
    requires launch.Valid(|before|) && HistoryFits(before, launch.channels)
    requires t < |launch.slots| && channel < launch.channels
    ensures |window| == HISTORY_TAPS + 1
  {
    Last(Stream(launch, before, t + 1, launch.slots[t], channel), HISTORY_TAPS + 1)
  }

  // ---- The in-place loops ------------------------------------------------------

  function Shift<W>(register: seq<W>, word: W): (next: seq<W>)
    requires |register| == HISTORY_TAPS
    ensures |next| == HISTORY_TAPS
  {
    register[1..] + [word]
  }

  function SlotShift<W>(launch: Launch<W>, slot: seq<seq<W>>, t: nat): (next: seq<seq<W>>)
    requires launch.channels <= launch.inputRows && |launch.projected| == |launch.slots| * launch.inputRows
    requires t < |launch.slots| && |slot| == launch.channels
    requires forall c :: 0 <= c < |slot| ==> |slot[c]| == HISTORY_TAPS
    ensures |next| == |slot|
  {
    seq(|slot|, c requires 0 <= c < |slot| => Shift(slot[c], launch.Word(t, c)))
  }

  function SlotResponse<W>(f: Functions, launch: Launch<W>, slot: seq<seq<W>>, t: nat): (row: seq<real>)
    requires f.Lawful()
    requires launch.channels <= launch.inputRows && |launch.projected| == |launch.slots| * launch.inputRows
    requires |launch.weights| == launch.channels * (HISTORY_TAPS + 1)
    requires t < |launch.slots| && |slot| == launch.channels
    requires forall c :: 0 <= c < |slot| ==> |slot[c]| == HISTORY_TAPS
    ensures |row| == |slot|
  {
    seq(|slot|, c requires 0 <= c < |slot| => Response(f, launch, c, slot[c] + [launch.Word(t, c)]))
  }

  method Respond<W>(f: Functions, launch: Launch<W>, channel: nat, window: seq<W>) returns (response: real)
    requires f.Lawful() && |launch.weights| == launch.channels * (HISTORY_TAPS + 1)
    requires channel < launch.channels && |window| == HISTORY_TAPS + 1
    ensures response == Response(f, launch, channel, window)
  {
    Gap(HISTORY_TAPS + 1, channel, launch.channels);
    ghost var weights := Decoded(launch.decode, Block(launch.weights, HISTORY_TAPS + 1, channel));
    ghost var values := Decoded(launch.decode, window);
    var sum := 0.0;
    for tap := 0 to HISTORY_TAPS + 1
      invariant sum == Dot(weights[..tap], values[..tap])
    {
      DotExtend(weights, values, tap);
      var weight := launch.decode(launch.weights[channel * (HISTORY_TAPS + 1) + tap]);
      var value := launch.decode(window[tap]);
      assert weight == weights[tap] && value == values[tap];
      sum := sum + weight * value;
    }
    assert weights[..HISTORY_TAPS + 1] == weights && values[..HISTORY_TAPS + 1] == values;
    response := sum / (1.0 + f.exp(-sum));
  }

  // One channel: read the register, respond, then shift it.
  method StepChannel<W>(
      f: Functions, launch: Launch<W>, t: nat, channel: nat, history: array<W>, n: nat, i: nat)
      returns (response: real)
    requires f.Lawful() && |launch.weights| == launch.channels * (HISTORY_TAPS + 1)
    requires launch.channels <= launch.inputRows && |launch.projected| == |launch.slots| * launch.inputRows
    requires t < |launch.slots| && channel < launch.channels
    requires history.Length == n * HISTORY_TAPS && i < n && i * HISTORY_TAPS + HISTORY_TAPS <= n * HISTORY_TAPS
    modifies history
    ensures var before := old(Rows(history[..], HISTORY_TAPS, n));
      && Rows(history[..], HISTORY_TAPS, n) == before[i := Shift(before[i], launch.Word(t, channel))]
      && response == Response(f, launch, channel, before[i] + [launch.Word(t, channel)])
  {
    hide Response;
    var base := i * HISTORY_TAPS;
    Gap(launch.inputRows, t, |launch.slots|);
    var current := launch.projected[t * launch.inputRows + channel];
    var values := [history[base], history[base + 1], history[base + 2], current];
    ghost var before := history[..];
    ghost var register := Block(before, HISTORY_TAPS, i);
    assert values == register + [current];
    response := Respond(f, launch, channel, values);
    history[base] := values[1];
    history[base + 1] := values[2];
    history[base + 2] := current;
    assert Block(history[..], HISTORY_TAPS, i) == Shift(register, current);
    RowsUpdate(before, history[..], HISTORY_TAPS, n, i, Shift(register, current));
  }

  // One token: every channel of its slot.
  method StepToken<W>(
      f: Functions, launch: Launch<W>, t: nat, history: array<W>, count: nat, output: array<real>)
    requires f.Lawful() && launch.Valid(count) && t < |launch.slots|
    requires history.Length == count * launch.channels * HISTORY_TAPS
    requires output.Length == |launch.slots| * launch.channels
    requires history as object != output
    modifies history, output
    ensures var slot := launch.slots[t];
      var before := old(Slots(history[..], HISTORY_TAPS, launch.channels, count));
      && Slots(history[..], HISTORY_TAPS, launch.channels, count)
      == before[slot := SlotShift(launch, before[slot], t)]
      && Rows(output[..], launch.channels, |launch.slots|)
      == old(Rows(output[..], launch.channels, |launch.slots|))[t := SlotResponse(f, launch, before[slot], t)]
  {
    hide Response, Shift, Rows, Slots, Overwritten, Launch.Word;
    var c, n, slot := launch.channels, count * launch.channels, launch.slots[t];
    Gap(c, slot, count);
    Gap(c, t, |launch.slots|);
    var first, base := slot * c, t * c;
    ghost var before, written := Rows(history[..], HISTORY_TAPS, n), output[..];
    ghost var held := Block(before, c, slot);
    ghost var next, all := SlotShift(launch, held, t), SlotResponse(f, launch, held, t);
    RowIs(before, c, count, slot);
    Untouched(before, next, first);
    Untouched(written, all, base);
    for channel := 0 to c
      invariant Overwritten(before, next, Rows(history[..], HISTORY_TAPS, n), first, channel)
      invariant Overwritten(written, all, output[..], base, channel)
    {
      ghost var rows, cells := Rows(history[..], HISTORY_TAPS, n), output[..];
      PendingOne(before, next, rows, first, channel);
      Gap(HISTORY_TAPS, first + channel, n);
      var response := StepChannel(f, launch, t, channel, history, n, first + channel);
      assert before[first + channel] == held[channel];
      OverwriteOne(before, next, rows, first, channel, Rows(history[..], HISTORY_TAPS, n));
      output[base + channel] := response;
      OverwriteOne(written, all, cells, base, channel, output[..]);
    }
    Complete(before, next, Rows(history[..], HISTORY_TAPS, n), first);
    Complete(written, all, output[..], base);
    RowsSplice(before, next, Rows(history[..], HISTORY_TAPS, n), c, count, slot);
    RowsSplice(written, all, output[..], c, |launch.slots|, t);
    SlotsAre(history[..], HISTORY_TAPS, c, count);
    SlotsAre(old(history[..]), HISTORY_TAPS, c, count);
  }

  // A shifted register is the window one word further on.
  lemma WindowAdvances<W>(launch: Launch<W>, before: seq<seq<seq<W>>>, after: seq<seq<seq<W>>>, t: nat)
    requires launch.Valid(|before|) && HistoryFits(before, launch.channels) && t < |launch.slots|
    requires Registers(launch, before, after, t)
    ensures var slot := launch.slots[t];
      && Registers(launch, before, after[slot := SlotShift(launch, after[slot], t)], t + 1)
      && forall c :: 0 <= c < launch.channels ==>
        after[slot][c] + [launch.Word(t, c)] == Window(launch, before, t, c)
  {
    var slot := launch.slots[t];
    var shifted := SlotShift(launch, after[slot], t);
    forall c | 0 <= c < launch.channels
      ensures after[slot][c] + [launch.Word(t, c)] == Window(launch, before, t, c)
      ensures shifted[c] == Last(Stream(launch, before, t + 1, slot, c), HISTORY_TAPS)
    {
      var stream := Stream(launch, before, t, slot, c);
      assert Stream(launch, before, t + 1, slot, c) == stream + [launch.Word(t, c)];
      LastGrows(stream, launch.Word(t, c));
    }
    forall s, c | 0 <= s < |before| && 0 <= c < launch.channels && s != slot
      ensures Stream(launch, before, t + 1, s, c) == Stream(launch, before, t, s, c)
    {
    }
  }

  lemma LastGrows<W>(stream: seq<W>, word: W)
    requires |stream| >= HISTORY_TAPS
    ensures Last(stream, HISTORY_TAPS) + [word] == Last(stream + [word], HISTORY_TAPS + 1)
    ensures Last(stream, HISTORY_TAPS)[1..] + [word] == Last(stream + [word], HISTORY_TAPS)
  {
  }

  // The oracle: copies the history and shifts it token by token.
  method Oracle<W>(f: Functions, launch: Launch<W>, initial: seq<W>, count: nat)
      returns (history: array<W>, output: array<real>)
    requires f.Lawful() && launch.Valid(count)
    requires |initial| == count * launch.channels * HISTORY_TAPS
    ensures history.Length == |initial| && output.Length == |launch.slots| * launch.channels
    ensures var before := Slots(initial, HISTORY_TAPS, launch.channels, count);
      && HistoryFits(before, launch.channels)
      && Registers(launch, before, Slots(history[..], HISTORY_TAPS, launch.channels, count), |launch.slots|)
      && forall t :: 0 <= t < |launch.slots| ==>
        Rows(output[..], launch.channels, |launch.slots|)[t] == Expected(f, launch, before, t)
  {
    hide Response, Shift, Rows, Slots, SlotShift, Stream;
    var c, rows := launch.channels, |launch.slots|;
    history := new W[|initial|](i requires 0 <= i < |initial| => initial[i]);
    output := new real[rows * c](_ => 0.0);
    assert history[..] == initial;
    ghost var before := Slots(initial, HISTORY_TAPS, c, count);
    RegistersStart(launch, before);
    for t := 0 to rows
      invariant Registers(launch, before, Slots(history[..], HISTORY_TAPS, c, count), t)
      invariant forall u :: 0 <= u < t ==> Rows(output[..], c, rows)[u] == Expected(f, launch, before, u)
    {
      ghost var held := Slots(history[..], HISTORY_TAPS, c, count);
      StepToken(f, launch, t, history, count, output);
      WindowAdvances(launch, before, held, t);
      ResponseExpected(f, launch, before, held, t);
    }
  }

  lemma RegistersStart<W>(launch: Launch<W>, before: seq<seq<seq<W>>>)
    requires launch.Valid(|before|) && HistoryFits(before, launch.channels)
    ensures Registers(launch, before, before, 0)
  {
    forall s, c | 0 <= s < |before| && 0 <= c < launch.channels
      ensures before[s][c] == Last(Stream(launch, before, 0, s, c), HISTORY_TAPS)
    {
      assert Stream(launch, before, 0, s, c) == before[s][c];
    }
  }

  lemma ResponseExpected<W>(
      f: Functions, launch: Launch<W>, before: seq<seq<seq<W>>>, held: seq<seq<seq<W>>>, t: nat)
    requires f.Lawful() && launch.Valid(|before|) && HistoryFits(before, launch.channels) && t < |launch.slots|
    requires Registers(launch, before, held, t)
    ensures SlotResponse(f, launch, held[launch.slots[t]], t) == Expected(f, launch, before, t)
  {
    hide Response, Stream;
    WindowAdvances(launch, before, held, t);
  }
}
