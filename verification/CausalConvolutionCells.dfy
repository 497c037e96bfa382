// The convolution written out on the flat planes, word by word: an independent
// reference for the oracle's registers and responses.
module CausalConvolutionCells {
  import opened Analysis
  import opened Blocks
  import opened CausalConvolution
  import opened Vectors

  // ---- The reference -------------------------------------------------------------------

  // What a launch starts from: count slots of channels registers of three words.
  ghost predicate Starts<W>(launch: Launch<W>, initial: seq<W>, count: nat) {
    launch.Valid(count) && |initial| == count * launch.channels * 3
  }

  lemma PlacesFit<W>(launch: Launch<W>, initial: seq<W>, count: nat, slot: nat, c: nat)
    requires Starts(launch, initial, count) && slot < count && c < launch.channels
    ensures (slot * launch.channels + c) * 3 + 3 <= |initial| && c * 4 + 4 <= |launch.weights|
  {
    Gap(launch.channels, slot, count);
    Gap(3, slot * launch.channels + c, count * launch.channels);
    Gap(4, c, launch.channels);
  }

  lemma WordFits<W>(launch: Launch<W>, count: nat, t: nat, c: nat)
    requires launch.Valid(count) && t < |launch.slots| && c < launch.channels
    ensures t * launch.inputRows + c < |launch.projected|
  {
    Gap(launch.inputRows, t, |launch.slots|);
  }

  // A register once the first t rows of the launch have been taken.
  function RegisterAfter<W>(launch: Launch<W>, initial: seq<W>, count: nat, t: nat, slot: nat, c: nat)
      : (register: seq<W>)
    requires Starts(launch, initial, count) && t <= |launch.slots| && slot < count && c < launch.channels
    ensures |register| == 3
    decreases t
  {
    PlacesFit(launch, initial, count, slot, c);
    if t == 0 then
      var base := (slot * launch.channels + c) * 3;
      [initial[base], initial[base + 1], initial[base + 2]]
    else
      var register := RegisterAfter(launch, initial, count, t - 1, slot, c);
      WordFits(launch, count, t - 1, c);
      if launch.slots[t - 1] != slot then register
      else [register[1], register[2], launch.projected[(t - 1) * launch.inputRows + c]]
  }

  // The four products of a channel's taps with four words, oldest first.
  function Filtered<W>(decode: W -> real, weights: seq<W>, c: nat, a: W, b: W, d: W, w: W): real
    requires c * 4 + 4 <= |weights|
  {
    decode(weights[c * 4]) * decode(a) + decode(weights[c * 4 + 1]) * decode(b)
    + decode(weights[c * 4 + 2]) * decode(d) + decode(weights[c * 4 + 3]) * decode(w)
  }

  // What row t gives on a channel.
  function ResponseCell<W>(f: Functions, launch: Launch<W>, initial: seq<W>, count: nat, t: nat, c: nat): real
    requires f.Lawful() && Starts(launch, initial, count) && t < |launch.slots| && c < launch.channels
  {
    PlacesFit(launch, initial, count, launch.slots[t], c);
    WordFits(launch, count, t, c);
    var held := RegisterAfter(launch, initial, count, t, launch.slots[t], c);
    var sum := Filtered(launch.decode, launch.weights, c, held[0], held[1], held[2],
      launch.projected[t * launch.inputRows + c]);
    sum / (1.0 + f.exp(-sum))
  }

  // ---- Responses -----------------------------------------------------------------------

  // The response to any four words, of any channel.
  lemma ResponseIs<W>(f: Functions, launch: Launch<W>, c: nat, a: W, b: W, d: W, w: W)
    requires f.Lawful() && |launch.weights| == launch.channels * 4 && c < launch.channels
    ensures c * 4 + 4 <= |launch.weights|
    ensures var sum := Filtered(launch.decode, launch.weights, c, a, b, d, w);
      Response(f, launch, c, [a, b, d, w]) == sum / (1.0 + f.exp(-sum))
  {
    hide Dot;
    Gap(4, c, launch.channels);
    var weights := Decoded(launch.decode, Block(launch.weights, HISTORY_TAPS + 1, c));
    var values := Decoded(launch.decode, [a, b, d, w]);
    FourProducts(weights, values);
    forall i | 0 <= i < 4
      ensures weights[i] == launch.decode(launch.weights[c * 4 + i])
    {
      PlaceInBlock(launch.weights, 4, c, i);
    }
    SameFour(weights, values, launch.decode, launch.weights, c, a, b, d, w);
  }

  lemma FourProducts(weights: seq<real>, values: seq<real>)
    requires |weights| == |values| == 4
    ensures Dot(weights, values)
      == weights[0] * values[0] + weights[1] * values[1] + weights[2] * values[2] + weights[3] * values[3]
  {
    hide Dot;
    DotEmpty(weights, values);
    DotExtend(weights, values, 0);
    DotExtend(weights, values, 1);
    DotExtend(weights, values, 2);
    DotExtend(weights, values, 3);
    assert weights[..4] == weights && values[..4] == values;
  }

  lemma SameFour<W>(
      weights: seq<real>, values: seq<real>, decode: W -> real, taps: seq<W>, c: nat, a: W, b: W, d: W, w: W)
    requires |weights| == |values| == 4 && c * 4 + 4 <= |taps|
    requires forall i :: 0 <= i < 4 ==> weights[i] == decode(taps[c * 4 + i])
    requires values[0] == decode(a) && values[1] == decode(b) && values[2] == decode(d) && values[3] == decode(w)
    ensures weights[0] * values[0] + weights[1] * values[1] + weights[2] * values[2] + weights[3] * values[3]
      == Filtered(decode, taps, c, a, b, d, w)
  {
    var p := SameProduct(weights[0], values[0], decode(taps[c * 4]), decode(a));
    var q := SameProduct(weights[1], values[1], decode(taps[c * 4 + 1]), decode(b));
    var r := SameProduct(weights[2], values[2], decode(taps[c * 4 + 2]), decode(d));
    var s := SameProduct(weights[3], values[3], decode(taps[c * 4 + 3]), decode(w));
  }

  // ---- The launch meets the reference ----------------------------------------------------

  lemma InitialRegister<W>(launch: Launch<W>, initial: seq<W>, count: nat, slot: nat, c: nat)
    requires Starts(launch, initial, count) && slot < count && c < launch.channels
    ensures Slots(initial, 3, launch.channels, count)[slot][c] == RegisterAfter(launch, initial, count, 0, slot, c)
  {
    hide Slots;
    PlacesFit(launch, initial, count, slot, c);
    SlotPlace(initial, 3, launch.channels, count, slot, c, (slot * launch.channels + c) * 3);
  }

  lemma {:induction false} LastOfStream<W>(
      launch: Launch<W>, initial: seq<W>, count: nat, before: seq<seq<seq<W>>>, t: nat, slot: nat, c: nat)
    requires Starts(launch, initial, count) && before == Slots(initial, 3, launch.channels, count)
    requires HistoryFits(before, launch.channels) && t <= |launch.slots| && slot < count && c < launch.channels
    ensures Last(Stream(launch, before, t, slot, c), 3) == RegisterAfter(launch, initial, count, t, slot, c)
  {
    hide Slots, Launch.Valid, HistoryFits, Stream, Last;
    if t == 0 {
      InitialRegister(launch, initial, count, slot, c);
      StartOfStream(launch, before, slot, c);
    } else {
      hide RegisterAfter, Starts, Launch.Word;
      StartsValid(launch, initial, count);
      LastOfStream(launch, initial, count, before, t - 1, slot, c);
      StreamGrows(launch, before, t - 1, slot, c);
      RegisterNext(launch, initial, count, t - 1, slot, c);
      LastShifts(Stream(launch, before, t - 1, slot, c), launch.Word(t - 1, c));
    }
  }

  lemma StartsValid<W>(launch: Launch<W>, initial: seq<W>, count: nat)
    requires Starts(launch, initial, count)
    ensures launch.Valid(count)
    ensures launch.channels <= launch.inputRows && |launch.projected| == |launch.slots| * launch.inputRows
  {
  }

  lemma RegisterNext<W>(launch: Launch<W>, initial: seq<W>, count: nat, t: nat, slot: nat, c: nat)
    requires Starts(launch, initial, count) && t < |launch.slots| && slot < count && c < launch.channels
    ensures launch.channels <= launch.inputRows && |launch.projected| == |launch.slots| * launch.inputRows
    ensures var held := RegisterAfter(launch, initial, count, t, slot, c);
      RegisterAfter(launch, initial, count, t + 1, slot, c)
      == if launch.slots[t] == slot then [held[1], held[2], launch.Word(t, c)] else held
  {
  }

  lemma LastShifts<W>(stream: seq<W>, word: W)
    requires |stream| >= 3
    ensures Last(stream + [word], 3) == [Last(stream, 3)[1], Last(stream, 3)[2], word]
    ensures Last(stream + [word], 4) == [Last(stream, 3)[0], Last(stream, 3)[1], Last(stream, 3)[2], word]
  {
  }

  lemma StartOfStream<W>(launch: Launch<W>, before: seq<seq<seq<W>>>, slot: nat, c: nat)
    requires launch.Valid(|before|) && HistoryFits(before, launch.channels) && slot < |before| && c < launch.channels
    ensures |before[slot]| == launch.channels && |before[slot][c]| == 3
    ensures Last(Stream(launch, before, 0, slot, c), 3) == before[slot][c]
  {
  }

  lemma StreamGrows<W>(launch: Launch<W>, before: seq<seq<seq<W>>>, t: nat, slot: nat, c: nat)
    requires launch.Valid(|before|) && HistoryFits(before, launch.channels)
    requires t < |launch.slots| && slot < |before| && c < launch.channels
    ensures |launch.projected| == |launch.slots| * launch.inputRows && launch.channels <= launch.inputRows
    ensures Stream(launch, before, t + 1, slot, c)
      == if launch.slots[t] == slot then Stream(launch, before, t, slot, c) + [launch.Word(t, c)]
         else Stream(launch, before, t, slot, c)
  {
  }

  lemma WindowIs<W>(
      launch: Launch<W>, initial: seq<W>, count: nat, before: seq<seq<seq<W>>>, t: nat, c: nat)
    requires Starts(launch, initial, count) && before == Slots(initial, 3, launch.channels, count)
    requires HistoryFits(before, launch.channels) && t < |launch.slots| && c < launch.channels
    ensures launch.channels <= launch.inputRows && |launch.projected| == |launch.slots| * launch.inputRows
    ensures launch.slots[t] < count
    ensures var held := RegisterAfter(launch, initial, count, t, launch.slots[t], c);
      Window(launch, before, t, c) == [held[0], held[1], held[2], launch.Word(t, c)]
  {
    hide Slots, HistoryFits, Stream, Last, RegisterAfter, Launch.Word;
    var slot := launch.slots[t];
    LastOfStream(launch, initial, count, before, t, slot, c);
    StreamGrows(launch, before, t, slot, c);
    LastShifts(Stream(launch, before, t, slot, c), launch.Word(t, c));
  }

  function RegisterPlace<W>(launch: Launch<W>, slot: nat, c: nat): nat {
    (slot * launch.channels + c) * 3
  }

  function ResponsePlace<W>(launch: Launch<W>, t: nat, c: nat): nat {
    t * launch.channels + c
  }

  predicate RegisterMeets<W(==)>(history: seq<W>, base: nat, register: seq<W>) {
    base + 3 <= |history| && history[base..base + 3] == register
  }

  // Every register is the reference register ...
  ghost predicate RegistersMeet<W>(launch: Launch<W>, initial: seq<W>, count: nat, history: seq<W>)
    requires Starts(launch, initial, count)
  {
    forall slot, c :: 0 <= slot < count && 0 <= c < launch.channels ==>
      RegisterMeets(history, RegisterPlace(launch, slot, c),
        RegisterAfter(launch, initial, count, |launch.slots|, slot, c))
  }

  // ... and every cell of the output the reference response.
  ghost predicate ResponsesMeet<W>(f: Functions, launch: Launch<W>, initial: seq<W>, count: nat, output: seq<real>)
    requires f.Lawful() && Starts(launch, initial, count)
  {
    forall t, c :: 0 <= t < |launch.slots| && 0 <= c < launch.channels ==>
      && ResponsePlace(launch, t, c) < |output|
      && output[ResponsePlace(launch, t, c)] == ResponseCell(f, launch, initial, count, t, c)
  }

  lemma RegisterIs<W>(
      launch: Launch<W>, initial: seq<W>, count: nat, before: seq<seq<seq<W>>>, history: seq<W>,
      slot: nat, c: nat)
    requires Starts(launch, initial, count) && before == Slots(initial, 3, launch.channels, count)
    requires HistoryFits(before, launch.channels) && |history| == |initial|
    requires Registers(launch, before, Slots(history, 3, launch.channels, count), |launch.slots|)
    requires slot < count && c < launch.channels
    ensures RegisterMeets(history, RegisterPlace(launch, slot, c),
      RegisterAfter(launch, initial, count, |launch.slots|, slot, c))
  {
    hide Slots, Last, Stream, RegisterAfter, HistoryFits;
    LastOfStream(launch, initial, count, before, |launch.slots|, slot, c);
    SlotPlace(history, 3, launch.channels, count, slot, c, RegisterPlace(launch, slot, c));
  }

  lemma ResponseMeets<W>(
      f: Functions, launch: Launch<W>, initial: seq<W>, count: nat, before: seq<seq<seq<W>>>, output: seq<real>,
      t: nat, c: nat)
    requires f.Lawful() && Starts(launch, initial, count) && before == Slots(initial, 3, launch.channels, count)
    requires HistoryFits(before, launch.channels) && |output| == |launch.slots| * launch.channels
    requires t < |launch.slots| && c < launch.channels
    requires Rows(output, launch.channels, |launch.slots|)[t] == Expected(f, launch, before, t)
    ensures ResponsePlace(launch, t, c) < |output|
    ensures output[ResponsePlace(launch, t, c)] == ResponseCell(f, launch, initial, count, t, c)
  {
    hide Slots, Rows, Window, Response, RegisterAfter, HistoryFits, Filtered;
    WindowIs(launch, initial, count, before, t, c);
    var held := RegisterAfter(launch, initial, count, t, launch.slots[t], c);
    ResponseIs(f, launch, c, held[0], held[1], held[2], launch.Word(t, c));
    Gap(launch.channels, t, |launch.slots|);
    RowIs(output, launch.channels, |launch.slots|, t);
    PlaceInBlock(output, launch.channels, t, c);
  }

  lemma AllMeet<W>(
      f: Functions, launch: Launch<W>, initial: seq<W>, count: nat, before: seq<seq<seq<W>>>,
      history: seq<W>, output: seq<real>)
    requires f.Lawful() && Starts(launch, initial, count) && before == Slots(initial, 3, launch.channels, count)
    requires HistoryFits(before, launch.channels)
    requires |history| == |initial| && |output| == |launch.slots| * launch.channels
    requires Registers(launch, before, Slots(history, 3, launch.channels, count), |launch.slots|)
    requires forall t :: 0 <= t < |launch.slots| ==>
      Rows(output, launch.channels, |launch.slots|)[t] == Expected(f, launch, before, t)
    ensures RegistersMeet(launch, initial, count, history) && ResponsesMeet(f, launch, initial, count, output)
  {
    hide Slots, Registers, RegisterAfter, ResponseCell, HistoryFits, Rows, Expected, Launch.Valid, Starts,
      RegisterMeets, RegisterPlace, ResponsePlace;
    forall slot, c | 0 <= slot < count && 0 <= c < launch.channels
      ensures RegisterMeets(history, RegisterPlace(launch, slot, c),
        RegisterAfter(launch, initial, count, |launch.slots|, slot, c))
    {
      RegisterIs(launch, initial, count, before, history, slot, c);
    }
    forall t, c | 0 <= t < |launch.slots| && 0 <= c < launch.channels
      ensures ResponsePlace(launch, t, c) < |output|
      ensures output[ResponsePlace(launch, t, c)] == ResponseCell(f, launch, initial, count, t, c)
    {
      ResponseMeets(f, launch, initial, count, before, output, t, c);
    }
  }

  // The oracle run, whatever it is given.
  method Launched<W>(f: Functions, launch: Launch<W>, initial: seq<W>, count: nat)
      returns (history: array<W>, output: array<real>)
    requires f.Lawful() && Starts(launch, initial, count)
    ensures RegistersMeet(launch, initial, count, history[..])
    ensures ResponsesMeet(f, launch, initial, count, output[..])
  {
    history, output := Oracle(f, launch, initial, count);
    ghost var before := Slots(initial, 3, launch.channels, count);
    hide Slots, Registers, HistoryFits, Rows, Expected, RegistersMeet, ResponsesMeet;
    AllMeet(f, launch, initial, count, before, history[..], output[..]);
  }
}
