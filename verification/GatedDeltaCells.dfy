// The recurrence written out on the flat planes, cell by cell: an independent
// reference that every cell of the oracle's state and output is proved to meet.
module GatedDeltaCells {
  import opened Analysis
  import opened Blocks
  import opened GatedDelta
  import opened GatedDeltaOracle
  import opened Vectors

  // Everything one call of the oracle is given.
  datatype Call = Call(
    shape: Shape, f: Functions, fixture: Fixture, capacity: nat, stateRows: seq<nat>, causal: bool, rows: nat,
    initial: seq<real>, count: nat)
  {
    ghost predicate Valid() {
      && shape.Valid() && f.Lawful() && Covers(shape, fixture, capacity) && rows <= capacity
      && |stateRows| > 0 && (forall k :: 0 <= k < |stateRows| ==> stateRows[k] < count)
      && |initial| == count * shape.ValueWidth() * shape.headDim
    }
  }

  // ---- Where a token's cells lie ---------------------------------------------------

  // Queries, keys and values of one token, packed; its gates follow the same
  // number of other cells in the other plane.
  function PackedWidth(s: Shape): nat {
    2 * (s.keyHeads * s.headDim) + s.valueHeads * s.headDim
  }

  function InputWidth(s: Shape): nat {
    PackedWidth(s) + s.valueHeads * s.headDim
  }

  lemma Widths(x: Call)
    requires x.Valid()
    ensures x.shape.Valid() && x.f.Lawful() && Covers(x.shape, x.fixture, x.capacity) && x.rows <= x.capacity
    ensures x.shape.QkvRows() == PackedWidth(x.shape) && x.shape.InputRows() == InputWidth(x.shape)
    ensures |x.fixture.qkv| == x.capacity * PackedWidth(x.shape)
    ensures |x.fixture.projected| == x.capacity * InputWidth(x.shape)
    ensures |x.fixture.logDecay| == |x.fixture.beta| == x.capacity * x.shape.valueHeads
    ensures |x.fixture.normWeight| == x.shape.headDim
    ensures |x.initial| == x.count * x.shape.valueHeads * x.shape.headDim * x.shape.headDim
  {
    Associate(x.count, x.shape.valueHeads, x.shape.headDim);
  }

  lemma Basics(x: Call)
    requires x.Valid()
    ensures x.shape.Valid() && x.f.Lawful() && x.rows <= x.capacity && |x.stateRows| > 0
    ensures |x.fixture.normWeight| == x.shape.headDim
  {
  }

  lemma Associate(a: nat, b: nat, c: nat)
    ensures a * (b * c) == a * b * c
  {
  }

  lemma GroupBound(s: Shape, h: nat)
    requires s.Valid() && h < s.valueHeads
    ensures s.valueHeads / s.keyHeads > 0 && h / (s.valueHeads / s.keyHeads) < s.keyHeads
  {
    GroupSize(s.valueHeads, s.keyHeads);
    QuotientBound(h, s.valueHeads / s.keyHeads, s.keyHeads);
  }

  // Block k of n blocks of d cells, from a place in row t of rows rows.
  lemma InRow(width: nat, rows: nat, t: nat, from: nat, d: nat, n: nat, k: nat)
    requires t < rows && k < n && from + n * d <= width
    ensures t * width + from + k * d + d <= rows * width
  {
    Gap(width, t, rows);
    Gap(d, k, n);
  }

  // Value heads share key heads in consecutive groups of equal size.
  lemma KeyHeadGroups(s: Shape, h: nat)
    requires s.Valid() && h < s.valueHeads
    ensures s.KeyHead(h) * (s.valueHeads / s.keyHeads) <= h < (s.KeyHead(h) + 1) * (s.valueHeads / s.keyHeads)
  {
    GroupSize(s.valueHeads, s.keyHeads);
    var size := s.valueHeads / s.keyHeads;
    assert h == h / size * size + h % size;
    NextMultiple(size, h / size);
  }

  // The query and key blocks of a value head, and its values and gates.
  function QueryPlace(s: Shape, t: nat, h: nat): nat
    requires s.Valid()
  {
    GroupSize(s.valueHeads, s.keyHeads);
    t * PackedWidth(s) + h / (s.valueHeads / s.keyHeads) * s.headDim
  }

  function KeyPlace(s: Shape, t: nat, h: nat): nat
    requires s.Valid()
  {
    GroupSize(s.valueHeads, s.keyHeads);
    t * PackedWidth(s) + s.keyHeads * s.headDim + h / (s.valueHeads / s.keyHeads) * s.headDim
  }

  function ValuePlace(s: Shape, t: nat, h: nat): nat {
    t * PackedWidth(s) + 2 * (s.keyHeads * s.headDim) + h * s.headDim
  }

  function GatePlace(s: Shape, t: nat, h: nat): nat {
    t * InputWidth(s) + PackedWidth(s) + h * s.headDim
  }

  function ControlPlace(s: Shape, t: nat, h: nat): nat {
    t * s.valueHeads + h
  }

  // Row r of head h of a slot.
  function StatePlace(s: Shape, slot: nat, h: nat, r: nat): nat {
    ((slot * s.valueHeads + h) * s.headDim + r) * s.headDim
  }

  function OutputPlace(s: Shape, t: nat, h: nat, r: nat): nat {
    (t * s.valueHeads + h) * s.headDim + r
  }

  lemma Parts(s: Shape)
    ensures PackedWidth(s) == s.keyHeads * s.headDim + s.keyHeads * s.headDim + s.valueHeads * s.headDim
    ensures InputWidth(s) == PackedWidth(s) + s.valueHeads * s.headDim
  {
  }

  // All of them lie in their planes.
  lemma PlacesFit(x: Call, t: nat, h: nat)
    requires x.Valid() && t < x.capacity && h < x.shape.valueHeads
    ensures QueryPlace(x.shape, t, h) + x.shape.headDim <= |x.fixture.qkv|
    ensures KeyPlace(x.shape, t, h) + x.shape.headDim <= |x.fixture.qkv|
    ensures ValuePlace(x.shape, t, h) + x.shape.headDim <= |x.fixture.qkv|
    ensures GatePlace(x.shape, t, h) + x.shape.headDim <= |x.fixture.projected|
    ensures ControlPlace(x.shape, t, h) < |x.fixture.logDecay|
    ensures ControlPlace(x.shape, t, h) < |x.fixture.beta|
  {
    Widths(x);
    var s := x.shape;
    GroupBound(s, h);
    Parts(s);
    var k, d, width := h / (s.valueHeads / s.keyHeads), s.headDim, PackedWidth(s);
    assert QueryPlace(s, t, h) == t * width + 0 + k * d;
    assert KeyPlace(s, t, h) == t * width + s.keyHeads * d + k * d;
    hide Call.Valid, Covers, PackedWidth, InputWidth, QueryPlace, KeyPlace;
    InRow(width, x.capacity, t, 0, d, s.keyHeads, k);
    InRow(width, x.capacity, t, s.keyHeads * d, d, s.keyHeads, k);
    InRow(width, x.capacity, t, 2 * (s.keyHeads * d), d, s.valueHeads, h);
    InRow(InputWidth(s), x.capacity, t, width, d, s.valueHeads, h);
    Gap(s.valueHeads, t, x.capacity);
  }

  lemma StateFits(x: Call, slot: nat, h: nat, r: nat)
    requires x.Valid() && slot < x.count && h < x.shape.valueHeads && r < x.shape.headDim
    ensures StatePlace(x.shape, slot, h, r) + x.shape.headDim <= |x.initial|
  {
    Widths(x);
    hide Call.Valid, Covers;
    StateBound(x.shape, x.count, slot, h, r);
  }

  lemma StateBound(s: Shape, count: nat, slot: nat, h: nat, r: nat)
    requires slot < count && h < s.valueHeads && r < s.headDim
    ensures ((slot * s.valueHeads + h) * s.headDim + r) * s.headDim + s.headDim
      <= count * s.valueHeads * s.headDim * s.headDim
  {
    Gap(s.valueHeads, slot, count);
    var heads, head := count * s.valueHeads, slot * s.valueHeads + h;
    Gap(s.headDim, head, heads);
    var rows, row := heads * s.headDim, head * s.headDim + r;
    Gap(s.headDim, row, rows);
  }

  // ---- The reference -----------------------------------------------------------------

  // The slot a row of the launch rewrites.
  function SlotOf(x: Call, t: nat): nat
    requires |x.stateRows| > 0 && t < x.rows
  {
    if !x.causal && x.rows <= |x.stateRows| then x.stateRows[t] else x.stateRows[0]
  }

  // One over the length of a block of the packed plane.
  function InverseLength(f: Functions, plane: seq<real>, place: nat, d: nat): real
    requires f.Lawful() && place + d <= |plane|
  {
    SquaresNonNegative(plane, place, d);
    1.0 / f.sqrt(FlatDot(plane, place, plane, place, d) + 0.000001)
  }

  lemma SquaresNonNegative(a: seq<real>, i: nat, n: nat)
    requires i + n <= |a|
    ensures FlatDot(a, i, a, i, n) >= 0.0
  {
    FlatDotIs(a, i, a, i, n);
    SquaredNormNonNegative(a[i..i + n]);
  }

  // Row r of head h after one more token.
  function RowNext(x: Call, t: nat, h: nat, r: nat, row: seq<real>): (next: seq<real>)
    requires x.Valid() && t < x.capacity && h < x.shape.valueHeads && r < x.shape.headDim && |row| == x.shape.headDim
    ensures |next| == x.shape.headDim
  {
    PlacesFit(x, t, h);
    var key := KeyPlace(x.shape, t, h);
    var value, control := x.fixture.qkv[ValuePlace(x.shape, t, h) + r], ControlPlace(x.shape, t, h);
    Stepped(x.f, x.fixture.qkv, key, row, value, x.f.exp(x.fixture.logDecay[control]), x.fixture.beta[control])
  }

  function Stepped(f: Functions, plane: seq<real>, place: nat, row: seq<real>, value: real, decay: real, beta: real)
      : (next: seq<real>)
    requires f.Lawful() && place + |row| <= |plane|
    ensures |next| == |row|
  {
    Written(f, plane, place, row, decay, beta * (value - decay * Recalled(f, plane, place, row)))
  }

  // A row read against the block at a place of the plane, scaled to unit length ...
  function Recalled(f: Functions, plane: seq<real>, place: nat, row: seq<real>): real
    requires f.Lawful() && place + |row| <= |plane|
  {
    FlatDot(row, 0, plane, place, |row|) * InverseLength(f, plane, place, |row|)
  }

  // ... and decayed, with a weight of that block added.
  function Written(f: Functions, plane: seq<real>, place: nat, row: seq<real>, decay: real, weight: real)
      : (next: seq<real>)
    requires f.Lawful() && place + |row| <= |plane|
    ensures |next| == |row|
  {
    seq(|row|, c requires 0 <= c < |row| =>
      decay * row[c] + weight * (plane[place + c] * InverseLength(f, plane, place, |row|)))
  }

  // A state row once the first t rows of the launch have been taken.
  function RowAfter(x: Call, t: nat, slot: nat, h: nat, r: nat): (row: seq<real>)
    requires x.Valid() && t <= x.rows && slot < x.count && h < x.shape.valueHeads && r < x.shape.headDim
    ensures |row| == x.shape.headDim
    decreases t
  {
    var d, s := x.shape.headDim, x.shape;
    if t == 0 then
      StateFits(x, slot, h, r);
      var place := StatePlace(s, slot, h, r);
      x.initial[place..place + d]
    else
      var row := RowAfter(x, t - 1, slot, h, r);
      if slot != SlotOf(x, t - 1) then row
      else RowNext(x, t - 1, h, r, row)
  }

  // What token t reads from a row of its slot.
  function Recurrent(x: Call, t: nat, h: nat, r: nat): real
    requires x.Valid() && t < x.rows && h < x.shape.valueHeads && r < x.shape.headDim
  {
    PlacesFit(x, t, h);
    var query := QueryPlace(x.shape, t, h);
    var row := RowAfter(x, t + 1, SlotOf(x, t), h, r);
    Recalled(x.f, x.fixture.qkv, query, row) * 0.08838835
  }

  // The squares of the first n of them.
  function RecurrentSquares(x: Call, t: nat, h: nat, n: nat): real
    requires x.Valid() && t < x.rows && h < x.shape.valueHeads && n <= x.shape.headDim
  {
    if n == 0 then 0.0
    else
      var value := Recurrent(x, t, h, n - 1);
      RecurrentSquares(x, t, h, n - 1) + value * value
  }

  // One cell of the output.
  function OutputCell(x: Call, t: nat, h: nat, r: nat): real
    requires x.Valid() && t < x.rows && h < x.shape.valueHeads && r < x.shape.headDim
  {
    PlacesFit(x, t, h);
    RecurrentSquaresNonNegative(x, t, h, x.shape.headDim);
    Gated(x.f, Recurrent(x, t, h, r), RecurrentSquares(x, t, h, x.shape.headDim), x.shape.headDim,
      x.fixture.normWeight[r], x.fixture.projected[GatePlace(x.shape, t, h) + r])
  }

  function Gated(f: Functions, value: real, squares: real, d: nat, weight: real, gate: real): real
    requires f.Lawful() && squares >= 0.0 && d > 0
  {
    value / f.sqrt(squares / d as real + 0.000001) * weight * (gate / (1.0 + f.exp(-gate)))
  }

  lemma {:induction false} RecurrentSquaresNonNegative(x: Call, t: nat, h: nat, n: nat)
    requires x.Valid() && t < x.rows && h < x.shape.valueHeads && n <= x.shape.headDim
    ensures RecurrentSquares(x, t, h, n) >= 0.0
  {
    hide Recurrent;
    if n == 0 {
    } else {
      RecurrentSquaresNonNegative(x, t, h, n - 1);
      var value := Recurrent(x, t, h, n - 1);
      assert value * value >= 0.0;
    }
  }

  // ---- Tokens are read from those places -----------------------------------------------

  ghost function At(x: Call, t: nat): (token: Token)
    requires x.Valid() && t < x.capacity
    ensures Fits(x.shape, token)
  {
    TokenAt(x.shape, x.f, x.fixture, x.capacity, t)
  }

  // A query and a key head of a token, before they are normalized.
  lemma HeadsUnfold(x: Call, t: nat, k: nat, a: nat, b: nat)
    requires x.Valid() && t < x.rows && k < x.shape.keyHeads
    requires a == t * x.shape.QkvRows() && b == k * x.shape.headDim
    ensures a + x.shape.QkvRows() <= |x.fixture.qkv| && b + x.shape.headDim <= x.shape.QkWidth()
    ensures 2 * x.shape.QkWidth() <= x.shape.QkvRows()
    ensures var row, qk, d := x.fixture.qkv[a..a + x.shape.QkvRows()], x.shape.QkWidth(), x.shape.headDim;
      && k < |At(x, t).query| && At(x, t).query[k] == Normalize(x.f, row[0..qk][b..b + d])
      && k < |At(x, t).key| && At(x, t).key[k] == Normalize(x.f, row[qk..2 * qk][b..b + d])
  {
    hide Normalize;
    Gap(x.shape.QkvRows(), t, x.capacity);
    Gap(x.shape.headDim, k, x.shape.keyHeads);
    var row := x.fixture.qkv[a..a + x.shape.QkvRows()];
    assert row[..x.shape.QkWidth()] == row[0..x.shape.QkWidth()];
  }

  lemma HeadPlaces(s: Shape, t: nat, h: nat, a: nat, b: nat)
    requires s.Valid() && h < s.valueHeads && a == t * s.QkvRows() && b == s.KeyHead(h) * s.headDim
    ensures QueryPlace(s, t, h) == a + b && KeyPlace(s, t, h) == a + s.QkWidth() + b
  {
  }

  lemma QueryIs(x: Call, t: nat, h: nat)
    requires x.Valid() && t < x.rows && h < x.shape.valueHeads
    ensures x.shape.KeyHead(h) < |At(x, t).query|
    ensures var query := QueryPlace(x.shape, t, h);
      && query + x.shape.headDim <= |x.fixture.qkv|
      && At(x, t).query[x.shape.KeyHead(h)] == Normalize(x.f, x.fixture.qkv[query..query + x.shape.headDim])
  {
    hide *;
    Basics(x);
    var w, d := x.shape.QkvRows(), x.shape.headDim;
    var a, b := t * w, x.shape.KeyHead(h) * d;
    HeadsUnfold(x, t, x.shape.KeyHead(h), a, b);
    HeadPlaces(x.shape, t, h, a, b);
    NestedSlice(x.fixture.qkv, a, w, 0, x.shape.QkWidth(), b, d);
  }

  lemma KeyIs(x: Call, t: nat, h: nat)
    requires x.Valid() && t < x.rows && h < x.shape.valueHeads
    ensures x.shape.KeyHead(h) < |At(x, t).key|
    ensures var key := KeyPlace(x.shape, t, h);
      && key + x.shape.headDim <= |x.fixture.qkv|
      && At(x, t).key[x.shape.KeyHead(h)] == Normalize(x.f, x.fixture.qkv[key..key + x.shape.headDim])
  {
    hide *;
    Basics(x);
    var w, d := x.shape.QkvRows(), x.shape.headDim;
    var a, b := t * w, x.shape.KeyHead(h) * d;
    HeadsUnfold(x, t, x.shape.KeyHead(h), a, b);
    HeadPlaces(x.shape, t, h, a, b);
    NestedSlice(x.fixture.qkv, a, w, x.shape.QkWidth(), 2 * x.shape.QkWidth(), b, d);
  }

  lemma BlockTail(s: seq<real>, w: nat, t: nat, from: nat, i: nat)
    requires t * w + w <= |s| && from + i < w
    ensures Block(s, w, t)[from..][i] == s[t * w + from + i]
  {
    PlaceInBlock(s, w, t, from + i);
  }

  lemma ValueIs(x: Call, t: nat, j: nat, h: nat, r: nat)
    requires x.Valid() && t < x.rows && IsRow(x.shape, j, h, r)
    ensures ValuePlace(x.shape, t, h) + r < |x.fixture.qkv|
    ensures At(x, t).value[j] == x.fixture.qkv[ValuePlace(x.shape, t, h) + r]
  {
    hide NormalizedHeads;
    Widths(x);
    PlacesFit(x, t, h);
    var s := x.shape;
    Gap(s.QkvRows(), t, x.capacity);
    BlockTail(x.fixture.qkv, s.QkvRows(), t, 2 * s.QkWidth(), j);
  }

  lemma GateIs(x: Call, t: nat, j: nat, h: nat, r: nat)
    requires x.Valid() && t < x.rows && IsRow(x.shape, j, h, r)
    ensures GatePlace(x.shape, t, h) + r < |x.fixture.projected|
    ensures At(x, t).gate[j] == x.fixture.projected[GatePlace(x.shape, t, h) + r]
  {
    hide NormalizedHeads;
    Widths(x);
    PlacesFit(x, t, h);
    var s := x.shape;
    Gap(s.InputRows(), t, x.capacity);
    BlockTail(x.fixture.projected, s.InputRows(), t, s.QkvRows(), j);
  }

  lemma ControlsAre(x: Call, t: nat, h: nat)
    requires x.Valid() && t < x.rows && h < x.shape.valueHeads
    ensures var control := ControlPlace(x.shape, t, h);
      && control < |x.fixture.beta| && control < |x.fixture.logDecay|
      && At(x, t).decay[h] == x.f.exp(x.fixture.logDecay[control]) && At(x, t).beta[h] == x.fixture.beta[control]
  {
    hide NormalizedHeads;
    Gap(x.shape.valueHeads, t, x.capacity);
    PlaceInBlock(x.fixture.logDecay, x.shape.valueHeads, t, h);
    PlaceInBlock(x.fixture.beta, x.shape.valueHeads, t, h);
  }

  lemma InverseIs(f: Functions, plane: seq<real>, place: nat, d: nat)
    requires f.Lawful() && place + d <= |plane|
    ensures InverseNorm(f, plane[place..place + d]) == InverseLength(f, plane, place, d)
  {
    hide Dot, FlatDot;
    FlatDotIs(plane, place, plane, place, d);
  }

  lemma NormalizeCombines(f: Functions, block: seq<real>)
    requires f.Lawful()
    ensures Combines(Normalize(f, block), InverseNorm(f, block), block, 0.0, block)
  {
    hide InverseNorm;
  }

  lemma DotScaled(y: seq<real>, inverse: real, block: seq<real>, row: seq<real>)
    requires Combines(y, inverse, block, 0.0, block) && |row| == |block|
    ensures |y| == |row| && Dot(row, y) == Dot(row, block) * inverse
  {
    hide *;
    CombinedLength(y, inverse, block);
    DotCombines(y, inverse, block, 0.0, block, row);
    DotSymmetric(row, y);
    DotSymmetric(row, block);
    NothingAdded(inverse, Dot(row, block));
  }

  lemma NothingAdded(x: real, y: real)
    ensures x * y + 0.0 * y == y * x
  {
  }

  lemma CombinedLength(y: seq<real>, inverse: real, block: seq<real>)
    requires Combines(y, inverse, block, 0.0, block)
    ensures |y| == |block|
  {
  }

  lemma DotNormalized(f: Functions, plane: seq<real>, place: nat, row: seq<real>)
    requires f.Lawful() && place + |row| <= |plane|
    ensures Dot(row, Normalize(f, plane[place..place + |row|])) == Recalled(f, plane, place, row)
  {
    hide *;
    InverseIs(f, plane, place, |row|);
    DotIsFlat(row, plane, place);
    DotOfBlock(f, plane, place, row, plane[place..place + |row|]);
  }

  lemma DotIsFlat(row: seq<real>, plane: seq<real>, place: nat)
    requires place + |row| <= |plane|
    ensures FlatDot(row, 0, plane, place, |row|) == Dot(row, plane[place..place + |row|])
  {
    hide Dot, FlatDot;
    FlatDotIs(row, 0, plane, place, |row|);
    assert row[0..|row|] == row;
  }

  lemma DotOfBlock(f: Functions, plane: seq<real>, place: nat, row: seq<real>, block: seq<real>)
    requires f.Lawful() && place + |row| <= |plane| && |block| == |row|
    requires FlatDot(row, 0, plane, place, |row|) == Dot(row, block)
    requires InverseNorm(f, block) == InverseLength(f, plane, place, |row|)
    ensures Dot(row, Normalize(f, block)) == Recalled(f, plane, place, row)
  {
    hide *;
    NormalizeCombines(f, block);
    DotScaled(Normalize(f, block), InverseNorm(f, block), block, row);
    RecalledIs(f, plane, place, row, Dot(row, block), InverseNorm(f, block));
  }

  lemma RecalledIs(f: Functions, plane: seq<real>, place: nat, row: seq<real>, dot: real, inverse: real)
    requires f.Lawful() && place + |row| <= |plane|
    requires dot == FlatDot(row, 0, plane, place, |row|) && inverse == InverseLength(f, plane, place, |row|)
    ensures Recalled(f, plane, place, row) == dot * inverse
  {
    hide FlatDot, InverseLength;
  }

  // ---- The launch meets the reference ----------------------------------------------------

  lemma PlaceInSlot(s: Shape, h: nat, r: nat)
    requires s.Valid() && h < s.valueHeads && r < s.headDim
    ensures h * s.headDim + r < s.ValueWidth() && s.ValueHead(h * s.headDim + r) == h
    ensures (h * s.headDim + r) % s.headDim == r
  {
    Gap(s.headDim, h, s.valueHeads);
    DivMod(s.headDim, h, r);
  }

  // j is row r of head h within a slot.
  ghost predicate IsRow(s: Shape, j: nat, h: nat, r: nat) {
    s.Valid() && h < s.valueHeads && r < s.headDim && j == h * s.headDim + r && j < s.ValueWidth()
  }

  lemma RowFits(s: Shape, j: nat, h: nat, r: nat)
    requires IsRow(s, j, h, r)
    ensures s.Valid() && h < s.valueHeads && r < s.headDim && j < s.ValueWidth()
  {
  }

  lemma StepOfRow(shape: Shape, token: Token, slot: Slot, j: nat, h: nat, r: nat)
    requires shape.Valid() && Fits(shape, token) && SlotFits(shape, slot) && IsRow(shape, j, h, r)
    ensures SlotStep(shape, slot, token)[j]
      == RowStep(slot[j], token.key[shape.KeyHead(h)], token.value[j], token.decay[h], token.beta[h])
  {
    hide RowStep;
    PlaceInSlot(shape, h, r);
  }

  // Stepping a row against a normalized block of the plane.
  // key is raw scaled by inverse.
  ghost predicate IsScaled(key: seq<real>, raw: seq<real>, inverse: real) {
    |key| == |raw| && forall c :: 0 <= c < |raw| ==> key[c] == raw[c] * inverse
  }

  lemma RowStepIs(
      f: Functions, plane: seq<real>, place: nat, row: seq<real>, value: real, decay: real, beta: real)
    requires f.Lawful() && place + |row| <= |plane|
    ensures RowStep(row, Normalize(f, plane[place..place + |row|]), value, decay, beta)
      == Stepped(f, plane, place, row, value, decay, beta)
  {
    var raw := plane[place..place + |row|];
    var key, weight := Normalize(f, raw), beta * (value - decay * Recalled(f, plane, place, row));
    DotNormalized(f, plane, place, row);
    UpdateIs(row, key, value, decay, beta, Recalled(f, plane, place, row));
    NormalizedCells(f, plane, place, |row|);
    hide Dot, InverseLength, Normalize, RowStep, RowUpdate, Combines, Recalled, Written, Stepped, IsScaled;
    WrittenIs(f, plane, place, row, key, RowUpdate(row, key, value, decay, beta), decay, weight,
      RowStep(row, key, value, decay, beta));
    SteppedIs(f, plane, place, row, value, decay, beta, weight);
  }

  lemma SteppedIs(
      f: Functions, plane: seq<real>, place: nat, row: seq<real>, value: real, decay: real, beta: real, weight: real)
    requires f.Lawful() && place + |row| <= |plane|
    requires weight == beta * (value - decay * Recalled(f, plane, place, row))
    ensures Stepped(f, plane, place, row, value, decay, beta) == Written(f, plane, place, row, decay, weight)
  {
    hide Written, Recalled;
  }

  lemma WrittenIs(
      f: Functions, plane: seq<real>, place: nat, row: seq<real>, key: seq<real>, update: real, decay: real,
      weight: real, next: seq<real>)
    requires f.Lawful() && place + |row| <= |plane| && update == weight && Combines(next, decay, row, update, key)
    requires IsScaled(key, plane[place..place + |row|], InverseLength(f, plane, place, |row|))
    ensures next == Written(f, plane, place, row, decay, weight)
  {
    hide InverseLength;
    forall c | 0 <= c < |row|
      ensures next[c] == Written(f, plane, place, row, decay, weight)[c]
    {
      assert plane[place..place + |row|][c] == plane[place + c];
      var product := SameProduct(update, key[c], weight, plane[place + c] * InverseLength(f, plane, place, |row|));
    }
  }

  lemma UpdateIs(row: seq<real>, key: seq<real>, value: real, decay: real, beta: real, recalled: real)
    requires |row| == |key| && recalled == Dot(row, key)
    ensures RowUpdate(row, key, value, decay, beta) == beta * (value - decay * recalled)
  {
  }

  lemma NormalizedCells(f: Functions, plane: seq<real>, place: nat, d: nat)
    requires f.Lawful() && place + d <= |plane|
    ensures IsScaled(
      Normalize(f, plane[place..place + d]), plane[place..place + d], InverseLength(f, plane, place, d))
  {
    hide InverseNorm, InverseLength;
    InverseIs(f, plane, place, d);
  }

  lemma StepIs(x: Call, t: nat, slot: Slot, j: nat, h: nat, r: nat)
    requires x.Valid() && t < x.rows && SlotFits(x.shape, slot) && IsRow(x.shape, j, h, r)
    ensures |slot[j]| == x.shape.headDim
    ensures SlotStep(x.shape, slot, At(x, t))[j] == RowNext(x, t, h, r, slot[j])
  {
    Widths(x);
    PlacesFit(x, t, h);
    KeyIs(x, t, h);
    ValueIs(x, t, j, h, r);
    ControlsAre(x, t, h);
    RowFits(x.shape, j, h, r);
    StepOfRow(x.shape, At(x, t), slot, j, h, r);
    RowNextIs(x, t, h, r, slot[j]);
    hide *;
    RowStepIs(x.f, x.fixture.qkv, KeyPlace(x.shape, t, h), slot[j], x.fixture.qkv[ValuePlace(x.shape, t, h) + r],
      x.f.exp(x.fixture.logDecay[ControlPlace(x.shape, t, h)]), x.fixture.beta[ControlPlace(x.shape, t, h)]);
  }

  lemma RowNextIs(x: Call, t: nat, h: nat, r: nat, row: seq<real>)
    requires x.Valid() && t < x.rows && h < x.shape.valueHeads && r < x.shape.headDim && |row| == x.shape.headDim
    ensures KeyPlace(x.shape, t, h) + |row| <= |x.fixture.qkv| && ValuePlace(x.shape, t, h) + r < |x.fixture.qkv|
    ensures ControlPlace(x.shape, t, h) < |x.fixture.logDecay| && ControlPlace(x.shape, t, h) < |x.fixture.beta|
    ensures RowNext(x, t, h, r, row) == Stepped(x.f, x.fixture.qkv, KeyPlace(x.shape, t, h), row,
      x.fixture.qkv[ValuePlace(x.shape, t, h) + r], x.f.exp(x.fixture.logDecay[ControlPlace(x.shape, t, h)]),
      x.fixture.beta[ControlPlace(x.shape, t, h)])
  {
    hide Stepped, KeyPlace, ValuePlace, ControlPlace;
    PlacesFit(x, t, h);
  }

  // ---- States ----------------------------------------------------------------------------

  // All slots once the first t rows of the launch have been taken.
  ghost function StateAfter(x: Call, t: nat): (states: seq<Slot>)
    requires x.Valid() && t <= x.rows
    ensures |states| == x.count && forall s :: 0 <= s < |states| ==> SlotFits(x.shape, states[s])
  {
    LaunchFits(x, t);
    Run(x.shape, Slots(x.initial, x.shape.headDim, x.shape.ValueWidth(), x.count),
      Tokens(x.shape, x.f, x.fixture, x.capacity)[..x.rows][..t], Route(x.stateRows, x.causal, x.rows)[..t])
  }

  lemma LaunchFits(x: Call, t: nat)
    requires x.Valid() && t <= x.rows
    ensures Routed(x.shape, Slots(x.initial, x.shape.headDim, x.shape.ValueWidth(), x.count),
      Tokens(x.shape, x.f, x.fixture, x.capacity)[..x.rows][..t], Route(x.stateRows, x.causal, x.rows)[..t])
  {
    hide TokenAt;
  }

  lemma StateNext(x: Call, t: nat)
    requires x.Valid() && t < x.rows
    ensures SlotOf(x, t) < x.count
    ensures StateAfter(x, t + 1)
      == StateAfter(x, t)[SlotOf(x, t) := SlotStep(x.shape, StateAfter(x, t)[SlotOf(x, t)], At(x, t))]
  {
    hide TokenAt, SlotStep, Slots;
    LaunchFits(x, t + 1);
    var tokens, slots := Tokens(x.shape, x.f, x.fixture, x.capacity)[..x.rows], Route(x.stateRows, x.causal, x.rows);
    assert tokens[..t + 1][..t] == tokens[..t] && slots[..t + 1][..t] == slots[..t];
  }

  lemma StateRow(x: Call, state: seq<real>, slot: nat, j: nat, h: nat, r: nat)
    requires x.Valid() && |state| == |x.initial| && slot < x.count && IsRow(x.shape, j, h, r)
    ensures StatePlace(x.shape, slot, h, r) + x.shape.headDim <= |state|
    ensures Slots(state, x.shape.headDim, x.shape.ValueWidth(), x.count)[slot][j]
      == state[StatePlace(x.shape, slot, h, r)..StatePlace(x.shape, slot, h, r) + x.shape.headDim]
  {
    hide Slots, StatePlace, Covers;
    PlaceIs(x.shape, slot, h, r);
    SlotPlace(state, x.shape.headDim, x.shape.ValueWidth(), x.count, slot, j, StatePlace(x.shape, slot, h, r));
  }

  lemma PlaceIs(s: Shape, slot: nat, h: nat, r: nat)
    ensures (slot * s.ValueWidth() + (h * s.headDim + r)) * s.headDim == StatePlace(s, slot, h, r)
  {
    assert slot * (s.valueHeads * s.headDim) == slot * s.valueHeads * s.headDim;
  }

  // Every row of every slot is the reference row.
  lemma {:induction false} RowsAre(x: Call, t: nat, slot: nat, j: nat, h: nat, r: nat)
    requires x.Valid() && t <= x.rows && slot < x.count && IsRow(x.shape, j, h, r)
    ensures StateAfter(x, t)[slot][j] == RowAfter(x, t, slot, h, r)
  {
    hide *;
    Basics(x);
    RowFits(x.shape, j, h, r);
    RowUnfolds(x, t, slot, h, r);
    if t == 0 {
      StartsAt(x, slot, j, h, r);
    } else {
      RowsAre(x, t - 1, slot, j, h, r);
      StateNext(x, t - 1);
      StepIs(x, t - 1, StateAfter(x, t - 1)[slot], j, h, r);
    }
  }

  lemma StartsAt(x: Call, slot: nat, j: nat, h: nat, r: nat)
    requires x.Valid() && slot < x.count && IsRow(x.shape, j, h, r)
    ensures j < |StateAfter(x, 0)[slot]| && StateAfter(x, 0)[slot][j] == RowAfter(x, 0, slot, h, r)
  {
    hide StatePlace, Slots;
    StateRow(x, x.initial, slot, j, h, r);
  }

  lemma RowUnfolds(x: Call, t: nat, slot: nat, h: nat, r: nat)
    requires x.Valid() && t <= x.rows && slot < x.count && h < x.shape.valueHeads && r < x.shape.headDim
    ensures |x.stateRows| > 0
    ensures t > 0 ==>
      var row := RowAfter(x, t - 1, slot, h, r);
      RowAfter(x, t, slot, h, r) == if slot != SlotOf(x, t - 1) then row else RowNext(x, t - 1, h, r, row)
  {
    hide RowNext;
  }

  // ---- Outputs ---------------------------------------------------------------------------

  ghost function Before(x: Call, t: nat): (slot: Slot)
    requires x.Valid() && t < x.rows
    ensures SlotFits(x.shape, slot)
  {
    StateNext(x, t);
    StateAfter(x, t + 1)[SlotOf(x, t)]
  }

  lemma BeforeIs(x: Call, t: nat, j: nat, h: nat, r: nat)
    requires x.Valid() && t < x.rows && IsRow(x.shape, j, h, r)
    ensures j < |Before(x, t)| && |Before(x, t)[j]| == x.shape.headDim && SlotOf(x, t) < x.count
    ensures Before(x, t)[j] == RowAfter(x, t + 1, SlotOf(x, t), h, r)
  {
    Basics(x);
    hide StateAfter, RowAfter, Call.Valid, Covers;
    StateNext(x, t);
    RowsAre(x, t + 1, SlotOf(x, t), j, h, r);
  }

  // The token's query reads from its row what the reference reads.
  lemma QueryReads(x: Call, t: nat, j: nat, h: nat, r: nat)
    requires x.Valid() && t < x.rows && IsRow(x.shape, j, h, r)
    ensures h < x.shape.valueHeads && r < x.shape.headDim && SlotOf(x, t) < x.count
    ensures QueryPlace(x.shape, t, h) + x.shape.headDim <= |x.fixture.qkv|
    ensures j < |Before(x, t)| && x.shape.KeyHead(h) < |At(x, t).query|
    ensures |Before(x, t)[j]| == |At(x, t).query[x.shape.KeyHead(h)]|
    ensures Dot(Before(x, t)[j], At(x, t).query[x.shape.KeyHead(h)])
      == Recalled(x.f, x.fixture.qkv, QueryPlace(x.shape, t, h), RowAfter(x, t + 1, SlotOf(x, t), h, r))
  {
    hide *;
    Basics(x);
    RowFits(x.shape, j, h, r);
    BeforeIs(x, t, j, h, r);
    QueryIs(x, t, h);
    ReadIs(x.f, x.fixture.qkv, QueryPlace(x.shape, t, h), RowAfter(x, t + 1, SlotOf(x, t), h, r),
      At(x, t).query[x.shape.KeyHead(h)]);
  }

  lemma RecurrentIs(x: Call, t: nat, j: nat, h: nat, r: nat)
    requires x.Valid() && t < x.rows && IsRow(x.shape, j, h, r)
    ensures HeadRecurrent(x.shape, Before(x, t), At(x, t), h)[r] == Recurrent(x, t, h, r)
  {
    hide *;
    Basics(x);
    RowFits(x.shape, j, h, r);
    QueryReads(x, t, j, h, r);
    HeadReads(x.shape, Before(x, t), At(x, t), j, h, r);
    RecurrentUnfolds(x, t, h, r);
  }

  lemma ReadIs(f: Functions, plane: seq<real>, place: nat, row: seq<real>, query: seq<real>)
    requires f.Lawful() && place + |row| <= |plane| && query == Normalize(f, plane[place..place + |row|])
    ensures Dot(row, query) == Recalled(f, plane, place, row)
  {
    hide *;
    DotNormalized(f, plane, place, row);
  }

  lemma HeadReads(shape: Shape, slot: Slot, token: Token, j: nat, h: nat, r: nat)
    requires shape.Valid() && Fits(shape, token) && SlotFits(shape, slot) && IsRow(shape, j, h, r)
    ensures HeadRecurrent(shape, slot, token, h)[r] == 0.08838835 * Dot(slot[j], token.query[shape.KeyHead(h)])
  {
    hide Dot, Shape.KeyHead;
    Gap(shape.headDim, h, shape.valueHeads);
  }

  lemma RecurrentUnfolds(x: Call, t: nat, h: nat, r: nat)
    requires x.Valid() && t < x.rows && h < x.shape.valueHeads && r < x.shape.headDim
    ensures SlotOf(x, t) < x.count && QueryPlace(x.shape, t, h) + x.shape.headDim <= |x.fixture.qkv|
    ensures Recurrent(x, t, h, r)
      == Recalled(x.f, x.fixture.qkv, QueryPlace(x.shape, t, h), RowAfter(x, t + 1, SlotOf(x, t), h, r)) * 0.08838835
  {
    hide Recalled, RowAfter;
    PlacesFit(x, t, h);
  }

  lemma {:induction false} SquaresAre(x: Call, t: nat, h: nat, n: nat)
    requires x.Valid() && t < x.rows && h < x.shape.valueHeads && n <= x.shape.headDim
    ensures var recurrent := HeadRecurrent(x.shape, Before(x, t), At(x, t), h);
      Dot(recurrent[..n], recurrent[..n]) == RecurrentSquares(x, t, h, n)
  {
    hide HeadRecurrent, Dot, Recurrent, Before, At, Call.Valid;
    Basics(x);
    var recurrent := HeadRecurrent(x.shape, Before(x, t), At(x, t), h);
    if n == 0 {
      DotEmpty(recurrent, recurrent);
    } else {
      SquaresAre(x, t, h, n - 1);
      DotExtend(recurrent, recurrent, n - 1);
      PlaceInSlot(x.shape, h, n - 1);
      RecurrentIs(x, t, h * x.shape.headDim + (n - 1), h, n - 1);
    }
  }

  lemma RmsIs(x: Call, t: nat, h: nat)
    requires x.Valid() && t < x.rows && h < x.shape.valueHeads
    ensures RecurrentSquares(x, t, h, x.shape.headDim) >= 0.0
    ensures RootMeanSquare(x.f, HeadRecurrent(x.shape, Before(x, t), At(x, t), h))
      == x.f.sqrt(RecurrentSquares(x, t, h, x.shape.headDim) / x.shape.headDim as real + 0.000001)
  {
    hide HeadRecurrent, Dot, RecurrentSquares, Before, At, Call.Valid;
    Basics(x);
    var recurrent := HeadRecurrent(x.shape, Before(x, t), At(x, t), h);
    RecurrentSquaresNonNegative(x, t, h, x.shape.headDim);
    SquaresAre(x, t, h, x.shape.headDim);
    assert recurrent[..x.shape.headDim] == recurrent;
  }

  lemma OutputOfRow(shape: Shape, f: Functions, weight: seq<real>, slot: Slot, token: Token, j: nat, h: nat, r: nat)
    requires shape.Valid() && f.Lawful() && |weight| == shape.headDim
    requires Fits(shape, token) && SlotFits(shape, slot) && IsRow(shape, j, h, r)
    ensures var recurrent := HeadRecurrent(shape, slot, token, h);
      Output(shape, f, weight, slot, token)[j]
      == GatedCell(f, recurrent[r], RootMeanSquare(f, recurrent), weight[r], token.gate[j])
  {
    hide HeadRecurrent, GatedCell, RootMeanSquare;
    PlaceInSlot(shape, h, r);
    Gap(shape.headDim, h, shape.valueHeads);
  }

  lemma GatedIs(f: Functions, value: real, squares: real, d: nat, weight: real, gate: real, rms: real)
    requires f.Lawful() && squares >= 0.0 && d > 0 && rms > 0.0 && rms == f.sqrt(squares / d as real + 0.000001)
    ensures GatedCell(f, value, rms, weight, gate) == Gated(f, value, squares, d, weight, gate)
  {
  }

  lemma OutputIs(x: Call, t: nat, j: nat, h: nat, r: nat)
    requires x.Valid() && t < x.rows && IsRow(x.shape, j, h, r)
    ensures |x.fixture.normWeight| == x.shape.headDim
    ensures Output(x.shape, x.f, x.fixture.normWeight, Before(x, t), At(x, t))[j] == OutputCell(x, t, h, r)
  {
    hide *;
    Basics(x);
    RowFits(x.shape, j, h, r);
    OutputOfRow(x.shape, x.f, x.fixture.normWeight, Before(x, t), At(x, t), j, h, r);
    RecurrentIs(x, t, j, h, r);
    RmsIs(x, t, h);
    GateIs(x, t, j, h, r);
    OutputUnfolds(x, t, h, r);
    GatedIs(x.f, Recurrent(x, t, h, r), RecurrentSquares(x, t, h, x.shape.headDim), x.shape.headDim,
      x.fixture.normWeight[r], x.fixture.projected[GatePlace(x.shape, t, h) + r],
      RootMeanSquare(x.f, HeadRecurrent(x.shape, Before(x, t), At(x, t), h)));
  }

  lemma OutputUnfolds(x: Call, t: nat, h: nat, r: nat)
    requires x.Valid() && t < x.rows && h < x.shape.valueHeads && r < x.shape.headDim
    ensures RecurrentSquares(x, t, h, x.shape.headDim) >= 0.0
    ensures GatePlace(x.shape, t, h) + r < |x.fixture.projected|
    ensures OutputCell(x, t, h, r)
      == Gated(x.f, Recurrent(x, t, h, r), RecurrentSquares(x, t, h, x.shape.headDim), x.shape.headDim,
        x.fixture.normWeight[r], x.fixture.projected[GatePlace(x.shape, t, h) + r])
  {
    hide Recurrent, RecurrentSquares, Gated;
    PlacesFit(x, t, h);
    RecurrentSquaresNonNegative(x, t, h, x.shape.headDim);
  }

  // ---- The oracle's arrays -----------------------------------------------------------------

  // The launch as the oracle's contract states it.
  ghost predicate Leaves(x: Call, state: seq<real>, output: seq<real>)
    requires x.Valid()
  {
    && |state| == |x.initial| && |output| == x.rows * x.shape.ValueWidth()
    && Slots(state, x.shape.headDim, x.shape.ValueWidth(), x.count) == StateAfter(x, x.rows)
    && forall t :: 0 <= t < x.rows ==>
        Rows(output, x.shape.ValueWidth(), x.rows)[t]
        == Output(x.shape, x.f, x.fixture.normWeight, Before(x, t), At(x, t))
  }

  lemma EndsAfter(x: Call)
    requires x.Valid()
    ensures StateAfter(x, x.rows) == Run(
      x.shape, Slots(x.initial, x.shape.headDim, x.shape.ValueWidth(), x.count),
      Tokens(x.shape, x.f, x.fixture, x.capacity)[..x.rows], Route(x.stateRows, x.causal, x.rows))
  {
    hide Run, TokenAt, Slots;
    LaunchFits(x, x.rows);
    var tokens, slots := Tokens(x.shape, x.f, x.fixture, x.capacity)[..x.rows], Route(x.stateRows, x.causal, x.rows);
    assert tokens[..x.rows] == tokens && slots[..x.rows] == slots;
  }

  lemma OutputAfter(x: Call, t: nat)
    requires x.Valid() && t < x.rows
    ensures OutputAt(
      x.shape, x.f, x.fixture.normWeight, Slots(x.initial, x.shape.headDim, x.shape.ValueWidth(), x.count),
      Tokens(x.shape, x.f, x.fixture, x.capacity)[..x.rows], Route(x.stateRows, x.causal, x.rows), t)
      == Output(x.shape, x.f, x.fixture.normWeight, Before(x, t), At(x, t))
  {
    hide Run, Slots, Output, TokenAt;
    LaunchFits(x, t + 1);
  }

  lemma StateRowIs(x: Call, state: seq<real>, output: seq<real>, slot: nat, h: nat, r: nat)
    requires x.Valid() && Leaves(x, state, output)
    requires slot < x.count && h < x.shape.valueHeads && r < x.shape.headDim
    ensures Holds(state, StatePlace(x.shape, slot, h, r), RowAfter(x, x.rows, slot, h, r))
  {
    hide RowAfter, Slots, Rows, StateAfter, StatePlace, Call.Valid, Covers;
    Basics(x);
    PlaceInSlot(x.shape, h, r);
    var j := h * x.shape.headDim + r;
    RowsAre(x, x.rows, slot, j, h, r);
    StateRow(x, state, slot, j, h, r);
  }

  // A buffer holds a row from a place on.
  predicate Holds(buffer: seq<real>, place: nat, row: seq<real>) {
    place + |row| <= |buffer| && buffer[place..place + |row|] == row
  }

  lemma OutputCellIs(x: Call, state: seq<real>, output: seq<real>, t: nat, h: nat, r: nat)
    requires x.Valid() && Leaves(x, state, output)
    requires t < x.rows && h < x.shape.valueHeads && r < x.shape.headDim
    ensures Holds(output, OutputPlace(x.shape, t, h, r), [OutputCell(x, t, h, r)])
  {
    hide OutputCell, Slots, Rows, Output, StateAfter, Call.Valid, Covers, OutputPlace;
    Basics(x);
    PlaceInSlot(x.shape, h, r);
    var w, j := x.shape.ValueWidth(), h * x.shape.headDim + r;
    OutputIs(x, t, j, h, r);
    CellPlace(x.shape, t, h, r);
    Gap(w, t, x.rows);
    RowIs(output, w, x.rows, t);
    PlaceInBlock(output, w, t, j);
  }

  lemma CellPlace(s: Shape, t: nat, h: nat, r: nat)
    ensures t * s.ValueWidth() + (h * s.headDim + r) == OutputPlace(s, t, h, r)
  {
    assert t * (s.valueHeads * s.headDim) == t * s.valueHeads * s.headDim;
  }

  // Every cell of the state is the reference row's ...
  ghost predicate StateMeets(x: Call, state: seq<real>)
    requires x.Valid()
  {
    forall slot, h, r :: 0 <= slot < x.count && 0 <= h < x.shape.valueHeads && 0 <= r < x.shape.headDim ==>
      Holds(state, StatePlace(x.shape, slot, h, r), RowAfter(x, x.rows, slot, h, r))
  }

  // ... and every cell of the output the reference cell.
  ghost predicate OutputMeets(x: Call, output: seq<real>)
    requires x.Valid()
  {
    forall t, h, r :: 0 <= t < x.rows && 0 <= h < x.shape.valueHeads && 0 <= r < x.shape.headDim ==>
      Holds(output, OutputPlace(x.shape, t, h, r), [OutputCell(x, t, h, r)])
  }

  lemma LeavesMeets(x: Call, state: seq<real>, output: seq<real>)
    requires x.Valid() && Leaves(x, state, output)
    ensures StateMeets(x, state) && OutputMeets(x, output)
  {
    hide Leaves, RowAfter, OutputCell, Call.Valid, StatePlace, OutputPlace, Holds;
    Basics(x);
    forall slot, h, r | 0 <= slot < x.count && 0 <= h < x.shape.valueHeads && 0 <= r < x.shape.headDim
      ensures Holds(state, StatePlace(x.shape, slot, h, r), RowAfter(x, x.rows, slot, h, r))
    {
      StateRowIs(x, state, output, slot, h, r);
    }
    forall t, h, r | 0 <= t < x.rows && 0 <= h < x.shape.valueHeads && 0 <= r < x.shape.headDim
      ensures Holds(output, OutputPlace(x.shape, t, h, r), [OutputCell(x, t, h, r)])
    {
      OutputCellIs(x, state, output, t, h, r);
    }
  }

  lemma ContractLeaves(x: Call, state: seq<real>, output: seq<real>)
    requires x.Valid() && |state| == |x.initial| && |output| == x.rows * x.shape.ValueWidth()
    requires Slots(state, x.shape.headDim, x.shape.ValueWidth(), x.count) == Run(
      x.shape, Slots(x.initial, x.shape.headDim, x.shape.ValueWidth(), x.count),
      Tokens(x.shape, x.f, x.fixture, x.capacity)[..x.rows], Route(x.stateRows, x.causal, x.rows))
    requires forall t :: 0 <= t < x.rows ==> Rows(output, x.shape.ValueWidth(), x.rows)[t] == OutputAt(
      x.shape, x.f, x.fixture.normWeight, Slots(x.initial, x.shape.headDim, x.shape.ValueWidth(), x.count),
      Tokens(x.shape, x.f, x.fixture, x.capacity)[..x.rows], Route(x.stateRows, x.causal, x.rows), t)
    ensures Leaves(x, state, output)
  {
    hide Run, Slots, Rows, Tokens, Route, OutputAt, Output, StateAfter, Before, At, Call.Valid, Covers;
    Basics(x);
    EndsAfter(x);
    forall t | 0 <= t < x.rows
      ensures Rows(output, x.shape.ValueWidth(), x.rows)[t]
        == Output(x.shape, x.f, x.fixture.normWeight, Before(x, t), At(x, t))
    {
      OutputAfter(x, t);
    }
  }

  // The oracle run, whatever it is given.
  method Launch(x: Call) returns (state: array<real>, output: array<real>)
    requires x.Valid()
    ensures StateMeets(x, state[..]) && OutputMeets(x, output[..])
  {
    hide Run, Slots, Rows, Tokens, Route, OutputAt, StateMeets, OutputMeets;
    state, output := Oracle(
      x.shape, x.f, x.fixture, x.capacity, x.stateRows, x.causal, x.rows, x.initial, x.count);
    ContractLeaves(x, state[..], output[..]);
    LeavesMeets(x, state[..], output[..]);
  }

  // ---- From a zero state -------------------------------------------------------------------

  lemma {:induction false} ZeroReads(row: seq<real>, plane: seq<real>, place: nat, n: nat)
    requires n <= |row| && place + n <= |plane| && forall c :: 0 <= c < |row| ==> row[c] == 0.0
    ensures FlatDot(row, 0, plane, place, n) == 0.0
  {
    if n == 0 {
    } else {
      ZeroReads(row, plane, place, n - 1);
    }
  }

  lemma SteppedFromZero(
      f: Functions, plane: seq<real>, place: nat, row: seq<real>, value: real, decay: real, beta: real, c: nat)
      returns (length: real)
    requires f.Lawful() && place + |row| <= |plane| && c < |row| && forall k :: 0 <= k < |row| ==> row[k] == 0.0
    ensures length > 0.0 && length * length == FlatDot(plane, place, plane, place, |row|) + 0.000001
    ensures Stepped(f, plane, place, row, value, decay, beta)[c] == beta * value * (plane[place + c] / length)
  {
    hide FlatDot;
    ZeroReads(row, plane, place, |row|);
    SquaresNonNegative(plane, place, |row|);
    length := f.sqrt(FlatDot(plane, place, plane, place, |row|) + 0.000001);
    assert InverseLength(f, plane, place, |row|) == 1.0 / length;
    hide InverseLength;
    assert Recalled(f, plane, place, row) == 0.0;
    var product := SameProduct(beta * (value - decay * Recalled(f, plane, place, row)),
      plane[place + c] * InverseLength(f, plane, place, |row|), beta * value, plane[place + c] / length);
  }

  // One token then leaves, in every cell, its beta times its value times a cell of
  // its grouped key block, over that block's length.
  lemma FirstStateRow(x: Call, h: nat, r: nat, c: nat) returns (length: real)
    requires x.Valid() && x.rows == 1
    requires h < x.shape.valueHeads && r < x.shape.headDim && c < x.shape.headDim
    requires forall k :: 0 <= k < |x.initial| ==> x.initial[k] == 0.0
    ensures |x.stateRows| > 0 && x.stateRows[0] < x.count && ControlPlace(x.shape, 0, h) < |x.fixture.beta|
    ensures KeyPlace(x.shape, 0, h) + x.shape.headDim <= |x.fixture.qkv|
    ensures ValuePlace(x.shape, 0, h) + r < |x.fixture.qkv|
    ensures length > 0.0 && length * length == 0.000001
      + FlatDot(x.fixture.qkv, KeyPlace(x.shape, 0, h), x.fixture.qkv, KeyPlace(x.shape, 0, h), x.shape.headDim)
    ensures RowAfter(x, 1, x.stateRows[0], h, r)[c]
      == x.fixture.beta[ControlPlace(x.shape, 0, h)] * x.fixture.qkv[ValuePlace(x.shape, 0, h) + r]
        * (x.fixture.qkv[KeyPlace(x.shape, 0, h) + c] / length)
  {
    hide *;
    Basics(x);
    var row := ZeroRow(x, h, r);
    RowNextIs(x, 0, h, r, row);
    length := SteppedFromZero(x.f, x.fixture.qkv, KeyPlace(x.shape, 0, h), row,
      x.fixture.qkv[ValuePlace(x.shape, 0, h) + r],
      x.f.exp(x.fixture.logDecay[ControlPlace(x.shape, 0, h)]), x.fixture.beta[ControlPlace(x.shape, 0, h)], c);
  }

  lemma ZeroRow(x: Call, h: nat, r: nat) returns (row: seq<real>)
    requires x.Valid() && x.rows == 1 && h < x.shape.valueHeads && r < x.shape.headDim
    requires forall k :: 0 <= k < |x.initial| ==> x.initial[k] == 0.0
    ensures |row| == x.shape.headDim && forall c :: 0 <= c < |row| ==> row[c] == 0.0
    ensures |x.stateRows| > 0 && x.stateRows[0] < x.count && x.rows <= x.capacity
    ensures RowAfter(x, 1, x.stateRows[0], h, r) == RowNext(x, 0, h, r, row)
  {
    hide RowNext, StatePlace, Call.Valid;
    Basics(x);
    FirstSlotFits(x);
    row := RowAfter(x, 0, x.stateRows[0], h, r);
    StateFits(x, x.stateRows[0], h, r);
    var place := StatePlace(x.shape, x.stateRows[0], h, r);
    assert row == x.initial[place..place + x.shape.headDim];
  }

  lemma FirstSlotFits(x: Call)
    requires x.Valid()
    ensures |x.stateRows| > 0 && x.stateRows[0] < x.count
  {
  }
}