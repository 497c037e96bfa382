// The elements a token feeds to its cache, written out on the flat planes: an
// independent reference for the packed row, the normalization and the rotation.
module PagedCacheElements {
  import opened Analysis
  import opened Blocks
  import opened PagedCache
  import opened Rotary
  import opened Vectors

  // ---- Where a token's cells lie -----------------------------------------------------

  function PackedWidth(g: Geometry): nat {
    g.queryHeads * (2 * g.config.headDim) + 2 * (g.kvHeads * g.config.headDim)
  }

  function QueryPlace(g: Geometry, t: nat, h: nat): nat {
    t * PackedWidth(g) + h * (2 * g.config.headDim)
  }

  function KeyPlace(g: Geometry, t: nat, h: nat): nat {
    t * PackedWidth(g) + g.queryHeads * (2 * g.config.headDim) + h * g.config.headDim
  }

  function ValuePlace(g: Geometry, t: nat, h: nat): nat {
    t * PackedWidth(g) + g.queryHeads * (2 * g.config.headDim) + g.kvHeads * g.config.headDim + h * g.config.headDim
  }

  lemma Widths(g: Geometry, planes: Planes, rows: nat)
    requires Covers(g, planes, rows)
    ensures |planes.qkv| == rows * PackedWidth(g) && g.QkvRows() == PackedWidth(g)
    ensures |planes.queryNorm| == |planes.keyNorm| == g.config.headDim
    ensures |planes.cos| == |planes.sin| == rows * g.config.pairs
  {
  }

  lemma QueryFits(g: Geometry, planes: Planes, rows: nat, t: nat, h: nat)
    requires Covers(g, planes, rows) && t < rows && h < g.queryHeads
    ensures QueryPlace(g, t, h) + 2 * g.config.headDim <= |planes.qkv|
  {
    Widths(g, planes, rows);
    Gap(PackedWidth(g), t, rows);
    Gap(2 * g.config.headDim, h, g.queryHeads);
  }

  lemma KvFits(g: Geometry, planes: Planes, rows: nat, t: nat, h: nat)
    requires Covers(g, planes, rows) && t < rows && h < g.kvHeads
    ensures KeyPlace(g, t, h) + g.config.headDim <= |planes.qkv|
    ensures ValuePlace(g, t, h) + g.config.headDim <= |planes.qkv|
  {
    Widths(g, planes, rows);
    Gap(PackedWidth(g), t, rows);
    Gap(g.config.headDim, h, g.kvHeads);
  }

  lemma AnglesFit(g: Geometry, planes: Planes, rows: nat, t: nat)
    requires Covers(g, planes, rows) && t < rows
    ensures t * g.config.pairs + g.config.pairs <= |planes.cos|
    ensures t * g.config.pairs + g.config.pairs <= |planes.sin|
  {
    Gap(g.config.pairs, t, rows);
  }

  // ---- The reference -------------------------------------------------------------------

  // The squares of n words of the plane.
  function Squares(codec: Codec, words: seq<Word>, place: nat, n: nat): real
    requires place + n <= |words|
  {
    if n == 0 then 0.0
    else
      var value := codec.widen(words[place + n - 1]);
      Squares(codec, words, place, n - 1) + value * value
  }

  lemma {:induction false} SquaresAre(codec: Codec, words: seq<Word>, place: nat, n: nat)
    requires place + n <= |words|
    ensures Squares(codec, words, place, n) == SquaredNorm(Widened(codec, words[place..place + n])) >= 0.0
  {
    SquaredNormNonNegative(Widened(codec, words[place..place + n]));
    if n == 0 {
    } else {
      SquaresAre(codec, words, place, n - 1);
      assert Widened(codec, words[place..place + n])[..n - 1] == Widened(codec, words[place..place + n - 1]);
    }
  }

  // Element i of a head normalized by its root mean square, with unit-offset weights.
  function Scaled(f: Functions, config: Config, codec: Codec, words: seq<Word>, place: nat, norm: seq<Word>, i: nat)
      : real
    requires f.Lawful() && config.Valid() && place + config.headDim <= |words|
    requires i < config.headDim == |norm|
  {
    SquaresAre(codec, words, place, config.headDim);
    var inverse := 1.0 / f.sqrt(Squares(codec, words, place, config.headDim) / config.headDim as real + config.epsilon);
    codec.widen(words[place + i]) * inverse * (1.0 + codec.widen(norm[i]))
  }

  // The same with its leading pairs turned by the angles from a place of the planes on.
  function Turned(
      f: Functions, config: Config, codec: Codec, words: seq<Word>, place: nat, norm: seq<Word>,
      cos: seq<real>, sin: seq<real>, angle: nat, i: nat): real
    requires f.Lawful() && config.Valid() && place + config.headDim <= |words|
    requires i < config.headDim == |norm|
    requires angle + config.pairs <= |cos| && angle + config.pairs <= |sin|
  {
    var p := config.pairs;
    if i < p then
      Scaled(f, config, codec, words, place, norm, i) * cos[angle + i]
      - Scaled(f, config, codec, words, place, norm, i + p) * sin[angle + i]
    else if i < 2 * p then
      Scaled(f, config, codec, words, place, norm, i - p) * sin[angle + i - p]
      + Scaled(f, config, codec, words, place, norm, i) * cos[angle + i - p]
    else Scaled(f, config, codec, words, place, norm, i)
  }

  function QueryElement(
      f: Functions, g: Geometry, codec: Codec, planes: Planes, rows: nat, t: nat, h: nat, i: nat): real
    requires f.Lawful() && g.Valid() && Covers(g, planes, rows) && t < rows
    requires h < g.queryHeads && i < g.config.headDim
  {
    QueryFits(g, planes, rows, t, h);
    AnglesFit(g, planes, rows, t);
    Turned(f, g.config, codec, planes.qkv, QueryPlace(g, t, h), planes.queryNorm,
      planes.cos, planes.sin, t * g.config.pairs, i)
  }

  function KeyElement(
      f: Functions, g: Geometry, codec: Codec, planes: Planes, rows: nat, t: nat, h: nat, i: nat): real
    requires f.Lawful() && g.Valid() && Covers(g, planes, rows) && t < rows
    requires h < g.kvHeads && i < g.config.headDim
  {
    KvFits(g, planes, rows, t, h);
    AnglesFit(g, planes, rows, t);
    Turned(f, g.config, codec, planes.qkv, KeyPlace(g, t, h), planes.keyNorm,
      planes.cos, planes.sin, t * g.config.pairs, i)
  }

  function ValueElement(g: Geometry, planes: Planes, rows: nat, t: nat, h: nat, i: nat): Word
    requires Covers(g, planes, rows) && t < rows && h < g.kvHeads && i < g.config.headDim
  {
    KvFits(g, planes, rows, t, h);
    planes.qkv[ValuePlace(g, t, h) + i]
  }

  // ---- Tokens are read from those places -------------------------------------------------

  lemma TokenRowIs(g: Geometry, planes: Planes, rows: nat, t: nat, a: nat)
    requires Covers(g, planes, rows) && t < rows && a == t * PackedWidth(g)
    ensures a + PackedWidth(g) <= |planes.qkv|
    ensures TokenRow(g, planes, rows, t) == planes.qkv[a..a + PackedWidth(g)]
  {
    Widths(g, planes, rows);
    Gap(PackedWidth(g), t, rows);
  }

  lemma QueryWordsIn(g: Geometry, row: seq<Word>, h: nat)
    requires |row| == PackedWidth(g) && h < g.queryHeads
    ensures |row| == g.QkvRows()
    ensures h * (2 * g.config.headDim) + g.config.headDim <= PackedWidth(g)
    ensures QueryWords(g, row, h) == row[h * (2 * g.config.headDim)..h * (2 * g.config.headDim) + g.config.headDim]
  {
    Gap(2 * g.config.headDim, h, g.queryHeads);
  }

  lemma QueryWordsAre(g: Geometry, planes: Planes, rows: nat, t: nat, h: nat)
    requires Covers(g, planes, rows) && t < rows && h < g.queryHeads
    ensures QueryPlace(g, t, h) + g.config.headDim <= |planes.qkv|
    ensures QueryWords(g, TokenRow(g, planes, rows, t), h)
      == planes.qkv[QueryPlace(g, t, h)..QueryPlace(g, t, h) + g.config.headDim]
  {
    hide Covers, PackedWidth, QueryWords, TokenRow;
    QueryFits(g, planes, rows, t, h);
    TokenRowIs(g, planes, rows, t, t * PackedWidth(g));
    QueryWordsIn(g, TokenRow(g, planes, rows, t), h);
    SliceOfSlice(planes.qkv, t * PackedWidth(g), PackedWidth(g), h * (2 * g.config.headDim),
      h * (2 * g.config.headDim) + g.config.headDim);
  }

  // Where a token's keys begin, and its values.
  function KeyStart(g: Geometry): nat {
    g.queryHeads * (2 * g.config.headDim)
  }

  function ValueStart(g: Geometry): nat {
    g.queryHeads * (2 * g.config.headDim) + g.kvHeads * g.config.headDim
  }

  lemma KvWordsIn(g: Geometry, row: seq<Word>, h: nat, b: nat)
    requires |row| == PackedWidth(g) && h < g.kvHeads && b == h * g.config.headDim
    ensures |row| == g.QkvRows() && KeyStart(g) <= ValueStart(g) <= PackedWidth(g)
    ensures b + g.config.headDim <= ValueStart(g) - KeyStart(g)
    ensures b + g.config.headDim <= PackedWidth(g) - ValueStart(g)
    ensures KeyWords(g, row, h) == row[KeyStart(g)..ValueStart(g)][b..b + g.config.headDim]
    ensures ValueWords(g, row, h) == row[ValueStart(g)..PackedWidth(g)][b..b + g.config.headDim]
  {
    var kv := g.kvHeads * g.config.headDim;
    Gap(g.config.headDim, h, g.kvHeads);
    assert PackedWidth(g) == KeyStart(g) + kv + kv && ValueStart(g) == KeyStart(g) + kv;
    assert g.QueryRows() == KeyStart(g) && g.KvRows() == kv;
    assert row[ValueStart(g)..] == row[ValueStart(g)..PackedWidth(g)];
  }

  lemma KvPlaces(g: Geometry, t: nat, h: nat, a: nat, b: nat)
    requires a == t * PackedWidth(g) && b == h * g.config.headDim
    ensures KeyPlace(g, t, h) == a + KeyStart(g) + b && ValuePlace(g, t, h) == a + ValueStart(g) + b
  {
  }

  // Slices of the row of one token are slices of the plane.
  lemma KvSlices<T>(
      plane: seq<T>, a: nat, w: nat, from: nat, to: nat, b: nat, d: nat, row: seq<T>, words: seq<T>,
      place: nat)
    requires a + w <= |plane| && row == plane[a..a + w] && from <= to <= w && b + d <= to - from
    requires words == row[from..to][b..b + d] && place == a + from + b
    ensures place + d <= |plane| && words == plane[place..place + d]
  {
    NestedSlice(plane, a, w, from, to, b, d);
  }

  lemma KeyWordsAre(g: Geometry, planes: Planes, rows: nat, t: nat, h: nat)
    requires Covers(g, planes, rows) && t < rows && h < g.kvHeads
    ensures KeyPlace(g, t, h) + g.config.headDim <= |planes.qkv|
    ensures KeyWords(g, TokenRow(g, planes, rows, t), h)
      == planes.qkv[KeyPlace(g, t, h)..KeyPlace(g, t, h) + g.config.headDim]
  {
    hide *;
    var a, b, row := t * PackedWidth(g), h * g.config.headDim, TokenRow(g, planes, rows, t);
    TokenRowIs(g, planes, rows, t, a);
    KvWordsIn(g, row, h, b);
    KvPlaces(g, t, h, a, b);
    KvSlices(planes.qkv, a, PackedWidth(g), KeyStart(g), ValueStart(g), b, g.config.headDim, row,
      KeyWords(g, row, h), KeyPlace(g, t, h));
  }

  lemma ValueWordsAre(g: Geometry, planes: Planes, rows: nat, t: nat, h: nat)
    requires Covers(g, planes, rows) && t < rows && h < g.kvHeads
    ensures ValuePlace(g, t, h) + g.config.headDim <= |planes.qkv|
    ensures ValueWords(g, TokenRow(g, planes, rows, t), h)
      == planes.qkv[ValuePlace(g, t, h)..ValuePlace(g, t, h) + g.config.headDim]
  {
    hide *;
    var a, b, row := t * PackedWidth(g), h * g.config.headDim, TokenRow(g, planes, rows, t);
    TokenRowIs(g, planes, rows, t, a);
    KvWordsIn(g, row, h, b);
    KvPlaces(g, t, h, a, b);
    KvSlices(planes.qkv, a, PackedWidth(g), ValueStart(g), PackedWidth(g), b, g.config.headDim, row,
      ValueWords(g, row, h), ValuePlace(g, t, h));
  }

  lemma NormalizedIs(
      f: Functions, config: Config, codec: Codec, words: seq<Word>, place: nat, norm: seq<Word>, i: nat)
    requires f.Lawful() && config.Valid() && place + config.headDim <= |words|
    requires i < config.headDim == |norm|
    ensures Normalized(f, config, Widened(codec, words[place..place + config.headDim]), Widened(codec, norm))[i]
      == Scaled(f, config, codec, words, place, norm, i)
  {
    hide SquaredNorm, Squares;
    SquaresAre(codec, words, place, config.headDim);
  }

  lemma PreparedIs(
      f: Functions, config: Config, codec: Codec, words: seq<Word>, place: nat, norm: seq<Word>,
      cos: seq<real>, sin: seq<real>, angle: nat, i: nat)
    requires f.Lawful() && config.Valid() && place + config.headDim <= |words|
    requires i < config.headDim == |norm|
    requires angle + config.pairs <= |cos| && angle + config.pairs <= |sin|
    ensures Prepared(f, config, Widened(codec, words[place..place + config.headDim]), Widened(codec, norm),
      cos[angle..angle + config.pairs], sin[angle..angle + config.pairs])[i]
      == Turned(f, config, codec, words, place, norm, cos, sin, angle, i)
  {
    hide Normalized, Scaled;
    var p := config.pairs;
    NormalizedIs(f, config, codec, words, place, norm, i);
    if i < p {
      NormalizedIs(f, config, codec, words, place, norm, i + p);
    } else if i < 2 * p {
      NormalizedIs(f, config, codec, words, place, norm, i - p);
    }
  }

  // A token's query, key and value elements are the reference ones.
  lemma QueryRowIs(f: Functions, g: Geometry, codec: Codec, planes: Planes, rows: nat, t: nat, h: nat, i: nat)
    requires f.Lawful() && g.Valid() && Covers(g, planes, rows) && t < rows && h < g.queryHeads && i < g.config.headDim
    ensures QueryRow(f, g, codec, planes, rows, t, h)[i] == QueryElement(f, g, codec, planes, rows, t, h, i)
  {
    hide *;
    QueryUnfolds(f, g, codec, planes, rows, t, h, i, t * g.config.pairs);
    QueryWordsAre(g, planes, rows, t, h);
    PreparedIs(f, g.config, codec, planes.qkv, QueryPlace(g, t, h), planes.queryNorm, planes.cos, planes.sin,
      t * g.config.pairs, i);
  }

  lemma QueryUnfolds(f: Functions, g: Geometry, codec: Codec, planes: Planes, rows: nat, t: nat, h: nat, i: nat,
      angle: nat)
    requires f.Lawful() && g.Valid() && Covers(g, planes, rows) && t < rows && h < g.queryHeads && i < g.config.headDim
    requires angle == t * g.config.pairs
    ensures g.config.Valid() && |planes.queryNorm| == g.config.headDim
    ensures QueryPlace(g, t, h) + g.config.headDim <= |planes.qkv|
    ensures angle + g.config.pairs <= |planes.cos| == |planes.sin|
    ensures QueryRow(f, g, codec, planes, rows, t, h) == Prepared(
      f, g.config, Widened(codec, QueryWords(g, TokenRow(g, planes, rows, t), h)), Widened(codec, planes.queryNorm),
      planes.cos[angle..angle + g.config.pairs],
      planes.sin[angle..angle + g.config.pairs])
    ensures QueryElement(f, g, codec, planes, rows, t, h, i)
      == Turned(f, g.config, codec, planes.qkv, QueryPlace(g, t, h), planes.queryNorm, planes.cos, planes.sin,
        angle, i)
  {
    hide Prepared, Turned, Widened, TokenRow, QueryWords, QueryPlace;
    Widths(g, planes, rows);
    QueryFits(g, planes, rows, t, h);
    AnglesFit(g, planes, rows, t);
  }

  lemma KeyRowIs(f: Functions, g: Geometry, codec: Codec, planes: Planes, rows: nat, t: nat, h: nat, i: nat)
    requires f.Lawful() && g.Valid() && Covers(g, planes, rows) && t < rows && h < g.kvHeads && i < g.config.headDim
    ensures KeyRow(f, g, codec, planes, rows, t, h)[i] == KeyElement(f, g, codec, planes, rows, t, h, i)
  {
    hide *;
    KeyUnfolds(f, g, codec, planes, rows, t, h, i, t * g.config.pairs);
    KeyWordsAre(g, planes, rows, t, h);
    PreparedIs(f, g.config, codec, planes.qkv, KeyPlace(g, t, h), planes.keyNorm, planes.cos, planes.sin,
      t * g.config.pairs, i);
  }

  lemma KeyUnfolds(f: Functions, g: Geometry, codec: Codec, planes: Planes, rows: nat, t: nat, h: nat, i: nat,
      angle: nat)
    requires f.Lawful() && g.Valid() && Covers(g, planes, rows) && t < rows && h < g.kvHeads && i < g.config.headDim
    requires angle == t * g.config.pairs
    ensures g.config.Valid() && |planes.keyNorm| == g.config.headDim
    ensures KeyPlace(g, t, h) + g.config.headDim <= |planes.qkv|
    ensures angle + g.config.pairs <= |planes.cos| == |planes.sin|
    ensures KeyRow(f, g, codec, planes, rows, t, h) == Prepared(
      f, g.config, Widened(codec, KeyWords(g, TokenRow(g, planes, rows, t), h)), Widened(codec, planes.keyNorm),
      planes.cos[angle..angle + g.config.pairs],
      planes.sin[angle..angle + g.config.pairs])
    ensures KeyElement(f, g, codec, planes, rows, t, h, i)
      == Turned(f, g.config, codec, planes.qkv, KeyPlace(g, t, h), planes.keyNorm, planes.cos, planes.sin,
        angle, i)
  {
    hide Prepared, Turned, Widened, TokenRow, KeyWords, KeyPlace;
    Widths(g, planes, rows);
    KvFits(g, planes, rows, t, h);
    AnglesFit(g, planes, rows, t);
  }

  lemma ValueRowIs(g: Geometry, planes: Planes, rows: nat, t: nat, h: nat, i: nat)
    requires Covers(g, planes, rows) && t < rows && h < g.kvHeads && i < g.config.headDim
    ensures ValueWords(g, TokenRow(g, planes, rows, t), h)[i] == ValueElement(g, planes, rows, t, h, i)
  {
    hide TokenRow, ValueWords, ValuePlace;
    ValueWordsAre(g, planes, rows, t, h);
  }
}
