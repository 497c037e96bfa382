// How near an E4M3 page cache keeps the elements appended to it.
module CachePrecision {
  import opened Analysis
  import opened Optional
  import opened PagedCache
  import opened PagedCacheElements
  import opened PagedCacheOracle
  import opened PagedCacheRuns
  import opened Permutations
  import E = E4m3
  import Quantize

  function EncodeReal(x: real): (code: Option<Byte>)
    ensures code.Some?
  {
    EncodeIsByte(x);
    Some(E.Encode(E.FloatOf(x)).value)
  }

  lemma EncodeIsByte(x: real)
    ensures E.Encode(E.FloatOf(x)).Some? && E.Encode(E.FloatOf(x)).value < 0x100
  {
    hide E.Encode, E.Nearest;
    E.EncodeIsSome(E.FloatOf(x));
    E.EncodeMeaning(E.FloatOf(x), E.Encode(E.FloatOf(x)).value);
  }

  // The codec of an E4M3 cache is the nearest-even search.
  ghost predicate UsesE4m3(codec: Codec) {
    codec.Valid() && forall x: real :: codec.e4m3(x) == EncodeReal(x)
  }

  // What a byte says about the element it was written for: within the finite
  // range it is within a sixteenth of it, or half a step; past it, it is the
  // largest word of its sign.
  predicate Keeps(x: real, scale: real, byte: Byte) {
    if E.Size(x) <= E.FP8_MAX * scale then Quantize.CloseTo(x, E.Size(x), scale, E.Signed(E.Word(byte)))
    else byte == if x < 0.0 then 0xfe else 0x7e
  }

  lemma EncodedKeeps(x: real, scale: real)
    requires scale > 0.0
    ensures Keeps(x, scale, EncodeReal(x / scale).value)
  {
    var ratio := x / scale;
    RatioSize(x, scale);
    hide E.Encode, E.Value, Quantize.CloseTo;
    var byte := EncodeReal(ratio).value;
    if E.Size(x) <= E.FP8_MAX * scale {
      E.RoundingError(E.FloatOf(ratio));
      E.FloatIsSigned(ratio);
      Quantize.ErrorScales(x, E.Size(x), scale, ratio, E.Size(ratio), E.Signed(E.Word(byte)));
    } else {
      E.Saturates(E.FloatOf(ratio));
    }
  }

  lemma RatioSize(x: real, scale: real)
    requires scale > 0.0
    ensures E.Size(x / scale) == E.Size(x) / scale && (x / scale < 0.0 <==> x < 0.0)
    ensures E.Size(x) <= E.FP8_MAX * scale <==> E.Size(x / scale) <= E.FP8_MAX
  {
    SignedQuotient(x, scale);
    QuotientKeepsOrder(E.Size(x), E.FP8_MAX, scale);
  }

  lemma SignedQuotient(x: real, scale: real)
    requires scale > 0.0
    ensures -x / scale == -(x / scale) && (x / scale < 0.0 <==> x < 0.0)
  {
    var q := x / scale;
    assert q * scale == x;
    assert -q * scale == -x;
    Quantize.QuotientIs(-x, scale, -q);
    ScaleKeepsOrder(0.0, q, scale);
  }

  lemma QuotientKeepsOrder(x: real, bound: real, scale: real)
    requires scale > 0.0
    ensures x <= bound * scale <==> x / scale <= bound
  {
    var q := x / scale;
    assert q * scale == x;
    ScaleKeepsOrder(q, bound, scale);
  }

  lemma ScaleKeepsOrder(a: real, b: real, scale: real)
    requires scale > 0.0
    ensures a <= b <==> a * scale <= b * scale
  {
    if a > b {
      Quantize.ScaledUp(a, scale, b);
    } else if a < b {
      Quantize.ScaledUp(b, scale, a);
    }
  }

  // With that codec no element is ever refused.
  lemma AlwaysEncodes(
      f: Functions, g: Geometry, codec: Codec, planes: Planes, rows: nat, n: nat)
    requires f.Lawful() && g.Valid() && UsesE4m3(codec) && Covers(g, planes, rows) && n <= rows
    ensures TokensEncode(f, g, codec, E4m3, planes, rows, n)
  {
    hide Covers, KeyRow, ValueWords, TokenRow, EncodeReal;
    forall t, h | 0 <= t < n && 0 <= h < g.kvHeads
      ensures AllEncoded(TokenKeys(f, g, codec, E4m3, planes, rows, t, h))
      ensures AllEncoded(TokenValues(g, codec, E4m3, planes, rows, t, h))
    {
    }
  }

  lemma CellKeeps(codec: Codec, key: real, word: Word)
    requires UsesE4m3(codec)
    ensures var k, v := KeyCell(codec, E4m3, key), ValueCell(codec, E4m3, word);
      && k.Some? && |k.value| == 1 && Keeps(key, codec.keyScale, k.value[0])
      && v.Some? && |v.value| == 1 && Keeps(codec.widen(word), codec.valueScale, v.value[0])
  {
    hide EncodeReal, Keeps;
    EncodedKeeps(key, codec.keyScale);
    EncodedKeeps(codec.widen(word), codec.valueScale);
  }

  // End to end: when no two tokens share a location, the key and value bytes the
  // block table leads to keep the token's own rotated key and its own value.
  lemma LookupKeepsElement(
      f: Functions, g: Geometry, codec: Codec, planes: Planes, rows: nat, tables: Tables, tokens: nat, pages: nat,
      before: seq<seq<Cell>>, keys: seq<Byte>, values: seq<Byte>, t: nat, h: nat, d: nat)
    requires f.Lawful() && UsesE4m3(codec) && tables.Admits(g, tokens, pages) && Covers(g, planes, rows)
    requires Distinct(tables.Route(g, tokens, pages)) && tokens <= rows
    requires |keys| == |values| == PlaneRows(g, pages) * g.Dim() * ElementBytes(E4m3)
    requires |before| == PlaneRows(g, pages)
    requires Appended(g, tables.Route(g, tokens, pages), tokens, KeyTable(f, g, codec, E4m3, planes, rows), before,
      PageRows(g, E4m3, keys, PlaneRows(g, pages)))
    requires Appended(g, tables.Route(g, tokens, pages), tokens, ValueTable(g, codec, E4m3, planes, rows), before,
      PageRows(g, E4m3, values, PlaneRows(g, pages)))
    requires t < tokens && h < g.kvHeads && d < g.Dim()
    ensures var offset := CacheOffset(g, tables.Page(g, tokens, t), h, tables.Positions(tokens)[t], d);
      && offset < |keys|
      && Keeps(KeyElement(f, g, codec, planes, rows, t, h, d), codec.keyScale, keys[offset])
      && Keeps(codec.widen(ValueElement(g, planes, rows, t, h, d)), codec.valueScale, values[offset])
  {
    hide KeyTable, ValueTable, KeyElement, ValueElement, Covers, PageRows, PlaneRows, Appended, CacheOffset,
      Tables.Route, Tables.Page, Keeps, EncodeReal, KeyCell, ValueCell, TokensEncode;
    AlwaysEncodes(f, g, codec, planes, rows, tokens);
    BlockTableLookup(
      g, E4m3, tables, tokens, pages, KeyTable(f, g, codec, E4m3, planes, rows), before, keys, t, h, d);
    BlockTableLookup(
      g, E4m3, tables, tokens, pages, ValueTable(g, codec, E4m3, planes, rows), before, values, t, h, d);
    EncodedElements(f, g, codec, E4m3, planes, rows, tokens, t, h, d);
    CellKeeps(codec, KeyElement(f, g, codec, planes, rows, t, h, d), ValueElement(g, planes, rows, t, h, d));
  }
}
