// The append oracle: in-place writes into the query buffer and both page
// planes, proved to leave every row with its owner's encoding.
module PagedCacheOracle {
  import opened Analysis
  import opened Blocks
  import opened Optional
  import opened PagedCache
  import opened Rotary

  // A page plane as its n rows of one head dimension of cells each.
  function PageRows(g: Geometry, format: CacheFormat, pages: seq<Byte>, n: nat): (rows: seq<seq<Cell>>)
    requires |pages| == n * g.Dim() * ElementBytes(format)
    ensures |rows| == n
    ensures forall i :: 0 <= i < n ==> |rows[i]| == g.Dim()
  {
    Slots(pages, ElementBytes(format), g.Dim(), n)
  }

  // Copies one element's bytes into place.
  method WriteCell(pages: array<Byte>, bytes: nat, n: nat, i: nat, cell: Cell)
    requires pages.Length == n * bytes && i < n && |cell| == bytes && i * bytes + bytes <= n * bytes
    modifies pages
    ensures Rows(pages[..], bytes, n) == old(Rows(pages[..], bytes, n))[i := cell]
  {
    ghost var before := pages[..];
    var base := i * bytes;
    for k := 0 to bytes
      invariant forall j :: 0 <= j < pages.Length && !(base <= j < base + k) ==> pages[j] == before[j]
      invariant forall j :: 0 <= j < k ==> pages[base + j] == cell[j]
    {
      pages[base + k] := cell[k];
    }
    assert Block(pages[..], bytes, i) == cell;
    RowsUpdate(before, pages[..], bytes, n, i, cell);
  }

  // One head of one token: each element's key, then its value, stopping at the
  // first element that cannot be encoded.
  method WriteHead(
      g: Geometry, codec: Codec, format: CacheFormat, keys: seq<real>, words: seq<Word>,
      keyPages: array<Byte>, valuePages: array<Byte>, n: nat, row: nat)
      returns (ok: bool)
    requires g.Valid() && codec.Valid() && |keys| == |words| == g.Dim() && keyPages != valuePages
    requires keyPages.Length == valuePages.Length == n * g.Dim() * ElementBytes(format) && row < n
    modifies keyPages, valuePages
    ensures ok == (AllEncoded(KeyCells(codec, format, keys)) && AllEncoded(ValueCells(codec, format, words)))
    ensures ok ==>
      && PageRows(g, format, keyPages[..], n)
      == old(PageRows(g, format, keyPages[..], n))[row := Encoded(KeyCells(codec, format, keys))]
      && PageRows(g, format, valuePages[..], n)
      == old(PageRows(g, format, valuePages[..], n))[row := Encoded(ValueCells(codec, format, words))]
  {
    hide KeyCell, ValueCell, Rows, ElementBytes;
    var d, bytes, cells, first := g.Dim(), ElementBytes(format), n * g.Dim(), row * g.Dim();
    Gap(d, row, n);
    ghost var keyCells, valueCells := KeyCells(codec, format, keys), ValueCells(codec, format, words);
    ghost var beforeKeys, beforeValues := Rows(keyPages[..], bytes, cells), Rows(valuePages[..], bytes, cells);
    for dimension := 0 to d
      invariant forall i :: 0 <= i < dimension ==> keyCells[i].Some? && valueCells[i].Some?
      invariant Filled(beforeKeys, keyCells, Rows(keyPages[..], bytes, cells), first, dimension)
      invariant Filled(beforeValues, valueCells, Rows(valuePages[..], bytes, cells), first, dimension)
    {
      Gap(bytes, first + dimension, cells);
      var key := KeyCell(codec, format, keys[dimension]);
      if key.None? {
        assert keyCells[dimension].None?;
        return false;
      }
      WriteCell(keyPages, bytes, cells, first + dimension, key.value);
      var value := ValueCell(codec, format, words[dimension]);
      if value.None? {
        assert valueCells[dimension].None?;
        return false;
      }
      WriteCell(valuePages, bytes, cells, first + dimension, value.value);
    }
    ok := true;
    FilledRow(beforeKeys, keyCells, Rows(keyPages[..], bytes, cells), d, n, row);
    FilledRow(beforeValues, valueCells, Rows(valuePages[..], bytes, cells), d, n, row);
    SlotsAre(keyPages[..], bytes, d, n);
    SlotsAre(valuePages[..], bytes, d, n);
    SlotsAre(old(keyPages[..]), bytes, d, n);
    SlotsAre(old(valuePages[..]), bytes, d, n);
  }

  // now is before with the first lo cells written from first on.
  ghost predicate Filled(before: seq<Cell>, cells: seq<Option<Cell>>, now: seq<Cell>, first: nat, lo: nat) {
    && lo <= |cells| && first + |cells| <= |before| == |now|
    && (forall k :: 0 <= k < |before| && !(first <= k < first + lo) ==> now[k] == before[k])
    && (forall i :: 0 <= i < lo ==> cells[i] == Some(now[first + i]))
  }

  lemma FilledRow(before: seq<Cell>, cells: seq<Option<Cell>>, now: seq<Cell>, d: nat, n: nat, row: nat)
    requires |before| == n * d && row < n && |cells| == d && AllEncoded(cells)
    requires Filled(before, cells, now, row * d, d)
    ensures |now| == n * d
    ensures Rows(now, d, n) == Rows(before, d, n)[row := Encoded(cells)]
  {
    Gap(d, row, n);
    assert Block(now, d, row) == Encoded(cells);
    RowsUpdate(before, now, d, n, row, Encoded(cells));
  }

  lemma RowCharacter(g: Geometry, at: Location, head: nat)
    requires g.Valid() && head < g.kvHeads && at.slot < g.pageSize
    ensures forall i: nat :: LocationOf(g, i) == at && HeadOf(g, i) == head <==> i == RowIndex(g, at, head)
  {
    RowDecodes(g, at, head);
    forall i: nat | LocationOf(g, i) == at && HeadOf(g, i) == head
      ensures i == RowIndex(g, at, head)
    {
      RowEncodes(g, i);
    }
  }

  lemma RowBound(g: Geometry, at: Location, head: nat, pages: nat)
    requires g.Valid() && head < g.kvHeads && at.page < pages && at.slot < g.pageSize
    ensures RowIndex(g, at, head) < PlaneRows(g, pages)
  {
    Gap(g.kvHeads, at.page, pages);
    Gap(g.pageSize, head + g.kvHeads * at.page, pages * g.kvHeads);
  }

  // A prepared head, built in a scratch buffer.
  method Prepare(
      f: Functions, g: Geometry, codec: Codec, words: seq<Word>, norm: seq<Word>, cos: seq<real>, sin: seq<real>)
      returns (head: seq<real>)
    requires f.Lawful() && g.Valid() && |words| == |norm| == g.Dim() && |cos| == |sin| == g.config.pairs
    ensures head == Prepared(f, g.config, Widened(codec, words), Widened(codec, norm), cos, sin)
  {
    hide Prepared;
    var scratch := new real[g.Dim()](_ => 0.0);
    NormalizeRotate(f, g.config, Widened(codec, words), Widened(codec, norm), cos, sin, scratch, 0);
    head := scratch[..];
  }

  // The query heads of one token.
  method PrepareQueries(
      f: Functions, g: Geometry, codec: Codec, planes: Planes, rows: nat, t: nat, query: array<real>)
    requires f.Lawful() && g.Valid() && Covers(g, planes, rows) && t < rows
    requires query.Length == rows * g.queryHeads * g.Dim()
    modifies query
    ensures Slots(query[..], g.Dim(), g.queryHeads, rows)
         == old(Slots(query[..], g.Dim(), g.queryHeads, rows))[t := QueryHeads(f, g, codec, planes, rows, t)]
  {
    hide Prepared, Rows, Overwritten, TokenRow, QueryWords, Covers;
    var d, heads, n := g.Dim(), g.queryHeads, rows * g.queryHeads;
    var first := t * heads;
    Gap(heads, t, rows);
    ghost var before := Rows(query[..], d, n);
    ghost var next := QueryHeads(f, g, codec, planes, rows, t);
    Untouched(before, next, first);
    for head := 0 to heads
      invariant Overwritten(before, next, Rows(query[..], d, n), first, head)
    {
      ghost var held := Rows(query[..], d, n);
      PendingOne(before, next, held, first, head);
      PrepareQuery(f, g, codec, planes, rows, t, head, query, n, first + head);
      OverwriteOne(before, next, held, first, head, Rows(query[..], d, n));
    }
    Complete(before, next, Rows(query[..], d, n), first);
    RowsSplice(before, next, Rows(query[..], d, n), heads, rows, t);
    SlotsAre(query[..], d, heads, rows);
    SlotsAre(old(query[..]), d, heads, rows);
  }

  method PrepareQuery(
      f: Functions, g: Geometry, codec: Codec, planes: Planes, rows: nat, t: nat, head: nat,
      query: array<real>, n: nat, i: nat)
    requires f.Lawful() && g.Valid() && Covers(g, planes, rows) && t < rows && head < g.queryHeads
    requires query.Length == n * g.Dim() && i < n
    modifies query
    ensures Rows(query[..], g.Dim(), n)
         == old(Rows(query[..], g.Dim(), n))[i := QueryRow(f, g, codec, planes, rows, t, head)]
  {
    hide Prepared, TokenRow, QueryWords;
    Gap(g.Dim(), i, n);
    ghost var before := query[..];
    NormalizeRotate(f, g.config, Widened(codec, QueryWords(g, TokenRow(g, planes, rows, t), head)),
      Widened(codec, planes.queryNorm), Angles(g, planes.cos, rows, t), Angles(g, planes.sin, rows, t),
      query, i * g.Dim());
    RowsSplice(before, QueryRow(f, g, codec, planes, rows, t, head), query[..], g.Dim(), n, i);
  }

  // One kv head of one token.
  method AppendHead(
      f: Functions, g: Geometry, codec: Codec, format: CacheFormat, planes: Planes, rows: nat, t: nat, head: nat,
      keyPages: array<Byte>, valuePages: array<Byte>, n: nat, row: nat)
      returns (ok: bool)
    requires f.Lawful() && g.Valid() && codec.Valid() && Covers(g, planes, rows) && t < rows && head < g.kvHeads
    requires keyPages != valuePages && row < n
    requires keyPages.Length == valuePages.Length == n * g.Dim() * ElementBytes(format)
    modifies keyPages, valuePages
    ensures var keys := TokenKeys(f, g, codec, format, planes, rows, t, head);
      var values := TokenValues(g, codec, format, planes, rows, t, head);
      && ok == (AllEncoded(keys) && AllEncoded(values))
      && (ok ==>
        && PageRows(g, format, keyPages[..], n) == old(PageRows(g, format, keyPages[..], n))[row := Encoded(keys)]
        && PageRows(g, format, valuePages[..], n)
        == old(PageRows(g, format, valuePages[..], n))[row := Encoded(values)])
  {
    hide Prepared, TokenRow, KeyWords, ValueWords, PageRows, ElementBytes, AllEncoded, Encoded, KeyCells, ValueCells;
    var words := TokenRow(g, planes, rows, t);
    var keys := Prepare(f, g, codec, KeyWords(g, words, head), planes.keyNorm,
      Angles(g, planes.cos, rows, t), Angles(g, planes.sin, rows, t));
    ok := WriteHead(g, codec, format, keys, ValueWords(g, words, head), keyPages, valuePages, n, row);
  }

  lemma OverlayHead<T>(
      g: Geometry, at: Location, head: nat, rows: seq<T>, before: seq<T>, now: seq<T>, later: seq<T>)
    requires g.Valid() && |rows| == g.kvHeads && head < g.kvHeads && at.slot < g.pageSize
    requires Overlaid(g, at, head, rows, before, now)
    requires RowIndex(g, at, head) < |now| && later == now[RowIndex(g, at, head) := rows[head]]
    ensures Overlaid(g, at, head + 1, rows, before, later)
  {
    RowCharacter(g, at, head);
  }

  ghost predicate HeadsEncode(
      f: Functions, g: Geometry, codec: Codec, format: CacheFormat, planes: Planes, rows: nat, t: nat, heads: nat)
    requires f.Lawful() && g.Valid() && codec.Valid() && Covers(g, planes, rows) && t < rows && heads <= g.kvHeads
  {
    forall h :: 0 <= h < heads ==>
      && AllEncoded(TokenKeys(f, g, codec, format, planes, rows, t, h))
      && AllEncoded(TokenValues(g, codec, format, planes, rows, t, h))
  }

  // Every kv head of one token, at the token's location.
  method AppendToken(
      f: Functions, g: Geometry, codec: Codec, format: CacheFormat, planes: Planes, rows: nat, t: nat,
      at: Location, pages: nat, keyPages: array<Byte>, valuePages: array<Byte>)
      returns (ok: bool)
    requires f.Lawful() && g.Valid() && codec.Valid() && Covers(g, planes, rows) && t < rows
    requires at.page < pages && at.slot < g.pageSize && keyPages != valuePages
    requires keyPages.Length == valuePages.Length
      == PlaneRows(g, pages) * g.Dim() * ElementBytes(format)
    modifies keyPages, valuePages
    ensures ok == HeadsEncode(f, g, codec, format, planes, rows, t, g.kvHeads)
    ensures var n := PlaneRows(g, pages);
      ok ==>
        && Overlaid(g, at, g.kvHeads, KeyTable(f, g, codec, format, planes, rows)[t],
          old(PageRows(g, format, keyPages[..], n)), PageRows(g, format, keyPages[..], n))
        && Overlaid(g, at, g.kvHeads, ValueTable(g, codec, format, planes, rows)[t],
          old(PageRows(g, format, valuePages[..], n)), PageRows(g, format, valuePages[..], n))
  {
    hide PageRows, ElementBytes, TokenKeys, TokenValues, AllEncoded, Encoded, RowIndex, Overlaid, Covers, PlaneRows;
    var n := PlaneRows(g, pages);
    ghost var keys, values := KeyTable(f, g, codec, format, planes, rows)[t], ValueTable(g, codec, format,
      planes, rows)[t];
    ghost var beforeKeys, beforeValues := PageRows(g, format, keyPages[..], n), PageRows(g, format, valuePages[..], n);
    OverlayNothing(g, at, keys, beforeKeys);
    OverlayNothing(g, at, values, beforeValues);
    for head := 0 to g.kvHeads
      invariant HeadsEncode(f, g, codec, format, planes, rows, t, head)
      invariant Overlaid(g, at, head, keys, beforeKeys, PageRows(g, format, keyPages[..], n))
      invariant Overlaid(g, at, head, values, beforeValues, PageRows(g, format, valuePages[..], n))
    {
      RowBound(g, at, head, pages);
      var row := RowIndex(g, at, head);
      ghost var nowKeys, nowValues := PageRows(g, format, keyPages[..], n), PageRows(g, format, valuePages[..], n);
      var encoded := AppendHead(f, g, codec, format, planes, rows, t, head, keyPages, valuePages, n, row);
      if !encoded {
        return false;
      }
      OverlayHead(g, at, head, keys, beforeKeys, nowKeys, PageRows(g, format, keyPages[..], n));
      OverlayHead(g, at, head, values, beforeValues, nowValues, PageRows(g, format, valuePages[..], n));
    }
    ok := true;
  }

  lemma OverlayNothing<T>(g: Geometry, at: Location, rows: seq<T>, before: seq<T>)
    requires g.Valid() && |rows| == g.kvHeads
    ensures Overlaid(g, at, 0, rows, before, before)
  {
  }

  // The first n tokens have their prepared queries, later ones are untouched.
  ghost predicate Queried(
      f: Functions, g: Geometry, codec: Codec, planes: Planes, rows: nat, n: nat,
      before: seq<seq<seq<real>>>, now: seq<seq<seq<real>>>)
    requires f.Lawful() && g.Valid() && Covers(g, planes, rows) && n <= rows
  {
    && |now| == |before| == rows
    && forall t :: 0 <= t < rows ==> now[t] == if t < n then QueryHeads(f, g, codec, planes, rows, t) else before[t]
  }

  // Every token of a launch: its queries, then its rows at its location.
  method Append(
      f: Functions, g: Geometry, codec: Codec, format: CacheFormat, planes: Planes, rows: nat,
      route: seq<Location>, pages: nat, query: array<real>, keyPages: array<Byte>, valuePages: array<Byte>)
      returns (ok: bool)
    requires f.Lawful() && g.Valid() && codec.Valid() && Covers(g, planes, rows) && |route| <= rows
    requires InPages(g, route, pages) && keyPages != valuePages
    requires query.Length == rows * g.queryHeads * g.Dim()
    requires keyPages.Length == valuePages.Length
      == PlaneRows(g, pages) * g.Dim() * ElementBytes(format)
    modifies query, keyPages, valuePages
    ensures ok == TokensEncode(f, g, codec, format, planes, rows, |route|)
    ensures var n := PlaneRows(g, pages);
      ok ==>
        && Queried(f, g, codec, planes, rows, |route|,
          old(Slots(query[..], g.Dim(), g.queryHeads, rows)), Slots(query[..], g.Dim(), g.queryHeads, rows))
        && Appended(g, route, |route|, KeyTable(f, g, codec, format, planes, rows),
          old(PageRows(g, format, keyPages[..], n)), PageRows(g, format, keyPages[..], n))
        && Appended(g, route, |route|, ValueTable(g, codec, format, planes, rows),
          old(PageRows(g, format, valuePages[..], n)), PageRows(g, format, valuePages[..], n))
  {
    hide PageRows, ElementBytes, TokenKeys, TokenValues, AllEncoded, Overlaid, Covers, KeyTable, ValueTable, Slots,
      QueryHeads, Appended, PlaneRows;
    var n := PlaneRows(g, pages);
    ghost var keys, values := KeyTable(f, g, codec, format, planes, rows), ValueTable(g, codec, format, planes, rows);
    ghost var beforeKeys, beforeValues := PageRows(g, format, keyPages[..], n), PageRows(g, format, valuePages[..], n);
    ghost var queries := Slots(query[..], g.Dim(), g.queryHeads, rows);
    AppendNothing(g, route, keys, beforeKeys);
    AppendNothing(g, route, values, beforeValues);
    for t := 0 to |route|
      invariant TokensEncode(f, g, codec, format, planes, rows, t)
      invariant Queried(f, g, codec, planes, rows, t, queries, Slots(query[..], g.Dim(), g.queryHeads, rows))
      invariant Appended(g, route, t, keys, beforeKeys, PageRows(g, format, keyPages[..], n))
      invariant Appended(g, route, t, values, beforeValues, PageRows(g, format, valuePages[..], n))
    {
      PrepareQueries(f, g, codec, planes, rows, t, query);
      ghost var nowKeys, nowValues := PageRows(g, format, keyPages[..], n), PageRows(g, format, valuePages[..], n);
      var encoded := AppendToken(f, g, codec, format, planes, rows, t, route[t], pages, keyPages, valuePages);
      TokensEncodeStep(f, g, codec, format, planes, rows, t, |route|);
      if !encoded {
        return false;
      }
      AppendOne(g, route, t, keys, beforeKeys, nowKeys, PageRows(g, format, keyPages[..], n));
      AppendOne(g, route, t, values, beforeValues, nowValues, PageRows(g, format, valuePages[..], n));
    }
    ok := true;
  }

  lemma AppendNothing<T>(g: Geometry, route: seq<Location>, table: seq<seq<T>>, before: seq<T>)
    requires g.Valid() && forall t :: 0 <= t < |table| ==> |table[t]| == g.kvHeads
    ensures Appended(g, route, 0, table, before, before)
  {
  }

  lemma TokensEncodeStep(
      f: Functions, g: Geometry, codec: Codec, format: CacheFormat, planes: Planes, rows: nat, t: nat, n: nat)
    requires f.Lawful() && g.Valid() && codec.Valid() && Covers(g, planes, rows) && t < n <= rows
    ensures TokensEncode(f, g, codec, format, planes, rows, t + 1)
         == (TokensEncode(f, g, codec, format, planes, rows, t)
              && HeadsEncode(f, g, codec, format, planes, rows, t, g.kvHeads))
    ensures TokensEncode(f, g, codec, format, planes, rows, n) ==>
      HeadsEncode(f, g, codec, format, planes, rows, t, g.kvHeads)
  {
    hide AllEncoded, TokenKeys, TokenValues, Covers;
  }

  // The block-table route of a launch: a decode batch takes its own table rows
  // and positions, a longer prompt the prefill planes.
  datatype Tables = Tables(
    blocks: seq<nat>, stride: nat, decodeRows: seq<nat>, decodePositions: seq<nat>,
    prefillRows: seq<nat>, prefillPositions: seq<nat>)
  {
    function Rows(tokens: nat): seq<nat> {
      if tokens <= |decodeRows| then decodeRows else prefillRows
    }

    function Positions(tokens: nat): seq<nat> {
      if tokens <= |decodeRows| then decodePositions else prefillPositions
    }

    // Every lookup of the launch stays inside the tables and the pages.
    ghost predicate Admits(g: Geometry, tokens: nat, pages: nat) {
      && g.Valid()
      && tokens <= |Rows(tokens)| && tokens <= |Positions(tokens)|
      && forall t :: 0 <= t < tokens ==>
        && Rows(tokens)[t] * stride + Positions(tokens)[t] / g.pageSize < |blocks|
        && Page(g, tokens, t) < pages
    }

    ghost function Page(g: Geometry, tokens: nat, t: nat): nat
      requires g.Valid() && t < |Rows(tokens)| && t < |Positions(tokens)|
      requires Rows(tokens)[t] * stride + Positions(tokens)[t] / g.pageSize < |blocks|
    {
      blocks[Rows(tokens)[t] * stride + Positions(tokens)[t] / g.pageSize]
    }

    ghost function Route(g: Geometry, tokens: nat, pages: nat): (route: seq<Location>)
      requires Admits(g, tokens, pages)
      ensures |route| == tokens && InPages(g, route, pages)
    {
      seq(tokens, t requires 0 <= t < tokens =>
        Location(Page(g, tokens, t), Positions(tokens)[t] % g.pageSize))
    }
  }

  method RouteTokens(g: Geometry, tables: Tables, tokens: nat, pages: nat) returns (route: seq<Location>)
    requires tables.Admits(g, tokens, pages)
    ensures route == tables.Route(g, tokens, pages)
  {
    var tableRows, positions := tables.Rows(tokens), tables.Positions(tokens);
    route := [];
    for t := 0 to tokens
      invariant route == tables.Route(g, tokens, pages)[..t]
    {
      var page := tables.blocks[tableRows[t] * tables.stride + positions[t] / g.pageSize];
      route := route + [Location(page, positions[t] % g.pageSize)];
    }
  }

  // What the oracle leaves: the queries of the launch over the sentinel, and both
  // page planes with every token appended over their sentinel bytes.
  ghost predicate IsResult(
      f: Functions, g: Geometry, codec: Codec, format: CacheFormat, planes: Planes, rows: nat,
      tables: Tables, tokens: nat, pages: nat, sentinel: real,
      ok: bool, query: seq<real>, keyPages: seq<Byte>, valuePages: seq<Byte>)
    requires f.Lawful() && g.Valid() && codec.Valid() && Covers(g, planes, rows) && tokens <= rows
    requires tables.Admits(g, tokens, pages)
  {
    var n, route := PlaneRows(g, pages), tables.Route(g, tokens, pages);
    && |query| == rows * g.queryHeads * g.Dim()
    && |keyPages| == |valuePages| == n * g.Dim() * ElementBytes(format)
    && ok == TokensEncode(f, g, codec, format, planes, rows, tokens)
    && (ok ==>
      && Queried(f, g, codec, planes, rows, tokens,
        Slots(Filler(|query|, sentinel), g.Dim(), g.queryHeads, rows), Slots(query, g.Dim(), g.queryHeads, rows))
      && Appended(g, route, tokens, KeyTable(f, g, codec, format, planes, rows),
        PageRows(g, format, Filler(|keyPages|, BYTE_SENTINEL), n), PageRows(g, format, keyPages, n))
      && Appended(g, route, tokens, ValueTable(g, codec, format, planes, rows),
        PageRows(g, format, Filler(|keyPages|, BYTE_SENTINEL), n), PageRows(g, format, valuePages, n)))
  }

  // The oracle: sentinel-filled buffers, then every token appended through
  // the block table.
  method Oracle(
      f: Functions, g: Geometry, codec: Codec, format: CacheFormat, planes: Planes, rows: nat,
      tables: Tables, tokens: nat, pages: nat, sentinel: real)
      returns (ok: bool, query: array<real>, keyPages: array<Byte>, valuePages: array<Byte>)
    requires f.Lawful() && g.Valid() && codec.Valid() && Covers(g, planes, rows) && tokens <= rows
    requires tables.Admits(g, tokens, pages)
    ensures IsResult(
      f, g, codec, format, planes, rows, tables, tokens, pages, sentinel, ok, query[..], keyPages[..], valuePages[..])
  {
    hide PageRows, ElementBytes, KeyTable, ValueTable, Slots, Queried, Appended, TokensEncode, Covers, PlaneRows,
      Tables.Admits, Tables.Route;
    var bytes := PlaneRows(g, pages) * g.Dim() * ElementBytes(format);
    query := Allocate(rows * g.queryHeads * g.Dim(), sentinel);
    keyPages := Allocate(bytes, BYTE_SENTINEL);
    valuePages := Allocate(bytes, BYTE_SENTINEL);
    var route := RouteTokens(g, tables, tokens, pages);
    ok := Append(f, g, codec, format, planes, rows, route, pages, query, keyPages, valuePages);
  }

  method Allocate<T>(n: nat, x: T) returns (a: array<T>)
    ensures fresh(a) && a.Length == n && a[..] == Filler(n, x)
  {
    a := new T[n](_ => x);
  }

  function Filler<T>(n: nat, x: T): (s: seq<T>)
    ensures |s| == n
    ensures forall i :: 0 <= i < n ==> s[i] == x
  {
    seq(n, _ => x)
  }
}
