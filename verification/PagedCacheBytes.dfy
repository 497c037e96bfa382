// What the append oracle leaves, byte by byte: which bytes encode which cells of
// the flat planes, and which are still the sentinel.
module PagedCacheBytes {
  import opened Analysis
  import opened Blocks
  import opened Optional
  import opened PagedCache
  import opened PagedCacheElements
  import opened PagedCacheOracle
  import opened PagedCacheRuns

  // One call of the oracle and what it returned.
  datatype Call = Call(
    f: Functions, g: Geometry, codec: Codec, format: CacheFormat, planes: Planes, rows: nat,
    tables: Tables, tokens: nat, pages: nat, sentinel: real,
    ok: bool, query: seq<real>, keys: seq<Byte>, values: seq<Byte>)
  {
    ghost predicate Valid() {
      && f.Lawful() && g.Valid() && codec.Valid() && Covers(g, planes, rows) && tokens <= rows
      && tables.Admits(g, tokens, pages)
      && IsResult(f, g, codec, format, planes, rows, tables, tokens, pages, sentinel, ok, query, keys, values)
    }
  }

  // ---- Where a token is appended -------------------------------------------------------

  lemma LookupFits(x: Call, t: nat)
    requires x.Valid() && t < x.tokens
    ensures x.g.pageSize > 0
    ensures var rows, positions := x.tables.Rows(x.tokens), x.tables.Positions(x.tokens);
      && t < |rows| && t < |positions|
      && rows[t] * x.tables.stride + positions[t] / x.g.pageSize < |x.tables.blocks|
  {
    hide IsResult, Covers, Tables.Page;
  }

  function TableRow(x: Call, t: nat): nat
    requires x.Valid() && t < x.tokens
  {
    LookupFits(x, t);
    if x.tokens <= |x.tables.decodeRows| then x.tables.decodeRows[t] else x.tables.prefillRows[t]
  }

  function Position(x: Call, t: nat): nat
    requires x.Valid() && t < x.tokens
  {
    LookupFits(x, t);
    if x.tokens <= |x.tables.decodeRows| then x.tables.decodePositions[t] else x.tables.prefillPositions[t]
  }

  lemma BlockFits(x: Call, t: nat)
    requires x.Valid() && t < x.tokens
    ensures x.g.pageSize > 0
    ensures TableRow(x, t) * x.tables.stride + Position(x, t) / x.g.pageSize < |x.tables.blocks|
  {
    hide Call.Valid;
    LookupFits(x, t);
  }

  function PageOf(x: Call, t: nat): nat
    requires x.Valid() && t < x.tokens
  {
    hide *;
    BlockFits(x, t);
    x.tables.blocks[TableRow(x, t) * x.tables.stride + Position(x, t) / x.g.pageSize]
  }

  // Element i of a head in a slot of a page.
  function ElementPlace(g: Geometry, page: nat, slot: nat, h: nat, i: nat): nat {
    g.config.headDim * (slot + g.pageSize * (h + g.kvHeads * page)) + i
  }

  // No later token is appended to the same slot.
  ghost predicate IsLast(x: Call, t: nat)
    requires x.Valid() && t < x.tokens
  {
    forall u :: t < u < x.tokens ==>
      PageOf(x, u) != PageOf(x, t) || Position(x, u) % x.g.pageSize != Position(x, t) % x.g.pageSize
  }

  ghost predicate IsFree(x: Call, page: nat, slot: nat)
    requires x.Valid()
  {
    forall u :: 0 <= u < x.tokens ==> PageOf(x, u) != page || Position(x, u) % x.g.pageSize != slot
  }

  lemma RouteIs(x: Call, t: nat)
    requires x.Valid() && t < x.tokens
    ensures x.tables.Route(x.g, x.tokens, x.pages)[t] == Location(PageOf(x, t), Position(x, t) % x.g.pageSize)
    ensures PageOf(x, t) < x.pages
  {
    hide IsResult, Covers, TableRow, Position;
    LookupIs(x, t);
  }

  lemma LookupIs(x: Call, t: nat)
    requires x.Valid() && t < x.tokens
    ensures t < |x.tables.Rows(x.tokens)| && t < |x.tables.Positions(x.tokens)|
    ensures TableRow(x, t) == x.tables.Rows(x.tokens)[t] && Position(x, t) == x.tables.Positions(x.tokens)[t]
  {
    hide Call.Valid;
    LookupFits(x, t);
  }

  // ---- Bytes ---------------------------------------------------------------------------

  // The bytes at an element's place hold a key and a value element.
  ghost predicate Holds(x: Call, place: nat, key: real, value: Word)
    requires x.Valid()
  {
    if x.format.E4m3? then
      && place < |x.keys| == |x.values|
      && x.codec.e4m3(key / x.codec.keyScale) == Some(x.keys[place])
      && x.codec.e4m3(x.codec.widen(value) / x.codec.valueScale) == Some(x.values[place])
    else
      && place * 2 + 1 < |x.keys| == |x.values|
      && (x.keys[place * 2] as int) + 256 * (x.keys[place * 2 + 1] as int) == x.codec.narrow(key)
      && (x.values[place * 2] as int) + 256 * (x.values[place * 2 + 1] as int) == value
  }

  ghost predicate Untouched(x: Call, place: nat) {
    if x.format.E4m3? then place < |x.keys| == |x.values| && x.keys[place] == x.values[place] == 0xa5
    else
      && place * 2 + 1 < |x.keys| == |x.values|
      && x.keys[place * 2] == x.values[place * 2] == 0xa5
      && x.keys[place * 2 + 1] == x.values[place * 2 + 1] == 0xa5
  }

  lemma CellAt(x: Call, page: nat, slot: nat, h: nat, i: nat)
    requires x.Valid() && page < x.pages && slot < x.g.pageSize && h < x.g.kvHeads && i < x.g.config.headDim
    ensures |x.keys| == |x.values| == PlaneRows(x.g, x.pages) * x.g.Dim() * ElementBytes(x.format)
    ensures RowIndex(x.g, Location(page, slot), h) < PlaneRows(x.g, x.pages)
    ensures ElementPlace(x.g, page, slot, h, i) * ElementBytes(x.format) + ElementBytes(x.format) <= |x.keys|
    ensures var n, row := PlaneRows(x.g, x.pages), RowIndex(x.g, Location(page, slot), h);
      var place := ElementPlace(x.g, page, slot, h, i);
      && Block(x.keys, ElementBytes(x.format), place) == PageRows(x.g, x.format, x.keys, n)[row][i]
      && Block(x.values, ElementBytes(x.format), place) == PageRows(x.g, x.format, x.values, n)[row][i]
  {
    hide PageRows, PlaneRows, RowIndex, ElementBytes, Tables.Admits, Covers, IsResult;
    Lengths(x);
    Small(slot, x.g.pageSize);
    PlaceIs(x.g, page, slot, h, i);
    BytesAtOffset(x.g, x.format, x.keys, x.pages, page, h, slot, i);
    BytesAtOffset(x.g, x.format, x.values, x.pages, page, h, slot, i);
  }

  lemma Small(x: nat, n: nat)
    requires x < n
    ensures x % n == x
  {
  }

  lemma PlaceIs(g: Geometry, page: nat, slot: nat, h: nat, i: nat)
    requires g.Valid() && slot % g.pageSize == slot
    ensures CacheOffset(g, page, h, slot, i) == ElementPlace(g, page, slot, h, i)
  {
  }

  lemma Lengths(x: Call)
    requires x.Valid()
    ensures |x.keys| == |x.values| == PlaneRows(x.g, x.pages) * x.g.Dim() * ElementBytes(x.format)
    ensures |x.query| == x.rows * x.g.queryHeads * x.g.Dim()
  {
    hide PlaneRows, ElementBytes, Appended, Queried, TokensEncode, Tables.Admits, Covers, PageRows;
  }

  // ---- Last writers ------------------------------------------------------------------

  lemma RowsLeft(x: Call, t: nat, h: nat)
    requires x.Valid() && x.ok && t < x.tokens && IsLast(x, t) && h < x.g.kvHeads
    ensures var n, at := PlaneRows(x.g, x.pages), Location(PageOf(x, t), Position(x, t) % x.g.pageSize);
      var row := RowIndex(x.g, at, h);
      && |x.keys| == |x.values| == n * x.g.Dim() * ElementBytes(x.format) && row < n
      && PageRows(x.g, x.format, x.keys, n)[row]
        == KeyTable(x.f, x.g, x.codec, x.format, x.planes, x.rows)[t][h]
      && PageRows(x.g, x.format, x.values, n)[row] == ValueTable(x.g, x.codec, x.format, x.planes, x.rows)[t][h]
  {
    hide PageRows, KeyTable, ValueTable, PlaneRows, RowIndex, ElementBytes, Appended, Queried, TokensEncode, Covers,
      Tables.Admits, Tables.Route, PageOf, Position;
    var n, route := PlaneRows(x.g, x.pages), x.tables.Route(x.g, x.tokens, x.pages);
    var blank := PageRows(x.g, x.format, Filler(|x.keys|, BYTE_SENTINEL), n);
    forall u | t < u < x.tokens
      ensures route[u] != route[t]
    {
      RouteIs(x, u);
      RouteIs(x, t);
    }
    RouteIs(x, t);
    var k := LookupReturnsLastWriter(x.g, route, x.pages, KeyTable(x.f, x.g, x.codec, x.format, x.planes, x.rows),
      blank, PageRows(x.g, x.format, x.keys, n), t, h);
    var v := LookupReturnsLastWriter(x.g, route, x.pages, ValueTable(x.g, x.codec, x.format, x.planes, x.rows),
      blank, PageRows(x.g, x.format, x.values, n), t, h);
  }

  lemma RowsFree(x: Call, page: nat, slot: nat, h: nat)
    requires x.Valid() && x.ok && page < x.pages && slot < x.g.pageSize && IsFree(x, page, slot) && h < x.g.kvHeads
    ensures var n, row := PlaneRows(x.g, x.pages), RowIndex(x.g, Location(page, slot), h);
      var blank := PageRows(x.g, x.format, Filler(|x.keys|, BYTE_SENTINEL), n);
      && |x.keys| == |x.values| == n * x.g.Dim() * ElementBytes(x.format) && row < n
      && PageRows(x.g, x.format, x.keys, n)[row] == PageRows(x.g, x.format, x.values, n)[row] == blank[row]
  {
    hide PageRows, KeyTable, ValueTable, PlaneRows, RowIndex, ElementBytes, Queried, TokensEncode, Covers,
      Tables.Admits, Tables.Route, PageOf, Position;
    var route, row := x.tables.Route(x.g, x.tokens, x.pages), RowIndex(x.g, Location(page, slot), h);
    RowBound(x.g, Location(page, slot), h, x.pages);
    RowDecodes(x.g, Location(page, slot), h);
    forall u | 0 <= u < x.tokens
      ensures route[u] != Location(page, slot)
    {
      RouteIs(x, u);
    }
    OwnerIsLastWriter(x.g, route, x.tokens, row);
  }

  lemma CellHolds(x: Call, place: nat, key: real, value: Word, keyCell: Cell, valueCell: Cell)
    requires x.Valid() && |x.keys| == |x.values|
    requires place * ElementBytes(x.format) + ElementBytes(x.format) <= |x.keys|
    requires Some(keyCell) == KeyCell(x.codec, x.format, key) && Some(valueCell) == ValueCell(x.codec, x.format, value)
    requires Block(x.keys, ElementBytes(x.format), place) == keyCell
    requires Block(x.values, ElementBytes(x.format), place) == valueCell
    ensures Holds(x, place, key, value)
  {
    hide IsResult, Covers, Tables.Admits;
    var n := ElementBytes(x.format);
    PlaceInBlock(x.keys, n, place, 0);
    PlaceInBlock(x.values, n, place, 0);
    if !x.format.E4m3? {
      PlaceInBlock(x.keys, n, place, 1);
      PlaceInBlock(x.values, n, place, 1);
    }
  }

  // After a successful run the bytes at the place of every element of a token that
  // no later one overwrites hold that token's own key and value element ...
  lemma TokenBytes(x: Call, t: nat, h: nat, i: nat)
    requires x.Valid() && x.ok && t < x.tokens && IsLast(x, t) && h < x.g.kvHeads && i < x.g.config.headDim
    ensures Holds(x, ElementPlace(x.g, PageOf(x, t), Position(x, t) % x.g.pageSize, h, i),
      KeyElement(x.f, x.g, x.codec, x.planes, x.rows, t, h, i), ValueElement(x.g, x.planes, x.rows, t, h, i))
  {
    hide PageRows, KeyTable, ValueTable, PlaneRows, RowIndex, ElementBytes, Appended, Queried, TokensEncode, Covers,
      Tables.Admits, Tables.Route, PageOf, Position, KeyElement, ValueElement, Holds, KeyCell, ValueCell, ElementPlace;
    var at := Location(PageOf(x, t), Position(x, t) % x.g.pageSize);
    RouteIs(x, t);
    RowsLeft(x, t, h);
    CellAt(x, at.page, at.slot, h, i);
    EncodedElements(x.f, x.g, x.codec, x.format, x.planes, x.rows, x.tokens, t, h, i);
    CellHolds(x, ElementPlace(x.g, at.page, at.slot, h, i),
      KeyElement(x.f, x.g, x.codec, x.planes, x.rows, t, h, i), ValueElement(x.g, x.planes, x.rows, t, h, i),
      KeyTable(x.f, x.g, x.codec, x.format, x.planes, x.rows)[t][h][i],
      ValueTable(x.g, x.codec, x.format, x.planes, x.rows)[t][h][i]);
  }

  // ... and the bytes of a slot no token is appended to are as they were filled.
  lemma FreeBytes(x: Call, page: nat, slot: nat, h: nat, i: nat)
    requires x.Valid() && x.ok && page < x.pages && slot < x.g.pageSize && IsFree(x, page, slot)
    requires h < x.g.kvHeads && i < x.g.config.headDim
    ensures Untouched(x, ElementPlace(x.g, page, slot, h, i))
  {
    hide PageRows, KeyTable, ValueTable, PlaneRows, RowIndex, ElementBytes, IsResult, Covers, Tables.Admits, IsFree,
      ElementPlace, Untouched;
    var n, row := PlaneRows(x.g, x.pages), RowIndex(x.g, Location(page, slot), h);
    RowsFree(x, page, slot, h);
    CellAt(x, page, slot, h, i);
    SentinelCell(x.g, x.format, |x.keys|, n, row, i);
    CellUntouched(x, ElementPlace(x.g, page, slot, h, i));
  }

  lemma CellUntouched(x: Call, place: nat)
    requires |x.keys| == |x.values| && place * ElementBytes(x.format) + ElementBytes(x.format) <= |x.keys|
    requires Block(x.keys, ElementBytes(x.format), place) == Filler(ElementBytes(x.format), BYTE_SENTINEL)
    requires Block(x.values, ElementBytes(x.format), place) == Filler(ElementBytes(x.format), BYTE_SENTINEL)
    ensures Untouched(x, place)
  {
    var n := ElementBytes(x.format);
    PlaceInBlock(x.keys, n, place, 0);
    PlaceInBlock(x.values, n, place, 0);
    if !x.format.E4m3? {
      PlaceInBlock(x.keys, n, place, 1);
      PlaceInBlock(x.values, n, place, 1);
    }
  }

  // ---- Queries and success ---------------------------------------------------------------

  function QueryCellPlace(g: Geometry, t: nat, h: nat, i: nat): nat {
    (t * g.queryHeads + h) * g.config.headDim + i
  }

  // The query buffer holds every token's query elements, and past the launch what
  // it was filled with.
  lemma QueryCells(x: Call, t: nat, h: nat, i: nat)
    requires x.Valid() && x.ok && t < x.rows && h < x.g.queryHeads && i < x.g.config.headDim
    ensures QueryCellPlace(x.g, t, h, i) < |x.query|
    ensures x.query[QueryCellPlace(x.g, t, h, i)]
      == if t < x.tokens then QueryElement(x.f, x.g, x.codec, x.planes, x.rows, t, h, i) else x.sentinel
  {
    hide *;
    Lengths(x);
    QueriesLeft(x, t, h);
    if t < x.tokens {
      QueryAt(x.g, x.query, x.rows, t, h, i, QueryRow(x.f, x.g, x.codec, x.planes, x.rows, t, h));
      QueryRowIs(x.f, x.g, x.codec, x.planes, x.rows, t, h, i);
    } else {
      var filler := Filler(|x.query|, x.sentinel);
      FillerCell(x.g, filler, x.sentinel, x.rows, t, h, i);
      QueryAt(x.g, x.query, x.rows, t, h, i, Slots(filler, x.g.Dim(), x.g.queryHeads, x.rows)[t][h]);
    }
  }

  lemma QueryAt(g: Geometry, query: seq<real>, rows: nat, t: nat, h: nat, i: nat, row: seq<real>)
    requires |query| == rows * g.queryHeads * g.Dim() && t < rows && h < g.queryHeads && i < g.config.headDim
    requires Slots(query, g.Dim(), g.queryHeads, rows)[t][h] == row
    ensures QueryCellPlace(g, t, h, i) < |query| && |row| == g.config.headDim
    ensures query[QueryCellPlace(g, t, h, i)] == row[i]
  {
    hide Slots;
    var place := (t * g.queryHeads + h) * g.Dim();
    SlotPlace(query, g.Dim(), g.queryHeads, rows, t, h, place);
    InPlace(query, place, g.Dim(), i);
    CellPlace(g, t, h, i);
  }

  lemma FillerCell(g: Geometry, filler: seq<real>, x: real, rows: nat, t: nat, h: nat, i: nat)
    requires |filler| == rows * g.queryHeads * g.Dim() && forall k :: 0 <= k < |filler| ==> filler[k] == x
    requires t < rows && h < g.queryHeads && i < g.config.headDim
    ensures Slots(filler, g.Dim(), g.queryHeads, rows)[t][h][i] == x
  {
    QueryAt(g, filler, rows, t, h, i, Slots(filler, g.Dim(), g.queryHeads, rows)[t][h]);
  }

  lemma CellPlace(g: Geometry, t: nat, h: nat, i: nat)
    ensures QueryCellPlace(g, t, h, i) == (t * g.queryHeads + h) * g.Dim() + i
  {
  }

  lemma InPlace(s: seq<real>, a: nat, n: nat, i: nat)
    requires a + n <= |s| && i < n
    ensures s[a..a + n][i] == s[a + i]
  {
  }

  lemma QueriesLeft(x: Call, t: nat, h: nat)
    requires x.Valid() && x.ok && t < x.rows && h < x.g.queryHeads
    ensures x.f.Lawful() && x.g.Valid() && Covers(x.g, x.planes, x.rows) && x.g.Dim() == x.g.config.headDim
    ensures |x.query| == x.rows * x.g.queryHeads * x.g.Dim()
    ensures Slots(x.query, x.g.Dim(), x.g.queryHeads, x.rows)[t][h]
      == if t < x.tokens then QueryRow(x.f, x.g, x.codec, x.planes, x.rows, t, h)
         else Slots(Filler(|x.query|, x.sentinel), x.g.Dim(), x.g.queryHeads, x.rows)[t][h]
  {
    hide PageRows, KeyTable, ValueTable, PlaneRows, Appended, TokensEncode, Covers, Tables.Admits, Tables.Route, Slots,
      QueryRow;
  }

  // Whether the codec takes an element.
  predicate Takes(x: Call, key: real, value: Word)
    requires x.codec.Valid()
  {
    !x.format.E4m3? || (x.codec.e4m3(key / x.codec.keyScale).Some?
      && x.codec.e4m3(x.codec.widen(value) / x.codec.valueScale).Some?)
  }

  lemma CellTaken(x: Call, key: real, value: Word)
    requires x.codec.Valid()
    ensures Takes(x, key, value)
      <==> KeyCell(x.codec, x.format, key).Some? && ValueCell(x.codec, x.format, value).Some?
  {
  }

  ghost predicate HeadTakes(x: Call, t: nat, h: nat)
    requires x.Valid() && t < x.tokens && h < x.g.kvHeads
  {
    forall i :: 0 <= i < x.g.config.headDim ==>
      Takes(x, KeyElement(x.f, x.g, x.codec, x.planes, x.rows, t, h, i), ValueElement(x.g, x.planes, x.rows, t, h, i))
  }

  ghost predicate HeadEncodes(x: Call, t: nat, h: nat)
    requires x.Valid() && t < x.tokens && h < x.g.kvHeads
  {
    && AllEncoded(TokenKeys(x.f, x.g, x.codec, x.format, x.planes, x.rows, t, h))
    && AllEncoded(TokenValues(x.g, x.codec, x.format, x.planes, x.rows, t, h))
  }

  lemma HeadTaken(x: Call, t: nat, h: nat)
    requires x.Valid() && t < x.tokens && h < x.g.kvHeads
    ensures HeadTakes(x, t, h)
      <==> HeadEncodes(x, t, h)
  {
    hide IsResult, Covers, Tables.Admits, Takes, KeyElement, ValueElement, KeyCell, ValueCell, KeyRow, ValueWords,
      TokenRow;
    forall i | 0 <= i < x.g.config.headDim
      ensures Takes(x, KeyElement(x.f, x.g, x.codec, x.planes, x.rows, t, h, i),
        ValueElement(x.g, x.planes, x.rows, t, h, i))
        <==> (TokenKeys(x.f, x.g, x.codec, x.format, x.planes, x.rows, t, h)[i].Some?
          && TokenValues(x.g, x.codec, x.format, x.planes, x.rows, t, h)[i].Some?)
    {
      KeyRowIs(x.f, x.g, x.codec, x.planes, x.rows, t, h, i);
      ValueRowIs(x.g, x.planes, x.rows, t, h, i);
      CellTaken(x, KeyElement(x.f, x.g, x.codec, x.planes, x.rows, t, h, i),
        ValueElement(x.g, x.planes, x.rows, t, h, i));
    }
  }

  // The run succeeds exactly when the codec takes every element of every token.
  lemma SucceedsExactly(x: Call)
    requires x.Valid()
    ensures x.ok <==> forall t, h :: 0 <= t < x.tokens && 0 <= h < x.g.kvHeads ==> HeadTakes(x, t, h)
  {
    hide HeadTakes, HeadEncodes, IsResult, Covers, Tables.Admits, TokensEncode;
    ResultEncodes(x);
    forall t, h | 0 <= t < x.tokens && 0 <= h < x.g.kvHeads
      ensures HeadTakes(x, t, h) <==> HeadEncodes(x, t, h)
    {
      HeadTaken(x, t, h);
    }
  }

  lemma ResultEncodes(x: Call)
    requires x.Valid()
    ensures x.ok <==> forall t, h :: 0 <= t < x.tokens && 0 <= h < x.g.kvHeads ==> HeadEncodes(x, t, h)
  {
    hide AllEncoded, TokenKeys, TokenValues, Covers, Tables.Admits, Appended, Queried, PageRows, PlaneRows,
      Tables.Route;
    if !x.ok {
      var t, h :| 0 <= t < x.tokens && 0 <= h < x.g.kvHeads
        && !(AllEncoded(TokenKeys(x.f, x.g, x.codec, x.format, x.planes, x.rows, t, h))
          && AllEncoded(TokenValues(x.g, x.codec, x.format, x.planes, x.rows, t, h)));
      assert !HeadEncodes(x, t, h);
    }
  }
}
