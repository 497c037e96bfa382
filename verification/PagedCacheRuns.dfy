// What a run of appends leaves in the cache, read back through the block table.
module PagedCacheRuns {
  import opened Analysis
  import opened Blocks
  import opened Optional
  import opened PagedCache
  import opened PagedCacheElements
  import opened PagedCacheOracle
  import opened Permutations

  // ---- Reading rows back -----------------------------------------------------------

  // The row of a token's head holds what the last token at that location wrote.
  lemma LookupReturnsLastWriter<T>(
      g: Geometry, route: seq<Location>, pages: nat, table: seq<seq<T>>, initial: seq<T>, now: seq<T>, t: nat, h: nat)
      returns (owner: nat)
    requires g.Valid() && InPages(g, route, pages) && |initial| == PlaneRows(g, pages)
    requires |route| <= |table| && forall u :: 0 <= u < |table| ==> |table[u]| == g.kvHeads
    requires Appended(g, route, |route|, table, initial, now)
    requires t < |route| && h < g.kvHeads
    ensures RowIndex(g, route[t], h) < |now|
    ensures t <= owner < |route| && route[owner] == route[t]
    ensures forall u :: owner < u < |route| ==> route[u] != route[t]
    ensures now[RowIndex(g, route[t], h)] == table[owner][h]
  {
    var row := RowIndex(g, route[t], h);
    RowBound(g, route[t], h, pages);
    RowDecodes(g, route[t], h);
    OwnerIsLastWriter(g, route, |route|, row);
    owner := Owner(g, route, |route|, row).value;
  }

  // With pairwise distinct locations every token finds its own rows, and every
  // row at no token's location is as it was.
  lemma DistinctLookups<T>(
      g: Geometry, route: seq<Location>, pages: nat, table: seq<seq<T>>, initial: seq<T>, now: seq<T>)
    requires g.Valid() && InPages(g, route, pages) && |initial| == PlaneRows(g, pages) && Distinct(route)
    requires |route| <= |table| && forall u :: 0 <= u < |table| ==> |table[u]| == g.kvHeads
    requires Appended(g, route, |route|, table, initial, now)
    ensures forall t, h :: 0 <= t < |route| && 0 <= h < g.kvHeads ==>
      RowIndex(g, route[t], h) < |now| && now[RowIndex(g, route[t], h)] == table[t][h]
    ensures forall i :: 0 <= i < |now| && LocationOf(g, i) !in route ==> now[i] == initial[i]
  {
    forall t, h | 0 <= t < |route| && 0 <= h < g.kvHeads
      ensures RowIndex(g, route[t], h) < |now| && now[RowIndex(g, route[t], h)] == table[t][h]
    {
      var owner := LookupReturnsLastWriter(g, route, pages, table, initial, now, t, h);
    }
    forall i | 0 <= i < |now| && LocationOf(g, i) !in route
      ensures now[i] == initial[i]
    {
      OwnerIsLastWriter(g, route, |route|, i);
    }
  }

  // The bytes at a cache offset are the cell of that row and dimension.
  lemma BytesAtOffset(
      g: Geometry, format: CacheFormat, bytes: seq<Byte>, pages: nat, page: nat, head: nat, position: nat, d: nat)
    requires g.Valid() && |bytes| == PlaneRows(g, pages) * g.Dim() * ElementBytes(format)
    requires page < pages && head < g.kvHeads && d < g.Dim()
    ensures var cell := CacheOffset(g, page, head, position, d);
      var row := RowIndex(g, Location(page, position % g.pageSize), head);
      && row < PlaneRows(g, pages)
      && cell * ElementBytes(format) + ElementBytes(format) <= |bytes|
      && Block(bytes, ElementBytes(format), cell) == PageRows(g, format, bytes, PlaneRows(g, pages))[row][d]
  {
    hide PlaneRows, ElementBytes, RowIndex;
    var at := Location(page, position % g.pageSize);
    var n, row := PlaneRows(g, pages), RowIndex(g, at, head);
    RowBound(g, at, head, pages);
    OffsetIsRowCell(g, page, head, position, d);
    Gap(g.Dim(), row, n);
    Gap(ElementBytes(format), row * g.Dim() + d, n * g.Dim());
    var cells := Rows(bytes, ElementBytes(format), n * g.Dim());
    assert Rows(cells, g.Dim(), n)[row] == Block(cells, g.Dim(), row);
    assert Block(cells, g.Dim(), row)[d] == cells[row * g.Dim() + d];
  }

  // Looking any appended token up through the block table finds the bytes the
  // token itself wrote for that head and dimension.
  lemma BlockTableLookup(
      g: Geometry, format: CacheFormat, tables: Tables, tokens: nat, pages: nat,
      table: seq<seq<seq<Cell>>>, initial: seq<seq<Cell>>, bytes: seq<Byte>, t: nat, h: nat, d: nat)
    requires tables.Admits(g, tokens, pages) && Distinct(tables.Route(g, tokens, pages))
    requires |bytes| == PlaneRows(g, pages) * g.Dim() * ElementBytes(format) && |initial| == PlaneRows(g, pages)
    requires tokens <= |table| && forall u :: 0 <= u < |table| ==> |table[u]| == g.kvHeads
    requires Appended(g, tables.Route(g, tokens, pages), tokens, table, initial,
      PageRows(g, format, bytes, PlaneRows(g, pages)))
    requires t < tokens && h < g.kvHeads && d < g.Dim()
    ensures var offset := CacheOffset(g, tables.Page(g, tokens, t), h, tables.Positions(tokens)[t], d);
      && offset * ElementBytes(format) + ElementBytes(format) <= |bytes|
      && |table[t][h]| == g.Dim()
      && Block(bytes, ElementBytes(format), offset) == table[t][h][d]
  {
    hide PageRows, ElementBytes, PlaneRows, Appended, CacheOffset, RowIndex;
    var route := tables.Route(g, tokens, pages);
    var now := PageRows(g, format, bytes, PlaneRows(g, pages));
    BytesAtOffset(g, format, bytes, pages, route[t].page, h, tables.Positions(tokens)[t], d);
    DistinctLookups(g, route, pages, table, initial, now);
    assert now[RowIndex(g, route[t], h)] == table[t][h];
  }

  // ... and those bytes encode the token's own key and value elements.
  lemma EncodedElements(
      f: Functions, g: Geometry, codec: Codec, format: CacheFormat, planes: Planes, rows: nat,
      tokens: nat, t: nat, h: nat, d: nat)
    requires f.Lawful() && g.Valid() && codec.Valid() && Covers(g, planes, rows) && t < tokens <= rows
    requires TokensEncode(f, g, codec, format, planes, rows, tokens) && h < g.kvHeads && d < g.Dim()
    ensures |KeyTable(f, g, codec, format, planes, rows)[t][h]| == g.Dim()
    ensures |ValueTable(g, codec, format, planes, rows)[t][h]| == g.Dim()
    ensures Some(KeyTable(f, g, codec, format, planes, rows)[t][h][d])
         == KeyCell(codec, format, KeyElement(f, g, codec, planes, rows, t, h, d))
    ensures Some(ValueTable(g, codec, format, planes, rows)[t][h][d])
         == ValueCell(codec, format, ValueElement(g, planes, rows, t, h, d))
  {
    hide KeyCell, ValueCell, KeyRow, ValueWords, Covers, TokenRow, KeyElement, ValueElement;
    KeyRowIs(f, g, codec, planes, rows, t, h, d);
    ValueRowIs(g, planes, rows, t, h, d);
    assert AllEncoded(TokenKeys(f, g, codec, format, planes, rows, t, h));
    assert AllEncoded(TokenValues(g, codec, format, planes, rows, t, h));
  }

  // ---- Comparing BF16 planes ---------------------------------------------------------

  // The word a two-byte cell spells.
  function WordOf(cell: Cell): (word: int)
    requires |cell| == 2
  {
    (cell[0] as int) + 0x100 * (cell[1] as int)
  }

  const SENTINEL_WORD: Word := 0xa5a5

  // A BF16 key cell reads back as the rounded key, a value cell as the value word.
  lemma Bf16RoundTrip(codec: Codec, format: CacheFormat, key: real, word: Word)
    requires codec.Valid() && !format.E4m3?
    ensures var k, v := KeyCell(codec, format, key), ValueCell(codec, format, word);
      && k.Some? && |k.value| == 2 && WordOf(k.value) == codec.narrow(key)
      && v.Some? && |v.value| == 2 && WordOf(v.value) == word
  {
  }

  lemma SentinelCell(g: Geometry, format: CacheFormat, bytes: nat, n: nat, i: nat, d: nat)
    requires g.Valid() && bytes == n * g.Dim() * ElementBytes(format) && i < n && d < g.Dim()
    ensures PageRows(g, format, Filler(bytes, BYTE_SENTINEL), n)[i][d] == Filler(ElementBytes(format), BYTE_SENTINEL)
  {
    hide ElementBytes, Slots, Rows;
    var size, plane := ElementBytes(format), Filler(bytes, BYTE_SENTINEL);
    var cell := i * g.Dim() + d;
    Gap(g.Dim(), i, n);
    Gap(size, cell, n * g.Dim());
    SlotCell(plane, size, g.Dim(), n, i, d);
    RowIs(plane, size, n * g.Dim(), cell);
    assert Block(plane, size, cell) == Filler(size, BYTE_SENTINEL);
  }

  // The tolerant key comparison takes a word for inactive, and then compares it
  // bit for bit, exactly when no token wrote it or the owning token's key rounds
  // to the sentinel word itself.
  lemma InactiveWordsAreExact(
      f: Functions, g: Geometry, codec: Codec, format: CacheFormat, planes: Planes, rows: nat,
      route: seq<Location>, n: nat, bytes: nat, now: seq<seq<Cell>>, i: nat, d: nat)
    requires f.Lawful() && g.Valid() && codec.Valid() && !format.E4m3? && Covers(g, planes, rows)
    requires |route| <= rows && TokensEncode(f, g, codec, format, planes, rows, |route|)
    requires bytes == n * g.Dim() * ElementBytes(format) && i < n && d < g.Dim()
    requires Appended(g, route, |route|, KeyTable(f, g, codec, format, planes, rows),
      PageRows(g, format, Filler(bytes, BYTE_SENTINEL), n), now)
    ensures |now| == n && |now[i]| == g.Dim() && |now[i][d]| == 2
    ensures WordOf(now[i][d]) == SENTINEL_WORD <==>
      match Owner(g, route, |route|, i)
      case None => true
      case Some(t) => codec.narrow(KeyElement(f, g, codec, planes, rows, t, HeadOf(g, i), d)) == SENTINEL_WORD
  {
    hide KeyTable, KeyElement, PageRows, TokensEncode, Covers, HeadOf, KeyCell, ValueCell;
    match Owner(g, route, |route|, i)
    case None =>
      SentinelCell(g, format, bytes, n, i, d);
    case Some(t) =>
      var h := HeadOf(g, i);
      EncodedElements(f, g, codec, format, planes, rows, |route|, t, h, d);
      Bf16RoundTrip(codec, format, KeyElement(f, g, codec, planes, rows, t, h, d), 0);
  }

  // ---- Accounting --------------------------------------------------------------------

  // The rows the first n tokens write.
  ghost function TouchedRows(g: Geometry, route: seq<Location>, n: nat): set<nat>
    requires g.Valid() && n <= |route|
  {
    if n == 0 then {} else TouchedRows(g, route, n - 1) + HeadRows(g, route[n - 1], g.kvHeads)
  }

  ghost function HeadRows(g: Geometry, at: Location, heads: nat): set<nat>
    requires g.Valid() && heads <= g.kvHeads
  {
    if heads == 0 then {} else HeadRows(g, at, heads - 1) + {RowIndex(g, at, heads - 1)}
  }

  lemma {:induction false} HeadRowsAre(g: Geometry, at: Location, heads: nat)
    requires g.Valid() && heads <= g.kvHeads && at.slot < g.pageSize
    ensures |HeadRows(g, at, heads)| == heads
    ensures forall i: nat :: i in HeadRows(g, at, heads) <==> LocationOf(g, i) == at && HeadOf(g, i) < heads
  {
    if heads == 0 {
    } else {
      HeadRowsAre(g, at, heads - 1);
      RowCharacter(g, at, heads - 1);
    }
  }

  lemma {:induction false} TouchedMembers(g: Geometry, route: seq<Location>, n: nat, pages: nat)
    requires g.Valid() && n <= |route| && InPages(g, route, pages)
    ensures forall i: nat :: i in TouchedRows(g, route, n) <==> LocationOf(g, i) in route[..n]
  {
    if n == 0 {
    } else {
      hide LocationOf, HeadOf, HeadRows, InPages;
      TouchedMembers(g, route, n - 1, pages);
      forall i: nat
        ensures i in TouchedRows(g, route, n) <==> LocationOf(g, i) in route[..n]
      {
        TouchedMember(g, route, n, i, pages);
      }
    }
  }

  lemma TouchedMember(g: Geometry, route: seq<Location>, n: nat, i: nat, pages: nat)
    requires g.Valid() && 0 < n <= |route| && InPages(g, route, pages)
    requires i in TouchedRows(g, route, n - 1) <==> LocationOf(g, i) in route[..n - 1]
    ensures i in TouchedRows(g, route, n) <==> LocationOf(g, i) in route[..n]
  {
    hide LocationOf, HeadOf, HeadRows;
    HeadRowsAre(g, route[n - 1], g.kvHeads);
    assert route[..n] == route[..n - 1] + [route[n - 1]];
  }

  lemma {:induction false} TouchedCount(g: Geometry, route: seq<Location>, n: nat, pages: nat)
    requires g.Valid() && n <= |route| && InPages(g, route, pages)
    ensures |TouchedRows(g, route, n)| <= n * g.kvHeads
    ensures |TouchedRows(g, route, n)| == n * g.kvHeads <==> Distinct(route[..n])
  {
    if n == 0 {
    } else {
      hide InPages, TouchedRows, Distinct;
      TouchedCount(g, route, n - 1, pages);
      TouchedNext(g, route, n - 1, pages);
      NextMultiple(g.kvHeads, n - 1);
      DistinctGrows(route, n - 1);
    }
  }

  lemma TouchedNext(g: Geometry, route: seq<Location>, n: nat, pages: nat)
    requires g.Valid() && n < |route| && InPages(g, route, pages)
    ensures |TouchedRows(g, route, n + 1)|
      == |TouchedRows(g, route, n)| + (if route[n] in route[..n] then 0 else g.kvHeads)
  {
    hide LocationOf, HeadRows, InPages;
    AddedRows(g, route, n, pages);
  }

  lemma AddedRows(g: Geometry, route: seq<Location>, n: nat, pages: nat)
    requires g.Valid() && n < |route| && InPages(g, route, pages)
    ensures var before, mine := TouchedRows(g, route, n), HeadRows(g, route[n], g.kvHeads);
      |before + mine| == if route[n] in route[..n] then |before| else |before| + g.kvHeads
  {
    var at := route[n];
    var before, mine := TouchedRows(g, route, n), HeadRows(g, at, g.kvHeads);
    TouchedMembers(g, route, n, pages);
    HeadRowsAre(g, at, g.kvHeads);
    if at in route[..n] {
      assert before + mine == before;
    } else {
      assert before !! mine;
    }
  }

  lemma DistinctGrows<T>(s: seq<T>, n: nat)
    requires n < |s|
    ensures Distinct(s[..n + 1]) <==> Distinct(s[..n]) && s[n] !in s[..n]
  {
    assert s[..n + 1][..n] == s[..n];
    if s[n] in s[..n] {
      var i :| 0 <= i < n && s[..n][i] == s[n];
      assert s[..n + 1][i] == s[..n + 1][n];
    }
    if Distinct(s[..n + 1]) {
      forall i, j | 0 <= i < j < n
        ensures s[..n][i] != s[..n][j]
      {
        assert s[..n + 1][i] != s[..n + 1][j];
      }
    }
  }

  // The counts the check reports: elements appended to both planes, and query
  // words and cache bytes it calls untouched.
  function AppendedValues(g: Geometry, tokens: nat): nat {
    tokens * 2 * g.KvRows()
  }

  function QueryCells(g: Geometry, rows: nat): nat {
    rows * (g.queryHeads * g.Dim())
  }

  function UntouchedValues(g: Geometry, format: CacheFormat, rows: nat, tokens: nat, pages: nat): int {
    QueryCells(g, rows) - QueryCells(g, tokens)
    + 2 * (PlaneRows(g, pages) * g.Dim() * ElementBytes(format)) - AppendedValues(g, tokens) * ElementBytes(format)
  }

  // The query rows of tokens the launch does not have.
  ghost function IdleRows(rows: nat, tokens: nat): set<nat> {
    set t: nat | t < rows && IsIdle(tokens, t)
  }

  predicate IsIdle(tokens: nat, t: nat) {
    tokens <= t
  }

  lemma {:induction false} IdleRowCount(rows: nat, tokens: nat)
    requires tokens <= rows
    ensures |IdleRows(rows, tokens)| == rows - tokens
    decreases rows
  {
    if rows == tokens {
      assert IdleRows(rows, tokens) == {};
    } else {
      IdleRowCount(rows - 1, tokens);
      assert IdleRows(rows, tokens) == IdleRows(rows - 1, tokens) + {rows - 1};
    }
  }

  // What really stays: the idle query rows, and the page rows no token touches.
  ghost function ValuesLeft(
    g: Geometry, format: CacheFormat, rows: nat, tokens: nat, pages: nat, touched: nat): int
  {
    |IdleRows(rows, tokens)| * (g.queryHeads * g.Dim())
    + 2 * ((PlaneRows(g, pages) - touched) * g.Dim() * ElementBytes(format))
  }

  // They count the rows really written, and the words and bytes really left
  // alone, exactly when no two tokens share a location.
  lemma AccountingIsExact(g: Geometry, format: CacheFormat, route: seq<Location>, rows: nat, pages: nat)
    requires g.Valid() && InPages(g, route, pages) && |route| <= rows
    ensures AppendedValues(g, |route|) == 2 * (|TouchedRows(g, route, |route|)| * g.Dim())
      <==> Distinct(route)
    ensures UntouchedValues(g, format, rows, |route|, pages)
      == ValuesLeft(g, format, rows, |route|, pages, |TouchedRows(g, route, |route|)|)
      <==> Distinct(route)
  {
    hide PlaneRows, ElementBytes, TouchedRows, IdleRows;
    var n, touched := |route|, |TouchedRows(g, route, |route|)|;
    TouchedCount(g, route, n, pages);
    IdleRowCount(rows, n);
    Remaining(rows, n, g.queryHeads * g.Dim());
    assert route[..n] == route;
    Products(n, g.kvHeads, g.Dim(), ElementBytes(format), PlaneRows(g, pages), touched);
  }

  lemma Remaining(rows: nat, n: nat, width: nat)
    requires n <= rows
    ensures (rows - n) * width == rows * width - n * width
  {
  }

  lemma Products(n: nat, heads: nat, d: nat, bytes: nat, plane: nat, touched: nat)
    requires d > 0 && bytes > 0
    ensures n * 2 * (heads * d) == 2 * (touched * d) <==> touched == n * heads
    ensures 2 * (plane * d * bytes) - n * 2 * (heads * d) * bytes == 2 * ((plane - touched) * d * bytes)
      <==> touched == n * heads
  {
    var own := n * heads;
    assert n * 2 * (heads * d) == 2 * (own * d);
    assert (own - touched) * d == own * d - touched * d;
    Cancel(own - touched, d);
    assert (plane - touched) * d * bytes == plane * d * bytes - touched * d * bytes;
    assert n * 2 * (heads * d) * bytes == 2 * (own * d * bytes);
    assert (own * d - touched * d) * bytes == own * d * bytes - touched * d * bytes;
    Cancel(own * d - touched * d, bytes);
  }

  lemma Cancel(x: int, d: nat)
    requires d > 0
    ensures x * d == 0 <==> x == 0
  {
  }
}
