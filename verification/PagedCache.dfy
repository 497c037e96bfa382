// The paged key/value cache: where a token's rows live, which token owns a
// row after a run of appends, and what its cells hold.
module PagedCache {
  import opened Analysis
  import opened Blocks
  import opened Optional
  import opened Permutations
  import opened Rotary

  type Byte = x: int | 0 <= x < 0x100
  type Word = x: int | 0 <= x < 0x1_0000

  const BYTE_SENTINEL: Byte := 0xa5

  // ---- Where rows live -----------------------------------------------------------

  datatype Geometry = Geometry(config: Config, queryHeads: nat, kvHeads: nat, pageSize: nat) {
    predicate Valid() {
      config.Valid() && queryHeads > 0 && kvHeads > 0 && pageSize > 0
    }

    function Dim(): nat { config.headDim }

    // Query heads are packed with their gates.
    function QueryRows(): nat { queryHeads * (2 * Dim()) }

    function KvRows(): nat { kvHeads * Dim() }

    function QkvRows(): nat { QueryRows() + 2 * KvRows() }
  }

  // A physical page and the slot inside it.
  datatype Location = Location(page: nat, slot: nat)

  // Cache rows of one head dimension each, in storage order.
  function RowIndex(g: Geometry, at: Location, head: nat): nat {
    (head + g.kvHeads * at.page) * g.pageSize + at.slot
  }

  // Rows in one plane of pages.
  function PlaneRows(g: Geometry, pages: nat): nat {
    pages * g.kvHeads * g.pageSize
  }

  function CacheOffset(g: Geometry, page: nat, head: nat, position: nat, dimension: nat): nat
    requires g.Valid()
  {
    g.Dim() * (position % g.pageSize + g.pageSize * (head + g.kvHeads * page)) + dimension
  }

  lemma OffsetIsRowCell(g: Geometry, page: nat, head: nat, position: nat, dimension: nat)
    requires g.Valid()
    ensures CacheOffset(g, page, head, position, dimension)
         == RowIndex(g, Location(page, position % g.pageSize), head) * g.Dim() + dimension
  {
  }

  function HeadOf(g: Geometry, row: nat): (head: nat)
    requires g.Valid()
    ensures head < g.kvHeads
  {
    row / g.pageSize % g.kvHeads
  }

  function LocationOf(g: Geometry, row: nat): (at: Location)
    requires g.Valid()
    ensures at.slot < g.pageSize
  {
    Location(row / g.pageSize / g.kvHeads, row % g.pageSize)
  }

  // A row index and its page, head and slot determine each other.
  lemma RowDecodes(g: Geometry, at: Location, head: nat)
    requires g.Valid() && head < g.kvHeads && at.slot < g.pageSize
    ensures LocationOf(g, RowIndex(g, at, head)) == at && HeadOf(g, RowIndex(g, at, head)) == head
  {
    DivMod(g.pageSize, head + g.kvHeads * at.page, at.slot);
    assert head + g.kvHeads * at.page == at.page * g.kvHeads + head;
    DivMod(g.kvHeads, at.page, head);
  }

  lemma RowEncodes(g: Geometry, row: nat)
    requires g.Valid()
    ensures RowIndex(g, LocationOf(g, row), HeadOf(g, row)) == row
  {
    var q := row / g.pageSize;
    assert q == q / g.kvHeads * g.kvHeads + q % g.kvHeads;
    assert row == q * g.pageSize + row % g.pageSize;
  }

  // All destinations of all (location, head, dimension) triples are distinct.
  lemma OffsetInjective(
      g: Geometry, page1: nat, head1: nat, position1: nat, dimension1: nat,
      page2: nat, head2: nat, position2: nat, dimension2: nat)
    requires g.Valid() && head1 < g.kvHeads && head2 < g.kvHeads && dimension1 < g.Dim() && dimension2 < g.Dim()
    requires CacheOffset(g, page1, head1, position1, dimension1)
          == CacheOffset(g, page2, head2, position2, dimension2)
    ensures page1 == page2 && head1 == head2 && dimension1 == dimension2
    ensures position1 % g.pageSize == position2 % g.pageSize
  {
    var a, b := Location(page1, position1 % g.pageSize), Location(page2, position2 % g.pageSize);
    OffsetIsRowCell(g, page1, head1, position1, dimension1);
    OffsetIsRowCell(g, page2, head2, position2, dimension2);
    DivModUnique(g.Dim(), RowIndex(g, a, head1), dimension1, RowIndex(g, b, head2), dimension2);
    RowDecodes(g, a, head1);
    RowDecodes(g, b, head2);
  }

  // ---- Who owns a row ------------------------------------------------------------

  // The last of the first n tokens written to a row, if any.
  function Owner(g: Geometry, route: seq<Location>, n: nat, row: nat): (owner: Option<nat>)
    requires g.Valid() && n <= |route|
    ensures owner.Some? ==> owner.value < n && route[owner.value] == LocationOf(g, row)
  {
    if n == 0 then None
    else if route[n - 1] == LocationOf(g, row) then Some(n - 1)
    else Owner(g, route, n - 1, row)
  }

  // A row is owned exactly when some token was routed to it, and then by the
  // last such token.
  lemma {:induction false} OwnerIsLastWriter(g: Geometry, route: seq<Location>, n: nat, row: nat)
    requires g.Valid() && n <= |route|
    ensures Owner(g, route, n, row).None? <==> forall t :: 0 <= t < n ==> route[t] != LocationOf(g, row)
    ensures forall t :: 0 <= t < n && route[t] == LocationOf(g, row) ==>
      Owner(g, route, n, row).Some? && t <= Owner(g, route, n, row).value
  {
    if n == 0 {
    } else {
      OwnerIsLastWriter(g, route, n - 1, row);
    }
  }

  ghost predicate InPages(g: Geometry, route: seq<Location>, pages: nat) {
    forall t :: 0 <= t < |route| ==> route[t].page < pages && route[t].slot < g.pageSize
  }

  // Every token owns its own rows exactly when no two tokens share a location.
  lemma OwnersAreOwn(g: Geometry, route: seq<Location>, pages: nat)
    requires g.Valid() && InPages(g, route, pages)
    ensures Distinct(route) <==>
      forall t, h :: 0 <= t < |route| && 0 <= h < g.kvHeads ==>
        Owner(g, route, |route|, RowIndex(g, route[t], h)) == Some(t)
  {
    forall t, h | 0 <= t < |route| && 0 <= h < g.kvHeads
      ensures LocationOf(g, RowIndex(g, route[t], h)) == route[t]
    {
      RowDecodes(g, route[t], h);
    }
    if Distinct(route) {
      forall t, h | 0 <= t < |route| && 0 <= h < g.kvHeads
        ensures Owner(g, route, |route|, RowIndex(g, route[t], h)) == Some(t)
      {
        OwnerIsLastWriter(g, route, |route|, RowIndex(g, route[t], h));
      }
    } else {
      var t, u :| 0 <= t < u < |route| && route[t] == route[u];
      OwnerIsLastWriter(g, route, |route|, RowIndex(g, route[t], 0));
      assert Owner(g, route, |route|, RowIndex(g, route[t], 0)) != Some(t);
    }
  }

  // ---- What is written -------------------------------------------------------------

  datatype CacheFormat = E4m3 | Bf16Exact | Bf16Math

  function ElementBytes(format: CacheFormat): (bytes: nat)
    ensures bytes > 0
  {
    if format.E4m3? then 1 else 2
  }

  // The represented-word codecs, and the scales of the E4M3 planes.
  datatype Codec = Codec(
    widen: Word -> real, narrow: real -> Word, e4m3: real -> Option<Byte>, keyScale: real, valueScale: real)
  {
    predicate Valid() {
      keyScale > 0.0 && valueScale > 0.0
    }
  }

  type Cell = seq<Byte>

  function LittleEndian(word: Word): (cell: Cell)
    ensures |cell| == 2 && (cell[0] as int) + 0x100 * (cell[1] as int) == word
  {
    [word % 0x100, word / 0x100]
  }

  function Single(code: Option<Byte>): (cell: Option<Cell>)
    ensures cell.Some? ==> |cell.value| == 1
  {
    if code.Some? then Some([code.value]) else None
  }

  function KeyCell(codec: Codec, format: CacheFormat, key: real): (cell: Option<Cell>)
    requires codec.Valid()
    ensures cell.Some? ==> |cell.value| == ElementBytes(format)
  {
    if format.E4m3? then Single(codec.e4m3(key / codec.keyScale)) else Some(LittleEndian(codec.narrow(key)))
  }

  function ValueCell(codec: Codec, format: CacheFormat, word: Word): (cell: Option<Cell>)
    requires codec.Valid()
    ensures cell.Some? ==> |cell.value| == ElementBytes(format)
  {
    if format.E4m3? then Single(codec.e4m3(codec.widen(word) / codec.valueScale)) else Some(LittleEndian(word))
  }

  // The flat planes a launch reads.
  datatype Planes = Planes(qkv: seq<Word>, queryNorm: seq<Word>, keyNorm: seq<Word>, cos: seq<real>, sin: seq<real>)

  predicate Covers(g: Geometry, planes: Planes, rows: nat) {
    && |planes.qkv| == rows * g.QkvRows()
    && |planes.queryNorm| == |planes.keyNorm| == g.Dim()
    && |planes.cos| == |planes.sin| == rows * g.config.pairs
  }

  // The packed row of one token.
  function TokenRow(g: Geometry, planes: Planes, rows: nat, t: nat): (row: seq<Word>)
    requires Covers(g, planes, rows) && t < rows
    ensures |row| == g.QkvRows()
  {
    Gap(g.QkvRows(), t, rows);
    Block(planes.qkv, g.QkvRows(), t)
  }

  function QueryWords(g: Geometry, row: seq<Word>, head: nat): (words: seq<Word>)
    requires |row| == g.QkvRows() && head < g.queryHeads
    ensures |words| == g.Dim()
  {
    Gap(2 * g.Dim(), head, g.queryHeads);
    row[head * (2 * g.Dim())..head * (2 * g.Dim()) + g.Dim()]
  }

  function KeyWords(g: Geometry, row: seq<Word>, head: nat): (words: seq<Word>)
    requires |row| == g.QkvRows() && head < g.kvHeads
    ensures |words| == g.Dim()
  {
    Gap(g.Dim(), head, g.kvHeads);
    Block(row[g.QueryRows()..g.QueryRows() + g.KvRows()], g.Dim(), head)
  }

  function ValueWords(g: Geometry, row: seq<Word>, head: nat): (words: seq<Word>)
    requires |row| == g.QkvRows() && head < g.kvHeads
    ensures |words| == g.Dim()
  {
    Gap(g.Dim(), head, g.kvHeads);
    Block(row[g.QueryRows() + g.KvRows()..], g.Dim(), head)
  }

  function Widened(codec: Codec, words: seq<Word>): (values: seq<real>)
    ensures |values| == |words|
  {
    seq(|words|, i requires 0 <= i < |words| => codec.widen(words[i]))
  }

  function Angles(g: Geometry, plane: seq<real>, rows: nat, t: nat): (angles: seq<real>)
    requires |plane| == rows * g.config.pairs && t < rows
    ensures |angles| == g.config.pairs
  {
    Gap(g.config.pairs, t, rows);
    Block(plane, g.config.pairs, t)
  }

  // The prepared query heads of a token ...
  function QueryRow(f: Functions, g: Geometry, codec: Codec, planes: Planes, rows: nat, t: nat, head: nat)
      : (row: seq<real>)
    requires f.Lawful() && g.Valid() && Covers(g, planes, rows) && t < rows && head < g.queryHeads
    ensures |row| == g.Dim()
  {
    Prepared(f, g.config, Widened(codec, QueryWords(g, TokenRow(g, planes, rows, t), head)),
      Widened(codec, planes.queryNorm), Angles(g, planes.cos, rows, t), Angles(g, planes.sin, rows, t))
  }

  function QueryHeads(f: Functions, g: Geometry, codec: Codec, planes: Planes, rows: nat, t: nat)
      : (heads: seq<seq<real>>)
    requires f.Lawful() && g.Valid() && Covers(g, planes, rows) && t < rows
    ensures |heads| == g.queryHeads
  {
    seq(g.queryHeads, h requires 0 <= h < g.queryHeads => QueryRow(f, g, codec, planes, rows, t, h))
  }

  function KeyRow(f: Functions, g: Geometry, codec: Codec, planes: Planes, rows: nat, t: nat, head: nat)
      : (row: seq<real>)
    requires f.Lawful() && g.Valid() && Covers(g, planes, rows) && t < rows && head < g.kvHeads
    ensures |row| == g.Dim()
  {
    Prepared(f, g.config, Widened(codec, KeyWords(g, TokenRow(g, planes, rows, t), head)),
      Widened(codec, planes.keyNorm), Angles(g, planes.cos, rows, t), Angles(g, planes.sin, rows, t))
  }

  // ... and its encoded key and value rows.
  function KeyCells(codec: Codec, format: CacheFormat, keys: seq<real>): (cells: seq<Option<Cell>>)
    requires codec.Valid()
    ensures |cells| == |keys|
  {
    seq(|keys|, i requires 0 <= i < |keys| => KeyCell(codec, format, keys[i]))
  }

  function ValueCells(codec: Codec, format: CacheFormat, words: seq<Word>): (cells: seq<Option<Cell>>)
    requires codec.Valid()
    ensures |cells| == |words|
  {
    seq(|words|, i requires 0 <= i < |words| => ValueCell(codec, format, words[i]))
  }

  predicate AllEncoded(cells: seq<Option<Cell>>) {
    forall i :: 0 <= i < |cells| ==> cells[i].Some?
  }

  function Encoded(cells: seq<Option<Cell>>): (row: seq<Cell>)
    requires AllEncoded(cells)
    ensures |row| == |cells|
  {
    seq(|cells|, i requires 0 <= i < |cells| => cells[i].value)
  }

  function TokenKeys(
      f: Functions, g: Geometry, codec: Codec, format: CacheFormat, planes: Planes, rows: nat, t: nat, head: nat)
      : (cells: seq<Option<Cell>>)
    requires f.Lawful() && g.Valid() && codec.Valid() && Covers(g, planes, rows) && t < rows && head < g.kvHeads
    ensures |cells| == g.Dim()
  {
    KeyCells(codec, format, KeyRow(f, g, codec, planes, rows, t, head))
  }

  function TokenValues(
      g: Geometry, codec: Codec, format: CacheFormat, planes: Planes, rows: nat, t: nat, head: nat)
      : (cells: seq<Option<Cell>>)
    requires g.Valid() && codec.Valid() && Covers(g, planes, rows) && t < rows && head < g.kvHeads
    ensures |cells| == g.Dim()
  {
    ValueCells(codec, format, ValueWords(g, TokenRow(g, planes, rows, t), head))
  }

  // Whether every element of the first n tokens can be encoded.
  ghost predicate TokensEncode(
      f: Functions, g: Geometry, codec: Codec, format: CacheFormat, planes: Planes, rows: nat, n: nat)
    requires f.Lawful() && g.Valid() && codec.Valid() && Covers(g, planes, rows) && n <= rows
  {
    forall t, h :: 0 <= t < n && 0 <= h < g.kvHeads ==>
      && AllEncoded(TokenKeys(f, g, codec, format, planes, rows, t, h))
      && AllEncoded(TokenValues(g, codec, format, planes, rows, t, h))
  }

  // What a token leaves in its row of one head.
  function Written(cells: seq<Option<Cell>>): (row: seq<Cell>) {
    if AllEncoded(cells) then Encoded(cells) else []
  }

  // The encoded rows of every token and head.
  function KeyTable(f: Functions, g: Geometry, codec: Codec, format: CacheFormat, planes: Planes, rows: nat)
      : (table: seq<seq<seq<Cell>>>)
    requires f.Lawful() && g.Valid() && codec.Valid() && Covers(g, planes, rows)
    ensures |table| == rows && forall t :: 0 <= t < rows ==> |table[t]| == g.kvHeads
  {
    seq(rows, t requires 0 <= t < rows =>
      seq(g.kvHeads, h requires 0 <= h < g.kvHeads =>
        Written(TokenKeys(f, g, codec, format, planes, rows, t, h))))
  }

  function ValueTable(g: Geometry, codec: Codec, format: CacheFormat, planes: Planes, rows: nat)
      : (table: seq<seq<seq<Cell>>>)
    requires g.Valid() && codec.Valid() && Covers(g, planes, rows)
    ensures |table| == rows && forall t :: 0 <= t < rows ==> |table[t]| == g.kvHeads
  {
    seq(rows, t requires 0 <= t < rows =>
      seq(g.kvHeads, h requires 0 <= h < g.kvHeads =>
        Written(TokenValues(g, codec, format, planes, rows, t, h))))
  }

  // What a row holds after n appends: its owner's row, or what it held before.
  ghost function Content<T>(
      g: Geometry, route: seq<Location>, n: nat, table: seq<seq<T>>, initial: seq<T>, row: nat): T
    requires g.Valid() && n <= |route| && n <= |table| && row < |initial|
    requires forall t :: 0 <= t < |table| ==> |table[t]| == g.kvHeads
  {
    match Owner(g, route, n, row)
    case None => initial[row]
    case Some(t) => table[t][HeadOf(g, row)]
  }

  ghost predicate Appended<T>(
      g: Geometry, route: seq<Location>, n: nat, table: seq<seq<T>>, initial: seq<T>, now: seq<T>)
    requires g.Valid() && n <= |route| && n <= |table|
    requires forall t :: 0 <= t < |table| ==> |table[t]| == g.kvHeads
  {
    |now| == |initial| && forall i :: 0 <= i < |now| ==> now[i] == Content(g, route, n, table, initial, i)
  }

  // One token's rows of the first heads kv heads laid over what was there.
  ghost predicate Overlaid<T>(g: Geometry, at: Location, heads: nat, rows: seq<T>, before: seq<T>, after: seq<T>)
    requires g.Valid() && |rows| == g.kvHeads
  {
    && |after| == |before|
    && forall i :: 0 <= i < |after| ==>
        after[i] == if LocationOf(g, i) == at && HeadOf(g, i) < heads then rows[HeadOf(g, i)] else before[i]
  }

  lemma AppendOne<T>(
      g: Geometry, route: seq<Location>, n: nat, table: seq<seq<T>>, initial: seq<T>, before: seq<T>, after: seq<T>)
    requires g.Valid() && n < |route| && n < |table|
    requires forall t :: 0 <= t < |table| ==> |table[t]| == g.kvHeads
    requires Appended(g, route, n, table, initial, before)
    requires Overlaid(g, route[n], g.kvHeads, table[n], before, after)
    ensures Appended(g, route, n + 1, table, initial, after)
  {
  }
}
