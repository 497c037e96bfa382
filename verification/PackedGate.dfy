// The gate half packed beside every query head: cells the append oracle never
// reads, and the fixtures that rely on it.
module PackedGate {
  import opened Analysis
  import opened Blocks
  import opened PagedCache
  import opened PagedCacheElements
  import opened PagedCacheOracle
  import opened Permutations
  import opened Rotary

  // Whether a flat index lands in a packed query head's gate half.
  predicate IsPackedGate(g: Geometry, index: nat)
    requires g.Valid()
  {
    QkvRowsPositive(g);
    IsGateRow(g, index % g.QkvRows())
  }

  predicate IsGateRow(g: Geometry, row: nat)
    requires g.Valid()
  {
    row < g.QueryRows() && row % (2 * g.Dim()) >= g.Dim()
  }

  lemma QkvRowsPositive(g: Geometry)
    requires g.Valid()
    ensures g.QkvRows() > 0
  {
    Gap(g.Dim(), 0, g.kvHeads);
  }

  // Element d of a head within a packed row.
  function QueryOffset(g: Geometry, h: nat, d: nat): nat {
    QueryPlace(g, 0, h) + d
  }

  function KeyOffset(g: Geometry, h: nat, d: nat): nat {
    KeyPlace(g, 0, h) + d
  }

  function ValueOffset(g: Geometry, h: nat, d: nat): nat {
    ValuePlace(g, 0, h) + d
  }

  // The offsets within a token that the oracle reads: the query half of every
  // head, and all keys and values.
  ghost predicate IsRead(g: Geometry, row: nat) {
    || (exists h: nat, d: nat :: h < g.queryHeads && d < g.Dim() && row == QueryOffset(g, h, d))
    || (exists h: nat, d: nat :: h < g.kvHeads && d < g.Dim() && row == KeyOffset(g, h, d))
    || (exists h: nat, d: nat :: h < g.kvHeads && d < g.Dim() && row == ValueOffset(g, h, d))
  }

  lemma QueryIsRead(g: Geometry, h: nat, d: nat)
    requires g.Valid() && h < g.queryHeads && d < g.Dim()
    ensures QueryOffset(g, h, d) < g.QueryRows() && !IsGateRow(g, QueryOffset(g, h, d))
  {
    var wide := 2 * g.Dim();
    Gap(wide, h, g.queryHeads);
    DivMod(wide, h, d);
  }

  lemma KvIsRead(g: Geometry, h: nat, d: nat)
    requires g.Valid() && h < g.kvHeads && d < g.Dim()
    ensures g.QueryRows() <= KeyOffset(g, h, d) < g.QkvRows()
    ensures g.QueryRows() <= ValueOffset(g, h, d) < g.QkvRows()
  {
    Gap(g.Dim(), h, g.kvHeads);
  }

  // Every cell past the query heads is some key's or some value's.
  lemma ReadIsKv(g: Geometry, row: nat)
    requires g.Valid() && g.QueryRows() <= row < g.QkvRows()
    ensures IsRead(g, row)
  {
    hide IsRead;
    var k := row - g.QueryRows();
    if k < g.KvRows() {
      KeyAt(g, row, k);
    } else {
      ValueAt(g, row, k - g.KvRows());
    }
  }

  lemma KeyAt(g: Geometry, row: nat, k: nat)
    requires g.Valid() && k < g.KvRows() && row == g.QueryRows() + k
    ensures IsRead(g, row)
  {
    QuotientBound(k, g.Dim(), g.kvHeads);
    assert k == k / g.Dim() * g.Dim() + k % g.Dim();
    assert row == KeyOffset(g, k / g.Dim(), k % g.Dim());
  }

  lemma ValueAt(g: Geometry, row: nat, k: nat)
    requires g.Valid() && k < g.KvRows() && row == g.QueryRows() + g.KvRows() + k
    ensures IsRead(g, row)
  {
    QuotientBound(k, g.Dim(), g.kvHeads);
    assert k == k / g.Dim() * g.Dim() + k % g.Dim();
    assert row == ValueOffset(g, k / g.Dim(), k % g.Dim());
  }

  // Gates are exactly what is left over.
  lemma GatesAreUnread(g: Geometry, row: nat)
    requires g.Valid() && row < g.QkvRows()
    ensures IsGateRow(g, row) <==> !IsRead(g, row)
  {
    hide Geometry.QkvRows, QueryOffset, KeyOffset, ValueOffset;
    forall h: nat, d: nat | h < g.queryHeads && d < g.Dim() && row == QueryOffset(g, h, d)
      ensures row < g.QueryRows() && !IsGateRow(g, row)
    {
      QueryIsRead(g, h, d);
    }
    forall h: nat, d: nat | h < g.kvHeads && d < g.Dim() && row == KeyOffset(g, h, d)
      ensures g.QueryRows() <= row
    {
      KvIsRead(g, h, d);
    }
    forall h: nat, d: nat | h < g.kvHeads && d < g.Dim() && row == ValueOffset(g, h, d)
      ensures g.QueryRows() <= row
    {
      KvIsRead(g, h, d);
    }
    if row >= g.QueryRows() {
      ReadIsKv(g, row);
    } else if !IsGateRow(g, row) {
      NonGateIsRead(g, row);
    }
  }

  lemma NonGateIsRead(g: Geometry, row: nat)
    requires g.Valid() && row < g.QueryRows() && !IsGateRow(g, row)
    ensures IsRead(g, row)
  {
    var wide := 2 * g.Dim();
    QuotientBound(row, wide, g.queryHeads);
    assert row == QueryOffset(g, row / wide, row % wide);
  }

  ghost predicate AgreeOffGates(g: Geometry, a: seq<Word>, b: seq<Word>)
    requires g.Valid()
  {
    |a| == |b| && forall i :: 0 <= i < |a| && !IsPackedGate(g, i) ==> a[i] == b[i]
  }

  lemma SameTokenReads(g: Geometry, p: Planes, q: Planes, rows: nat, t: nat, row: nat)
    requires g.Valid() && Covers(g, p, rows) && Covers(g, q, rows) && AgreeOffGates(g, p.qkv, q.qkv)
    requires t < rows && row < g.QkvRows() && IsRead(g, row)
    ensures TokenRow(g, p, rows, t)[row] == TokenRow(g, q, rows, t)[row]
  {
    GatesAreUnread(g, row);
    hide IsRead, IsGateRow, Geometry.QkvRows, Geometry.QueryRows;
    Gap(g.QkvRows(), t, rows);
    DivMod(g.QkvRows(), t, row);
    var i := t * g.QkvRows() + row;
    assert !IsPackedGate(g, i);
    assert p.qkv[i] == q.qkv[i];
  }

  lemma SameQueryWords(g: Geometry, p: Planes, q: Planes, rows: nat, t: nat, h: nat)
    requires g.Valid() && Covers(g, p, rows) && Covers(g, q, rows) && AgreeOffGates(g, p.qkv, q.qkv)
    requires t < rows && h < g.queryHeads
    ensures QueryWords(g, TokenRow(g, p, rows, t), h) == QueryWords(g, TokenRow(g, q, rows, t), h)
  {
    hide AgreeOffGates, TokenRow, Covers;
    var a, b := QueryWords(g, TokenRow(g, p, rows, t), h), QueryWords(g, TokenRow(g, q, rows, t), h);
    var wide := 2 * g.Dim();
    Gap(wide, h, g.queryHeads);
    forall d | 0 <= d < g.Dim()
      ensures a[d] == b[d]
    {
      QueryIsRead(g, h, d);
      assert IsRead(g, QueryOffset(g, h, d));
      SameTokenReads(g, p, q, rows, t, QueryOffset(g, h, d));
    }
  }

  lemma SameKvWords(g: Geometry, p: Planes, q: Planes, rows: nat, t: nat)
    requires g.Valid() && Covers(g, p, rows) && Covers(g, q, rows) && AgreeOffGates(g, p.qkv, q.qkv)
    requires t < rows
    ensures TokenRow(g, p, rows, t)[g.QueryRows()..] == TokenRow(g, q, rows, t)[g.QueryRows()..]
  {
    hide AgreeOffGates, TokenRow, Covers;
    forall row | g.QueryRows() <= row < g.QkvRows()
      ensures TokenRow(g, p, rows, t)[row] == TokenRow(g, q, rows, t)[row]
    {
      ReadIsKv(g, row);
      SameTokenReads(g, p, q, rows, t, row);
    }
  }

  lemma KvFromTail(g: Geometry, a: seq<Word>, b: seq<Word>, h: nat)
    requires |a| == |b| == g.QkvRows() && a[g.QueryRows()..] == b[g.QueryRows()..] && h < g.kvHeads
    ensures KeyWords(g, a, h) == KeyWords(g, b, h) && ValueWords(g, a, h) == ValueWords(g, b, h)
  {
    assert a[g.QueryRows()..g.QueryRows() + g.KvRows()] == a[g.QueryRows()..][..g.KvRows()];
    assert b[g.QueryRows()..g.QueryRows() + g.KvRows()] == b[g.QueryRows()..][..g.KvRows()];
    assert a[g.QueryRows() + g.KvRows()..] == a[g.QueryRows()..][g.KvRows()..];
    assert b[g.QueryRows() + g.KvRows()..] == b[g.QueryRows()..][g.KvRows()..];
  }

  // Whatever the gates hold, the oracle's queries, keys and values are the same.
  lemma GatesDoNotInterfere(
      f: Functions, g: Geometry, codec: Codec, format: CacheFormat, p: Planes, q: Planes, rows: nat, t: nat)
    requires f.Lawful() && g.Valid() && codec.Valid() && Covers(g, p, rows) && Covers(g, q, rows)
    requires q == p.(qkv := q.qkv) && AgreeOffGates(g, p.qkv, q.qkv) && t < rows
    ensures QueryHeads(f, g, codec, p, rows, t) == QueryHeads(f, g, codec, q, rows, t)
    ensures KeyTable(f, g, codec, format, p, rows)[t] == KeyTable(f, g, codec, format, q, rows)[t]
    ensures ValueTable(g, codec, format, p, rows)[t] == ValueTable(g, codec, format, q, rows)[t]
    ensures HeadsEncode(f, g, codec, format, p, rows, t, g.kvHeads)
         == HeadsEncode(f, g, codec, format, q, rows, t, g.kvHeads)
  {
    hide Prepared, TokenRow, QueryWords, KeyWords, ValueWords, KeyCells, ValueCells, Written, AllEncoded,
      AgreeOffGates, Covers;
    SameKvWords(g, p, q, rows, t);
    forall h | 0 <= h < g.kvHeads
      ensures TokenKeys(f, g, codec, format, p, rows, t, h) == TokenKeys(f, g, codec, format, q, rows, t, h)
      ensures TokenValues(g, codec, format, p, rows, t, h) == TokenValues(g, codec, format, q, rows, t, h)
    {
      KvFromTail(g, TokenRow(g, p, rows, t), TokenRow(g, q, rows, t), h);
    }
    assert QueryHeads(f, g, codec, p, rows, t) == QueryHeads(f, g, codec, q, rows, t) by {
      forall h | 0 <= h < g.queryHeads
        ensures QueryRow(f, g, codec, p, rows, t, h) == QueryRow(f, g, codec, q, rows, t, h)
      {
        SameQueryWords(g, p, q, rows, t, h);
      }
    }
  }

  // ---- The fixtures ------------------------------------------------------------------

  const INPUT_PATTERN: seq<real> := [
    0.5, -0.375, 0.25, -0.1875, 0.125, -0.09375, 0.0625, -0.03125,
    -0.5, 0.375, -0.25, 0.1875, -0.125, 0.09375, -0.0625, 0.03125]
  const GATE_PATTERN_ROTATION: nat := 5

  // What the fixture rounds for entry j of the pattern.
  function PatternValue(j: nat, token: nat): real
    requires j < 16
  {
    INPUT_PATTERN[j] * (1.0 - (token % 8) as real / 16.0)
  }

  function FixtureWord(codec: Codec, token: nat, index: nat, rotation: nat): Word {
    codec.narrow(PatternValue((index + 3 * token + rotation) % 16, token))
  }

  function FixtureCell(g: Geometry, codec: Codec, index: nat, discriminated: bool): Word
    requires g.Valid()
  {
    QkvRowsPositive(g);
    FixtureWord(codec, index / g.QkvRows(), index,
      if discriminated && IsPackedGate(g, index) then GATE_PATTERN_ROTATION else 0)
  }

  // The fixture's packed plane, with or without a distinct gate pattern.
  function FixtureQkv(g: Geometry, codec: Codec, rows: nat, discriminated: bool): (qkv: seq<Word>)
    requires g.Valid()
    ensures |qkv| == rows * g.QkvRows()
  {
    seq(rows * g.QkvRows(), index requires 0 <= index < rows * g.QkvRows() =>
      FixtureCell(g, codec, index, discriminated))
  }

  lemma FixturesAgree(g: Geometry, codec: Codec, rows: nat)
    requires g.Valid()
    ensures AgreeOffGates(g, FixtureQkv(g, codec, rows, false), FixtureQkv(g, codec, rows, true))
  {
    hide FixtureWord, IsPackedGate;
  }

  // The word of a cell rounds an entry of the pattern, five further on in the gates of
  // the discriminated fixture, shrunk by a sixteenth for each token of the eight.
  lemma FixtureCellIs(
      g: Geometry, codec: Codec, rows: nat, token: nat, row: nat, index: nat, entry: nat, discriminated: bool)
      returns (value: real)
    requires g.Valid() && token < rows && row < g.QkvRows() && index == token * g.QkvRows() + row
    requires entry == index + 3 * token
      + if discriminated && row < g.QueryRows() && row % (2 * g.Dim()) >= g.Dim() then 5 else 0
    ensures index < rows * g.QkvRows()
    ensures 16.0 * value == INPUT_PATTERN[entry % 16] * (16 - token % 8) as real
    ensures FixtureQkv(g, codec, rows, discriminated)[index] == codec.narrow(value)
  {
    hide PatternValue, Geometry.QkvRows, Geometry.QueryRows;
    Gap(g.QkvRows(), token, rows);
    DivMod(g.QkvRows(), token, row);
    value := PatternValue(entry % 16, token);
    PatternIs(entry % 16, token);
  }

  lemma PatternIs(j: nat, token: nat)
    requires j < 16
    ensures 16.0 * PatternValue(j, token) == INPUT_PATTERN[j] * (16 - token % 8) as real
  {
    Sixteenths(INPUT_PATTERN[j], token % 8);
  }

  lemma Sixteenths(x: real, k: nat)
    requires k < 8
    ensures 16.0 * (x * (1.0 - k as real / 16.0)) == x * (16 - k) as real
  {
  }

  predicate Apart(codec: Codec, j: nat, k: nat, token: nat)
    requires j < 16 && k < 16
  {
    codec.narrow(PatternValue(j, token)) != codec.narrow(PatternValue(k, token))
  }

  // Rounding keeps the entries of the pattern apart, whatever the token's factor.
  ghost predicate KeepsApart(codec: Codec) {
    forall j, k, token :: 0 <= j < 16 && 0 <= k < 16 && j != k && 0 <= token ==> Apart(codec, j, k, token)
  }

  // The place of an element of a packed query head and of the gate beside it.
  function QueryIndex(g: Geometry, token: nat, head: nat, d: nat): nat {
    token * g.QkvRows() + head * (2 * g.Dim()) + d
  }

  lemma QueryIndexFits(g: Geometry, rows: nat, token: nat, head: nat, d: nat)
    requires g.Valid() && token < rows && head < g.queryHeads && d < g.Dim()
    ensures QueryIndex(g, token, head, d) + g.Dim() < rows * g.QkvRows()
    ensures !IsPackedGate(g, QueryIndex(g, token, head, d)) && IsPackedGate(g, QueryIndex(g, token, head, d) + g.Dim())
    ensures QueryIndex(g, token, head, d) / g.QkvRows() == token
    ensures (QueryIndex(g, token, head, d) + g.Dim()) / g.QkvRows() == token
  {
    var wide, dim := 2 * g.Dim(), g.Dim();
    Gap(wide, head, g.queryHeads);
    Gap(g.QkvRows(), token, rows);
    var row := head * wide + d;
    DivMod(wide, head, d);
    DivMod(wide, head, d + dim);
    QkvRowsPositive(g);
    DivMod(g.QkvRows(), token, row);
    DivMod(g.QkvRows(), token, row + dim);
  }

  lemma SixteenthsAgree(a: nat, d: nat, rotation: nat)
    requires d % 16 == 0
    ensures (a + d + rotation) % 16 == (a + rotation) % 16
  {
  }

  lemma WordsDiffer(codec: Codec, token: nat, index: nat)
    requires KeepsApart(codec)
    ensures FixtureWord(codec, token, index, 0) != FixtureWord(codec, token, index, GATE_PATTERN_ROTATION)
  {
    hide PatternValue;
    var j, k := (index + 3 * token) % 16, (index + 3 * token + GATE_PATTERN_ROTATION) % 16;
    assert j != k;
    assert Apart(codec, j, k, token);
  }

  lemma WordsRepeat(codec: Codec, token: nat, index: nat, d: nat, rotation: nat)
    requires d % 16 == 0
    ensures FixtureWord(codec, token, index + d, rotation) == FixtureWord(codec, token, index, rotation)
  {
    hide PatternValue;
    SixteenthsAgree(index + 3 * token, d, rotation);
  }

  // In the plain fixture every gate has the word of the query element beside it; in
  // the discriminated one none does, as long as rounding keeps the pattern apart.
  lemma FixturesSeparate(g: Geometry, codec: Codec, rows: nat, token: nat, head: nat, d: nat)
    requires g.Valid() && g.Dim() % 16 == 0 && KeepsApart(codec)
    requires token < rows && head < g.queryHeads && d < g.Dim()
    ensures QueryIndex(g, token, head, d) + g.Dim() < rows * g.QkvRows()
    ensures var plain, split := FixtureQkv(g, codec, rows, false), FixtureQkv(g, codec, rows, true);
      var query := QueryIndex(g, token, head, d);
      && plain[query] == plain[query + g.Dim()] && plain[query] == split[query]
      && split[query] != split[query + g.Dim()]
  {
    hide IsPackedGate, QueryIndex, FixtureWord, KeepsApart, Geometry.QkvRows;
    QueryIndexFits(g, rows, token, head, d);
    var query := QueryIndex(g, token, head, d);
    WordsRepeat(codec, token, query, g.Dim(), 0);
    WordsRepeat(codec, token, query, g.Dim(), GATE_PATTERN_ROTATION);
    WordsDiffer(codec, token, query);
  }

  // ---- Whole results ---------------------------------------------------------------

  lemma SameTables(
      f: Functions, g: Geometry, codec: Codec, format: CacheFormat, p: Planes, q: Planes, rows: nat)
    requires f.Lawful() && g.Valid() && codec.Valid() && Covers(g, p, rows) && Covers(g, q, rows)
    requires q == p.(qkv := q.qkv) && AgreeOffGates(g, p.qkv, q.qkv)
    ensures forall t :: 0 <= t < rows ==> QueryHeads(f, g, codec, p, rows, t) == QueryHeads(f, g, codec, q, rows, t)
    ensures KeyTable(f, g, codec, format, p, rows) == KeyTable(f, g, codec, format, q, rows)
    ensures ValueTable(g, codec, format, p, rows) == ValueTable(g, codec, format, q, rows)
    ensures forall t :: 0 <= t < rows ==>
      HeadsEncode(f, g, codec, format, p, rows, t, g.kvHeads) == HeadsEncode(f, g, codec, format, q, rows, t, g.kvHeads)
  {
    hide QueryHeads, KeyTable, ValueTable, AgreeOffGates, HeadsEncode, Covers;
    forall t | 0 <= t < rows
      ensures QueryHeads(f, g, codec, p, rows, t) == QueryHeads(f, g, codec, q, rows, t)
      ensures KeyTable(f, g, codec, format, p, rows)[t] == KeyTable(f, g, codec, format, q, rows)[t]
      ensures ValueTable(g, codec, format, p, rows)[t] == ValueTable(g, codec, format, q, rows)[t]
      ensures HeadsEncode(f, g, codec, format, p, rows, t, g.kvHeads)
           == HeadsEncode(f, g, codec, format, q, rows, t, g.kvHeads)
    {
      GatesDoNotInterfere(f, g, codec, format, p, q, rows, t);
    }
  }

  lemma EncodeByToken(
      f: Functions, g: Geometry, codec: Codec, format: CacheFormat, planes: Planes, rows: nat, n: nat)
    requires f.Lawful() && g.Valid() && codec.Valid() && Covers(g, planes, rows) && n <= rows
    ensures TokensEncode(f, g, codec, format, planes, rows, n) <==>
      forall t :: 0 <= t < n ==> HeadsEncode(f, g, codec, format, planes, rows, t, g.kvHeads)
  {
    hide AllEncoded, TokenKeys, TokenValues, Covers;
    if forall t :: 0 <= t < n ==> HeadsEncode(f, g, codec, format, planes, rows, t, g.kvHeads) {
      forall t, h | 0 <= t < n && 0 <= h < g.kvHeads
        ensures AllEncoded(TokenKeys(f, g, codec, format, planes, rows, t, h))
        ensures AllEncoded(TokenValues(g, codec, format, planes, rows, t, h))
      {
        assert HeadsEncode(f, g, codec, format, planes, rows, t, g.kvHeads);
      }
    }
  }

  lemma AppendedDetermines<T>(
      g: Geometry, route: seq<Location>, n: nat, table: seq<seq<T>>, initial: seq<T>, a: seq<T>, b: seq<T>)
    requires g.Valid() && n <= |route| && n <= |table|
    requires forall t :: 0 <= t < |table| ==> |table[t]| == g.kvHeads
    requires Appended(g, route, n, table, initial, a) && Appended(g, route, n, table, initial, b)
    ensures a == b
  {
    hide Content;
  }

  lemma PagesDetermine(g: Geometry, format: CacheFormat, a: seq<Byte>, b: seq<Byte>, n: nat)
    requires |a| == |b| == n * g.Dim() * ElementBytes(format)
    requires PageRows(g, format, a, n) == PageRows(g, format, b, n)
    ensures a == b
  {
    hide Slots;
    SlotsDetermine(a, b, ElementBytes(format), g.Dim(), n);
  }

  // Runs of the oracle on planes that differ in gates only end with the same
  // outcome and, if it succeeds, with equal query, key and value buffers.
  lemma GatesDoNotReachBuffers(
      f: Functions, g: Geometry, codec: Codec, format: CacheFormat, p: Planes, q: Planes, rows: nat,
      tables: Tables, tokens: nat, pages: nat, sentinel: real,
      ok: bool, query: seq<real>, keys: seq<Byte>, values: seq<Byte>,
      ok': bool, query': seq<real>, keys': seq<Byte>, values': seq<Byte>)
    requires f.Lawful() && g.Valid() && codec.Valid() && Covers(g, p, rows) && Covers(g, q, rows) && tokens <= rows
    requires tables.Admits(g, tokens, pages)
    requires q == p.(qkv := q.qkv) && AgreeOffGates(g, p.qkv, q.qkv)
    requires IsResult(
      f, g, codec, format, p, rows, tables, tokens, pages, sentinel, ok, query, keys, values)
    requires IsResult(
      f, g, codec, format, q, rows, tables, tokens, pages, sentinel, ok', query', keys', values')
    ensures ok == ok' && (ok ==> query == query' && keys == keys' && values == values')
  {
    hide QueryHeads, KeyTable, ValueTable, HeadsEncode, TokensEncode, Covers, Appended, PageRows, Slots, AgreeOffGates,
      PlaneRows, ElementBytes, Filler, Tables.Admits, Tables.Route;
    SameTables(f, g, codec, format, p, q, rows);
    EncodeByToken(f, g, codec, format, p, rows, tokens);
    EncodeByToken(f, g, codec, format, q, rows, tokens);
    if ok {
      var n, route := PlaneRows(g, pages), tables.Route(g, tokens, pages);
      var blank := PageRows(g, format, Filler(|keys|, BYTE_SENTINEL), n);
      SlotsDetermine(query, query', g.Dim(), g.queryHeads, rows);
      AppendedDetermines(g, route, tokens, KeyTable(f, g, codec, format, p, rows), blank,
        PageRows(g, format, keys, n), PageRows(g, format, keys', n));
      PagesDetermine(g, format, keys, keys', n);
      AppendedDetermines(g, route, tokens, ValueTable(g, codec, format, p, rows), blank,
        PageRows(g, format, values, n), PageRows(g, format, values', n));
      PagesDetermine(g, format, values, values', n);
    }
  }

  // So the oracle run on the discriminated fixture ends exactly as on the plain one.
  method FixturesShareResults(
      f: Functions, g: Geometry, codec: Codec, format: CacheFormat, p: Planes, rows: nat,
      tables: Tables, tokens: nat, pages: nat, sentinel: real)
      returns (ok: bool, query: array<real>, keys: array<Byte>, values: array<Byte>,
        ok': bool, query': array<real>, keys': array<Byte>, values': array<Byte>)
    requires f.Lawful() && g.Valid() && codec.Valid() && Covers(g, p, rows) && tokens <= rows
    requires tables.Admits(g, tokens, pages) && p.qkv == FixtureQkv(g, codec, rows, false)
    ensures IsResult(
      f, g, codec, format, p, rows, tables, tokens, pages, sentinel, ok, query[..], keys[..], values[..])
    ensures Covers(g, p.(qkv := FixtureQkv(g, codec, rows, true)), rows)
    ensures IsResult(
      f, g, codec, format, p.(qkv := FixtureQkv(g, codec, rows, true)), rows, tables, tokens, pages, sentinel,
      ok', query'[..], keys'[..], values'[..])
    ensures ok == ok' && (ok ==> query[..] == query'[..] && keys[..] == keys'[..] && values[..] == values'[..])
  {
    hide FixtureQkv, AgreeOffGates, IsResult, Tables.Admits;
    var q := p.(qkv := FixtureQkv(g, codec, rows, true));
    FixturesAgree(g, codec, rows);
    ok, query, keys, values := Oracle(f, g, codec, format, p, rows, tables, tokens, pages, sentinel);
    ok', query', keys', values' := Oracle(f, g, codec, format, q, rows, tables, tokens, pages, sentinel);
    GatesDoNotReachBuffers(f, g, codec, format, p, q, rows, tables, tokens, pages, sentinel,
      ok, query[..], keys[..], values[..], ok', query'[..], keys'[..], values'[..]);
  }

  // ---- The suite's tables ------------------------------------------------------------

  const TABLE_ROWS: nat := 8
  const TABLE_STRIDE: nat := 16
  const PHYSICAL_PAGES: nat := 16
  const PREFILL_TOKENS: nat := 1024
  const DECODE_ROWS: seq<nat> := [7, 0, 5, 2, 6, 1, 4, 3]
  const DECODE_POSITIONS: seq<nat> := [63, 64, 1, 126, 2, 65, 127, 0]

  function FixtureTables(): Tables {
    Tables(
      seq(TABLE_ROWS * TABLE_STRIDE, i requires 0 <= i < TABLE_ROWS * TABLE_STRIDE =>
        FixturePage(i)),
      TABLE_STRIDE, DECODE_ROWS, DECODE_POSITIONS,
      seq(PREFILL_TOKENS, _ => 0), seq(PREFILL_TOKENS, t requires 0 <= t < PREFILL_TOKENS => t))
  }

  // Rows of the fixture's block table share physical pages, yet no launch of
  // the suite sends two tokens to one location.
  lemma FixtureDecodeDistinct(g: Geometry, tokens: nat)
    requires g.Valid() && g.pageSize == 64 && tokens <= 8
    ensures FixtureTables().Admits(g, tokens, PHYSICAL_PAGES)
    ensures Distinct(FixtureTables().Route(g, tokens, PHYSICAL_PAGES))
  {
    FixtureDecodeAdmits(g, tokens);
    hide FixtureTables;
    DecodeLocationsDistinct();
    var route := FixtureTables().Route(g, tokens, PHYSICAL_PAGES);
    forall t | 0 <= t < tokens
      ensures route[t] == DECODE_LOCATIONS[t]
    {
      FixtureDecodeRow(g, tokens, t);
    }
  }

  lemma FixtureDecodeAdmits(g: Geometry, tokens: nat)
    requires g.Valid() && g.pageSize == 64 && tokens <= 8
    ensures FixtureTables().Admits(g, tokens, PHYSICAL_PAGES)
  {
    FixtureDecodeTables(tokens);
    hide FixtureTables;
    forall t | 0 <= t < tokens
      ensures DecodeLocation(g, tokens, t)
    {
      FixtureDecodeRow(g, tokens, t);
    }
  }

  lemma DecodeLocationsDistinct()
    ensures Distinct(DECODE_LOCATIONS)
  {
  }

  const DECODE_LOCATIONS: seq<Location> := [
    Location(14, 63), Location(1, 0), Location(10, 1), Location(5, 62),
    Location(12, 2), Location(3, 1), Location(9, 63), Location(6, 0)]

  // Where in the block table each decode row looks.
  const DECODE_BLOCKS: seq<nat> := [112, 1, 80, 33, 96, 17, 65, 48]

  lemma FixtureDecodeTables(tokens: nat)
    requires tokens <= 8
    ensures var tables := FixtureTables();
      && |tables.blocks| == 128 && tables.stride == 16
      && tables.Rows(tokens) == DECODE_ROWS && tables.Positions(tokens) == DECODE_POSITIONS
      && forall i :: 0 <= i < 128 ==> tables.blocks[i] == FixturePage(i)
  {
  }

  function FixturePage(i: nat): nat {
    (2 * (i / TABLE_STRIDE) + i % TABLE_STRIDE) % PHYSICAL_PAGES
  }

  lemma DecodeRowLooks(t: nat)
    requires t < 8
    ensures DECODE_ROWS[t] * 16 + DECODE_POSITIONS[t] / 64 == DECODE_BLOCKS[t] < 128
    ensures Location(FixturePage(DECODE_BLOCKS[t]), DECODE_POSITIONS[t] % 64) == DECODE_LOCATIONS[t]
    ensures FixturePage(DECODE_BLOCKS[t]) < PHYSICAL_PAGES
  {
  }

  ghost predicate DecodeLocation(g: Geometry, tokens: nat, t: nat)
    requires g.Valid() && t < tokens <= 8
  {
    FixtureDecodeTables(tokens);
    var tables := FixtureTables();
    && tables.Rows(tokens)[t] * tables.stride + tables.Positions(tokens)[t] / g.pageSize < |tables.blocks|
    && tables.Page(g, tokens, t) < PHYSICAL_PAGES
    && Location(tables.Page(g, tokens, t), tables.Positions(tokens)[t] % g.pageSize) == DECODE_LOCATIONS[t]
  }

  lemma FixtureDecodeRow(g: Geometry, tokens: nat, t: nat)
    requires g.Valid() && g.pageSize == 64 && t < tokens <= 8
    ensures DecodeLocation(g, tokens, t)
  {
    FixtureDecodeTables(tokens);
    hide FixtureTables, FixturePage;
    DecodeRowLooks(t);
  }

  lemma FixturePrefillDistinct(g: Geometry, tokens: nat)
    requires g.Valid() && g.pageSize == 64 && 8 < tokens <= PREFILL_TOKENS
    ensures FixtureTables().Admits(g, tokens, PHYSICAL_PAGES)
    ensures Distinct(FixtureTables().Route(g, tokens, PHYSICAL_PAGES))
  {
    var tables := FixtureTables();
    forall t | 0 <= t < tokens
      ensures tables.Rows(tokens)[t] * TABLE_STRIDE + tables.Positions(tokens)[t] / 64 < |tables.blocks|
      ensures Location(tables.Page(g, tokens, t), tables.Positions(tokens)[t] % 64) == Location(t / 64, t % 64)
    {
    }
    forall t, u | 0 <= t < u < tokens
      ensures Location(t / 64, t % 64) != Location(u / 64, u % 64)
    {
    }
  }
}
