// Cache writes of one resident full-attention layer: each decode sequence owns
// a run of pages, a prompt fills pages in order, and nothing past them moves.
module FullAttentionLayer {
  import opened Analysis
  import opened Blocks
  import opened PagedCache
  import opened PagedCacheOracle
  import opened Permutations

  datatype Batch = Batch(capacity: nat, stride: nat, positions: seq<nat>) {
    predicate Valid() {
      |positions| == capacity
    }
  }

  // Where each row of a launch is appended.
  function LayerRoute(g: Geometry, batch: Batch, rows: nat): (route: seq<Location>)
    requires g.Valid() && batch.Valid()
    ensures |route| == rows
  {
    seq(rows, t requires 0 <= t < rows =>
      if rows <= batch.capacity then
        Location(t * batch.stride + batch.positions[t] / g.pageSize, batch.positions[t] % g.pageSize)
      else
        Location(t / g.pageSize, t % g.pageSize))
  }

  // The first page no row of the launch may touch.
  function FirstInactivePage(g: Geometry, batch: Batch, rows: nat): nat
    requires g.Valid()
  {
    if rows <= batch.capacity then rows * batch.stride else (rows + g.pageSize - 1) / g.pageSize
  }

  // Where a row lands when the pages are laid end to end.
  function Flat(g: Geometry, batch: Batch, rows: nat, t: nat): nat
    requires g.Valid() && batch.Valid() && t < rows
  {
    if rows <= batch.capacity then t * RunLength(g, batch) + batch.positions[t] else t
  }

  // How many positions one sequence's run of pages holds.
  function RunLength(g: Geometry, batch: Batch): nat {
    batch.stride * g.pageSize
  }

  lemma LocationIsFlat(g: Geometry, batch: Batch, rows: nat, t: nat)
    requires g.Valid() && batch.Valid() && t < rows
    ensures var at := LayerRoute(g, batch, rows)[t];
      at.slot < g.pageSize && at.page * g.pageSize + at.slot == Flat(g, batch, rows, t)
  {
    if rows <= batch.capacity {
      var p := batch.positions[t];
      assert p == p / g.pageSize * g.pageSize + p % g.pageSize;
      assert (t * batch.stride + p / g.pageSize) * g.pageSize
          == t * (batch.stride * g.pageSize) + p / g.pageSize * g.pageSize;
    }
  }

  lemma FlatIsInjective(g: Geometry, batch: Batch, rows: nat, t: nat, u: nat)
    requires g.Valid() && batch.Valid() && t < rows && u < rows
    ensures LayerRoute(g, batch, rows)[t] == LayerRoute(g, batch, rows)[u]
      <==> Flat(g, batch, rows, t) == Flat(g, batch, rows, u)
  {
    hide LayerRoute, Flat;
    var a, b := LayerRoute(g, batch, rows)[t], LayerRoute(g, batch, rows)[u];
    LocationIsFlat(g, batch, rows, t);
    LocationIsFlat(g, batch, rows, u);
    if Flat(g, batch, rows, t) == Flat(g, batch, rows, u) {
      DivModUnique(g.pageSize, a.page, a.slot, b.page, b.slot);
    }
  }

  // Two rows of a launch never share a location exactly when their flat
  // positions differ.
  lemma RouteIsDistinctExactly(g: Geometry, batch: Batch, rows: nat)
    requires g.Valid() && batch.Valid()
    ensures Distinct(LayerRoute(g, batch, rows))
      <==> forall t, u :: 0 <= t < u < rows ==> Flat(g, batch, rows, t) != Flat(g, batch, rows, u)
  {
    hide LayerRoute, Flat;
    var route := LayerRoute(g, batch, rows);
    forall t, u | 0 <= t < u < rows
      ensures route[t] != route[u] <==> Flat(g, batch, rows, t) != Flat(g, batch, rows, u)
    {
      FlatIsInjective(g, batch, rows, t, u);
    }
  }

  // A row lies before a page exactly when its flat position does.
  lemma RowStaysBefore(g: Geometry, batch: Batch, rows: nat, t: nat, pages: nat)
    requires g.Valid() && batch.Valid() && t < rows
    ensures LayerRoute(g, batch, rows)[t].page < pages <==> Flat(g, batch, rows, t) < pages * g.pageSize
  {
    hide LayerRoute, Flat;
    LocationIsFlat(g, batch, rows, t);
    var at := LayerRoute(g, batch, rows)[t];
    if at.page < pages {
      Gap(g.pageSize, at.page, pages);
    } else if pages < at.page {
      Gap(g.pageSize, pages, at.page);
    }
  }

  // Every flat position of the launch comes before the first inactive page.
  ghost predicate StaysActive(g: Geometry, batch: Batch, rows: nat)
    requires g.Valid() && batch.Valid()
  {
    forall t :: 0 <= t < rows ==> Flat(g, batch, rows, t) < FirstInactivePage(g, batch, rows) * g.pageSize
  }

  lemma RouteStaysActiveExactly(g: Geometry, batch: Batch, rows: nat)
    requires g.Valid() && batch.Valid()
    ensures InPages(g, LayerRoute(g, batch, rows), FirstInactivePage(g, batch, rows)) <==> StaysActive(g, batch, rows)
  {
    hide LayerRoute, Flat, FirstInactivePage;
    var route, first := LayerRoute(g, batch, rows), FirstInactivePage(g, batch, rows);
    forall t | 0 <= t < rows
      ensures route[t].page < first && route[t].slot < g.pageSize <==>
        Flat(g, batch, rows, t) < first * g.pageSize
    {
      LocationIsFlat(g, batch, rows, t);
      RowStaysBefore(g, batch, rows, t, first);
    }
  }

  // ---- Positions that fit --------------------------------------------------------------

  // Decode positions stay inside their sequence's run of pages.
  ghost predicate PositionsFit(g: Geometry, batch: Batch, rows: nat)
    requires batch.Valid()
  {
    rows <= batch.capacity ==> forall t :: 0 <= t < rows ==> batch.positions[t] < RunLength(g, batch)
  }

  lemma CeilingBound(rows: nat, page: nat)
    requires page > 0
    ensures rows <= (rows + page - 1) / page * page
  {
    var q := (rows + page - 1) / page;
    assert rows + page - 1 == q * page + (rows + page - 1) % page;
  }

  // Fitting positions keep every destination page before the first inactive one ...
  lemma RouteStaysActive(g: Geometry, batch: Batch, rows: nat)
    requires g.Valid() && batch.Valid() && PositionsFit(g, batch, rows)
    ensures StaysActive(g, batch, rows)
    ensures InPages(g, LayerRoute(g, batch, rows), FirstInactivePage(g, batch, rows))
  {
    RouteStaysActiveExactly(g, batch, rows);
    hide LayerRoute;
    if rows <= batch.capacity {
      ActivePositions(rows, batch.stride, g.pageSize);
      forall t | 0 <= t < rows
        ensures Flat(g, batch, rows, t) < rows * RunLength(g, batch)
      {
        Gap(RunLength(g, batch), t, rows);
      }
    } else {
      CeilingBound(rows, g.pageSize);
    }
  }

  lemma ActivePositions(rows: nat, stride: nat, page: nat)
    ensures rows * stride * page == rows * (stride * page)
  {
  }

  // ... and apart.
  lemma RouteIsDistinct(g: Geometry, batch: Batch, rows: nat)
    requires g.Valid() && batch.Valid() && PositionsFit(g, batch, rows)
    ensures Distinct(LayerRoute(g, batch, rows))
  {
    RouteIsDistinctExactly(g, batch, rows);
    hide LayerRoute, RunLength;
    forall t, u | 0 <= t < u < rows
      ensures Flat(g, batch, rows, t) < Flat(g, batch, rows, u)
    {
      Gap(RunLength(g, batch), t, u);
    }
  }

  // Two (token, head, dimension) triples of a launch are written to one cache
  // offset exactly when head, dimension and flat position agree.
  lemma OffsetsCollideExactly(
      g: Geometry, batch: Batch, rows: nat, t: nat, h: nat, d: nat, u: nat, k: nat, e: nat)
    requires g.Valid() && batch.Valid() && t < rows && u < rows
    requires h < g.kvHeads && k < g.kvHeads && d < g.Dim() && e < g.Dim()
    ensures var a, b := LayerRoute(g, batch, rows)[t], LayerRoute(g, batch, rows)[u];
      CacheOffset(g, a.page, h, a.slot, d) == CacheOffset(g, b.page, k, b.slot, e)
      <==> Flat(g, batch, rows, t) == Flat(g, batch, rows, u) && h == k && d == e
  {
    hide CacheOffset, LayerRoute, Flat;
    var a, b := LayerRoute(g, batch, rows)[t], LayerRoute(g, batch, rows)[u];
    FlatIsInjective(g, batch, rows, t, u);
    LocationIsFlat(g, batch, rows, t);
    LocationIsFlat(g, batch, rows, u);
    if CacheOffset(g, a.page, h, a.slot, d) == CacheOffset(g, b.page, k, b.slot, e) {
      OffsetInjective(g, a.page, h, a.slot, d, b.page, k, b.slot, e);
      SmallMod(a.slot, g.pageSize);
      SmallMod(b.slot, g.pageSize);
    }
  }

  // So with fitting positions no two triples are.
  lemma OffsetsNeverCollide(
      g: Geometry, batch: Batch, rows: nat, t: nat, h: nat, d: nat, u: nat, k: nat, e: nat)
    requires g.Valid() && batch.Valid() && PositionsFit(g, batch, rows) && t < rows && u < rows
    requires h < g.kvHeads && k < g.kvHeads && d < g.Dim() && e < g.Dim()
    ensures var a, b := LayerRoute(g, batch, rows)[t], LayerRoute(g, batch, rows)[u];
      CacheOffset(g, a.page, h, a.slot, d) == CacheOffset(g, b.page, k, b.slot, e) <==> (t, h, d) == (u, k, e)
  {
    hide CacheOffset, LayerRoute, Flat;
    OffsetsCollideExactly(g, batch, rows, t, h, d, u, k, e);
    RouteIsDistinct(g, batch, rows);
    FlatIsInjective(g, batch, rows, t, u);
  }

  lemma SmallMod(x: nat, n: nat)
    requires x < n
    ensures x % n == x
  {
  }

  // In a prompt it is the least such page: no smaller number of pages holds it.
  lemma PromptPagesAreLeast(g: Geometry, batch: Batch, rows: nat, pages: nat)
    requires g.Valid() && batch.Valid() && rows > batch.capacity
    ensures InPages(g, LayerRoute(g, batch, rows), pages) <==> pages >= FirstInactivePage(g, batch, rows)
  {
    hide LayerRoute;
    var q := (rows + g.pageSize - 1) / g.pageSize;
    CeilingBound(rows, g.pageSize);
    RowStaysBefore(g, batch, rows, rows - 1, pages);
    if pages < q {
      assert pages * g.pageSize <= rows - 1 by {
        Gap(g.pageSize, pages, q);
        assert rows + g.pageSize - 1 == q * g.pageSize + (rows + g.pageSize - 1) % g.pageSize;
      }
    } else {
      Wider(q, pages, g.pageSize);
      forall t | 0 <= t < rows
        ensures LayerRoute(g, batch, rows)[t].page < pages && LayerRoute(g, batch, rows)[t].slot < g.pageSize
      {
        LocationIsFlat(g, batch, rows, t);
        RowStaysBefore(g, batch, rows, t, pages);
      }
    }
  }

  // ---- Positions that do not -----------------------------------------------------------

  // A decode row leaves its own run of pages exactly when its position is too
  // long for one run, and leaves the active pages exactly when it runs past all
  // the runs from its own on.
  lemma OverlongPositionLeaks(g: Geometry, batch: Batch, rows: nat, t: nat)
    requires g.Valid() && batch.Valid() && t < rows <= batch.capacity
    ensures LayerRoute(g, batch, rows)[t].page >= FirstInactivePage(g, batch, rows)
      <==> batch.positions[t] >= (rows - t) * RunLength(g, batch)
    ensures LayerRoute(g, batch, rows)[t].page >= (t + 1) * batch.stride
      <==> batch.positions[t] >= RunLength(g, batch)
  {
    hide LayerRoute;
    RowStaysBefore(g, batch, rows, t, FirstInactivePage(g, batch, rows));
    RowStaysBefore(g, batch, rows, t, (t + 1) * batch.stride);
    ActivePositions(rows, batch.stride, g.pageSize);
    ActivePositions(t + 1, batch.stride, g.pageSize);
    NextMultiple(RunLength(g, batch), t);
    Remaining(rows, t, RunLength(g, batch));
  }

  // Two decode rows share a location exactly when the earlier one's position
  // runs over the pages between them into the later one's.
  lemma OverlongPositionCollides(g: Geometry, batch: Batch, rows: nat, t: nat, u: nat)
    requires g.Valid() && batch.Valid() && t < u < rows <= batch.capacity
    ensures LayerRoute(g, batch, rows)[t] == LayerRoute(g, batch, rows)[u]
      <==> batch.positions[t] == (u - t) * RunLength(g, batch) + batch.positions[u]
  {
    hide LayerRoute, RunLength;
    FlatIsInjective(g, batch, rows, t, u);
    Remaining(u, t, RunLength(g, batch));
  }

  lemma Remaining(rows: nat, t: nat, run: nat)
    requires t <= rows
    ensures (rows - t) * run == rows * run - t * run
  {
  }

  // ---- The suite ---------------------------------------------------------------------

  const SUITE := Batch(8, 3, [0, 1, 63, 64, 65, 97, 128, 130])
  const SUITE_PAGES: nat := 24
  const SUITE_ROWS: nat := 1024

  // Every launch of the suite fits: its rows stay active and apart, and the
  // active pages are among its physical ones.
  lemma SuiteFits(g: Geometry, rows: nat)
    requires g.Valid() && g.pageSize == 64 && rows <= SUITE_ROWS
    ensures SUITE.Valid() && PositionsFit(g, SUITE, rows)
    ensures InPages(g, LayerRoute(g, SUITE, rows), FirstInactivePage(g, SUITE, rows))
    ensures Distinct(LayerRoute(g, SUITE, rows)) && FirstInactivePage(g, SUITE, rows) <= SUITE_PAGES
  {
    hide LayerRoute, Flat;
    RouteStaysActive(g, SUITE, rows);
    RouteIsDistinct(g, SUITE, rows);
  }

  // ---- The check on inactive pages -----------------------------------------------------

  // Rows at or past the first inactive page belong to no active location.
  lemma InactiveRowsUntouched<T>(
      g: Geometry, route: seq<Location>, active: nat, table: seq<seq<T>>, initial: seq<T>, now: seq<T>)
    requires g.Valid() && InPages(g, route, active)
    requires |route| <= |table| && forall u :: 0 <= u < |table| ==> |table[u]| == g.kvHeads
    requires Appended(g, route, |route|, table, initial, now)
    ensures forall i :: PlaneRows(g, active) <= i < |now| ==> now[i] == initial[i]
  {
    hide PlaneRows;
    forall i | PlaneRows(g, active) <= i < |now|
      ensures now[i] == initial[i]
    {
      OwnerIsLastWriter(g, route, |route|, i);
      var at := LocationOf(g, i);
      if at.page < active {
        RowEncodes(g, i);
        RowBound(g, at, HeadOf(g, i), active);
        assert false;
      }
    }
  }

  // One byte per E4M3 cell: byte k of a plane is cell k % d of row k / d.
  lemma ByteIsCell(g: Geometry, bytes: seq<Byte>, n: nat, k: nat)
    requires g.Valid() && |bytes| == n * g.Dim() * ElementBytes(E4m3) && k < |bytes|
    ensures k / g.Dim() < n
    ensures PageRows(g, E4m3, bytes, n)[k / g.Dim()][k % g.Dim()] == [bytes[k]]
  {
    var d := g.Dim();
    QuotientBound(k, d, n);
    var row := k / d;
    assert k == row * d + k % d;
    Gap(d, row, n);
    var cells := Rows(bytes, 1, n * d);
    assert Rows(cells, d, n)[row] == Block(cells, d, row);
    assert Block(cells, d, row)[k % d] == cells[k] == [bytes[k]];
  }

  // A correct run leaves every byte past the active pages as the fixture had
  // it, so the inactive-page comparison accepts it.
  lemma InactiveBytesUntouched(
      g: Geometry, route: seq<Location>, active: nat, pages: nat, table: seq<seq<seq<Cell>>>,
      before: seq<Byte>, after: seq<Byte>, k: nat)
    requires g.Valid() && InPages(g, route, active)
    requires |route| <= |table| && forall u :: 0 <= u < |table| ==> |table[u]| == g.kvHeads
    requires |before| == |after| == PlaneRows(g, pages) * g.Dim() * ElementBytes(E4m3)
    requires Appended(g, route, |route|, table,
      PageRows(g, E4m3, before, PlaneRows(g, pages)), PageRows(g, E4m3, after, PlaneRows(g, pages)))
    requires PlaneRows(g, active) * g.Dim() <= k < |after|
    ensures after[k] == before[k]
  {
    hide PlaneRows, PageRows, Appended;
    var n := PlaneRows(g, pages);
    ByteIsCell(g, before, n, k);
    ByteIsCell(g, after, n, k);
    InactiveRowsUntouched(g, route, active, table, PageRows(g, E4m3, before, n), PageRows(g, E4m3, after, n));
    AtLeastQuotient(k, g.Dim(), PlaneRows(g, active));
  }

  lemma InactiveSuffixUntouched(
      g: Geometry, route: seq<Location>, active: nat, pages: nat, table: seq<seq<seq<Cell>>>,
      before: seq<Byte>, after: seq<Byte>)
    requires g.Valid() && InPages(g, route, active) && active <= pages
    requires |route| <= |table| && forall u :: 0 <= u < |table| ==> |table[u]| == g.kvHeads
    requires |before| == |after| == PlaneRows(g, pages) * g.Dim() * ElementBytes(E4m3)
    requires Appended(g, route, |route|, table,
      PageRows(g, E4m3, before, PlaneRows(g, pages)), PageRows(g, E4m3, after, PlaneRows(g, pages)))
    ensures PlaneRows(g, active) * g.Dim() <= |after|
    ensures after[PlaneRows(g, active) * g.Dim()..] == before[PlaneRows(g, active) * g.Dim()..]
  {
    hide PageRows, Appended, PlaneRows;
    ActiveBytes(g, active, pages);
    forall k | PlaneRows(g, active) * g.Dim() <= k < |after|
      ensures after[k] == before[k]
    {
      InactiveBytesUntouched(g, route, active, pages, table, before, after, k);
    }
  }

  lemma Wider(a: nat, b: nat, d: nat)
    requires a <= b
    ensures a * d <= b * d
  {
    if a < b {
      Gap(d, a, b);
    }
  }

  lemma AtLeastQuotient(k: nat, d: nat, n: nat)
    requires d > 0 && n * d <= k
    ensures n <= k / d
  {
    assert k == k / d * d + k % d;
    if k / d < n {
      Gap(d, k / d, n);
    }
  }

  // The expected planes of a launch: the fixture's pages with every row appended.
  method ExpectedPages(
      f: Functions, g: Geometry, codec: Codec, planes: Planes, batch: Batch, rows: nat, pages: nat,
      fixtureKeys: seq<Byte>, fixtureValues: seq<Byte>)
      returns (ok: bool, query: array<real>, keys: array<Byte>, values: array<Byte>)
    requires f.Lawful() && g.Valid() && codec.Valid() && batch.Valid() && Covers(g, planes, rows)
    requires InPages(g, LayerRoute(g, batch, rows), pages)
    requires |fixtureKeys| == |fixtureValues| == PlaneRows(g, pages) * g.Dim() * ElementBytes(E4m3)
    ensures keys.Length == values.Length == |fixtureKeys| && query.Length == rows * g.queryHeads * g.Dim()
    ensures ok == TokensEncode(f, g, codec, E4m3, planes, rows, rows)
    ensures ok ==>
      && (forall t :: 0 <= t < rows ==>
        Slots(query[..], g.Dim(), g.queryHeads, rows)[t] == QueryHeads(f, g, codec, planes, rows, t))
      && Appended(g, LayerRoute(g, batch, rows), rows, KeyTable(f, g, codec, E4m3, planes, rows),
        PageRows(g, E4m3, fixtureKeys, PlaneRows(g, pages)), PageRows(g, E4m3, keys[..], PlaneRows(g, pages)))
      && Appended(g, LayerRoute(g, batch, rows), rows, ValueTable(g, codec, E4m3, planes, rows),
        PageRows(g, E4m3, fixtureValues, PlaneRows(g, pages)), PageRows(g, E4m3, values[..], PlaneRows(g, pages)))
  {
    hide PageRows, KeyTable, ValueTable, Slots, QueryHeads, Appended, TokensEncode, Covers, PlaneRows, LayerRoute,
      ElementBytes;
    query := new real[rows * g.queryHeads * g.Dim()](_ => 0.0);
    keys := new Byte[|fixtureKeys|](i requires 0 <= i < |fixtureKeys| => fixtureKeys[i]);
    values := new Byte[|fixtureValues|](i requires 0 <= i < |fixtureValues| => fixtureValues[i]);
    assert keys[..] == fixtureKeys && values[..] == fixtureValues;
    var route := RouteRows(g, batch, rows);
    ok := Append(f, g, codec, E4m3, planes, rows, route, pages, query, keys, values);
  }

  // ... which the inactive-page comparison cannot reject.
  lemma InactiveCheckPasses(
      g: Geometry, batch: Batch, rows: nat, pages: nat, table: seq<seq<seq<Cell>>>,
      fixture: seq<Byte>, expected: seq<Byte>)
    requires g.Valid() && batch.Valid() && StaysActive(g, batch, rows) && FirstInactivePage(g, batch, rows) <= pages
    requires |table| == rows && forall u :: 0 <= u < |table| ==> |table[u]| == g.kvHeads
    requires |fixture| == |expected| == PlaneRows(g, pages) * g.Dim() * ElementBytes(E4m3)
    requires Appended(g, LayerRoute(g, batch, rows), rows, table,
      PageRows(g, E4m3, fixture, PlaneRows(g, pages)), PageRows(g, E4m3, expected, PlaneRows(g, pages)))
    ensures var first := PlaneRows(g, FirstInactivePage(g, batch, rows)) * g.Dim();
      first <= |expected| && expected[first..] == fixture[first..]
  {
    hide PageRows, Appended, PlaneRows, FirstInactivePage, LayerRoute, ElementBytes;
    RouteStaysActiveExactly(g, batch, rows);
    InactiveSuffixUntouched(g, LayerRoute(g, batch, rows), FirstInactivePage(g, batch, rows), pages,
      table, fixture, expected);
  }

  lemma ActiveBytes(g: Geometry, active: nat, pages: nat)
    requires active <= pages
    ensures PlaneRows(g, active) * g.Dim() <= PlaneRows(g, pages) * g.Dim() * ElementBytes(E4m3)
  {
    Wider(active, pages, g.kvHeads);
    Wider(active * g.kvHeads, pages * g.kvHeads, g.pageSize);
    hide PlaneRows;
    Wider(PlaneRows(g, active), PlaneRows(g, pages), g.Dim());
  }

  method RouteRows(g: Geometry, batch: Batch, rows: nat) returns (route: seq<Location>)
    requires g.Valid() && batch.Valid()
    ensures route == LayerRoute(g, batch, rows)
  {
    route := [];
    for t := 0 to rows
      invariant route == LayerRoute(g, batch, rows)[..t]
    {
      var position := if rows <= batch.capacity then batch.positions[t] else t;
      var page := if rows <= batch.capacity then t * batch.stride + position / g.pageSize else position / g.pageSize;
      route := route + [Location(page, position % g.pageSize)];
    }
  }
}
