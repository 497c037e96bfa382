// Comma-separated ROUTE:SHAPE selectors: how they are parsed, what they match,
// and which benchmark cases they keep.
module CellSelectors {
  import opened Optional
  import opened Text

  datatype Error =
    | NotAPair(value: string)
    | Unnamed(value: string)
    | Repeated(value: string)
    | Empty
    | NothingSelected
    | NoSuchCell(original: string)

  datatype Result<+T> = Ok(value: T) | Err(error: Error)

  datatype Selector = Selector(original: string, route: string, shape: string)

  // ---- Parsing -------------------------------------------------------------------

  // One trimmed selector: the text after the last colon is the shape.
  function ParseTrimmed(value: string): Result<Selector> {
    var colon := LastIndexOf(value, ':');
    if colon < 0 then Err(NotAPair(value))
    else
      var route, shape := value[..colon], value[colon + 1..];
      if |route| == 0 || |shape| == 0 then Err(Unnamed(value))
      else Ok(Selector(value, route, shape))
  }

  predicate IsPair(cell: Selector) {
    && cell.original == cell.route + [':'] + cell.shape
    && |cell.route| > 0 && |cell.shape| > 0 && ':' !in cell.shape
  }

  function ParseCell(space: char -> bool, text: string): Result<Selector> {
    ParseTrimmed(Trim(space, text))
  }

  // A piece parses exactly when, without the space around it, it is some route, a
  // colon and a colon-free shape, both nonempty; the selector keeps that text.
  lemma ParseCellMeaning(space: char -> bool, text: string, cell: Selector)
    ensures cell.original == Trim(space, text) <==> exists i, j :: Trims(space, text, cell.original, i, j)
    ensures ParseCell(space, text) == Ok(cell)
      <==> (exists i, j :: Trims(space, text, cell.original, i, j)) && IsPair(cell)
  {
    TrimIs(space, text, cell.original);
    hide Trim, Trims, LastIndexOf;
    var value := Trim(space, text);
    var colon := LastIndexOf(value, ':');
    LastIndexOfIsLast(value, ':');
    if cell.original == value && IsPair(cell) {
      assert value[|cell.route| + 1..] == cell.shape;
      LastIndexOfIs(value, ':', |cell.route|);
      assert value[..colon] == cell.route;
    }
    if colon >= 0 {
      assert value == value[..colon] + [':'] + value[colon + 1..];
    }
  }

  // The text ends with a colon, or starts with its only one.
  predicate IsUnnamed(value: string) {
    |value| > 0 && (value[|value| - 1] == ':' || (value[0] == ':' && forall k :: 0 < k < |value| ==> value[k] != ':'))
  }

  // Without a colon a piece is no pair; with nothing before or after the last one it
  // is unnamed.
  lemma ParseCellFails(space: char -> bool, text: string, i: nat, j: nat, value: string)
    requires Trims(space, text, value, i, j)
    ensures ':' !in value ==> ParseCell(space, text) == Err(NotAPair(value))
    ensures IsUnnamed(value) ==> ParseCell(space, text) == Err(Unnamed(value))
    ensures ':' in value && !IsUnnamed(value) ==> ParseCell(space, text).Ok?
  {
    TrimIs(space, text, value);
    hide Trim, Trims, ParseTrimmed, IsUnnamed;
    TrimmedFails(value);
  }

  lemma TrimmedFails(value: string)
    ensures ':' !in value ==> ParseTrimmed(value) == Err(NotAPair(value))
    ensures IsUnnamed(value) ==> ParseTrimmed(value) == Err(Unnamed(value))
    ensures ':' in value && !IsUnnamed(value) ==> ParseTrimmed(value).Ok?
  {
    hide *;
    LastIndexOfIsLast(value, ':');
    ParseAt(value);
    ColonAt(value, LastIndexOf(value, ':'));
  }

  lemma ParseAt(value: string)
    ensures var colon := LastIndexOf(value, ':');
      && (colon < 0 ==> ParseTrimmed(value) == Err(NotAPair(value)))
      && (colon == 0 || (colon >= 0 && colon == |value| - 1) ==> ParseTrimmed(value) == Err(Unnamed(value)))
      && (0 < colon < |value| - 1 ==> ParseTrimmed(value).Ok?)
  {
    hide LastIndexOf;
  }

  lemma ColonAt(value: string, colon: int)
    requires LastAt(value, ':', colon)
    ensures -1 <= colon < |value| && (':' in value <==> colon >= 0)
    ensures IsUnnamed(value) <==> colon == 0 || (colon >= 0 && colon == |value| - 1)
  {
    hide LastAt;
    LastHolds(value, ':', colon);
    forall k: nat | colon < k < |value|
      ensures value[k] != ':'
    {
      NoneAfter(value, ':', colon, k);
    }
  }

  // Surrounding space never changes what a piece parses to.
  lemma ParseTrimmedText(space: char -> bool, text: string)
    ensures ParseCell(space, Trim(space, text)) == ParseCell(space, text)
  {
    hide Trim, ParseTrimmed;
    TrimmedIsTrimmed(space, text);
  }

  predicate SameCell(a: Selector, b: Selector) {
    a.route == b.route && a.shape == b.shape
  }

  // Whether a cell is already among the parsed ones.
  predicate Names(cells: seq<Selector>, cell: Selector) {
    exists i :: 0 <= i < |cells| && SameCell(cells[i], cell)
  }

  // The parsed cells extended by one more piece.
  function Extend(space: char -> bool, cells: seq<Selector>, piece: string): Result<seq<Selector>> {
    var cell := ParseCell(space, piece);
    if cell.Err? then Err(cell.error)
    else if Names(cells, cell.value) then Err(Repeated(cell.value.original))
    else Ok(cells + [cell.value])
  }

  // What the first n pieces parse to: the first piece that is malformed or
  // repeats an earlier cell decides the error.
  function ParsePieces(space: char -> bool, pieces: seq<string>, n: nat): Result<seq<Selector>>
    requires n <= |pieces|
  {
    if n == 0 then Ok([])
    else
      var before := ParsePieces(space, pieces, n - 1);
      if before.Err? then before else Extend(space, before.value, pieces[n - 1])
  }

  function Parse(space: char -> bool, text: string): Result<seq<Selector>> {
    var pieces := Split(text, ',');
    ParsePieces(space, pieces, |pieces|)
  }

  // No filter at all selects nothing in particular.
  function Selectors(space: char -> bool, cells: Option<string>): Result<seq<Selector>> {
    if cells.None? then Ok([]) else Parse(space, cells.value)
  }

  method ParseBenchmarkCells(space: char -> bool, cells: Option<string>) returns (result: Result<seq<Selector>>)
    ensures result == Selectors(space, cells)
  {
    hide *;
    SelectorsBegin(space, cells);
    if cells.None? {
      return Ok([]);
    }
    var selectors: seq<Selector> := [];
    var pieces := Split(cells.value, ',');
    for n := 0 to |pieces|
      invariant |selectors| == n
      invariant ParsePieces(space, pieces, n) == Ok(selectors)
    {
      PiecesStep(space, pieces, n, selectors);
      var parsed := ParseCell(space, pieces[n]);
      if parsed.Err? {
        return Err(parsed.error);
      }
      if Names(selectors, parsed.value) {
        return Err(Repeated(parsed.value.original));
      }
      selectors := selectors + [parsed.value];
    }
    if |selectors| == 0 {
      return Err(Empty);
    }
    result := Ok(selectors);
  }

  lemma SelectorsBegin(space: char -> bool, cells: Option<string>)
    ensures cells.None? ==> Selectors(space, cells) == Ok([])
    ensures cells.Some? ==>
      var pieces := Split(cells.value, ',');
      ParsePieces(space, pieces, 0) == Ok([]) && Selectors(space, cells) == ParsePieces(space, pieces, |pieces|)
  {
    hide Split, ParseCell;
  }

  lemma PiecesStep(space: char -> bool, pieces: seq<string>, n: nat, cells: seq<Selector>)
    requires n < |pieces| && ParsePieces(space, pieces, n) == Ok(cells)
    ensures var next := Extend(space, cells, pieces[n]);
      ParsePieces(space, pieces, n + 1) == next && (next.Err? ==> ParsePieces(space, pieces, |pieces|) == next)
    ensures var cell := ParseCell(space, pieces[n]);
      Extend(space, cells, pieces[n]) ==
        (if cell.Err? then Err(cell.error)
         else if Names(cells, cell.value) then Err(Repeated(cell.value.original))
         else Ok(cells + [cell.value]))
  {
    hide ParseCell, Names;
    var next := Extend(space, cells, pieces[n]);
    assert ParsePieces(space, pieces, n + 1) == next;
    if next.Err? {
      FailureStays(space, pieces, n + 1, |pieces|);
    }
  }

  lemma {:induction false} FailureStays(space: char -> bool, pieces: seq<string>, n: nat, m: nat)
    requires n <= m <= |pieces| && ParsePieces(space, pieces, n).Err?
    ensures ParsePieces(space, pieces, m) == ParsePieces(space, pieces, n)
    decreases m
  {
    hide Extend;
    if n == m {
    } else {
      FailureStays(space, pieces, n, m - 1);
    }
  }

  ghost predicate DistinctCells(cells: seq<Selector>) {
    forall i, j :: 0 <= i < j < |cells| ==> cells[i].route != cells[j].route || cells[i].shape != cells[j].shape
  }

  ghost predicate ParsesTo(space: char -> bool, pieces: seq<string>, n: nat, cells: seq<Selector>)
    requires n <= |pieces|
  {
    && |cells| == n && DistinctCells(cells)
    && forall i :: 0 <= i < n ==> ParseCell(space, pieces[i]) == Ok(cells[i])
  }

  lemma {:induction false} ParseSound(space: char -> bool, pieces: seq<string>, n: nat, cells: seq<Selector>)
    requires n <= |pieces| && ParsePieces(space, pieces, n) == Ok(cells)
    ensures ParsesTo(space, pieces, n, cells)
  {
    hide ParseCell, Names;
    if n == 0 {
    } else {
      hide DistinctCells;
      var before := ParsePieces(space, pieces, n - 1).value;
      ParseSound(space, pieces, n - 1, before);
      DistinctGrows(before, cells[n - 1]);
    }
  }

  lemma {:induction false} ParseComplete(space: char -> bool, pieces: seq<string>, n: nat, cells: seq<Selector>)
    requires n <= |pieces| && ParsesTo(space, pieces, n, cells)
    ensures ParsePieces(space, pieces, n) == Ok(cells)
  {
    hide ParseCell, Names, DistinctCells;
    if n == 0 {
    } else {
      var before := cells[..n - 1];
      assert cells == before + [cells[n - 1]];
      DistinctGrows(before, cells[n - 1]);
      ParseComplete(space, pieces, n - 1, before);
    }
  }

  // Parsing yields exactly the selectors the pieces spell, in order, and only
  // when no two of them name the same cell.
  lemma ParseSucceeds(space: char -> bool, pieces: seq<string>, cells: seq<Selector>)
    ensures ParsePieces(space, pieces, |pieces|) == Ok(cells) <==> ParsesTo(space, pieces, |pieces|, cells)
  {
    hide ParsePieces, ParsesTo;
    if ParsePieces(space, pieces, |pieces|) == Ok(cells) {
      ParseSound(space, pieces, |pieces|, cells);
    }
    if ParsesTo(space, pieces, |pieces|, cells) {
      ParseComplete(space, pieces, |pieces|, cells);
    }
  }

  lemma DistinctGrows(cells: seq<Selector>, cell: Selector)
    ensures DistinctCells(cells + [cell]) <==> DistinctCells(cells) && !Names(cells, cell)
  {
    var grown := cells + [cell];
    if DistinctCells(grown) {
      forall i, j | 0 <= i < j < |cells|
        ensures !SameCell(cells[i], cells[j])
      {
        assert grown[i] == cells[i] && grown[j] == cells[j];
      }
      forall i | 0 <= i < |cells|
        ensures !SameCell(cells[i], cell)
      {
        assert grown[i] == cells[i] && grown[|cells|] == cell;
      }
    }
  }

  // A successful parse is nonempty and free of repeats, each original is its
  // route, a colon and a colon-free shape, and joining the originals with
  // commas parses back to the same selectors.
  lemma ParseRoundTrip(space: char -> bool, text: string, cells: seq<Selector>)
    requires Parse(space, text) == Ok(cells)
    ensures |cells| > 0 && DistinctCells(cells)
    ensures forall i :: 0 <= i < |cells| ==> IsPair(cells[i])
    ensures Parse(space, Join(Originals(cells), ',')) == Ok(cells)
  {
    hide Split, ParseCell, Trim, DistinctCells, IsPair, Join, ParsePieces;
    var pieces := Split(text, ',');
    ParseSucceeds(space, pieces, cells);
    var originals := Originals(cells);
    forall i | 0 <= i < |cells|
      ensures ',' !in originals[i] && ParseCell(space, originals[i]) == Ok(cells[i]) && IsPair(cells[i])
    {
      ParseTrimmedText(space, pieces[i]);
      ParseCellMeaning(space, pieces[i], cells[i]);
      TrimmedIsTrimmed(space, pieces[i]);
    }
    SplitJoin(originals, ',');
    ParseSucceeds(space, originals, cells);
  }

  // A parse fails with the fault of the first piece that is malformed or repeats
  // a cell the pieces before it spell.
  lemma FirstFaultDecides(space: char -> bool, pieces: seq<string>, n: nat, cells: seq<Selector>)
    requires n < |pieces| && ParsesTo(space, pieces, n, cells)
    requires Extend(space, cells, pieces[n]).Err?
    ensures ParsePieces(space, pieces, |pieces|) == Extend(space, cells, pieces[n])
  {
    hide ParsePieces, ParsesTo, Extend;
    ParseComplete(space, pieces, n, cells);
    PiecesStep(space, pieces, n, cells);
  }

  lemma {:induction false} ParseFails(space: char -> bool, pieces: seq<string>, n: nat)
      returns (fault: nat, cells: seq<Selector>)
    requires n <= |pieces| && ParsePieces(space, pieces, n).Err?
    ensures fault < n && ParsesTo(space, pieces, fault, cells)
    ensures Extend(space, cells, pieces[fault]) == ParsePieces(space, pieces, n)
  {
    hide Extend, ParsesTo;
    var before := ParsePieces(space, pieces, n - 1);
    if before.Err? {
      fault, cells := ParseFails(space, pieces, n - 1);
    } else {
      ParseSound(space, pieces, n - 1, before.value);
      fault, cells := n - 1, before.value;
    }
  }

  lemma ExtendNeverEmpty(space: char -> bool, cells: seq<Selector>, piece: string)
    ensures Extend(space, cells, piece) != Err(Empty)
  {
    hide Trim, LastIndexOf, Names;
  }

  lemma {:induction false} PiecesNeverEmpty(space: char -> bool, pieces: seq<string>, n: nat)
    requires n <= |pieces|
    ensures ParsePieces(space, pieces, n) != Err(Empty)
  {
    hide Extend;
    if n == 0 {
    } else {
      PiecesNeverEmpty(space, pieces, n - 1);
      var before := ParsePieces(space, pieces, n - 1);
      if before.Ok? {
        ExtendNeverEmpty(space, before.value, pieces[n - 1]);
      }
    }
  }

  // The message for an empty filter is never produced ...
  lemma NeverEmpty(space: char -> bool, cells: Option<string>)
    ensures Selectors(space, cells) != Err(Empty)
  {
    hide ParsePieces, Split;
    if cells.Some? {
      PiecesNeverEmpty(space, Split(cells.value, ','), |Split(cells.value, ',')|);
    }
  }

  // ... since an empty text is one empty piece, which is no pair.
  lemma EmptyTextIsNoPair(space: char -> bool)
    ensures Selectors(space, Some("")) == Err(NotAPair(""))
  {
    hide Split, ParseCell;
    SplitPiece("", ',');
    EmptyPiece(space);
    assert ParsePieces(space, [""], 1) == Err(NotAPair(""));
  }

  lemma EmptyPiece(space: char -> bool)
    ensures ParseCell(space, "") == Err(NotAPair(""))
  {
    assert Trim(space, "") == "";
  }

  function Originals(cells: seq<Selector>): (texts: seq<string>)
    ensures |texts| == |cells|
    ensures forall i :: 0 <= i < |cells| ==> texts[i] == cells[i].original
  {
    seq(|cells|, i requires 0 <= i < |cells| => cells[i].original)
  }

  // ---- Matching ------------------------------------------------------------------

  function LastComponent(route: string): (component: string)
    ensures '/' !in component
  {
    LastIndexOfIsLast(route, '/');
    route[LastIndexOf(route, '/') + 1..]
  }

  predicate Matches(selector: Selector, route: string, shape: string) {
    (route == selector.route || LastComponent(route) == selector.route) && shape == selector.shape
  }

  // A selector names a route in full, or by everything after its last slash.
  lemma MatchesMeaning(selector: Selector, route: string, shape: string)
    ensures Matches(selector, route, shape) <==>
      && shape == selector.shape
      && (route == selector.route || ('/' !in selector.route && EndsWithComponent(route, selector.route)))
  {
    hide LastComponent, EndsWithComponent;
    LastComponentMeaning(route, selector.route);
  }

  lemma LastComponentMeaning(route: string, component: string)
    ensures LastComponent(route) == component
      <==> '/' !in component && (route == component || EndsWithComponent(route, component))
  {
    hide LastIndexOf;
    var i := LastIndexOf(route, '/');
    LastIndexOfIsLast(route, '/');
    if LastComponent(route) == component {
      if i >= 0 {
        assert route[i..] == [route[i]] + route[i + 1..];
      } else {
        assert route[i + 1..] == route;
      }
    }
    if '/' !in component && (route == component || EndsWithComponent(route, component)) {
      ComponentIsLast(route, component);
    }
  }

  lemma ComponentIsLast(route: string, component: string)
    requires '/' !in component && (route == component || EndsWithComponent(route, component))
    ensures LastComponent(route) == component
  {
    hide LastIndexOf;
    var k := |route| - |component| - 1;
    if route == component {
      assert route[k + 1..] == route;
    } else {
      assert route[k..][0] == '/' && route[k..][1..] == component;
      assert route[k + 1..] == route[k..][1..];
    }
    LastIndexOfIs(route, '/', k);
  }

  predicate EndsWithComponent(route: string, component: string) {
    |route| > |component| && route[|route| - |component| - 1..] == ['/'] + component
  }

  // ---- Selecting cases -------------------------------------------------------------

  datatype Case = Case(route: string, shape: string, batchSize: Option<nat>)

  predicate Selects(selectors: seq<Selector>, entry: Case) {
    exists i :: 0 <= i < |selectors| && Matches(selectors[i], entry.route, entry.shape)
  }

  predicate InBatch(batch: Option<nat>, entry: Case) {
    batch.Some? ==> entry.batchSize == batch
  }

  predicate Kept(batch: Option<nat>, selectors: seq<Selector>, entry: Case) {
    InBatch(batch, entry) && (|selectors| == 0 || Selects(selectors, entry))
  }

  // A case is kept exactly when it has the batch size, if one is set, and, if there
  // are selectors at all, one of them names its route and shape.
  lemma KeptMeaning(batch: Option<nat>, selectors: seq<Selector>, entry: Case)
    ensures Kept(batch, selectors, entry) <==>
      && (batch == None || batch == entry.batchSize)
      && (selectors == [] || exists i ::
        && 0 <= i < |selectors| && selectors[i].shape == entry.shape
        && (selectors[i].route == entry.route
          || ('/' !in selectors[i].route && EndsWithComponent(entry.route, selectors[i].route))))
  {
    hide Matches, EndsWithComponent;
    forall i | 0 <= i < |selectors|
      ensures Matches(selectors[i], entry.route, entry.shape) <==>
        && entry.shape == selectors[i].shape
        && (entry.route == selectors[i].route
          || ('/' !in selectors[i].route && EndsWithComponent(entry.route, selectors[i].route)))
    {
      MatchesMeaning(selectors[i], entry.route, entry.shape);
    }
  }

  function Keep(batch: Option<nat>, selectors: seq<Selector>, cases: seq<Case>): seq<Case> {
    if |cases| == 0 then []
    else
      var rest := Keep(batch, selectors, cases[..|cases| - 1]);
      var last := cases[|cases| - 1];
      if Kept(batch, selectors, last) then rest + [last] else rest
  }

  predicate HasCell(selector: Selector, cases: seq<Case>) {
    exists i :: 0 <= i < |cases| && Matches(selector, cases[i].route, cases[i].shape)
  }

  // The first of the selectors from n on that no case of the inventory matches.
  function FirstUnknown(selectors: seq<Selector>, cases: seq<Case>, n: nat): (i: nat)
    requires n <= |selectors|
    ensures n <= i <= |selectors|
    ensures forall k :: n <= k < i ==> HasCell(selectors[k], cases)
    ensures i < |selectors| ==> !HasCell(selectors[i], cases)
    decreases |selectors| - n
  {
    if n == |selectors| || !HasCell(selectors[n], cases) then n else FirstUnknown(selectors, cases, n + 1)
  }

  function SelectedCases(
    space: char -> bool, cells: Option<string>, batch: Option<nat>, cases: seq<Case>): Result<seq<Case>>
  {
    var selectors := Selectors(space, cells);
    if selectors.Err? then Err(selectors.error)
    else
      var kept := Keep(batch, selectors.value, cases);
      var unknown := FirstUnknown(selectors.value, cases, 0);
      if |kept| == 0 then Err(NothingSelected)
      else if unknown < |selectors.value| then Err(NoSuchCell(selectors.value[unknown].original))
      else Ok(kept)
  }

  // picks lists, in increasing order, exactly the places of the kept cases.
  ghost predicate Picks(
    batch: Option<nat>, selectors: seq<Selector>, cases: seq<Case>, picks: seq<nat>, kept: seq<Case>)
  {
    && |picks| == |kept|
    && (forall j, k :: 0 <= j < k < |picks| ==> picks[j] < picks[k])
    && (forall k :: 0 <= k < |picks| ==> picks[k] < |cases| && cases[picks[k]] == kept[k])
    && (forall i :: 0 <= i < |cases| ==> (i in picks <==> Kept(batch, selectors, cases[i])))
  }

  // The selection keeps the inventory's order and every case the filters admit,
  // as often as the inventory lists it.
  lemma {:induction false} KeepInOrder(batch: Option<nat>, selectors: seq<Selector>, cases: seq<Case>)
    returns (picks: seq<nat>)
    ensures Picks(batch, selectors, cases, picks, Keep(batch, selectors, cases))
    ensures forall i :: i in picks ==> i < |cases|
    decreases |cases|
  {
    hide Kept;
    if |cases| == 0 {
      return [];
    }
    var n := |cases| - 1;
    var before := KeepInOrder(batch, selectors, cases[..n]);
    PicksGrow(batch, selectors, cases[..n], before, Keep(batch, selectors, cases[..n]), cases[n]);
    assert cases == cases[..n] + [cases[n]];
    picks := if Kept(batch, selectors, cases[n]) then before + [n] else before;
  }

  lemma PicksGrow(
    batch: Option<nat>, selectors: seq<Selector>, cases: seq<Case>, picks: seq<nat>, kept: seq<Case>, entry: Case)
    requires Picks(batch, selectors, cases, picks, kept)
    requires forall i :: i in picks ==> i < |cases|
    ensures if Kept(batch, selectors, entry)
      then Picks(batch, selectors, cases + [entry], picks + [|cases|], kept + [entry])
      else Picks(batch, selectors, cases + [entry], picks, kept)
  {
    hide Kept;
    forall i | 0 <= i <= |cases|
      ensures i in picks + [|cases|] <==> i in picks || i == |cases|
    {
    }
  }

  // Selection succeeds exactly when the filter parses, some case passes it and
  // every selector names a case of the inventory; it then returns the kept cases.
  lemma SelectionSucceeds(
    space: char -> bool, cells: Option<string>, batch: Option<nat>, cases: seq<Case>, selected: seq<Case>)
    ensures SelectedCases(space, cells, batch, cases) == Ok(selected) <==>
      && Selectors(space, cells).Ok?
      && selected == Keep(batch, Selectors(space, cells).value, cases)
      && (exists i :: 0 <= i < |cases| && Kept(batch, Selectors(space, cells).value, cases[i]))
      && forall k :: 0 <= k < |Selectors(space, cells).value| ==> HasCell(Selectors(space, cells).value[k], cases)
  {
    hide Selectors, Kept, HasCell, Keep;
    if Selectors(space, cells).Ok? {
      var selectors := Selectors(space, cells).value;
      var kept := Keep(batch, selectors, cases);
      var picks := KeepInOrder(batch, selectors, cases);
      if |kept| > 0 {
        assert picks[0] in picks;
        assert Kept(batch, selectors, cases[picks[0]]);
      }
    }
  }

  // Without any filter the selection is the whole inventory.
  lemma NoFilterKeepsAll(space: char -> bool, cases: seq<Case>)
    requires cases != []
    ensures SelectedCases(space, None, None, cases) == Ok(cases)
  {
    hide Matches;
    KeepsAll(cases);
  }

  lemma {:induction false} KeepsAll(cases: seq<Case>)
    ensures Keep(None, [], cases) == cases
  {
    if |cases| == 0 {
    } else {
      KeepsAll(cases[..|cases| - 1]);
    }
  }

  // An empty selection is reported before an unknown cell, and of several
  // unknown cells the first is named.
  lemma SelectionFails(space: char -> bool, cells: Option<string>, batch: Option<nat>, cases: seq<Case>, k: nat)
    requires Selectors(space, cells).Ok? && k < |Selectors(space, cells).value|
    requires !HasCell(Selectors(space, cells).value[k], cases)
    requires forall i :: 0 <= i < k ==> HasCell(Selectors(space, cells).value[i], cases)
    ensures SelectedCases(space, cells, batch, cases) == Err(
      if exists i :: 0 <= i < |cases| && Kept(batch, Selectors(space, cells).value, cases[i])
      then NoSuchCell(Selectors(space, cells).value[k].original) else NothingSelected)
  {
    hide Selectors, Kept, HasCell, Keep;
    var selectors := Selectors(space, cells).value;
    var kept := Keep(batch, selectors, cases);
    var picks := KeepInOrder(batch, selectors, cases);
    if |kept| > 0 {
      assert picks[0] in picks;
      assert Kept(batch, selectors, cases[picks[0]]);
    }
    assert FirstUnknown(selectors, cases, 0) == k;
  }

  // Every selector names one of the selected cases exactly when every selector
  // names a case of the requested batch size.
  lemma SelectionCovers(batch: Option<nat>, selectors: seq<Selector>, cases: seq<Case>, k: nat)
    requires k < |selectors|
    ensures HasCell(selectors[k], Keep(batch, selectors, cases)) <==>
      exists i :: 0 <= i < |cases| && InBatch(batch, cases[i])
        && Matches(selectors[k], cases[i].route, cases[i].shape)
  {
    hide Matches, InBatch, Keep;
    var kept := Keep(batch, selectors, cases);
    var picks := KeepInOrder(batch, selectors, cases);
    if j :| 0 <= j < |kept| && Matches(selectors[k], kept[j].route, kept[j].shape) {
      assert picks[j] in picks;
      assert cases[picks[j]] == kept[j];
    }
    if i :| 0 <= i < |cases| && InBatch(batch, cases[i]) && Matches(selectors[k], cases[i].route, cases[i].shape) {
      assert Selects(selectors, cases[i]);
      assert i in picks;
      var j :| 0 <= j < |picks| && picks[j] == i;
      assert kept[j] == cases[i];
    }
  }

  // Without a batch size a successful selection therefore covers its selectors.
  lemma PlainSelectionCovers(space: char -> bool, cells: Option<string>, cases: seq<Case>, selected: seq<Case>)
    requires SelectedCases(space, cells, None, cases) == Ok(selected)
    ensures forall k :: 0 <= k < |Selectors(space, cells).value| ==> HasCell(Selectors(space, cells).value[k], selected)
  {
    hide Keep, Matches, Selectors;
    var selectors := Selectors(space, cells).value;
    forall k | 0 <= k < |selectors|
      ensures HasCell(selectors[k], selected)
    {
      SelectionCovers(None, selectors, cases, k);
      assert HasCell(selectors[k], cases);
    }
  }

  // With one it need not: a selector that only names cases of other batch sizes
  // passes the check against the whole inventory.
  lemma BatchSelectionMisses(
    space: char -> bool, cells: Option<string>, batch: nat, here: Case, there: Case, s: Selector, t: Selector)
    requires Selectors(space, cells) == Ok([s, t])
    requires here.batchSize == Some(batch) && there.batchSize != Some(batch)
    requires Matches(s, here.route, here.shape) && Matches(t, there.route, there.shape)
    requires !Matches(t, here.route, here.shape)
    ensures SelectedCases(space, cells, Some(batch), [here, there]) == Ok([here]) && !HasCell(t, [here])
  {
    hide Selectors, SelectedCases, Matches;
    var selectors, cases := [s, t], [here, there];
    assert Matches(selectors[0], here.route, here.shape);
    assert Kept(Some(batch), selectors, here) && !Kept(Some(batch), selectors, there);
    assert cases[..1] == [here];
    assert Keep(Some(batch), selectors, cases[..1]) == [here];
    assert Matches(s, cases[0].route, cases[0].shape) && Matches(t, cases[1].route, cases[1].shape);
    assert Kept(Some(batch), selectors, cases[0]);
    SelectionSucceeds(space, cells, Some(batch), cases, [here]);
  }

  lemma BatchSelectionMissesExample(space: char -> bool)
    requires !space('a') && !space('x')
    ensures Selectors(space, Some("a:x,aa:x")) == Ok(TWO_CELLS)
    ensures SelectedCases(space, Some("a:x,aa:x"), Some(1), [Case("a", "x", Some(1)), Case("aa", "x", None)])
      == Ok([Case("a", "x", Some(1))])
    ensures !HasCell(TWO_CELLS[1], [Case("a", "x", Some(1))])
  {
    hide Parse, SelectedCases, Matches, HasCell;
    TwoCellsParse(space);
    TwoCellsMatch();
    BatchSelectionMisses(
      space, Some("a:x,aa:x"), 1, Case("a", "x", Some(1)), Case("aa", "x", None), TWO_CELLS[0], TWO_CELLS[1]);
  }

  const TWO_CELLS := [Selector("a:x", "a", "x"), Selector("aa:x", "aa", "x")]

  lemma TwoCellsMatch()
    ensures Matches(TWO_CELLS[0], "a", "x") && Matches(TWO_CELLS[1], "aa", "x")
    ensures !Matches(TWO_CELLS[0], "aa", "x") && !Matches(TWO_CELLS[1], "a", "x")
  {
    hide LastIndexOf;
    LastIndexOfIs("a", '/', -1);
    LastIndexOfIs("aa", '/', -1);
  }

  lemma TwoCellsParse(space: char -> bool)
    requires !space('a') && !space('x')
    ensures Parse(space, "a:x,aa:x") == Ok(TWO_CELLS)
  {
    hide ParsePieces, ParseCell, Split, SameCell, Trim;
    var pieces := ["a:x", "aa:x"];
    assert Trims(space, "a:x", "a:x", 0, 3) && Trims(space, "aa:x", "aa:x", 0, 4);
    assert "a:x" + [','] + "aa:x" == "a:x,aa:x";
    assert Join(pieces[1..], ',') == "aa:x";
    SplitJoin(pieces, ',');
    ParseCellMeaning(space, "a:x", TWO_CELLS[0]);
    ParseCellMeaning(space, "aa:x", TWO_CELLS[1]);
    assert !SameCell(TWO_CELLS[0], TWO_CELLS[1]) by {
      TwoCellsDiffer();
    }
    ParseComplete(space, pieces, 2, TWO_CELLS);
  }

  lemma TwoCellsDiffer()
    ensures !SameCell(TWO_CELLS[0], TWO_CELLS[1])
  {
    assert |TWO_CELLS[0].route| == 1 && |TWO_CELLS[1].route| == 2;
  }
}
