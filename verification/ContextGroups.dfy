// Adjacent scoring requests that share a context are sent to the server
// together, at most `maximum` at a time.
module ContextGroups {

  type Tokens = seq<int>

  datatype Pair = Pair(context: Tokens, continuation: Tokens)

  datatype Member = Member(index: nat, continuation: Tokens)

  datatype Group = Group(context: Tokens, members: seq<Member>)

  // Where the inner loop, now at cursor, leaves a group that began at start. A
  // maximum below one never lets it move.
  function Stop(encoded: seq<Pair>, maximum: int, start: nat, cursor: nat): (stop: nat)
    requires start <= cursor <= |encoded| && start < |encoded|
    ensures cursor <= stop <= |encoded|
    decreases |encoded| - cursor
  {
    if cursor < |encoded| && encoded[cursor].context == encoded[start].context && cursor - start < maximum then
      Stop(encoded, maximum, start, cursor + 1)
    else cursor
  }

  function Members(encoded: seq<Pair>, start: nat, stop: nat): (members: seq<Member>)
    requires start <= stop <= |encoded|
    ensures |members| == stop - start
    ensures forall k :: 0 <= k < |members| ==> members[k] == Member(start + k, encoded[start + k].continuation)
  {
    seq(stop - start, k requires 0 <= k < stop - start => Member(start + k, encoded[start + k].continuation))
  }

  function GroupsFrom(encoded: seq<Pair>, maximum: int, cursor: nat): seq<Group>
    requires cursor <= |encoded| && maximum >= 1
    decreases |encoded| - cursor
  {
    if cursor == |encoded| then []
    else
      var stop := Stop(encoded, maximum, cursor, cursor);
      [Group(encoded[cursor].context, Members(encoded, cursor, stop))] + GroupsFrom(encoded, maximum, stop)
  }

  function Groups(encoded: seq<Pair>, maximum: int): seq<Group>
    requires maximum >= 1
  {
    GroupsFrom(encoded, maximum, 0)
  }

  // The caller keeps maximum in 1..8; below one the outer loop cannot end, see
  // NoProgressBelowOne.
  method AdjacentContextGroups(encoded: seq<Pair>, maximum: int) returns (groups: seq<Group>)
    requires maximum >= 1
    ensures groups == Groups(encoded, maximum)
  {
    groups := [];
    var cursor := 0;
    while cursor < |encoded|
      invariant cursor <= |encoded|
      invariant groups + GroupsFrom(encoded, maximum, cursor) == Groups(encoded, maximum)
    {
      ghost var start := cursor;
      var context := encoded[cursor].context;
      var group: seq<Member> := [];
      while cursor < |encoded| && encoded[cursor].context == context && |group| < maximum
        invariant start <= cursor <= |encoded| && (|group| == 0 ==> cursor == start)
        invariant group == Members(encoded, start, cursor)
        invariant Stop(encoded, maximum, start, cursor) == Stop(encoded, maximum, start, start)
      {
        group := group + [Member(cursor, encoded[cursor].continuation)];
        cursor := cursor + 1;
      }
      groups := groups + [Group(context, group)];
    }
  }

  // With a maximum below one no group ever takes a member, so a nonempty batch
  // would be visited at the same place for ever; from one on every visit moves.
  lemma NoProgressBelowOne(encoded: seq<Pair>, maximum: int, cursor: nat)
    requires cursor < |encoded|
    ensures Stop(encoded, maximum, cursor, cursor) > cursor <==> maximum >= 1
  {
  }

  // ---- The groups partition the batch ------------------------------------------------

  // Requests start..stop may go out as one group.
  ghost predicate Piece(encoded: seq<Pair>, maximum: int, start: nat, stop: nat) {
    && start < stop <= |encoded| && stop - start <= maximum
    && forall i :: start <= i < stop ==> encoded[i].context == encoded[start].context
  }

  // How many members the first n groups hold.
  function Cut(groups: seq<Group>, n: nat): nat
    requires n <= |groups|
  {
    if n == 0 then 0 else Cut(groups, n - 1) + |groups[n - 1].members|
  }

  // The groups cover the batch in order, each a legal piece whose members are
  // its requests, with their positions.
  ghost predicate Partitions(encoded: seq<Pair>, maximum: int, groups: seq<Group>) {
    && Cut(groups, |groups|) == |encoded|
    && forall g :: 0 <= g < |groups| ==> Covers(encoded, maximum, groups, g)
  }

  ghost predicate Covers(encoded: seq<Pair>, maximum: int, groups: seq<Group>, g: nat)
    requires g < |groups|
  {
    var start, stop := Cut(groups, g), Cut(groups, g + 1);
    && Piece(encoded, maximum, start, stop)
    && groups[g] == Group(encoded[start].context, Members(encoded, start, stop))
  }

  // No group could have taken the request after it.
  ghost predicate Full(encoded: seq<Pair>, maximum: int, start: nat, stop: nat) {
    stop < |encoded| ==> !Piece(encoded, maximum, start, stop + 1)
  }

  lemma {:induction false} StopIsMaximal(encoded: seq<Pair>, maximum: int, start: nat, cursor: nat)
    requires start < |encoded| && maximum >= 1
    requires cursor == start || Piece(encoded, maximum, start, cursor)
    ensures var stop := Stop(encoded, maximum, start, cursor);
      Piece(encoded, maximum, start, stop) && Full(encoded, maximum, start, stop)
    decreases |encoded| - cursor
  {
    if cursor < |encoded| && encoded[cursor].context == encoded[start].context && cursor - start < maximum {
      StopIsMaximal(encoded, maximum, start, cursor + 1);
    }
  }

  lemma {:induction false} CutOfTail(groups: seq<Group>, n: nat)
    requires n < |groups|
    ensures Cut(groups, n + 1) == |groups[0].members| + Cut(groups[1..], n)
  {
    if n == 0 {
    } else {
      CutOfTail(groups, n - 1);
    }
  }

  lemma {:induction false} GroupsReachEnd(encoded: seq<Pair>, maximum: int, cursor: nat)
    requires cursor <= |encoded| && maximum >= 1
    ensures var groups := GroupsFrom(encoded, maximum, cursor);
      cursor + Cut(groups, |groups|) == |encoded|
    decreases |encoded| - cursor
  {
    hide Stop;
    if cursor == |encoded| {
    } else {
      var groups := GroupsFrom(encoded, maximum, cursor);
      var stop := Stop(encoded, maximum, cursor, cursor);
      NoProgressBelowOne(encoded, maximum, cursor);
      GroupsReachEnd(encoded, maximum, stop);
      assert groups[1..] == GroupsFrom(encoded, maximum, stop);
      CutOfTail(groups, |groups| - 1);
    }
  }

  // Group g of the groups formed from cursor on starts where the earlier ones
  // stopped, and is maximal.
  lemma {:induction false} GroupFrom(encoded: seq<Pair>, maximum: int, cursor: nat, g: nat)
    requires cursor <= |encoded| && maximum >= 1 && g < |GroupsFrom(encoded, maximum, cursor)|
    ensures var groups := GroupsFrom(encoded, maximum, cursor);
      var start, stop := cursor + Cut(groups, g), cursor + Cut(groups, g + 1);
      && Piece(encoded, maximum, start, stop) && Full(encoded, maximum, start, stop)
      && groups[g] == Group(encoded[start].context, Members(encoded, start, stop))
    decreases |encoded| - cursor
  {
    hide Full, Stop;
    var groups := GroupsFrom(encoded, maximum, cursor);
    var stop := Stop(encoded, maximum, cursor, cursor);
    StopIsMaximal(encoded, maximum, cursor, cursor);
    assert groups[1..] == GroupsFrom(encoded, maximum, stop);
    CutOfTail(groups, g);
    if g == 0 {
    } else {
      hide Piece;
      CutOfTail(groups, g - 1);
      NoProgressBelowOne(encoded, maximum, cursor);
      GroupFrom(encoded, maximum, stop, g - 1);
    }
  }

  lemma GroupsPartition(encoded: seq<Pair>, maximum: int)
    requires maximum >= 1
    ensures Partitions(encoded, maximum, Groups(encoded, maximum))
  {
    hide Piece, Full, Members, GroupsFrom, Cut;
    var groups := Groups(encoded, maximum);
    GroupsReachEnd(encoded, maximum, 0);
    forall g | 0 <= g < |groups|
      ensures Covers(encoded, maximum, groups, g)
    {
      GroupFrom(encoded, maximum, 0, g);
    }
  }

  // The positions in the order the groups carry them.
  function Positions(groups: seq<Group>, n: nat): seq<nat>
    requires n <= |groups|
  {
    if n == 0 then [] else Positions(groups, n - 1) + GroupPositions(groups[n - 1])
  }

  function GroupPositions(group: Group): (positions: seq<nat>)
    ensures |positions| == |group.members|
    ensures forall k :: 0 <= k < |positions| ==> positions[k] == group.members[k].index
  {
    seq(|group.members|, k requires 0 <= k < |group.members| => group.members[k].index)
  }

  // Read group by group, the positions of any partition count 0, 1, 2, ...
  lemma {:induction false} PositionsCount(encoded: seq<Pair>, maximum: int, groups: seq<Group>, n: nat)
    requires n <= |groups| && Partitions(encoded, maximum, groups)
    ensures |Positions(groups, n)| == Cut(groups, n)
    ensures forall i :: 0 <= i < |Positions(groups, n)| ==> Positions(groups, n)[i] == i
  {
    hide Piece, Members;
    if n == 0 {
    } else {
      PositionsCount(encoded, maximum, groups, n - 1);
      assert Covers(encoded, maximum, groups, n - 1);
      var start := Cut(groups, n - 1);
      var positions := GroupPositions(groups[n - 1]);
      PieceStops(encoded, maximum, start, Cut(groups, n));
      forall k | 0 <= k < |positions|
        ensures positions[k] == start + k
      {
        assert groups[n - 1].members[k] == Members(encoded, start, Cut(groups, n))[k];
      }
    }
  }

  // ---- No partition uses fewer groups ---------------------------------------------

  // After the same number of groups, greedy grouping has covered at least as
  // much as any other partition.
  lemma {:induction false} GreedyStaysAhead(encoded: seq<Pair>, maximum: int, other: seq<Group>, n: nat)
    requires maximum >= 1 && Partitions(encoded, maximum, other)
    requires n <= |other| && n <= |Groups(encoded, maximum)|
    ensures Cut(Groups(encoded, maximum), n) >= Cut(other, n)
  {
    if n == 0 {
    } else {
      hide Piece, Full, Members, GroupsFrom, Partitions;
      var groups := Groups(encoded, maximum);
      GreedyStaysAhead(encoded, maximum, other, n - 1);
      GroupFrom(encoded, maximum, 0, n - 1);
      assert Covers(encoded, maximum, other, n - 1) by {
        CoversAt(encoded, maximum, other, n - 1);
      }
      FullReaches(encoded, maximum, Cut(groups, n - 1), Cut(groups, n), Cut(other, n - 1), Cut(other, n));
    }
  }

  lemma CoversAt(encoded: seq<Pair>, maximum: int, groups: seq<Group>, g: nat)
    requires Partitions(encoded, maximum, groups) && g < |groups|
    ensures Covers(encoded, maximum, groups, g)
  {
  }

  // A full piece that starts no earlier than a legal one stops no earlier.
  lemma FullReaches(encoded: seq<Pair>, maximum: int, start: nat, stop: nat, from: nat, to: nat)
    requires Piece(encoded, maximum, start, stop) && Full(encoded, maximum, start, stop)
    requires Piece(encoded, maximum, from, to) && from <= start
    ensures to <= stop
  {
  }

  lemma GroupingIsOptimal(encoded: seq<Pair>, maximum: int, other: seq<Group>)
    requires maximum >= 1 && Partitions(encoded, maximum, other)
    ensures |Groups(encoded, maximum)| <= |other|
  {
    hide Piece, Full, Members, GroupsFrom, Cut;
    var groups := Groups(encoded, maximum);
    var n := |other|;
    if n < |groups| {
      GroupsPartition(encoded, maximum);
      GreedyStaysAhead(encoded, maximum, other, n);
      CoversAt(encoded, maximum, groups, n);
      PieceStops(encoded, maximum, Cut(groups, n), Cut(groups, n + 1));
      assert false;
    }
  }

  lemma PieceStops(encoded: seq<Pair>, maximum: int, start: nat, stop: nat)
    requires Piece(encoded, maximum, start, stop)
    ensures start < stop <= |encoded|
  {
  }
}
