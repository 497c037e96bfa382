// Searching, splitting and trimming text.
module Text {

  function IndexOf(s: string, c: char): (i: nat)
    ensures i <= |s|
    ensures c !in s[..i]
    ensures i < |s| ==> s[i] == c
  {
    if |s| == 0 || s[0] == c then 0
    else
      var i := IndexOf(s[1..], c);
      assert s[..i + 1] == [s[0]] + s[1..][..i];
      i + 1
  }

  function LastIndexOf(s: string, c: char): (i: int)
    ensures -1 <= i < |s|
  {
    if |s| == 0 then -1
    else if s[|s| - 1] == c then |s| - 1
    else LastIndexOf(s[..|s| - 1], c)
  }

  lemma TailGrows(s: string, c: char, i: int)
    requires |s| > 0 && -1 <= i < |s| - 1 && c !in s[..|s| - 1][i + 1..] && s[|s| - 1] != c
    ensures c !in s[i + 1..]
  {
    assert s[i + 1..] == s[..|s| - 1][i + 1..] + [s[|s| - 1]];
  }

  // The pieces between separators; one piece more than there are separators.
  function Split(s: string, c: char): (pieces: seq<string>)
    ensures |pieces| > 0
    ensures forall i :: 0 <= i < |pieces| ==> c !in pieces[i]
    decreases |s|
  {
    var i := IndexOf(s, c);
    if i == |s| then
      assert s[..i] == s;
      [s]
    else [s[..i]] + Split(s[i + 1..], c)
  }

  function Join(pieces: seq<string>, c: char): string
    requires |pieces| > 0
  {
    if |pieces| == 1 then pieces[0] else pieces[0] + [c] + Join(pieces[1..], c)
  }

  function TrimStart(space: char -> bool, s: string): (t: string)
    ensures |t| <= |s| && t == s[|s| - |t|..]
    ensures |t| > 0 ==> !space(t[0])
  {
    if |s| > 0 && space(s[0]) then TrimStart(space, s[1..]) else s
  }

  function TrimEnd(space: char -> bool, s: string): (t: string)
    ensures |t| <= |s| && t == s[..|t|]
    ensures |t| > 0 ==> !space(t[|t| - 1])
  {
    if |s| > 0 && space(s[|s| - 1]) then TrimEnd(space, s[..|s| - 1]) else s
  }

  function Trim(space: char -> bool, s: string): (t: string) {
    TrimEnd(space, TrimStart(space, s))
  }

  // Only space is dropped.
  lemma {:induction false} TrimStartDrops(space: char -> bool, s: string, k: nat)
    requires k < |s| - |TrimStart(space, s)|
    ensures space(s[k])
    decreases |s|
  {
    if k == 0 {
    } else {
      assert TrimStart(space, s) == TrimStart(space, s[1..]);
      TrimStartDrops(space, s[1..], k - 1);
    }
  }

  lemma {:induction false} TrimEndDrops(space: char -> bool, s: string, k: nat)
    requires |TrimEnd(space, s)| <= k < |s|
    ensures space(s[k])
    decreases |s|
  {
    if k == |s| - 1 {
    } else {
      assert TrimEnd(space, s) == TrimEnd(space, s[..|s| - 1]);
      TrimEndDrops(space, s[..|s| - 1], k);
    }
  }

  // t is s without the space at its end.
  ghost predicate TrimsEnd(space: char -> bool, s: string, t: string) {
    t <= s && (t != "" ==> !space(t[|t| - 1])) && forall k :: |t| <= k < |s| ==> space(s[k])
  }

  lemma TrimEndIs(space: char -> bool, s: string, t: string)
    ensures t == TrimEnd(space, s) <==> TrimsEnd(space, s, t)
  {
    var trimmed := TrimEnd(space, s);
    forall k | |trimmed| <= k < |s|
      ensures space(s[k])
    {
      TrimEndDrops(space, s, k);
    }
    assert trimmed != "" ==> trimmed[|trimmed| - 1] == s[|trimmed| - 1];
    assert t <= s && t != "" ==> t[|t| - 1] == s[|t| - 1];
  }

  // t is s without the space around it: what follows i and precedes j.
  ghost predicate Trims(space: char -> bool, s: string, t: string, i: nat, j: nat) {
    && i <= j <= |s| && t == s[i..j] && (t != "" ==> !space(t[0]) && !space(t[|t| - 1]))
    && (forall k :: 0 <= k < i ==> space(s[k])) && (forall k :: j <= k < |s| ==> space(s[k]))
  }

  lemma TrimTrims(space: char -> bool, s: string) returns (i: nat, j: nat)
    ensures Trims(space, s, Trim(space, s), i, j)
  {
    hide *;
    var start := TrimStart(space, s);
    var trimmed := TrimEnd(space, start);
    TrimUnfolds(space, s);
    i, j := |s| - |start|, |s| - |start| + |trimmed|;
    forall k | 0 <= k < i
      ensures space(s[k])
    {
      TrimStartDrops(space, s, k);
    }
    forall k | |trimmed| <= k < |start|
      ensures space(start[k])
    {
      TrimEndDrops(space, start, k);
    }
    Inside(space, s, start, trimmed, i);
  }

  lemma TrimUnfolds(space: char -> bool, s: string)
    ensures Trim(space, s) == TrimEnd(space, TrimStart(space, s))
  {
  }

  lemma Inside(space: char -> bool, s: string, start: string, t: string, i: nat)
    requires i <= |s| && start == s[i..] && |t| <= |start| && t == start[..|t|]
    requires start != "" ==> !space(start[0])
    requires t != "" ==> !space(t[|t| - 1])
    requires (forall k :: 0 <= k < i ==> space(s[k])) && (forall k :: |t| <= k < |start| ==> space(start[k]))
    ensures Trims(space, s, t, i, i + |t|)
  {
    assert t == s[i..i + |t|];
    forall k | i + |t| <= k < |s|
      ensures space(s[k])
    {
      assert s[k] == start[k - i];
    }
  }

  lemma TrimIs(space: char -> bool, s: string, t: string)
    ensures t == Trim(space, s) <==> exists i, j :: Trims(space, s, t, i, j)
  {
    hide Trim, Trims;
    var i, j := TrimTrims(space, s);
    if a, b :| Trims(space, s, t, a, b) {
      OneTrim(space, s, Trim(space, s), i, j, t, a, b);
    }
  }

  lemma OneTrim(space: char -> bool, s: string, t: string, i: nat, j: nat, u: string, a: nat, b: nat)
    requires Trims(space, s, t, i, j) && Trims(space, s, u, a, b)
    ensures t == u
  {
    if t != "" {
      assert !space(s[i]) && !space(s[j - 1]);
    }
    if u != "" {
      assert !space(s[a]) && !space(s[b - 1]);
    }
  }

  lemma TrimmedIsTrimmed(space: char -> bool, s: string)
    ensures Trim(space, Trim(space, s)) == Trim(space, s)
    ensures forall c :: c in Trim(space, s) ==> c in s
  {
    var t, u := TrimStart(space, s), Trim(space, s);
    if |u| > 0 {
      assert u[0] == t[0];
    }
  }

  predicate FirstAt(s: string, c: char, i: nat) {
    i <= |s| && c !in s[..i] && (i < |s| ==> s[i] == c)
  }

  predicate LastAt(s: string, c: char, i: int) {
    -1 <= i < |s| && c !in s[i + 1..] && (i >= 0 ==> s[i] == c)
  }

  lemma FirstIsNoLater(s: string, c: char, i: nat, j: nat)
    requires FirstAt(s, c, i) && FirstAt(s, c, j)
    ensures i <= j
  {
  }

  lemma LastIsNoEarlier(s: string, c: char, i: int, j: int)
    requires LastAt(s, c, i) && LastAt(s, c, j)
    ensures i >= j
  {
    hide LastAt;
    LastHolds(s, c, i);
    LastHolds(s, c, j);
    if i < j {
      NoneAfter(s, c, i, j);
    }
  }

  lemma LastHolds(s: string, c: char, i: int)
    requires LastAt(s, c, i)
    ensures -1 <= i < |s| && (i >= 0 ==> s[i] == c)
  {
  }

  lemma NoneAfter(s: string, c: char, i: int, j: nat)
    requires LastAt(s, c, i) && i < j < |s|
    ensures s[j] != c
  {
    InSuffix(s, j, i + 1);
  }

  lemma InSuffix(s: string, i: nat, from: nat)
    requires from <= i < |s|
    ensures s[i] in s[from..]
  {
    assert s[from..][i - from] == s[i];
  }

  lemma IndexOfIsFirst(s: string, c: char)
    ensures FirstAt(s, c, IndexOf(s, c))
  {
    hide IndexOf;
  }

  lemma {:induction false} LastIndexOfIsLast(s: string, c: char)
    ensures LastAt(s, c, LastIndexOf(s, c))
    decreases |s|
  {
    hide LastAt;
    if |s| == 0 {
      LastOfEmpty(c);
    } else if s[|s| - 1] == c {
      LastOfEnd(s, c);
    } else {
      LastIndexOfIsLast(s[..|s| - 1], c);
      LastGrows(s, c, LastIndexOf(s, c));
    }
  }

  lemma LastOfEmpty(c: char)
    ensures LastAt("", c, -1)
  {
  }

  lemma LastOfEnd(s: string, c: char)
    requires |s| > 0 && s[|s| - 1] == c
    ensures LastAt(s, c, |s| - 1)
  {
  }

  lemma LastGrows(s: string, c: char, i: int)
    requires |s| > 0 && LastAt(s[..|s| - 1], c, i) && s[|s| - 1] != c
    ensures LastAt(s, c, i)
  {
    TailGrows(s, c, i);
  }

  // The first occurrence is the only index with none before it ...
  lemma IndexOfIs(s: string, c: char, i: nat)
    requires FirstAt(s, c, i)
    ensures IndexOf(s, c) == i
  {
    hide FirstAt, IndexOf;
    IndexOfIsFirst(s, c);
    FirstIsNoLater(s, c, i, IndexOf(s, c));
    FirstIsNoLater(s, c, IndexOf(s, c), i);
  }

  // ... and the last one the only index with none after it.
  lemma LastIndexOfIs(s: string, c: char, i: int)
    requires LastAt(s, c, i)
    ensures LastIndexOf(s, c) == i
  {
    hide LastAt, LastIndexOf;
    LastIndexOfIsLast(s, c);
    LastIsNoEarlier(s, c, i, LastIndexOf(s, c));
    LastIsNoEarlier(s, c, LastIndexOf(s, c), i);
  }

  lemma SplitPiece(piece: string, c: char)
    requires c !in piece
    ensures Split(piece, c) == [piece]
  {
    assert piece[..|piece|] == piece;
    IndexOfIs(piece, c, |piece|);
  }

  lemma SplitPrefix(piece: string, c: char, rest: string)
    requires c !in piece
    ensures Split(piece + [c] + rest, c) == [piece] + Split(rest, c)
  {
    var s := piece + [c] + rest;
    assert s[..|piece|] == piece && s[|piece| + 1..] == rest;
    IndexOfIs(s, c, |piece|);
  }

  lemma {:induction false} SplitJoin(pieces: seq<string>, c: char)
    requires |pieces| > 0 && forall i :: 0 <= i < |pieces| ==> c !in pieces[i]
    ensures Split(Join(pieces, c), c) == pieces
    decreases |pieces|
  {
    if |pieces| == 1 {
      SplitPiece(pieces[0], c);
    } else {
      SplitJoin(pieces[1..], c);
      SplitPrefix(pieces[0], c, Join(pieces[1..], c));
    }
  }

  // The pieces of a text joined again are the text.
  lemma {:induction false} JoinSplit(s: string, c: char)
    ensures Join(Split(s, c), c) == s
    decreases |s|
  {
    var i := IndexOf(s, c);
    if i == |s| {
      SplitPiece(s, c);
    } else {
      var rest := s[i + 1..];
      JoinSplit(rest, c);
      SplitPrefix(s[..i], c, rest);
      assert s == s[..i] + [c] + rest;
      JoinMore(s[..i], Split(rest, c), c);
    }
  }

  lemma JoinMore(piece: string, pieces: seq<string>, c: char)
    requires |pieces| > 0
    ensures Join([piece] + pieces, c) == piece + [c] + Join(pieces, c)
  {
    assert ([piece] + pieces)[1..] == pieces;
  }
}
