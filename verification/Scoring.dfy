// Scoring (context, continuation) requests through a server that scores a
// context and several continuations at once.
module Scoring {
  import opened ContextGroups
  import opened Optional
  import opened Text

  datatype Error =
    | NoRoom(continuation: nat, maxLength: int)
    | EmptyBoundary(index: nat)
    | BadBatchSize
    | BadMaxLength
    | Http(code: int)
    | WrongCount
    | OutOfOrder
    | Unscored

  datatype Result<+T> = Ok(value: T) | Err(error: Error)

  // ---- Tokens of a request -----------------------------------------------------------

  datatype Tokenizer = Tokenizer(encode: string -> Tokens, eos: int, space: char -> bool)

  datatype Request = Request(context: string, continuation: string)

  // Trailing space of the context is scored with the continuation.
  function Trimmed(t: Tokenizer, r: Request): string {
    TrimEnd(t.space, r.context)
  }

  function EncodePair(t: Tokenizer, r: Request): Pair {
    if r.context == "" then
      var ids := t.encode(r.continuation);
      if |ids| == 0 then Pair([], [])
      else if ids[0] == t.eos then Pair([ids[0]], ids[1..])
      else Pair([t.eos], ids)
    else
      var context := Trimmed(t, r);
      var continuation := r.context[|context|..] + r.continuation;
      var contextIds, wholeIds := t.encode(context), t.encode(context + continuation);
      Pair(contextIds, if |contextIds| <= |wholeIds| then wholeIds[|contextIds|..] else [])
  }

  predicate Bounded(pair: Pair) {
    |pair.context| > 0 && |pair.continuation| > 0
  }

  // With the space at the end of the context left to the continuation, the two
  // halves spell the tokens of the whole text exactly when the context's tokens
  // begin them; however that is, the continuation is what follows as many of the
  // whole text's tokens as the context has.
  lemma BoundaryIsExact(t: Tokenizer, r: Request, context: string)
    requires r.context != "" && TrimsEnd(t.space, r.context, context)
    ensures var pair, whole := EncodePair(t, r), t.encode(r.context + r.continuation);
      && pair.context == t.encode(context)
      && (pair.context + pair.continuation == whole <==> pair.context <= whole)
      && IsSuffix(pair.continuation, whole)
      && |pair.continuation| == (if |pair.context| <= |whole| then |whole| - |pair.context| else 0)
  {
    TrimEndIs(t.space, r.context, context);
    assert r.context == context + r.context[|context|..];
    assert context + (r.context[|context|..] + r.continuation) == r.context + r.continuation;
  }

  // A request keeps a token on both sides of its boundary exactly when the
  // whole text has more tokens than a nonempty trimmed context; with no context,
  // when the continuation is more than a single end-of-text token.
  lemma BoundedExactly(t: Tokenizer, r: Request, context: string)
    requires TrimsEnd(t.space, r.context, context)
    ensures Bounded(EncodePair(t, r)) <==>
      if r.context == "" then t.encode(r.continuation) != [] && t.encode(r.continuation) != [t.eos]
      else 0 < |t.encode(context)| < |t.encode(r.context + r.continuation)|
  {
    hide TrimsEnd;
    if r.context == "" {
      var ids := t.encode(r.continuation);
      assert |ids| == 1 ==> ids == [ids[0]];
    } else {
      BoundaryIsExact(t, r, context);
    }
  }

  // So a context of nothing but space is refused, where no context at all is
  // not: the end-of-text token is only supplied before trimming.
  lemma BlankContextIsRefused(t: Tokenizer, r: Request)
    requires t.encode("") == []
    requires r.context != "" && forall c :: c in r.context ==> t.space(c)
    ensures !Bounded(EncodePair(t, r))
    ensures Bounded(EncodePair(t, Request("", r.continuation))) <==>
      t.encode(r.continuation) != [] && t.encode(r.continuation) != [t.eos]
  {
    hide EncodePair, Bounded;
    BoundedExactly(t, r, "");
    BoundedExactly(t, Request("", r.continuation), "");
  }

  // An empty context is scored after exactly one end-of-text token, the
  // continuation's own if it starts with one.
  lemma EmptyContextBoundary(t: Tokenizer, continuation: string)
    ensures var pair, ids := EncodePair(t, Request("", continuation)), t.encode(continuation);
      if |ids| == 0 then pair == Pair([], [])
      else
        && pair.context == [t.eos]
        && pair.context + pair.continuation == (if ids[0] == t.eos then ids else [t.eos] + ids)
  {
  }

  // Keeps the right end of a context that leaves the continuation no room.
  function FitContext(pair: Pair, maxLength: int): Result<Pair> {
    var length := |pair.continuation|;
    if length >= maxLength then Err(NoRoom(length, maxLength))
    else
      var room := maxLength - length;
      var context := if room < |pair.context| then pair.context[|pair.context| - room..] else pair.context;
      Ok(Pair(context, pair.continuation))
  }

  predicate IsSuffix(suffix: Tokens, tokens: Tokens) {
    |suffix| <= |tokens| && tokens[|tokens| - |suffix|..] == suffix
  }

  // Fitting succeeds exactly when the continuation leaves room, and then the
  // context kept is the longest suffix for which the request fits.
  lemma FitKeepsLongestSuffix(pair: Pair, maxLength: int, kept: Tokens)
    ensures FitContext(pair, maxLength) == Ok(Pair(kept, pair.continuation)) <==>
      && |pair.continuation| < maxLength
      && IsSuffix(kept, pair.context) && |kept| + |pair.continuation| <= maxLength
      && forall longer :: IsSuffix(longer, pair.context) && |longer| + |pair.continuation| <= maxLength ==>
          |longer| <= |kept|
  {
    var n := |pair.context|;
    if |pair.continuation| < maxLength {
      var room := maxLength - |pair.continuation|;
      var best := if room < n then pair.context[n - room..] else pair.context;
      assert IsSuffix(best, pair.context);
      if IsSuffix(kept, pair.context) && |kept| == |best| {
        assert kept == best;
      }
    }
  }

  // What is left of a context that fits a room.
  function Kept(context: Tokens, room: nat): Tokens {
    if |context| <= room then context else context[|context| - room..]
  }

  // What a request becomes: as many of the last tokens of its trimmed context as
  // there is room for beside the rest of the whole text's tokens, which must be
  // fewer than the model takes.
  lemma FittedMeaning(t: Tokenizer, maxLength: int, r: Request, context: string)
    requires r.context != "" && TrimsEnd(t.space, r.context, context)
    ensures var ids, whole := t.encode(context), t.encode(r.context + r.continuation);
      var rest := if |ids| <= |whole| then whole[|ids|..] else [];
      Fitted(t, maxLength, r)
      == if |rest| >= maxLength then Err(NoRoom(|rest|, maxLength))
         else Ok(Pair(Kept(ids, maxLength - |rest|), rest))
  {
    TrimEndIs(t.space, r.context, context);
    assert context + (r.context[|context|..] + r.continuation) == r.context + r.continuation;
  }

  // Without a context the tokens of the continuation follow one end-of-text token.
  lemma FittedAlone(t: Tokenizer, maxLength: int, continuation: string)
    ensures var ids := t.encode(continuation);
      var rest := if |ids| > 0 && ids[0] == t.eos then ids[1..] else ids;
      Fitted(t, maxLength, Request("", continuation))
      == if |rest| >= maxLength then Err(NoRoom(|rest|, maxLength))
         else Ok(Pair(if |ids| > 0 then [t.eos] else [], rest))
  {
  }

  // Fitting never turns a request with a boundary into one without.
  lemma FitKeepsBoundary(pair: Pair, maxLength: int)
    requires FitContext(pair, maxLength).Ok?
    ensures Bounded(FitContext(pair, maxLength).value) <==> Bounded(pair)
  {
  }

  // ---- Client settings ---------------------------------------------------------------

  // The text of a batch size is an integer, unless it begins with "auto".
  datatype BatchSize = Text(text: string, number: Option<int>) | Number(value: int)

  predicate IsAuto(size: BatchSize) {
    size.Text? && "auto" <= size.text
  }

  function Requested(size: BatchSize): Option<int> {
    if size.Text? then size.number else Some(size.value)
  }

  // Accepted are the automatic size, which is 8, and positive integers, of which
  // the smaller of the integer and 8 is used.
  function ParseBatchSize(size: BatchSize): (result: Result<int>)
    ensures result.Err? ==> result.error == BadBatchSize
    ensures size.Text? && |size.text| >= 4 && size.text[..4] == "auto" ==> result == Ok(8)
    ensures size.Text? && !(|size.text| >= 4 && size.text[..4] == "auto") ==>
      && (result.Ok? <==> size.number.Some? && size.number.value >= 1)
      && (result.Ok? ==> 1 <= result.value <= 8 && result.value in {8, size.number.value})
      && (result.Ok? ==> result.value <= size.number.value)
    ensures size.Number? ==>
      && (result.Ok? <==> size.value >= 1)
      && (result.Ok? ==> 1 <= result.value <= 8 && result.value <= size.value && result.value in {8, size.value})
  {
    if IsAuto(size) then Ok(8)
    else
      var value := Requested(size);
      if value.None? || value.value < 1 then Err(BadBatchSize)
      else Ok(if value.value < 8 then value.value else 8)
  }

  datatype Client = Client(maxLength: int, batchSize: int)

  predicate Valid(client: Client) {
    client.maxLength >= 2 && 1 <= client.batchSize <= 8
  }

  // A client needs room for two tokens and acceptable sizes, and batches by the
  // smaller of them.
  function Configure(maxLength: int, batchSize: BatchSize, cap: Option<BatchSize>): (client: Result<Client>)
    ensures client.Ok? <==>
      maxLength >= 2 && ParseBatchSize(batchSize).Ok? && (cap.Some? ==> ParseBatchSize(cap.value).Ok?)
    ensures client.Err? ==> client.error == if maxLength < 2 then BadMaxLength else BadBatchSize
    ensures client.Ok? ==> Valid(client.value) && client.value.maxLength == maxLength
    ensures client.Ok? && cap.None? ==> client.value.batchSize == ParseBatchSize(batchSize).value
    ensures client.Ok? && cap.Some? ==>
      var size, limit := ParseBatchSize(batchSize).value, ParseBatchSize(cap.value).value;
      client.value.batchSize <= size && client.value.batchSize <= limit && client.value.batchSize in {size, limit}
  {
    if maxLength < 2 then Err(BadMaxLength)
    else
      var size := ParseBatchSize(batchSize);
      if size.Err? then Err(size.error)
      else if cap.None? then Ok(Client(maxLength, size.value))
      else
        var limit := ParseBatchSize(cap.value);
        if limit.Err? then Err(limit.error)
        else Ok(Client(maxLength, if limit.value < size.value then limit.value else size.value))
  }

  // ---- The server ------------------------------------------------------------------------

  datatype Score = Score(logprob: real, greedy: bool)

  datatype Item = Item(index: Option<int>, score: Score)

  // data is absent when the reply holds no list of results.
  datatype Reply = Failed(code: int) | Reply(data: Option<seq<Item>>)

  type Server = (Tokens, seq<Tokens>) -> Reply

  ghost predicate InOrder(items: seq<Item>) {
    forall i :: 0 <= i < |items| ==> items[i].index == Some(i)
  }

  function Scores(items: seq<Item>): (scores: seq<Score>)
    ensures |scores| == |items|
    ensures forall i :: 0 <= i < |items| ==> scores[i] == items[i].score
  {
    seq(|items|, i requires 0 <= i < |items| => items[i].score)
  }

  // A reply is accepted exactly when it has one result per continuation, in order.
  ghost predicate Accepted(reply: Reply, count: nat) {
    reply.Reply? && reply.data.Some? && |reply.data.value| == count && InOrder(reply.data.value)
  }

  ghost function Checked(reply: Reply, count: nat): Result<seq<Score>> {
    if reply.Failed? then Err(Http(reply.code))
    else if reply.data.None? || |reply.data.value| != count then Err(WrongCount)
    else if !InOrder(reply.data.value) then Err(OutOfOrder)
    else Ok(Scores(reply.data.value))
  }

  method PostLoglikelihood(server: Server, context: Tokens, continuations: seq<Tokens>)
    returns (result: Result<seq<Score>>)
    ensures result == Checked(server(context, continuations), |continuations|)
  {
    var reply := server(context, continuations);
    if reply.Failed? {
      return Err(Http(reply.code));
    }
    if reply.data.None? || |reply.data.value| != |continuations| {
      return Err(WrongCount);
    }
    var data := reply.data.value;
    var results: seq<Score> := [];
    for index := 0 to |data|
      invariant results == Scores(data)[..index]
      invariant forall i :: 0 <= i < index ==> data[i].index == Some(i)
    {
      if data[index].index != Some(index) {
        assert !InOrder(data);
        return Err(OutOfOrder);
      }
      results := results + [data[index].score];
    }
    assert results == Scores(data);
    result := Ok(results);
  }

  // ---- Scoring requests -------------------------------------------------------------------

  function Fitted(t: Tokenizer, maxLength: int, r: Request): Result<Pair> {
    FitContext(EncodePair(t, r), maxLength)
  }

  // The pairs of the first n requests; the first that leaves no room decides
  // the error.
  function Encoded(t: Tokenizer, maxLength: int, requests: seq<Request>, n: nat): (pairs: Result<seq<Pair>>)
    requires n <= |requests|
    ensures pairs.Ok? ==>
      && |pairs.value| == n
      && forall i :: 0 <= i < n ==> Fitted(t, maxLength, requests[i]) == Ok(pairs.value[i])
  {
    if n == 0 then Ok([])
    else
      var before := Encoded(t, maxLength, requests, n - 1);
      if before.Err? then before
      else
        var pair := Fitted(t, maxLength, requests[n - 1]);
        if pair.Err? then Err(pair.error) else Ok(before.value + [pair.value])
  }

  // The first pair without a token on either side of the boundary.
  function FirstUnbounded(pairs: seq<Pair>, n: nat): (i: nat)
    requires n <= |pairs|
    ensures n <= i <= |pairs|
    ensures forall k :: n <= k < i ==> Bounded(pairs[k])
    ensures i < |pairs| ==> !Bounded(pairs[i])
    decreases |pairs| - n
  {
    if n == |pairs| || !Bounded(pairs[n]) then n else FirstUnbounded(pairs, n + 1)
  }

  function Continuations(group: Group): (continuations: seq<Tokens>)
    ensures |continuations| == |group.members|
    ensures forall k :: 0 <= k < |continuations| ==> continuations[k] == group.members[k].continuation
  {
    seq(|group.members|, k requires 0 <= k < |group.members| => group.members[k].continuation)
  }

  ghost function GroupScores(server: Server, group: Group): Result<seq<Score>> {
    Checked(server(group.context, Continuations(group)), |group.members|)
  }

  // The scores of the first n groups, one after the other; the first refused
  // reply decides the error.
  ghost function Scored(server: Server, groups: seq<Group>, n: nat): Result<seq<Score>>
    requires n <= |groups|
  {
    if n == 0 then Ok([])
    else
      var before := Scored(server, groups, n - 1);
      if before.Err? then before
      else
        var scores := GroupScores(server, groups[n - 1]);
        if scores.Err? then Err(scores.error) else Ok(before.value + scores.value)
  }

  ghost function Loglikelihoods(
    client: Client, t: Tokenizer, server: Server, requests: seq<Request>): Result<seq<Score>>
    requires Valid(client)
  {
    var pairs := Encoded(t, client.maxLength, requests, |requests|);
    if pairs.Err? then Err(pairs.error)
    else
      var gap := FirstUnbounded(pairs.value, 0);
      if gap < |pairs.value| then Err(EmptyBoundary(gap))
      else
        var groups := Groups(pairs.value, client.batchSize);
        Scored(server, groups, |groups|)
  }

  // What reaches the cache hook: the scores of the groups before the first
  // refused one.
  ghost function Recorded(server: Server, groups: seq<Group>, n: nat): seq<Score>
    requires n <= |groups|
  {
    if Scored(server, groups, n).Ok? then Scored(server, groups, n).value
    else Recorded(server, groups, n - 1)
  }

  ghost function RecordedScores(client: Client, t: Tokenizer, server: Server, requests: seq<Request>): seq<Score>
    requires Valid(client)
  {
    var pairs := Encoded(t, client.maxLength, requests, |requests|);
    if pairs.Err? || FirstUnbounded(pairs.value, 0) < |pairs.value| then []
    else
      var groups := Groups(pairs.value, client.batchSize);
      Recorded(server, groups, |groups|)
  }

  // The result slots once the first |scores| requests are scored.
  ghost function Slots(scores: seq<Score>, n: nat): seq<Option<Score>> {
    seq(n, i requires 0 <= i < n => if i < |scores| then Some(scores[i]) else None)
  }

  function Numbered(scores: seq<Score>): (log: seq<(nat, Score)>)
    ensures |log| == |scores|
    ensures forall i :: 0 <= i < |log| ==> log[i] == (i, scores[i])
  {
    seq(|scores|, i requires 0 <= i < |scores| => (i, scores[i]))
  }

  lemma {:induction false} EncodedFails(t: Tokenizer, maxLength: int, requests: seq<Request>, n: nat, m: nat)
    requires n <= m <= |requests| && Encoded(t, maxLength, requests, n).Err?
    ensures Encoded(t, maxLength, requests, m) == Encoded(t, maxLength, requests, n)
    decreases m
  {
    hide Fitted;
    if n == m {
    } else {
      EncodedFails(t, maxLength, requests, n, m - 1);
    }
  }

  lemma {:induction false} ScoredFails(server: Server, groups: seq<Group>, n: nat, m: nat)
    requires n < m <= |groups| && Scored(server, groups, n).Ok? && GroupScores(server, groups[n]).Err?
    ensures Scored(server, groups, m) == Err(GroupScores(server, groups[n]).error)
    ensures Recorded(server, groups, m) == Scored(server, groups, n).value
    decreases m
  {
    hide GroupScores;
    if n == m - 1 {
    } else {
      ScoredFails(server, groups, n, m - 1);
    }
  }

  method EncodeRequests(t: Tokenizer, maxLength: int, requests: seq<Request>) returns (encoded: Result<seq<Pair>>)
    ensures encoded == Encoded(t, maxLength, requests, |requests|)
  {
    hide Fitted, FitContext, EncodePair;
    var pairs: seq<Pair> := [];
    for n := 0 to |requests|
      invariant Encoded(t, maxLength, requests, n) == Ok(pairs)
    {
      var pair := Fitted(t, maxLength, requests[n]);
      if pair.Err? {
        EncodedFails(t, maxLength, requests, n + 1, |requests|);
        return Err(pair.error);
      }
      pairs := pairs + [pair.value];
    }
    encoded := Ok(pairs);
  }

  // Fills the slots of one group.
  method FillGroup(results: seq<Option<Score>>, log: seq<(nat, Score)>, group: Group, scores: seq<Score>,
    ghost done: seq<Score>)
    returns (filled: seq<Option<Score>>, logged: seq<(nat, Score)>)
    requires |scores| == |group.members| && |done| + |scores| <= |results|
    requires forall k :: 0 <= k < |scores| ==> group.members[k].index == |done| + k
    requires results == Slots(done, |results|) && log == Numbered(done)
    ensures filled == Slots(done + scores, |results|) && logged == Numbered(done + scores)
  {
    filled, logged := results, log;
    assert done == done + scores[..0];
    for k := 0 to |scores|
      invariant filled == Slots(done + scores[..k], |results|)
      invariant logged == Numbered(done + scores[..k])
    {
      var index := group.members[k].index;
      filled := filled[index := Some(scores[k])];
      logged := logged + [(index, scores[k])];
      assert done + scores[..k + 1] == done + scores[..k] + [scores[k]];
    }
    assert scores[..|scores|] == scores;
  }

  lemma GroupFits(encoded: seq<Pair>, maximum: int, g: nat)
    requires maximum >= 1 && g < |Groups(encoded, maximum)|
    ensures var groups := Groups(encoded, maximum);
      && Cut(groups, g + 1) == Cut(groups, g) + |groups[g].members| <= |encoded|
      && forall k :: 0 <= k < |groups[g].members| ==> groups[g].members[k].index == Cut(groups, g) + k
  {
    hide GroupsFrom, Full;
    GroupFrom(encoded, maximum, 0, g);
  }

  method ScoreGroup(server: Server, group: Group) returns (scores: Result<seq<Score>>)
    ensures scores == GroupScores(server, group)
    ensures scores.Ok? ==> |scores.value| == |group.members|
  {
    scores := PostLoglikelihood(server, group.context, Continuations(group));
  }

  method ScoreGroups(server: Server, encoded: seq<Pair>, maximum: int)
    returns (result: Result<seq<Option<Score>>>, log: seq<(nat, Score)>)
    requires maximum >= 1
    ensures var groups := Groups(encoded, maximum);
      && log == Numbered(Recorded(server, groups, |groups|))
      && match Scored(server, groups, |groups|)
         case Ok(scores) => |scores| == |encoded| && result == Ok(Slots(scores, |encoded|))
         case Err(error) => result == Err(error)
  {
    hide GroupsFrom, GroupScores, Numbered;
    var results := seq(|encoded|, _ => None);
    log := [];
    var groups := AdjacentContextGroups(encoded, maximum);
    ghost var done: seq<Score> := [];
    assert results == Slots(done, |encoded|);
    assert log == Numbered(done);
    hide Slots, Cut;
    assert Cut(groups, 0) == 0;
    for g := 0 to |groups|
      invariant Scored(server, groups, g) == Ok(done) && |done| == Cut(groups, g) <= |encoded| == |results|
      invariant results == Slots(done, |encoded|) && log == Numbered(done)
    {
      GroupFits(encoded, maximum, g);
      var scores := ScoreGroup(server, groups[g]);
      if scores.Err? {
        ScoredFails(server, groups, g, |groups|);
        return Err(scores.error), log;
      }
      results, log := FillGroup(results, log, groups[g], scores.value, done);
      done := done + scores.value;
    }
    GroupsReachEnd(encoded, maximum, 0);
    result := Ok(results);
  }

  method CheckBoundaries(encoded: seq<Pair>) returns (gap: Option<nat>)
    ensures gap == if FirstUnbounded(encoded, 0) == |encoded| then None else Some(FirstUnbounded(encoded, 0))
  {
    for index := 0 to |encoded|
      invariant FirstUnbounded(encoded, 0) == FirstUnbounded(encoded, index)
    {
      if |encoded[index].context| == 0 || |encoded[index].continuation| == 0 {
        return Some(index);
      }
    }
    gap := None;
  }

  method Loglikelihood(client: Client, t: Tokenizer, server: Server, requests: seq<Request>)
    returns (result: Result<seq<Score>>, log: seq<(nat, Score)>)
    requires Valid(client)
    ensures result == Loglikelihoods(client, t, server, requests)
    ensures log == Numbered(RecordedScores(client, t, server, requests))
  {
    hide Encoded, Groups, Recorded, Scored, FirstUnbounded;
    var pairs := EncodeRequests(t, client.maxLength, requests);
    if pairs.Err? {
      return Err(pairs.error), [];
    }
    var gap := CheckBoundaries(pairs.value);
    if gap.Some? {
      return Err(EmptyBoundary(gap.value)), [];
    }
    var slots;
    slots, log := ScoreGroups(server, pairs.value, client.batchSize);
    if slots.Err? {
      return Err(slots.error), log;
    }
    var results := slots.value;
    if exists i :: 0 <= i < |results| && results[i].None? {
      return Err(Unscored), log;
    }
    ghost var groups := Groups(pairs.value, client.batchSize);
    ghost var scores := Scored(server, groups, |groups|).value;
    assert forall i :: 0 <= i < |scores| ==> results[i] == Some(scores[i]);
    result := Ok(seq(|results|, i requires 0 <= i < |results| && results[i].Some? => results[i].value));
    assert result.value == scores;
  }

  // ---- Batched scoring is pointwise scoring ---------------------------------------------

  // The server answers each continuation with its own score, in order.
  ghost predicate Faithful(server: Server, score: (Tokens, Tokens) -> Score) {
    forall context, continuations :: Answers(server(context, continuations), score, context, continuations)
  }

  ghost predicate Answers(
    reply: Reply, score: (Tokens, Tokens) -> Score, context: Tokens, continuations: seq<Tokens>)
  {
    && Accepted(reply, |continuations|)
    && forall k :: 0 <= k < |continuations| ==> reply.data.value[k].score == score(context, continuations[k])
  }

  function Pointwise(score: (Tokens, Tokens) -> Score, pairs: seq<Pair>): (scores: seq<Score>)
    ensures |scores| == |pairs|
    ensures forall i :: 0 <= i < |pairs| ==> scores[i] == score(pairs[i].context, pairs[i].continuation)
  {
    seq(|pairs|, i requires 0 <= i < |pairs| => score(pairs[i].context, pairs[i].continuation))
  }

  lemma GroupIsPointwise(
    server: Server, score: (Tokens, Tokens) -> Score, encoded: seq<Pair>, maximum: int, start: nat, stop: nat)
    requires Faithful(server, score) && Piece(encoded, maximum, start, stop)
    ensures GroupScores(server, Group(encoded[start].context, Members(encoded, start, stop)))
      == Ok(Pointwise(score, encoded[start..stop]))
  {
    var group := Group(encoded[start].context, Members(encoded, start, stop));
    var continuations := Continuations(group);
    var reply := server(group.context, continuations);
    assert Answers(reply, score, group.context, continuations);
    assert Scores(reply.data.value) == Pointwise(score, encoded[start..stop]);
  }

  lemma {:induction false} ScoredIsPointwise(
    server: Server, score: (Tokens, Tokens) -> Score, encoded: seq<Pair>, maximum: int, groups: seq<Group>, n: nat)
    requires Faithful(server, score) && Partitions(encoded, maximum, groups) && n <= |groups|
    ensures Cut(groups, n) <= |encoded|
    ensures Scored(server, groups, n) == Ok(Pointwise(score, encoded[..Cut(groups, n)]))
  {
    hide Faithful, Piece, Members, GroupScores, Partitions, Full;
    if n == 0 {
    } else {
      var start, stop := Cut(groups, n - 1), Cut(groups, n);
      ScoredIsPointwise(server, score, encoded, maximum, groups, n - 1);
      CoversAt(encoded, maximum, groups, n - 1);
      PieceStops(encoded, maximum, start, stop);
      GroupIsPointwise(server, score, encoded, maximum, start, stop);
      PointwiseJoins(score, encoded, start, stop);
    }
  }

  lemma PointwiseJoins(score: (Tokens, Tokens) -> Score, pairs: seq<Pair>, start: nat, stop: nat)
    requires start <= stop <= |pairs|
    ensures Pointwise(score, pairs[..stop]) == Pointwise(score, pairs[..start]) + Pointwise(score, pairs[start..stop])
  {
    assert pairs[..stop] == pairs[..start] + pairs[start..stop];
  }

  // However a batch is cut into groups, a faithful server's answers are the
  // pointwise scores.
  lemma PartitionIsIrrelevant(
    server: Server, score: (Tokens, Tokens) -> Score, encoded: seq<Pair>, maximum: int, groups: seq<Group>)
    requires Faithful(server, score) && Partitions(encoded, maximum, groups)
    ensures Scored(server, groups, |groups|) == Ok(Pointwise(score, encoded))
  {
    hide Faithful, Pointwise, Scored;
    ScoredIsPointwise(server, score, encoded, maximum, groups, |groups|);
    assert encoded[..|encoded|] == encoded;
  }

  predicate Scorable(t: Tokenizer, maxLength: int, r: Request) {
    Fitted(t, maxLength, r).Ok? && Bounded(Fitted(t, maxLength, r).value)
  }

  lemma {:induction false} EncodedSucceeds(t: Tokenizer, maxLength: int, requests: seq<Request>, n: nat)
    requires n <= |requests|
    ensures Encoded(t, maxLength, requests, n).Ok? <==>
      forall i :: 0 <= i < n ==> Fitted(t, maxLength, requests[i]).Ok?
  {
    hide Fitted;
    if n == 0 {
    } else {
      EncodedSucceeds(t, maxLength, requests, n - 1);
    }
  }

  // Against a faithful server a batch is scored exactly when each of its requests
  // could be scored alone, and every request gets the score of its own fitted pair.
  lemma BatchedIsPointwise(
    client: Client, t: Tokenizer, server: Server, score: (Tokens, Tokens) -> Score, requests: seq<Request>)
    requires Valid(client) && Faithful(server, score)
    ensures var result := Loglikelihoods(client, t, server, requests);
      && (result.Ok? <==> forall i :: 0 <= i < |requests| ==> Scorable(t, client.maxLength, requests[i]))
      && (result.Ok? ==>
        && |result.value| == |requests|
        && forall i :: 0 <= i < |requests| ==>
          var pair := Fitted(t, client.maxLength, requests[i]).value;
          result.value[i] == score(pair.context, pair.continuation))
  {
    hide Faithful, Fitted, Groups, Scored, Partitions;
    EncodedSucceeds(t, client.maxLength, requests, |requests|);
    var pairs := Encoded(t, client.maxLength, requests, |requests|);
    if pairs.Ok? && FirstUnbounded(pairs.value, 0) == |pairs.value| {
      GroupsPartition(pairs.value, client.batchSize);
      PartitionIsIrrelevant(server, score, pairs.value, client.batchSize, Groups(pairs.value, client.batchSize));
    }
  }

  // The batch size shows in neither the scores nor the error.
  lemma BatchSizeIsIrrelevant(
    client: Client, size: int, t: Tokenizer, server: Server, score: (Tokens, Tokens) -> Score, requests: seq<Request>)
    requires Valid(client) && 1 <= size <= 8 && Faithful(server, score)
    ensures Loglikelihoods(client, t, server, requests)
      == Loglikelihoods(client.(batchSize := size), t, server, requests)
  {
    hide Faithful, Groups, Scored, Partitions;
    var pairs := Encoded(t, client.maxLength, requests, |requests|);
    if pairs.Ok? {
      GroupsPartition(pairs.value, client.batchSize);
      PartitionIsIrrelevant(server, score, pairs.value, client.batchSize, Groups(pairs.value, client.batchSize));
      GroupsPartition(pairs.value, size);
      PartitionIsIrrelevant(server, score, pairs.value, size, Groups(pairs.value, size));
    }
  }

  // ---- Which refusal decides ----------------------------------------------------------

  // The first request whose continuation leaves no room decides the error,
  // before any boundary is looked at and before the server is asked.
  lemma FirstUnfittedDecides(
    client: Client, t: Tokenizer, server: Server, requests: seq<Request>, i: nat)
    requires Valid(client) && i < |requests|
    requires forall k :: 0 <= k < i ==> Fitted(t, client.maxLength, requests[k]).Ok?
    requires Fitted(t, client.maxLength, requests[i]).Err?
    ensures Loglikelihoods(client, t, server, requests) == Err(Fitted(t, client.maxLength, requests[i]).error)
    ensures RecordedScores(client, t, server, requests) == []
  {
    hide Fitted;
    EncodedSucceeds(t, client.maxLength, requests, i);
    EncodedFails(t, client.maxLength, requests, i + 1, |requests|);
  }

  // Then the first request without a token on both sides of its boundary does.
  lemma FirstUnboundedDecides(
    client: Client, t: Tokenizer, server: Server, requests: seq<Request>, i: nat)
    requires Valid(client) && i < |requests|
    requires forall k :: 0 <= k < |requests| ==> Fitted(t, client.maxLength, requests[k]).Ok?
    requires forall k :: 0 <= k < i ==> Bounded(Fitted(t, client.maxLength, requests[k]).value)
    requires !Bounded(Fitted(t, client.maxLength, requests[i]).value)
    ensures Loglikelihoods(client, t, server, requests) == Err(EmptyBoundary(i))
    ensures RecordedScores(client, t, server, requests) == []
  {
    hide Fitted, Bounded;
    EncodedSucceeds(t, client.maxLength, requests, |requests|);
    var pairs := Encoded(t, client.maxLength, requests, |requests|).value;
    assert !Bounded(pairs[i]);
    assert FirstUnbounded(pairs, 0) == i;
  }
}
