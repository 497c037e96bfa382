// The sampling loop of a device benchmark: every round visits every active
// case's tasks in a fresh order, and in adaptive mode a case retires once its
// running medians have converged.
module AdaptiveSampling {
  import opened Optional
  import opened Permutations
  import opened RoundOrder
  import opened Statistics

  datatype Adaptive = Adaptive(minimumSamples: nat, stabilityWindow: nat, relativeSpread: real)

  datatype Options = Options(samples: nat, adaptive: Option<Adaptive>)

  datatype Result<+T> = Ok(value: T) | Precondition(reason: string)

  // Refuses adaptive settings that could retire a case on too little evidence.
  function ValidateAdaptiveRepeats(options: Options): (result: Result<()>)
    ensures result.Ok? <==> options.adaptive.Some? ==>
      var a := options.adaptive.value;
      3 <= a.stabilityWindow <= a.minimumSamples <= options.samples && a.relativeSpread > 0.0
  {
    if options.adaptive.None? then Ok(())
    else
      var a := options.adaptive.value;
      if a.minimumSamples < 3 || a.minimumSamples > options.samples then
        Precondition("adaptive repeat floor must be in 3..=samples")
      else if a.stabilityWindow < 3 || a.stabilityWindow > a.minimumSamples then
        Precondition("adaptive stability window must be in 3..=repeat floor")
      else if a.relativeSpread <= 0.0 then
        Precondition("adaptive relative spread must be finite and positive")
      else Ok(())
  }

  // ---- Tasks ---------------------------------------------------------------------

  datatype Task = Leaf(index: nat) | Repeated(index: nat)

  // repeated[i] says whether case i also has a repeated graph.
  ghost predicate AllTasks(repeated: seq<bool>, tasks: seq<Task>) {
    && Distinct(tasks)
    && (forall t :: t in tasks <==> IsTask(repeated, t))
  }

  predicate IsTask(repeated: seq<bool>, task: Task) {
    task.index < |repeated| && (task.Repeated? ==> repeated[task.index])
  }

  method BuildTasks(repeated: seq<bool>) returns (tasks: seq<Task>)
    ensures AllTasks(repeated, tasks)
  {
    tasks := [];
    for index := 0 to |repeated|
      invariant Distinct(tasks)
      invariant forall t :: t in tasks <==> IsTask(repeated, t) && t.index < index
    {
      tasks := tasks + [Leaf(index)];
      if repeated[index] {
        tasks := tasks + [Repeated(index)];
      }
    }
  }

  // ---- Readings ------------------------------------------------------------------

  datatype Timing = Timing(hostSubmit: real, hostCompletion: real, device: real)

  // Whatever the timer reports for the leaf and the repeated graph of a case
  // in a round.
  datatype Clock = Clock(leaf: (nat, nat) -> Timing, path: (nat, nat) -> real)

  datatype CaseSamples = CaseSamples(
    hostSubmit: seq<real>, hostCompletion: seq<real>, deviceGraph: seq<real>, devicePath: seq<real>)

  const NO_SAMPLES := CaseSamples([], [], [], [])

  function Graph(clock: Clock, i: nat, n: nat): (readings: seq<real>)
    ensures |readings| == n
  {
    seq(n, s requires 0 <= s < n => clock.leaf(i, s).device)
  }

  function Path(clock: Clock, i: nat, n: nat): (readings: seq<real>)
    ensures |readings| == n
  {
    seq(n, s requires 0 <= s < n => clock.path(i, s))
  }

  // The readings of the first leafs and paths rounds, oldest first.
  function Collected(clock: Clock, i: nat, leafs: nat, paths: nat): CaseSamples {
    CaseSamples(
      seq(leafs, s requires 0 <= s < leafs => clock.leaf(i, s).hostSubmit),
      seq(leafs, s requires 0 <= s < leafs => clock.leaf(i, s).hostCompletion),
      Graph(clock, i, leafs), Path(clock, i, paths))
  }

  lemma CollectedNext(clock: Clock, i: nat, leafs: nat, paths: nat)
    ensures var now := Collected(clock, i, leafs, paths);
      && Collected(clock, i, leafs + 1, paths) == now.(
        hostSubmit := now.hostSubmit + [clock.leaf(i, leafs).hostSubmit],
        hostCompletion := now.hostCompletion + [clock.leaf(i, leafs).hostCompletion],
        deviceGraph := now.deviceGraph + [clock.leaf(i, leafs).device])
      && Collected(clock, i, leafs, paths + 1) == now.(devicePath := now.devicePath + [clock.path(i, paths)])
  {
  }

  // Complete evidence of n rounds.
  function Evidence(clock: Clock, repeated: seq<bool>, i: nat, n: nat): CaseSamples
    requires i < |repeated|
  {
    Collected(clock, i, n, if repeated[i] then n else 0)
  }

  // ---- One round -----------------------------------------------------------------

  // Case i holds counts[i] rounds, plus this one's readings for the tasks done.
  ghost predicate RoundSoFar(
      clock: Clock, repeated: seq<bool>, active: seq<bool>, counts: seq<nat>, done: set<Task>,
      samples: seq<CaseSamples>)
  {
    && |samples| == |active| == |counts| == |repeated|
    && forall i :: 0 <= i < |samples| ==>
        samples[i] == Collected(clock, i,
          counts[i] + (if active[i] && Leaf(i) in done then 1 else 0),
          (if repeated[i] then counts[i] else 0) + (if active[i] && Repeated(i) in done then 1 else 0))
  }

  lemma TaskDone(
      clock: Clock, repeated: seq<bool>, active: seq<bool>, counts: seq<nat>, done: set<Task>,
      samples: seq<CaseSamples>, task: Task, updated: CaseSamples)
    requires RoundSoFar(clock, repeated, active, counts, done, samples)
    requires IsTask(repeated, task) && task !in done
    requires var held, n := samples[task.index], counts[task.index];
      updated == if !active[task.index] then held else
        match task
        case Leaf(i) => held.(
          hostSubmit := held.hostSubmit + [clock.leaf(i, n).hostSubmit],
          hostCompletion := held.hostCompletion + [clock.leaf(i, n).hostCompletion],
          deviceGraph := held.deviceGraph + [clock.leaf(i, n).device])
        case Repeated(i) => held.(devicePath := held.devicePath + [clock.path(i, n)])
    ensures RoundSoFar(clock, repeated, active, counts, done + {task}, samples[task.index := updated])
  {
    hide Collected;
    var i, n := task.index, counts[task.index];
    CollectedNext(clock, i, n, if repeated[i] then n else 0);
    CollectedNext(clock, i, n + 1, if repeated[i] then n else 0);
    CollectedNext(clock, i, n, (if repeated[i] then n else 0) + 1);
  }

  method RunRound(
      clock: Clock, repeated: seq<bool>, tasks: seq<Task>, sample: nat, active: seq<bool>,
      samples: seq<CaseSamples>, ghost counts: seq<nat>)
      returns (next: seq<CaseSamples>)
    requires AllTasks(repeated, tasks) && |samples| == |active| == |counts| == |repeated|
    requires forall i :: 0 <= i < |samples| ==> samples[i] == Evidence(clock, repeated, i, counts[i])
    requires forall i :: 0 <= i < |active| && active[i] ==> counts[i] == sample
    ensures |next| == |samples|
    ensures forall i :: 0 <= i < |next| ==>
      next[i] == Evidence(clock, repeated, i, counts[i] + (if active[i] then 1 else 0))
  {
    hide Collected;
    next := samples;
    var order := MeasurementOrder(sample, |tasks|);
    OrderIsPermutation(sample, |tasks|, order);
    ghost var done: set<Task> := {};
    for p := 0 to |tasks|
      invariant forall t :: t in done <==> exists q :: 0 <= q < p && tasks[order[q]] == t
      invariant RoundSoFar(clock, repeated, active, counts, done, next)
    {
      var task := tasks[order[p]];
      assert task in tasks && task !in done;
      var held := next[task.index];
      var updated := Visit(clock, sample, active[task.index], task, held);
      TaskDone(clock, repeated, active, counts, done, next, task, updated);
      next := next[task.index := updated];
      done := done + {task};
    }
    forall i | 0 <= i < |next|
      ensures next[i] == Evidence(clock, repeated, i, counts[i] + (if active[i] then 1 else 0))
    {
      Covered(repeated, tasks, order, Leaf(i));
      Covered(repeated, tasks, order, Repeated(i));
    }
  }

  // Takes a task's reading, unless its case has retired.
  method Visit(clock: Clock, sample: nat, active: bool, task: Task, held: CaseSamples) returns (updated: CaseSamples)
    ensures updated == if !active then held else
      match task
      case Leaf(i) => held.(
        hostSubmit := held.hostSubmit + [clock.leaf(i, sample).hostSubmit],
        hostCompletion := held.hostCompletion + [clock.leaf(i, sample).hostCompletion],
        deviceGraph := held.deviceGraph + [clock.leaf(i, sample).device])
      case Repeated(i) => held.(devicePath := held.devicePath + [clock.path(i, sample)])
  {
    updated := held;
    if !active {
      return;
    }
    match task
    case Leaf(i) =>
      var timing := clock.leaf(i, sample);
      updated := updated.(
        hostSubmit := held.hostSubmit + [timing.hostSubmit],
        hostCompletion := held.hostCompletion + [timing.hostCompletion],
        deviceGraph := held.deviceGraph + [timing.device]);
    case Repeated(i) =>
      updated := updated.(devicePath := held.devicePath + [clock.path(i, sample)]);
  }

  lemma Covered(repeated: seq<bool>, tasks: seq<Task>, order: seq<nat>, task: Task)
    requires AllTasks(repeated, tasks) && IsPermutation(order, |tasks|)
    ensures IsTask(repeated, task) <==> exists q :: 0 <= q < |tasks| && tasks[order[q]] == task
  {
    if IsTask(repeated, task) {
      assert task in tasks;
      var k: nat :| k < |tasks| && tasks[k] == task;
      assert k in order;
      var q :| 0 <= q < |order| && order[q] == k;
      assert tasks[order[q]] == task;
    }
  }

  // ---- Convergence ---------------------------------------------------------------

  // The median after each reading.
  function Medians(readings: seq<real>): (medians: seq<real>)
    ensures |medians| == |readings|
  {
    seq(|readings|, k requires 0 <= k < |readings| => SampleMedian(readings[..k + 1]))
  }

  lemma MediansNext(clock: Clock, i: nat, n: nat)
    ensures Medians(Graph(clock, i, n + 1)) == Medians(Graph(clock, i, n)) + [SampleMedian(Graph(clock, i, n + 1))]
    ensures Medians(Path(clock, i, n + 1)) == Medians(Path(clock, i, n)) + [SampleMedian(Path(clock, i, n + 1))]
  {
    hide SampleMedian;
    PrefixMedians(Graph(clock, i, n), Graph(clock, i, n + 1));
    PrefixMedians(Path(clock, i, n), Path(clock, i, n + 1));
  }

  lemma PrefixMedians(readings: seq<real>, more: seq<real>)
    requires |more| == |readings| + 1 && more[..|readings|] == readings
    ensures Medians(more) == Medians(readings) + [SampleMedian(more)]
  {
    hide SampleMedian;
    assert more[..|more|] == more;
    forall k | 0 <= k < |readings|
      ensures Medians(more)[k] == Medians(readings)[k]
    {
      assert more[..k + 1] == readings[..k + 1];
    }
  }

  // Whether n rounds are enough evidence for case i.
  ghost predicate Converged(clock: Clock, repeated: seq<bool>, a: Adaptive, i: nat, n: nat)
    requires i < |repeated| && a.stabilityWindow > 0
  {
    && n >= a.minimumSamples
    && MedianWindowStable(Medians(Graph(clock, i, n)), a.stabilityWindow, a.relativeSpread)
    && (repeated[i] ==> MedianWindowStable(Medians(Path(clock, i, n)), a.stabilityWindow, a.relativeSpread))
  }

  // One case's test after a round: its new running medians, and whether it stays.
  method TestCase(a: Adaptive, samples: CaseSamples, graphMedians: seq<real>, pathMedians: seq<real>,
      ghost clock: Clock, ghost repeated: seq<bool>, ghost i: nat, ghost n: nat)
      returns (graph: seq<real>, path: seq<real>, stays: bool)
    requires i < |repeated| && a.stabilityWindow > 0
    requires samples == Evidence(clock, repeated, i, n + 1)
    requires graphMedians == Medians(Graph(clock, i, n))
    requires pathMedians == if repeated[i] then Medians(Path(clock, i, n)) else []
    ensures graph == Medians(Graph(clock, i, n + 1))
    ensures path == if repeated[i] then Medians(Path(clock, i, n + 1)) else []
    ensures stays == !Converged(clock, repeated, a, i, n + 1)
  {
    hide SampleMedian, Medians, MedianWindowStable;
    MediansNext(clock, i, n);
    graph := graphMedians + [SampleMedian(samples.deviceGraph)];
    path := pathMedians;
    if |samples.devicePath| > 0 {
      path := path + [SampleMedian(samples.devicePath)];
    }
    var count := |samples.deviceGraph|;
    var graphStable := count >= a.minimumSamples && MedianWindowStable(graph, a.stabilityWindow, a.relativeSpread);
    var pathStable := |path| == 0
      || (count >= a.minimumSamples && MedianWindowStable(path, a.stabilityWindow, a.relativeSpread));
    stays := !(graphStable && pathStable);
  }

  // After sample rounds: active cases hold all of them and have not converged,
  // retired cases stopped at the first round that convinced.
  ghost predicate InStep(
      clock: Clock, repeated: seq<bool>, adaptive: Option<Adaptive>, sample: nat,
      samples: seq<CaseSamples>, active: seq<bool>, counts: seq<nat>)
  {
    && |samples| == |active| == |counts| == |repeated|
    && (adaptive.Some? ==> adaptive.value.stabilityWindow > 0)
    && forall i :: 0 <= i < |samples| ==>
        && samples[i] == Evidence(clock, repeated, i, counts[i])
        && StoppedAt(clock, repeated, adaptive, i, counts[i], sample, active[i])
  }

  ghost predicate StoppedAt(
      clock: Clock, repeated: seq<bool>, adaptive: Option<Adaptive>, i: nat, n: nat, sample: nat, active: bool)
    requires i < |repeated| && (adaptive.Some? ==> adaptive.value.stabilityWindow > 0)
  {
    && (active ==> n == sample)
    && (!active ==> adaptive.Some? && 0 < n <= sample && Converged(clock, repeated, adaptive.value, i, n))
    && (adaptive.Some? ==>
      forall m :: 0 < m <= n && (active || m < n) ==> !Converged(clock, repeated, adaptive.value, i, m))
  }

  ghost predicate MediansInStep(
      clock: Clock, repeated: seq<bool>, sample: nat, active: seq<bool>,
      graphMedians: seq<seq<real>>, pathMedians: seq<seq<real>>)
  {
    && |graphMedians| == |pathMedians| == |active| == |repeated|
    && forall i :: 0 <= i < |active| && active[i] ==>
        && graphMedians[i] == Medians(Graph(clock, i, sample))
        && pathMedians[i] == if repeated[i] then Medians(Path(clock, i, sample)) else []
  }

  // The adaptive half of a round: every active case is tested once.
  method RetireConverged(
      clock: Clock, repeated: seq<bool>, a: Adaptive, ghost sample: nat, samples: seq<CaseSamples>,
      active: seq<bool>, graphMedians: seq<seq<real>>, pathMedians: seq<seq<real>>)
      returns (stays: seq<bool>, graph: seq<seq<real>>, path: seq<seq<real>>)
    requires a.stabilityWindow > 0 && |samples| == |repeated|
    requires MediansInStep(clock, repeated, sample, active, graphMedians, pathMedians)
    requires forall i :: 0 <= i < |samples| && active[i] ==> samples[i] == Evidence(clock, repeated, i, sample + 1)
    ensures |stays| == |active| && MediansInStep(clock, repeated, sample + 1, stays, graph, path)
    ensures forall i :: 0 <= i < |active| ==>
      stays[i] == (active[i] && !Converged(clock, repeated, a, i, sample + 1))
  {
    hide Evidence, Medians, Converged;
    stays, graph, path := active, graphMedians, pathMedians;
    for i := 0 to |samples|
      invariant |stays| == |graph| == |path| == |active|
      invariant forall j :: 0 <= j < i ==> stays[j] == (active[j] && !Converged(clock, repeated, a, j, sample + 1))
      invariant forall j :: i <= j < |active| ==> stays[j] == active[j]
      invariant forall j :: i <= j < |active| ==> graph[j] == graphMedians[j] && path[j] == pathMedians[j]
      invariant forall j :: 0 <= j < i && active[j] ==>
        && graph[j] == Medians(Graph(clock, j, sample + 1))
        && path[j] == if repeated[j] then Medians(Path(clock, j, sample + 1)) else []
    {
      if stays[i] {
        var graphNow, pathNow, stay :=
          TestCase(a, samples[i], graph[i], path[i], clock, repeated, i, sample);
        graph, path, stays := graph[i := graphNow], path[i := pathNow], stays[i := stay];
      }
    }
  }

  // ---- The whole sweep -------------------------------------------------------------

  // How a case ends: with complete evidence of n rounds, where n is the cap, or
  // in adaptive mode the first round at which it had converged.
  ghost predicate Finished(clock: Clock, repeated: seq<bool>, options: Options, i: nat, samples: CaseSamples)
    requires i < |repeated| && (options.adaptive.Some? ==> options.adaptive.value.stabilityWindow > 0)
  {
    var n := |samples.deviceGraph|;
    && samples == Evidence(clock, repeated, i, n)
    && n <= options.samples
    && (options.adaptive.None? ==> n == options.samples)
    && (options.adaptive.Some? ==>
      && (n < options.samples ==> n > 0 && Converged(clock, repeated, options.adaptive.value, i, n))
      && forall m :: 0 < m < n ==> !Converged(clock, repeated, options.adaptive.value, i, m))
  }

  method MeasureCases(clock: Clock, repeated: seq<bool>, options: Options) returns (result: Result<seq<CaseSamples>>)
    ensures result.Ok? == ValidateAdaptiveRepeats(options).Ok?
    ensures result.Ok? ==>
      && |result.value| == |repeated|
      && forall i :: 0 <= i < |repeated| ==> Finished(clock, repeated, options, i, result.value[i])
  {
    var validated := ValidateAdaptiveRepeats(options);
    if validated.Precondition? {
      return Precondition(validated.reason);
    }
    hide Evidence, Converged, Medians;
    var tasks := BuildTasks(repeated);
    var samples := seq(|repeated|, _ => NO_SAMPLES);
    var graphMedians: seq<seq<real>> := seq(|repeated|, _ => []);
    var pathMedians: seq<seq<real>> := seq(|repeated|, _ => []);
    var active := seq(|repeated|, _ => true);
    ghost var counts: seq<nat> := seq(|repeated|, _ => 0);
    NothingYet(clock, repeated);
    var sample := 0;
    while sample < options.samples
      invariant sample <= options.samples
      invariant InStep(clock, repeated, options.adaptive, sample, samples, active, counts)
      invariant options.adaptive.Some? ==>
        MediansInStep(clock, repeated, sample, active, graphMedians, pathMedians)
    {
      var next := RunRound(clock, repeated, tasks, sample, active, samples, counts);
      ghost var advanced := seq(|repeated|, i requires 0 <= i < |repeated| =>
        if active[i] then counts[i] + 1 else counts[i]);
      var stays := active;
      if options.adaptive.Some? {
        stays, graphMedians, pathMedians := RetireConverged(
          clock, repeated, options.adaptive.value, sample, next, active, graphMedians, pathMedians);
      }
      RoundInStep(clock, repeated, options.adaptive, sample, samples, active, counts, next, stays, advanced);
      samples, active, counts, sample := next, stays, advanced, sample + 1;
      if options.adaptive.Some? && (forall i :: 0 <= i < |active| ==> !active[i]) {
        break;
      }
    }
    EndsFinished(clock, repeated, options, sample, samples, active, counts);
    result := Ok(samples);
  }

  // Once the cap is reached or, in adaptive mode, every case has retired, all
  // cases are finished.
  lemma EndsFinished(
      clock: Clock, repeated: seq<bool>, options: Options, sample: nat,
      samples: seq<CaseSamples>, active: seq<bool>, counts: seq<nat>)
    requires options.adaptive.Some? ==> options.adaptive.value.stabilityWindow > 0
    requires sample <= options.samples
    requires InStep(clock, repeated, options.adaptive, sample, samples, active, counts)
    requires sample == options.samples
      || (options.adaptive.Some? && forall i :: 0 <= i < |active| ==> !active[i])
    ensures |samples| == |repeated|
    ensures forall i :: 0 <= i < |repeated| ==> Finished(clock, repeated, options, i, samples[i])
  {
    hide Evidence, Converged;
    forall i | 0 <= i < |repeated|
      ensures Finished(clock, repeated, options, i, samples[i])
    {
      EvidenceCounts(clock, repeated, i, counts[i]);
    }
  }

  lemma NothingYet(clock: Clock, repeated: seq<bool>)
    ensures forall i :: 0 <= i < |repeated| ==>
      && Evidence(clock, repeated, i, 0) == NO_SAMPLES
      && Medians(Graph(clock, i, 0)) == [] && Medians(Path(clock, i, 0)) == []
  {
    forall i | 0 <= i < |repeated|
      ensures Evidence(clock, repeated, i, 0) == NO_SAMPLES
    {
      assert Evidence(clock, repeated, i, 0).hostSubmit == [] && Evidence(clock, repeated, i, 0).hostCompletion == [];
    }
  }

  lemma EvidenceCounts(clock: Clock, repeated: seq<bool>, i: nat, n: nat)
    requires i < |repeated|
    ensures |Evidence(clock, repeated, i, n).deviceGraph| == n
  {
  }

  lemma RoundInStep(
      clock: Clock, repeated: seq<bool>, adaptive: Option<Adaptive>, sample: nat,
      samples: seq<CaseSamples>, active: seq<bool>, counts: seq<nat>,
      next: seq<CaseSamples>, stays: seq<bool>, advanced: seq<nat>)
    requires InStep(clock, repeated, adaptive, sample, samples, active, counts)
    requires |next| == |stays| == |advanced| == |repeated|
    requires forall i :: 0 <= i < |repeated| ==> advanced[i] == counts[i] + (if active[i] then 1 else 0)
    requires forall i :: 0 <= i < |repeated| ==> next[i] == Evidence(clock, repeated, i, advanced[i])
    requires adaptive.None? ==> stays == active
    requires adaptive.Some? ==> forall i :: 0 <= i < |repeated| ==>
      stays[i] == (active[i] && !Converged(clock, repeated, adaptive.value, i, sample + 1))
    ensures InStep(clock, repeated, adaptive, sample + 1, next, stays, advanced)
  {
    hide Evidence, Converged;
    forall i | 0 <= i < |repeated|
      ensures StoppedAt(clock, repeated, adaptive, i, advanced[i], sample + 1, stays[i])
    {
    }
  }

  // ---- What a finished case tells its reader -----------------------------------------

  // A case's evidence depends on its own readings alone: the other cases cannot
  // change it.
  lemma EvidenceIsIndependent(
      clock: Clock, other: Clock, repeated: seq<bool>, cases: seq<bool>, options: Options, i: nat, j: nat,
      a: CaseSamples, b: CaseSamples)
    requires i < |repeated| && j < |cases| && repeated[i] == cases[j] && ValidateAdaptiveRepeats(options).Ok?
    requires forall s: nat :: clock.leaf(i, s) == other.leaf(j, s) && clock.path(i, s) == other.path(j, s)
    requires Finished(clock, repeated, options, i, a) && Finished(other, cases, options, j, b)
    ensures a == b
  {
    hide Medians, MedianWindowStable;
    var n, m := |a.deviceGraph|, |b.deviceGraph|;
    if options.adaptive.Some? {
      SameConvergence(clock, other, repeated, cases, options.adaptive.value, i, j, n);
      SameConvergence(clock, other, repeated, cases, options.adaptive.value, i, j, m);
    }
    assert n == m;
    SameReadings(clock, other, i, j, n);
    assert a.hostSubmit == b.hostSubmit && a.hostCompletion == b.hostCompletion;
  }

  lemma SameReadings(clock: Clock, other: Clock, i: nat, j: nat, n: nat)
    requires forall s: nat :: clock.leaf(i, s) == other.leaf(j, s) && clock.path(i, s) == other.path(j, s)
    ensures Graph(clock, i, n) == Graph(other, j, n) && Path(clock, i, n) == Path(other, j, n)
  {
  }

  lemma SameConvergence(
      clock: Clock, other: Clock, repeated: seq<bool>, cases: seq<bool>, a: Adaptive, i: nat, j: nat, n: nat)
    requires i < |repeated| && j < |cases| && repeated[i] == cases[j] && a.stabilityWindow > 0
    requires forall s: nat :: clock.leaf(i, s) == other.leaf(j, s) && clock.path(i, s) == other.path(j, s)
    ensures Converged(clock, repeated, a, i, n) == Converged(other, cases, a, j, n)
  {
    hide Medians, MedianWindowStable;
    SameReadings(clock, other, i, j, n);
  }
}
