// What a finished case of an adaptive run tells its reader, in terms of its
// readings and their medians alone.
module AdaptiveEvidence {
  import opened AdaptiveSampling
  import opened Statistics

  // recent lists the median of the readings after each of the last ones.
  ghost predicate LastMedians(readings: seq<real>, recent: seq<real>) {
    |recent| <= |readings|
    && forall k :: 0 <= k < |recent| ==> IsMedian(readings[..|readings| - |recent| + k + 1], recent[k])
  }

  // Around their own median, which is positive, no two differ by more than the spread.
  ghost predicate Close(recent: seq<real>, center: real, spread: real) {
    && IsMedian(recent, center) && center > 0.0
    && Within(recent, spread * center)
  }

  predicate Within(recent: seq<real>, bound: real) {
    forall j, k :: 0 <= j < |recent| && 0 <= k < |recent| ==> recent[j] - recent[k] <= bound
  }

  lemma WithinMembers(recent: seq<real>, bound: real)
    ensures Within(recent, bound) <==> forall x, y :: x in recent && y in recent ==> x - y <= bound
  {
    if forall x, y :: x in recent && y in recent ==> x - y <= bound {
      forall j, k | 0 <= j < |recent| && 0 <= k < |recent|
        ensures recent[j] - recent[k] <= bound
      {
        assert recent[j] in recent && recent[k] in recent;
      }
    }
  }

  // The last window running medians of the readings are close.
  ghost predicate Settles(readings: seq<real>, window: nat, spread: real) {
    exists recent, center :: |recent| == window && LastMedians(readings, recent) && Close(recent, center, spread)
  }

  lemma RecentMedians(readings: seq<real>, window: nat, recent: seq<real>)
    requires 0 < window <= |readings|
    ensures recent == Medians(readings)[|readings| - window..] <==> |recent| == window && LastMedians(readings, recent)
  {
    hide SampleMedian, IsMedian;
    var tail := Medians(readings)[|readings| - window..];
    if |recent| == window {
      forall k | 0 <= k < window
        ensures recent[k] == tail[k] <==> IsMedian(readings[..|readings| - window + k + 1], recent[k])
      {
        assert tail[k] == SampleMedian(readings[..|readings| - window + k + 1]);
        MedianIsExact(readings[..|readings| - window + k + 1], recent[k]);
      }
    }
  }

  // The test of the sampling loop is exactly that.
  lemma StableSettles(readings: seq<real>, window: nat, spread: real)
    requires window > 0
    ensures MedianWindowStable(Medians(readings), window, spread) <==> Settles(readings, window, spread)
  {
    hide SampleMedian, IsMedian, MedianWindowStable, LastMedians;
    if window <= |readings| {
      var recent := Medians(readings)[|readings| - window..];
      RecentMedians(readings, window, recent);
      StableMeansClose(Medians(readings), window, spread);
      CloseMeans(recent, spread);
      forall other | |other| == window && LastMedians(readings, other)
        ensures other == recent
      {
        RecentMedians(readings, window, other);
      }
    } else {
      TooFew(readings, window, spread);
    }
  }

  lemma TooFew(readings: seq<real>, window: nat, spread: real)
    requires window > |readings|
    ensures !MedianWindowStable(Medians(readings), window, spread) && !Settles(readings, window, spread)
  {
  }

  lemma CloseMeans(recent: seq<real>, spread: real)
    requires |recent| > 0
    ensures (exists center :: Close(recent, center, spread)) <==>
      && SampleMedian(recent) > 0.0
      && forall x, y :: x in recent && y in recent ==> x - y <= spread * SampleMedian(recent)
  {
    hide *;
    var median := SampleMedian(recent);
    var bound := spread * median;
    MedianIsExact(recent, median);
    WithinMembers(recent, bound);
    if center :| Close(recent, center, spread) {
      CloseAt(recent, center, spread, spread * center);
      MedianIsExact(recent, center);
      CloseAt(recent, median, spread, bound);
    }
    if median > 0.0 && Within(recent, bound) {
      CloseIs(recent, median, spread, bound);
    }
  }

  lemma CloseAt(recent: seq<real>, center: real, spread: real, bound: real)
    requires Close(recent, center, spread) && bound == spread * center
    ensures center > 0.0 && IsMedian(recent, center) && Within(recent, bound)
  {
    hide IsMedian, Within;
  }

  lemma CloseIs(recent: seq<real>, center: real, spread: real, bound: real)
    requires IsMedian(recent, center) && center > 0.0 && bound == spread * center && Within(recent, bound)
    ensures Close(recent, center, spread)
  {
    hide IsMedian, Within;
  }

  // Whether the first n rounds of a case's readings are enough evidence.
  ghost predicate Enough(a: Adaptive, repeated: bool, samples: CaseSamples, n: nat)
    requires n <= |samples.deviceGraph| && (repeated ==> n <= |samples.devicePath|)
  {
    && n >= a.minimumSamples
    && Settles(samples.deviceGraph[..n], a.stabilityWindow, a.relativeSpread)
    && (repeated ==> Settles(samples.devicePath[..n], a.stabilityWindow, a.relativeSpread))
  }

  // The samples are the timer's readings of as many rounds, all of them.
  ghost predicate Recorded(clock: Clock, repeated: bool, i: nat, samples: CaseSamples) {
    var n := |samples.deviceGraph|;
    && |samples.hostSubmit| == |samples.hostCompletion| == n && |samples.devicePath| == (if repeated then n else 0)
    && (forall s :: 0 <= s < n ==> samples.hostSubmit[s] == clock.leaf(i, s).hostSubmit)
    && (forall s :: 0 <= s < n ==> samples.hostCompletion[s] == clock.leaf(i, s).hostCompletion)
    && (forall s :: 0 <= s < n ==> samples.deviceGraph[s] == clock.leaf(i, s).device)
    && (repeated ==> forall s :: 0 <= s < n ==> samples.devicePath[s] == clock.path(i, s))
  }

  // A case stops at the cap, or at the first round whose readings were enough.
  ghost predicate StopsInTime(clock: Clock, repeated: bool, options: Options, i: nat, samples: CaseSamples) {
    var n := |samples.deviceGraph|;
    && Recorded(clock, repeated, i, samples) && n <= options.samples
    && match options.adaptive
       case None => n == options.samples
       case Some(a) =>
         && (n < options.samples ==> n > 0 && Enough(a, repeated, samples, n))
         && forall m :: 0 < m < n ==> !Enough(a, repeated, samples, m)
  }

  lemma RecordedIsEvidence(clock: Clock, repeated: seq<bool>, i: nat, samples: CaseSamples)
    requires i < |repeated|
    ensures samples == Evidence(clock, repeated, i, |samples.deviceGraph|) <==> Recorded(clock, repeated[i], i, samples)
  {
    var n := |samples.deviceGraph|;
    var evidence := Evidence(clock, repeated, i, n);
    if Recorded(clock, repeated[i], i, samples) {
      assert samples.hostSubmit == evidence.hostSubmit && samples.hostCompletion == evidence.hostCompletion;
      assert samples.deviceGraph == evidence.deviceGraph && samples.devicePath == evidence.devicePath;
    }
  }

  lemma ConvergedIsEnough(clock: Clock, repeated: seq<bool>, a: Adaptive, i: nat, samples: CaseSamples, m: nat)
    requires i < |repeated| && a.stabilityWindow > 0 && Recorded(clock, repeated[i], i, samples)
    requires m <= |samples.deviceGraph|
    ensures Converged(clock, repeated, a, i, m) <==> Enough(a, repeated[i], samples, m)
  {
    hide MedianWindowStable, Medians, Settles;
    assert samples.deviceGraph[..m] == Graph(clock, i, m);
    StableSettles(Graph(clock, i, m), a.stabilityWindow, a.relativeSpread);
    if repeated[i] {
      assert samples.devicePath[..m] == Path(clock, i, m);
      StableSettles(Path(clock, i, m), a.stabilityWindow, a.relativeSpread);
    }
  }

  // So that is how every case of a run ends.
  lemma FinishedMeaning(clock: Clock, repeated: seq<bool>, options: Options, i: nat, samples: CaseSamples)
    requires i < |repeated| && (options.adaptive.Some? ==> options.adaptive.value.stabilityWindow > 0)
    ensures Finished(clock, repeated, options, i, samples) <==> StopsInTime(clock, repeated[i], options, i, samples)
  {
    hide Evidence, Converged, Enough, Recorded;
    RecordedIsEvidence(clock, repeated, i, samples);
    if Recorded(clock, repeated[i], i, samples) && options.adaptive.Some? {
      RecordedLengths(clock, repeated[i], i, samples);
      forall m | 0 <= m <= |samples.deviceGraph|
        ensures Converged(clock, repeated, options.adaptive.value, i, m)
          <==> Enough(options.adaptive.value, repeated[i], samples, m)
      {
        ConvergedIsEnough(clock, repeated, options.adaptive.value, i, samples, m);
      }
    }
  }

  // Leaf and repeated readings come in equal numbers; an adaptive case below its cap
  // has at least the minimum, and its last running medians lie within the spread of
  // their own median.
  lemma FinishedEvidence(clock: Clock, repeated: seq<bool>, options: Options, i: nat, samples: CaseSamples)
    requires i < |repeated| && ValidateAdaptiveRepeats(options).Ok?
    requires Finished(clock, repeated, options, i, samples)
    ensures |samples.hostSubmit| == |samples.hostCompletion| == |samples.deviceGraph|
    ensures |samples.devicePath| == if repeated[i] then |samples.deviceGraph| else 0
    ensures options.adaptive.Some? && |samples.deviceGraph| < options.samples ==>
      var a := options.adaptive.value;
      && a.minimumSamples <= |samples.deviceGraph| && Settles(samples.deviceGraph, a.stabilityWindow, a.relativeSpread)
      && (repeated[i] ==> Settles(samples.devicePath, a.stabilityWindow, a.relativeSpread))
  {
    hide Finished, Settles;
    FinishedMeaning(clock, repeated, options, i, samples);
    assert samples.deviceGraph[..|samples.deviceGraph|] == samples.deviceGraph;
    assert samples.devicePath[..|samples.devicePath|] == samples.devicePath;
  }

  lemma RecordedLengths(clock: Clock, repeated: bool, i: nat, samples: CaseSamples)
    requires Recorded(clock, repeated, i, samples)
    ensures repeated ==> |samples.devicePath| == |samples.deviceGraph|
  {
  }
}
