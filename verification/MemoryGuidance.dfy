/** How the next batch of a search follows from the memory its trials measured. */
module MemoryGuidance {
  import opened Prelude
  import opened BatchEstimation
  import opened SearchInvariants

  // ----- what the measurements and the limits mean -----

  /** A trial counts as a success exactly when it claims one, shows it in full, and every rank stayed in its share. */
  lemma SuccessMeans(trial: Trial, profile: TrainingProfile, settings: Settings)
    ensures Observation(trial, profile, settings) == Success <==>
      && trial.status == Success && trial.actualGlobalBatch == Some(trial.globalBatch)
      && |trial.peaks| == |profile.gpus| && trial.optimizerPaths == profile.recipe.optimizers
      && trial.warmupSteps >= settings.warmupSteps && trial.measuredSteps >= settings.measuredSteps
      && trial.validationSteps >= 1
      && forall i :: 0 <= i < |profile.gpus| ==>
           trial.peaks[i] > 0
           && trial.peaks[i] as real <= profile.gpus[i].totalMemory as real * settings.memoryFraction
  {
    if CompleteEvidence(trial, profile, settings) {
      forall i | 0 <= i < |profile.gpus|
        ensures trial.peaks[i] <= Budget(profile.gpus[i], settings)
           <==> trial.peaks[i] as real <= profile.gpus[i].totalMemory as real * settings.memoryFraction
      {
        FloorBounds(trial.peaks[i], profile.gpus[i].totalMemory as real * settings.memoryFraction);
      }
    }
  }

  lemma FloorBounds(k: int, x: real)
    ensures k <= x.Floor <==> k as real <= x
  {
  }

  /** The ceiling is the largest batch on the grid that every rank can run within the requested maximum. */
  lemma CeilingIsLargest(profile: TrainingProfile, settings: Settings, c: nat)
    requires OnGrid(c, settings)
    ensures c <= Ceiling(profile, settings) <==> c * profile.World() <= settings.maxGlobalBatch
  {
    var n: pos, m := profile.World(), settings.maxGlobalBatch;
    var q := m / n;
    assert m == q * n + m % n;
    if c <= q {
      MulMonotone(c, q, n);
    } else {
      MulMonotone(q + 1, c, n);
    }
  }

  // ----- the next batch -----

  /** Images per rank of a trial. */
  function PerRank(trial: Trial, profile: TrainingProfile): int {
    trial.globalBatch / profile.World()
  }

  /** Both trials measured every rank. */
  predicate Measured(before: Trial, after: Trial, profile: TrainingProfile) {
    |before.peaks| == |after.peaks| == |profile.gpus|
  }

  /** Memory grew on every rank. */
  predicate Grew(before: Trial, after: Trial, profile: TrainingProfile)
    requires Measured(before, after, profile)
  {
    forall i :: 0 <= i < |profile.gpus| ==> before.peaks[i] < after.peaks[i]
  }

  /** On the straight line through this rank's last two peaks, a batch of `c` stays within its budget. */
  ghost predicate RankFits(before: Trial, after: Trial, profile: TrainingProfile, settings: Settings, c: int, i: nat)
    requires Measured(before, after, profile) && i < |profile.gpus|
  {
    var first, second := PerRank(before, profile), PerRank(after, profile);
    var low: int, high: int := before.peaks[i], after.peaks[i];
    (c - second) * (high - low) <= (Budget(profile.gpus[i], settings) - high) * (second - first)
  }

  /** Within the ceiling, four times the lower bound and every rank's line. */
  ghost predicate Allowed(s: BatchSearch, ceiling: nat, before: Trial, after: Trial, c: int)
    requires Measured(before, after, s.profile)
  {
    && c <= ceiling && c <= 4 * s.lower
    && forall i :: 0 <= i < |s.profile.gpus| ==> RankFits(before, after, s.profile, s.settings, c, i)
  }

  /** The largest allowed batch on the grid, and one step up when none above the lower bound is allowed. */
  ghost predicate LargestAllowed(s: BatchSearch, ceiling: nat, before: Trial, after: Trial, c: int)
    requires Measured(before, after, s.profile)
  {
    && s.lower < c && OnGrid(c, s.settings)
    && (c == s.lower + Step(s.settings) || Allowed(s, ceiling, before, after, c))
    && forall d :: Allowed(s, ceiling, before, after, d) ==> d < c + Step(s.settings)
  }

  /** The batch after a list of trials whose last one moved a bound. */
  ghost predicate NextChoice(s: BatchSearch, ceiling: nat, c: int) {
    if s.upper.Some? then
      s.lower < c < s.upper.value && OnGrid(c, s.settings)
      && (c == s.lower + Step(s.settings) || 2 * c <= s.lower + s.upper.value)
      && 2 * (c + Step(s.settings)) > s.lower + s.upper.value
    else if s.settings.strategy == ExponentialBinaryV1 || |s.trials| <= 1 then c == Min(2 * s.lower, ceiling)
    else
      var before, after := s.trials[|s.trials| - 2], s.trials[|s.trials| - 1];
      && Measured(before, after, s.profile)
      && if Grew(before, after, s.profile) then LargestAllowed(s, ceiling, before, after, c)
         else c == Min(2 * s.lower, ceiling)
  }

  lemma DivisionBound(x: int, d: pos, k: int)
    ensures k <= x / d <==> k * d <= x
  {
    var q := x / d;
    assert x == q * d + x % d;
    if k <= q { MulMonotone(k, q, d); } else { MulMonotone(q + 1, k, d); }
  }

  /** A rank's prediction is the largest batch its line allows. */
  lemma PredictionFits(before: Trial, after: Trial, profile: TrainingProfile, settings: Settings, c: int, i: nat)
    requires Measured(before, after, profile) && i < |profile.gpus| && before.peaks[i] < after.peaks[i]
    ensures RankFits(before, after, profile, settings, c, i) <==>
      c <= Prediction(before.peaks[i], after.peaks[i], Budget(profile.gpus[i], settings), PerRank(before, profile),
                      PerRank(after, profile))
  {
    var first, second := PerRank(before, profile), PerRank(after, profile);
    DivisionBound((Budget(profile.gpus[i], settings) - after.peaks[i]) * (second - first),
                  after.peaks[i] - before.peaks[i], c - second);
  }

  /** The extrapolated batch is the largest one all limits allow, unless that is not above the lower bound. */
  lemma ExtrapolatedIsLargest(s: BatchSearch, ceiling: nat, before: Trial, after: Trial, c: int)
    requires Measured(before, after, s.profile) && Grew(before, after, s.profile)
    ensures Allowed(s, ceiling, before, after, c) ==> c <= Extrapolated(s, ceiling, before, after)
    ensures c <= Extrapolated(s, ceiling, before, after) && c > s.lower + Step(s.settings)
            ==> Allowed(s, ceiling, before, after, c)
  {
    hide RankFits, Budget, Prediction, Step;
    var first, second := PerRank(before, s.profile), PerRank(after, s.profile);
    var predictions := Predictions(before.peaks, after.peaks, s, first, second);
    forall i | 0 <= i < |s.profile.gpus|
      ensures RankFits(before, after, s.profile, s.settings, c, i) <==> c <= predictions[i]
    {
      PredictionFits(before, after, s.profile, s.settings, c, i);
    }
  }

  lemma AlignedDown(e: int, lower: nat, settings: Settings)
    requires OnGrid(lower, settings)
    ensures var c, step := Align(e, lower, settings), Step(settings);
            && lower < c && OnGrid(c, settings) && e < c + step && (c == lower + step || c <= e)
  {
  }

  lemma GrownChoice(s: BatchSearch, ceiling: nat, before: Trial, after: Trial)
    requires OnGrid(s.lower, s.settings)
    requires Measured(before, after, s.profile) && Grew(before, after, s.profile)
    ensures LargestAllowed(s, ceiling, before, after,
                           Align(Extrapolated(s, ceiling, before, after), s.lower, s.settings))
  {
    hide Allowed, Extrapolated, Align, Step, OnGrid;
    var e := Extrapolated(s, ceiling, before, after);
    var c := Align(e, s.lower, s.settings);
    AlignedDown(e, s.lower, s.settings);
    ExtrapolatedIsLargest(s, ceiling, before, after, c);
    forall d | Allowed(s, ceiling, before, after, d) ensures d < c + Step(s.settings) {
      ExtrapolatedIsLargest(s, ceiling, before, after, d);
    }
  }

  lemma DoubledChoice(s: BatchSearch, ceiling: nat)
    requires Bounds(s, ceiling) && 0 < s.lower < ceiling
    ensures Align(Min(2 * s.lower, ceiling), s.lower, s.settings) == Min(2 * s.lower, ceiling)
  {
  }

  lemma BisectedChoice(s: BatchSearch, ceiling: nat)
    requires Bounds(s, ceiling) && s.upper.Some? && s.upper.value - s.lower != Step(s.settings)
    ensures NextChoice(s, ceiling, Align((s.lower + s.upper.value) / 2, s.lower, s.settings))
  {
    var c := BisectionInside(s, ceiling);
    AlignedDown((s.lower + s.upper.value) / 2, s.lower, s.settings);
  }

  /** Successful trials measured every rank. */
  lemma SuccessesMeasured(s: BatchSearch)
    requires OnlySuccesses(s) && |s.trials| >= 2
    ensures Measured(s.trials[|s.trials| - 2], s.trials[|s.trials| - 1], s.profile)
  {
    assert Observation(s.trials[|s.trials| - 2], s.profile, s.settings) == Success;
    assert Observation(s.trials[|s.trials| - 1], s.profile, s.settings) == Success;
  }

  lemma GrowthChoice(s: BatchSearch, ceiling: nat)
    requires Choosing(s, ceiling) && s.upper.None? && s.lower < ceiling
    ensures Candidate(s, ceiling).Ok? && NextChoice(s, ceiling, Align(Candidate(s, ceiling).value, s.lower, s.settings))
  {
    hide Extrapolated, Align, LargestAllowed, Observation, Step;
    DoubledChoice(s, ceiling);
    if |s.trials| >= 2 {
      SuccessesMeasured(s);
      var before, after := s.trials[|s.trials| - 2], s.trials[|s.trials| - 1];
      if Grew(before, after, s.profile) { GrownChoice(s, ceiling, before, after); }
    }
  }

  /** The search closes the bracket, or asks for the batch that the trials so far determine. */
  lemma AdvanceChooses(s: BatchSearch, ceiling: nat) returns (t: BatchSearch, c: int)
    requires Choosing(s, ceiling)
    ensures Advance(s, ceiling) == Ok(t) && t == s.(confirming := t.confirming, nextBatch := t.nextBatch)
    ensures t.confirming <==> s.lower == ceiling || (s.upper.Some? && s.upper.value - s.lower == Step(s.settings))
    ensures t.nextBatch.Some? && t.nextBatch.value == c * s.profile.World()
    ensures if t.confirming then c == t.lower else NextChoice(t, ceiling, c)
  {
    hide Candidate, Align, NextChoice, Step;
    assert s.status == Searching && !s.confirming;
    if s.lower == ceiling || (s.upper.Some? && s.upper.value - s.lower == Step(s.settings)) {
      c := s.lower;
    } else {
      ChoosingGives(s, ceiling);
      c := Align(Candidate(s, ceiling).value, s.lower, s.settings);
    }
    t := Advance(s, ceiling).value;
    if !t.confirming { SameChoice(s, t, ceiling, c); }
  }

  lemma SameChoice(s: BatchSearch, t: BatchSearch, ceiling: nat, c: int)
    requires NextChoice(s, ceiling, c) && t == s.(nextBatch := t.nextBatch)
    ensures NextChoice(t, ceiling, c)
  {
    hide RankFits;
    if |s.trials| >= 2 {
      var before, after := s.trials[|s.trials| - 2], s.trials[|s.trials| - 1];
      assert Measured(before, after, s.profile) ==>
          forall d :: Allowed(t, ceiling, before, after, d) ==> Allowed(s, ceiling, before, after, d);
    }
  }

  lemma ChoosingGives(s: BatchSearch, ceiling: nat)
    requires Choosing(s, ceiling) && s.lower != ceiling
    requires s.upper.Some? ==> s.upper.value - s.lower != Step(s.settings)
    ensures Candidate(s, ceiling).Ok? && NextChoice(s, ceiling, Align(Candidate(s, ceiling).value, s.lower, s.settings))
  {
    hide GrowthCandidate, NextChoice, Align;
    if s.upper.Some? { BisectedChoice(s, ceiling); } else { GrowthChoice(s, ceiling); }
  }

  /** No two batches meet that description. */
  lemma ChoiceUnique(s: BatchSearch, ceiling: nat, c: int, d: int)
    requires OnGrid(s.lower, s.settings) && NextChoice(s, ceiling, c) && NextChoice(s, ceiling, d)
    ensures c == d
  {
    hide Allowed;
    if c < d {
      ChoiceNotBelow(s, ceiling, c, d);
    } else if d < c {
      ChoiceNotBelow(s, ceiling, d, c);
    }
  }

  lemma ChoiceNotBelow(s: BatchSearch, ceiling: nat, c: int, d: int)
    requires OnGrid(s.lower, s.settings) && NextChoice(s, ceiling, c) && NextChoice(s, ceiling, d)
    ensures c >= d
  {
    hide Allowed;
    if c < d && OnGrid(c, s.settings) && OnGrid(d, s.settings) && s.lower < c {
      GridGap(c, d, s.settings);
      GridGap(s.lower, c, s.settings);
    }
  }

  // ----- over whole runs -----

  /**
   * The pending batch of an open search: one grid step at first, then what the trials determine. As long as nothing
   * has failed, the lower bound is the batch of the last trial.
   */
  ghost predicate Determined(s: BatchSearch, ceiling: nat, c: int) {
    && s.nextBatch == Some(c * s.profile.World())
    && if s.trials == [] then c == Step(s.settings)
       else NextChoice(s, ceiling, c)
            && (s.upper.None? ==> s.lower == PerRank(s.trials[|s.trials| - 1], s.profile))
  }

  /** After one more trial the pending batch is the one the trials determine. */
  lemma NextDetermined(s: BatchSearch, trial: Trial, ceiling: nat, t: BatchSearch)
    requires SoundBelow(s, ceiling) && ObserveBelow(s, trial, ceiling) == Ok(t)
    requires t.status == Searching && !t.confirming
    ensures exists c :: Determined(t, ceiling, c)
  {
    hide Observation, NextChoice, Choosing, Advance;
    var d :| Discovering(s, d, ceiling);
    MulDivExact(d, s.profile.World());
    ObserveAdvances(s, d, trial, ceiling);
    if Observation(trial, s.profile, s.settings) == Success {
      SuccessChoosing(s, d, trial, ceiling);
      var u, c := AdvanceChooses(s.(trials := s.trials + [trial], lower := d), ceiling);
      assert Determined(t, ceiling, c);
    } else {
      FailureChoosing(s, d, trial, ceiling);
      var u, c := AdvanceChooses(s.(trials := s.trials + [trial], upper := Some(d)), ceiling);
      assert Determined(t, ceiling, c);
    }
  }

  /** In every run the batch asked for next is the one the measured trials determine. */
  lemma EveryChoiceDetermined(profile: TrainingProfile, settings: Settings, trials: seq<Trial>)
    requires Replay(profile, settings, trials).Ok?
    requires var s := Replay(profile, settings, trials).value; s.status == Searching && !s.confirming
    ensures exists c :: Determined(Replay(profile, settings, trials).value, Ceiling(profile, settings), c)
  {
    hide Ceiling, NextChoice;
    var s := Replay(profile, settings, trials).value;
    RunAppends(profile, settings, trials);
    if trials == [] {
      assert Determined(s, Ceiling(profile, settings), Step(settings));
    } else {
      var prefix := trials[..|trials| - 1];
      EveryRunSound(profile, settings, prefix);
      RunAppends(profile, settings, prefix);
      NextDetermined(Replay(profile, settings, prefix).value, trials[|trials| - 1], Ceiling(profile, settings), s);
    }
  }
}
