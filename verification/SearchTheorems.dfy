/** The main results about the capacity search: what it finds, how long it takes, and what a record proves. */
module SearchTheorems {
  import opened Prelude
  import opened BatchEstimation
  import opened SearchInvariants

  // ----- length of a run -----

  /** The number of positive grid points up to the ceiling. */
  function GridPoints(ceiling: nat, settings: Settings): nat {
    if Step(settings) == 8 then ceiling / 8 else ceiling
  }

  /** A run uses at most one trial per grid point plus the confirmation. */
  lemma TrialBound(profile: TrainingProfile, settings: Settings, trials: seq<Trial>)
    requires Replay(profile, settings, trials).Ok?
    ensures |trials| <= GridPoints(Ceiling(profile, settings), settings) + 1
    ensures Replay(profile, settings, trials).value.status == Searching
            ==> |trials| <= GridPoints(Ceiling(profile, settings), settings)
  {
    EveryRunSound(profile, settings, trials);
    RunAppends(profile, settings, trials);
    BoundBelow(Replay(profile, settings, trials).value, Ceiling(profile, settings));
  }

  lemma BoundBelow(s: BatchSearch, ceiling: nat)
    requires SoundBelow(s, ceiling)
    ensures |s.trials| <= GridPoints(ceiling, s.settings) + 1
    ensures s.status == Searching ==> |s.trials| <= GridPoints(ceiling, s.settings)
  {
    if Open(s, ceiling) {
      var c :| Discovering(s, c, ceiling);
      RoomLeft(s, c, ceiling);
    }
  }

  /** A searching run always has a pending batch, and any fresh trial of that batch is accepted. */
  lemma NeverStuck(profile: TrainingProfile, settings: Settings, trials: seq<Trial>, trial: Trial)
    requires Replay(profile, settings, trials).Ok?
    requires Replay(profile, settings, trials).value.status == Searching
    requires Replay(profile, settings, trials).value.nextBatch == Some(trial.globalBatch)
    requires trial.trialId !in Ids(trials)
    ensures Replay(profile, settings, trials + [trial]).Ok?
  {
    EveryRunSound(profile, settings, trials);
    RunAppends(profile, settings, trials);
    var s, ceiling := Replay(profile, settings, trials).value, Ceiling(profile, settings);
    assert (trials + [trial])[..|trials|] == trials;
    if Open(s, ceiling) {
      var c :| Discovering(s, c, ceiling);
      var outcome := Observation(trial, profile, settings);
      if outcome == Success {
        var t := DiscoverySucceeds(s, c, trial, ceiling);
      } else if outcome == Oom || outcome == MemoryLimit {
        var t := DiscoveryFails(s, c, trial, ceiling);
      }
    }
  }

  lemma PendingExists(profile: TrainingProfile, settings: Settings, trials: seq<Trial>)
    requires Replay(profile, settings, trials).Ok?
    ensures var s := Replay(profile, settings, trials).value;
            s.nextBatch.Some? <==> s.status == Searching
    ensures var s := Replay(profile, settings, trials).value;
            s.nextBatch.Some? ==> s.nextBatch.value > 0
  {
    EveryRunSound(profile, settings, trials);
    RunAppends(profile, settings, trials);
    PendingIn(Replay(profile, settings, trials).value, Ceiling(profile, settings));
  }

  lemma PendingIn(s: BatchSearch, ceiling: nat)
    requires SoundBelow(s, ceiling)
    ensures s.nextBatch.Some? <==> s.status == Searching
    ensures s.nextBatch.Some? ==> s.nextBatch.value > 0
  {
    if Open(s, ceiling) {
      var c :| Discovering(s, c, ceiling);
      MulMonotone(0, c, s.profile.World());
    } else if Confirming(s, ceiling) {
      MulMonotone(0, s.lower, s.profile.World());
    }
  }

  /** Every measured batch so far lies on or outside the bracket. */
  ghost predicate Outside(s: BatchSearch) {
    forall i :: 0 <= i < |s.trials| ==>
      || s.trials[i].globalBatch <= s.lower * s.profile.World()
      || (s.upper.Some? && s.trials[i].globalBatch >= s.upper.value * s.profile.World())
  }

  lemma OutsideKept(s: BatchSearch, c: int, trial: Trial, t: BatchSearch)
    requires Outside(s) && s.lower < c && trial.globalBatch == c * s.profile.World()
    requires s.upper.Some? ==> c < s.upper.value
    requires t.profile == s.profile && t.trials == s.trials + [trial]
    requires (t.lower == c && t.upper == s.upper) || (t.lower == s.lower && t.upper == Some(c))
    ensures Outside(t)
  {
    MulMonotone(s.lower, c, s.profile.World());
    if s.upper.Some? { MulMonotone(c, s.upper.value, s.profile.World()); }
  }

  /** A discovery trial that leaves the search discovering moved exactly one bound to its batch. */
  lemma StillDiscovering(s: BatchSearch, c: int, trial: Trial, ceiling: nat, t: BatchSearch)
    requires Discovering(s, c, ceiling) && c > 0
    requires ObserveBelow(s, trial, ceiling) == Ok(t) && t.status == Searching && !t.confirming
    ensures t.profile == s.profile && t.trials == s.trials + [trial]
    ensures (t.lower == c && t.upper == s.upper) || (t.lower == s.lower && t.upper == Some(c))
  {
    ObserveAdvances(s, c, trial, ceiling);
  }

  lemma {:induction false} DiscoveryStaysOutside(profile: TrainingProfile, settings: Settings, trials: seq<Trial>)
    requires Replay(profile, settings, trials).Ok?
    ensures var s := Replay(profile, settings, trials).value;
            s.status == Searching && !s.confirming ==> Outside(s)
  {
    if trials != [] {
      var prefix, last := trials[..|trials| - 1], trials[|trials| - 1];
      DiscoveryStaysOutside(profile, settings, prefix);
      EveryRunSound(profile, settings, prefix);
      RunAppends(profile, settings, prefix);
      var s, t := Replay(profile, settings, prefix).value, Replay(profile, settings, trials).value;
      var ceiling := Ceiling(profile, settings);
      if t.status == Searching && !t.confirming {
        var c :| Discovering(s, c, ceiling);
        StillDiscovering(s, c, last, ceiling, t);
        OutsideKept(s, c, last, t);
      }
    }
  }

  /** A batch is measured twice only when the second trial is the confirmation. */
  lemma DiscoveryNeverRepeats(profile: TrainingProfile, settings: Settings, trials: seq<Trial>, i: nat)
    requires Replay(profile, settings, trials).Ok?
    requires i < |trials| - 1 && trials[i].globalBatch == trials[|trials| - 1].globalBatch
    ensures Replay(profile, settings, trials[..|trials| - 1]).value.confirming
  {
    var prefix, last := trials[..|trials| - 1], trials[|trials| - 1];
    var s, ceiling := Replay(profile, settings, prefix).value, Ceiling(profile, settings);
    EveryRunSound(profile, settings, prefix);
    RunAppends(profile, settings, prefix);
    if !s.confirming {
      DiscoveryStaysOutside(profile, settings, prefix);
      var c :| Discovering(s, c, ceiling);
      assert prefix[i] == trials[i];
      MulMonotone(s.lower, c, profile.World());
      if s.upper.Some? { MulMonotone(c, s.upper.value, profile.World()); }
      assert false;
    }
  }

  // ----- what the search finds -----

  /** Test one grid point after another until one does not fit: the reference search. */
  function LinearScan(from: nat, step: pos, cap: nat, ceiling: nat): (k: nat)
    ensures from <= k && (k == from || (k <= cap && k <= ceiling))
    ensures k + step > cap || k + step > ceiling
    decreases cap - from
  {
    if from + step <= cap && from + step <= ceiling then LinearScan(from + step, step, cap, ceiling) else from
  }

  /** The trial behaves as if exactly `cap` images per rank fitted; its peaks are unconstrained. */
  ghost predicate AnswersLike(trial: Trial, profile: TrainingProfile, settings: Settings, cap: nat) {
    var status := Observation(trial, profile, settings);
    if trial.globalBatch <= cap * profile.World() then Shows(status, Fits) else Shows(status, TooBig)
  }

  ghost predicate RunAnswersLike(trials: seq<Trial>, profile: TrainingProfile, settings: Settings, cap: nat) {
    forall i :: 0 <= i < |trials| ==> AnswersLike(trials[i], profile, settings, cap)
  }

  lemma WitnessMeans(s: BatchSearch, perRank: int, outcome: Outcome, cap: nat)
    requires Witnessed(s, perRank, outcome) && RunAnswersLike(s.trials, s.profile, s.settings, cap)
    ensures outcome != NotFinite
    ensures outcome == Fits <==> perRank <= cap
  {
    var i :| Witness(s, i, perRank, outcome);
    assert AnswersLike(s.trials[i], s.profile, s.settings, cap);
    MulMonotone(perRank, cap, s.profile.World());
    MulMonotone(cap, perRank, s.profile.World());
  }

  /** Against a capacity, a confirmation succeeds. */
  lemma ConfirmationSucceeds(s: BatchSearch, last: Trial, cap: nat, ceiling: nat)
    requires Evidence(s) && Confirming(s, ceiling) && RunAnswersLike(s.trials, s.profile, s.settings, cap)
    requires AnswersLike(last, s.profile, s.settings, cap) && s.nextBatch == Some(last.globalBatch)
    ensures Observation(last, s.profile, s.settings) == Success
  {
    WitnessMeans(s, s.lower, Fits, cap);
    MulMonotone(s.lower, cap, s.profile.World());
  }

  lemma DiscoveryNeverFails(s: BatchSearch, c: int, last: Trial, ceiling: nat)
    requires SoundBelow(s, ceiling) && Discovering(s, c, ceiling) && ObserveBelow(s, last, ceiling).Ok?
    requires Observation(last, s.profile, s.settings) in {Success, Oom, MemoryLimit}
    ensures ObserveBelow(s, last, ceiling).value.status != Failed
  {
    ObserveAdvances(s, c, last, ceiling);
  }

  /** Against a capacity no run ends as failed. */
  lemma NoSpuriousFailure(profile: TrainingProfile, settings: Settings, trials: seq<Trial>, cap: nat)
    requires Replay(profile, settings, trials).Ok? && RunAnswersLike(trials, profile, settings, cap)
    ensures Replay(profile, settings, trials).value.status != Failed
  {
    if trials != [] {
      var prefix, last := trials[..|trials| - 1], trials[|trials| - 1];
      var s, ceiling := Replay(profile, settings, prefix).value, Ceiling(profile, settings);
      EveryRunSound(profile, settings, prefix);
      RunAppends(profile, settings, prefix);
      assert AnswersLike(last, profile, settings, cap);
      if Confirming(s, ceiling) {
        ConfirmationSucceeds(s, last, cap, ceiling);
      } else {
        var c :| Discovering(s, c, ceiling);
        DiscoveryNeverFails(s, c, last, ceiling);
      }
    }
  }

  lemma GridScan(k: nat, settings: Settings, cap: nat, ceiling: nat)
    requires OnGrid(k, settings) && OnGrid(ceiling, settings)
    ensures OnGrid(LinearScan(k, Step(settings), cap, ceiling), settings)
    decreases cap - k
  {
    if k + Step(settings) <= cap && k + Step(settings) <= ceiling {
      GridScan(k + Step(settings), settings, cap, ceiling);
    }
  }

  /** The scan's result is the only grid point with the scan's two bounds. */
  lemma ScanUnique(k: nat, settings: Settings, cap: nat, ceiling: nat)
    requires OnGrid(k, settings) && OnGrid(ceiling, settings)
    requires k <= cap && k <= ceiling && (k + Step(settings) > cap || k == ceiling)
    ensures LinearScan(0, Step(settings), cap, ceiling) == k
  {
    var m := LinearScan(0, Step(settings), cap, ceiling);
    GridScan(0, settings, cap, ceiling);
    if m < k { GridGap(m, k, settings); }
    if k < m { GridGap(k, m, settings); }
  }

  /**
   * Refinement: whatever the strategy and whatever peaks the trials report, a run against a
   * monotone capacity ends where the linear scan ends, with the status the capacity dictates.
   */
  lemma SearchRefinesLinearScan(profile: TrainingProfile, settings: Settings, trials: seq<Trial>, cap: nat)
    requires Replay(profile, settings, trials).Ok? && RunAnswersLike(trials, profile, settings, cap)
    requires Replay(profile, settings, trials).value.status != Searching
    ensures var s, ceiling := Replay(profile, settings, trials).value, Ceiling(profile, settings);
            var best := LinearScan(0, Step(settings), cap, ceiling);
            && (s.status == NoCapacity <==> cap < Step(settings))
            && (s.status == CeilingLimited <==> cap >= ceiling)
            && (s.status == Validated <==> Step(settings) <= cap < ceiling)
            && s.perGpuBatch == (if best == 0 then None else Some(best))
            && s.globalBatch == (if best == 0 then None else Some(best * profile.World()))
  {
    EveryRunSound(profile, settings, trials);
    RunAppends(profile, settings, trials);
    NoSpuriousFailure(profile, settings, trials, cap);
    var s, ceiling := Replay(profile, settings, trials).value, Ceiling(profile, settings);
    if s.status == NoCapacity {
      WitnessMeans(s, Step(settings), TooBig, cap);
      ScanUnique(0, settings, cap, ceiling);
    } else {
      WitnessMeans(s, s.lower, Fits, cap);
      if s.numericalFailure.Some? {
        var b :| FailedAbove(s, b);
        WitnessMeans(s, b, NotFinite, cap);
      }
      if s.lower != ceiling { WitnessMeans(s, s.upper.value, TooBig, cap); }
      GridGap(0, s.lower, settings);
      ScanUnique(s.lower, settings, cap, ceiling);
    }
  }

  /** Two strategies on the same grid end alike against the same capacity, whatever each measured on the way. */
  lemma StrategiesAgree(profile: TrainingProfile, settings: Settings, guided: seq<Trial>, binary: seq<Trial>, cap: nat)
    requires settings.strategy == MemoryGuidedV1
    requires var other := settings.(strategy := ExponentialBinaryV1);
             && Replay(profile, settings, guided).Ok? && Replay(profile, settings, guided).value.status != Searching
             && Replay(profile, other, binary).Ok? && Replay(profile, other, binary).value.status != Searching
             && RunAnswersLike(guided, profile, settings, cap) && RunAnswersLike(binary, profile, other, cap)
    ensures var a, b := Replay(profile, settings, guided).value,
                        Replay(profile, settings.(strategy := ExponentialBinaryV1), binary).value;
            a.status == b.status && a.perGpuBatch == b.perGpuBatch && a.globalBatch == b.globalBatch
  {
    var other := settings.(strategy := ExponentialBinaryV1);
    SearchRefinesLinearScan(profile, settings, guided, cap);
    SearchRefinesLinearScan(profile, other, binary, cap);
    assert Ceiling(profile, settings) == Ceiling(profile, other);
    EveryRunSound(profile, settings, guided);
    EveryRunSound(profile, other, binary);
  }
}
