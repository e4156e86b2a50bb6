/** What every run of the capacity search keeps: the bracket, the evidence for it, and the trial budget. */
module SearchInvariants {
  import opened Prelude
  import opened BatchEstimation

  /** The three kinds of observation the search can act on. */
  datatype Outcome = Fits | TooBig | NotFinite

  predicate Shows(status: TrialStatus, outcome: Outcome) {
    match outcome
    case Fits => status == Success
    case TooBig => status == Oom || status == MemoryLimit
    case NotFinite => status == Nonfinite
  }

  /** A multiple of the grid step. */
  ghost predicate OnGrid(x: int, settings: Settings) {
    Step(settings) == 8 ==> x % 8 == 0
  }

  /** The trial with this index really measured `perRank` images per rank with this outcome. */
  ghost predicate Witness(s: BatchSearch, i: int, perRank: int, outcome: Outcome) {
    && 0 <= i < |s.trials|
    && s.trials[i].globalBatch == perRank * s.profile.World()
    && Shows(Observation(s.trials[i], s.profile, s.settings), outcome)
  }

  ghost predicate Witnessed(s: BatchSearch, perRank: int, outcome: Outcome) {
    exists i :: Witness(s, i, perRank, outcome)
  }

  /** Bounds lie on the grid, in order, below the ceiling. */
  ghost predicate Bounds(s: BatchSearch, ceiling: nat) {
    var step := Step(s.settings);
    && step <= ceiling && OnGrid(ceiling, s.settings) && OnGrid(s.lower, s.settings) && s.lower <= ceiling
    && (s.upper.Some? ==> OnGrid(s.upper.value, s.settings) && 0 < s.lower < s.upper.value <= ceiling)
  }

  /** Each bound was measured. */
  ghost predicate Evidence(s: BatchSearch) {
    && (s.lower > 0 ==> Witnessed(s, s.lower, Fits))
    && (s.upper.Some? ==> Witnessed(s, s.upper.value, TooBig))
  }

  /** Trials so far, counted in images of grid step each. */
  ghost function Used(s: BatchSearch): int {
    if Step(s.settings) == 8 then 8 * |s.trials| else |s.trials|
  }

  /** The number of grid steps the discovery trials so far can have used up. */
  ghost function Spent(s: BatchSearch, ceiling: nat): int {
    s.lower + (if s.upper.Some? then ceiling - s.upper.value + Step(s.settings) else 0)
  }

  /** Before any failure every completed trial was a full success. */
  ghost predicate OnlySuccesses(s: BatchSearch) {
    && (forall i :: 0 <= i < |s.trials| ==> Observation(s.trials[i], s.profile, s.settings) == Success)
    && (s.lower == 0 ==> s.trials == [])
  }

  /** The bracket is open: the next trial lies strictly inside it, on the grid. */
  ghost predicate Discovering(s: BatchSearch, candidate: int, ceiling: nat) {
    var step := Step(s.settings);
    && s.status == Searching && !s.confirming && s.numericalFailure == None
    && s.globalBatch == None && s.perGpuBatch == None
    && s.nextBatch == Some(candidate * s.profile.World())
    && OnGrid(candidate, s.settings) && s.lower < candidate
    && (s.lower == 0 ==> candidate == step)
    && (if s.upper.Some? then candidate < s.upper.value else candidate <= ceiling && OnlySuccesses(s))
    && Used(s) <= Spent(s, ceiling)
  }

  /** A numerical failure was measured above the lower bound. */
  ghost predicate FailedAbove(s: BatchSearch, perRank: int) {
    && perRank > s.lower && Some(perRank * s.profile.World()) == s.numericalFailure
    && Witnessed(s, perRank, NotFinite)
  }

  /** The bracket is closed, or a numerical failure stopped it above a success. */
  ghost predicate Settled(s: BatchSearch, ceiling: nat) {
    if s.numericalFailure.Some? then exists b :: FailedAbove(s, b)
    else s.lower == ceiling || s.upper == Some(s.lower + Step(s.settings))
  }

  ghost predicate Confirming(s: BatchSearch, ceiling: nat) {
    && s.status == Searching && s.confirming && s.lower > 0 && Settled(s, ceiling)
    && s.globalBatch == None && s.perGpuBatch == None
    && s.nextBatch == Some(s.lower * s.profile.World())
    && Used(s) <= ceiling
  }

  /** A usable result: confirmed by a later success than the one that set the lower bound. */
  ghost predicate ConfirmedResult(s: BatchSearch, ceiling: nat) {
    && s.lower > 0 && Settled(s, ceiling)
    && Witness(s, |s.trials| - 1, s.lower, Fits)
    && (exists i :: i < |s.trials| - 1 && Witness(s, i, s.lower, Fits))
    && s.perGpuBatch == Some(s.lower) && s.globalBatch == Some(s.lower * s.profile.World())
    && s.status == (if s.numericalFailure.Some? then NumericallyLimited
                    else if s.lower == ceiling then CeilingLimited else Validated)
  }

  ghost predicate Ended(s: BatchSearch, ceiling: nat) {
    && s.status != Searching && s.nextBatch == None
    && Used(s) <= ceiling + Step(s.settings)
    && match s.status {
         case NoCapacity =>
           s.globalBatch == None && s.perGpuBatch == None && s.lower == 0 && Witnessed(s, Step(s.settings), TooBig)
         case Failed => s.globalBatch == None && s.perGpuBatch == None
         case _ => ConfirmedResult(s, ceiling)
       }
  }

  ghost predicate Open(s: BatchSearch, ceiling: nat) {
    exists c :: Discovering(s, c, ceiling)
  }

  ghost predicate SoundBelow(s: BatchSearch, ceiling: nat) {
    Bounds(s, ceiling) && Evidence(s) && (Open(s, ceiling) || Confirming(s, ceiling) || Ended(s, ceiling))
  }

  ghost predicate Sound(s: BatchSearch) {
    SoundBelow(s, Ceiling(s.profile, s.settings))
  }

  // ----- one step -----

  lemma {:induction false} CeilingCoversStep(profile: TrainingProfile, settings: Settings)
    requires settings.maxGlobalBatch >= Step(settings) * profile.World()
    ensures Ceiling(profile, settings) >= Step(settings)
    ensures OnGrid(Ceiling(profile, settings), settings)
  {
    var n: pos, step, m := profile.World(), Step(settings), settings.maxGlobalBatch;
    var q := m / n;
    assert m == q * n + m % n;
    if q < step {
      MulMonotone(q + 1, step, n);
      assert false;
    }
  }

  lemma StartSound(profile: TrainingProfile, settings: Settings)
    requires Start(profile, settings).Ok?
    ensures Discovering(Start(profile, settings).value, Step(settings), Ceiling(profile, settings))
    ensures Sound(Start(profile, settings).value)
  {
    CeilingCoversStep(profile, settings);
    var s, ceiling := Start(profile, settings).value, Ceiling(profile, settings);
    assert Discovering(s, Step(settings), ceiling);
    assert Open(s, ceiling);
  }

  /** Evidence survives appending trials and changing the phase. */
  lemma WitnessKept(s: BatchSearch, t: BatchSearch, perRank: int, outcome: Outcome)
    requires Witnessed(s, perRank, outcome)
    requires t.profile == s.profile && t.settings == s.settings && s.trials <= t.trials
    ensures Witnessed(t, perRank, outcome)
  {
    var i :| Witness(s, i, perRank, outcome);
    assert Witness(t, i, perRank, outcome);
  }

  lemma EvidenceKept(s: BatchSearch, t: BatchSearch)
    requires Evidence(s)
    requires t.profile == s.profile && t.settings == s.settings && t.lower == s.lower && t.upper == s.upper
    requires s.trials <= t.trials
    ensures Evidence(t)
  {
    hide Witnessed;
    if s.lower > 0 { WitnessKept(s, t, s.lower, Fits); }
    if s.upper.Some? { WitnessKept(s, t, s.upper.value, TooBig); }
  }

  lemma AlignInside(candidate: int, lower: nat, settings: Settings, limit: int)
    requires OnGrid(lower, settings) && OnGrid(limit, settings)
    requires lower + Step(settings) < limit && candidate < limit
    ensures OnGrid(Align(candidate, lower, settings), settings)
    ensures lower < Align(candidate, lower, settings) < limit
  {
  }

  lemma GridGap(a: int, b: int, settings: Settings)
    requires OnGrid(a, settings) && OnGrid(b, settings) && a < b
    ensures a + Step(settings) <= b
  {
  }

  /** While nothing has failed, growth never meets ragged evidence and stays below the ceiling. */
  lemma GrowthWithinCeiling(s: BatchSearch, ceiling: nat)
    requires OnlySuccesses(s)
    requires s.lower + Step(s.settings) <= ceiling
    ensures GrowthCandidate(s, ceiling).Ok?
    ensures GrowthCandidate(s, ceiling).value <= ceiling
  {
    if |s.trials| > 1 {
      assert Observation(s.trials[|s.trials| - 2], s.profile, s.settings) == Success;
      assert Observation(s.trials[|s.trials| - 1], s.profile, s.settings) == Success;
    }
  }

  /** The bracket, before the next batch has been chosen. */
  ghost predicate Choosing(s: BatchSearch, ceiling: nat) {
    && Bounds(s, ceiling) && s.lower > 0 && s.status == Searching && !s.confirming && s.numericalFailure == None
    && s.globalBatch == None && s.perGpuBatch == None
    && (s.upper.None? ==> OnlySuccesses(s))
    && Used(s) <= Spent(s, ceiling)
  }

  lemma BisectionInside(s: BatchSearch, ceiling: nat) returns (c: int)
    requires Bounds(s, ceiling) && s.upper.Some? && s.upper.value - s.lower != Step(s.settings)
    ensures Candidate(s, ceiling) == Ok((s.lower + s.upper.value) / 2)
    ensures c == Align((s.lower + s.upper.value) / 2, s.lower, s.settings)
    ensures OnGrid(c, s.settings) && s.lower < c < s.upper.value
  {
    GridGap(s.lower, s.upper.value, s.settings);
    AlignInside((s.lower + s.upper.value) / 2, s.lower, s.settings, s.upper.value);
    c := Align((s.lower + s.upper.value) / 2, s.lower, s.settings);
  }

  lemma GrowthInside(s: BatchSearch, ceiling: nat) returns (c: int)
    requires Bounds(s, ceiling) && s.upper.None? && s.lower < ceiling && OnlySuccesses(s)
    ensures Candidate(s, ceiling).Ok? && c == Align(Candidate(s, ceiling).value, s.lower, s.settings)
    ensures OnGrid(c, s.settings) && s.lower < c <= ceiling
  {
    hide GrowthCandidate;
    GridGap(s.lower, ceiling, s.settings);
    GrowthWithinCeiling(s, ceiling);
    AlignInside(Candidate(s, ceiling).value, s.lower, s.settings, ceiling + Step(s.settings));
    c := Align(Candidate(s, ceiling).value, s.lower, s.settings);
  }

  lemma CandidateInside(s: BatchSearch, ceiling: nat) returns (c: int)
    requires Choosing(s, ceiling)
    requires s.lower < ceiling && (s.upper.Some? ==> s.upper.value - s.lower != Step(s.settings))
    ensures Candidate(s, ceiling).Ok? && c == Align(Candidate(s, ceiling).value, s.lower, s.settings)
    ensures OnGrid(c, s.settings) && s.lower < c
    ensures if s.upper.Some? then c < s.upper.value else c <= ceiling
  {
    if s.upper.Some? { c := BisectionInside(s, ceiling); } else { c := GrowthInside(s, ceiling); }
  }

  lemma SettlingSound(s: BatchSearch, t: BatchSearch, ceiling: nat)
    requires Choosing(s, ceiling)
    requires s.lower == ceiling || (s.upper.Some? && s.upper.value - s.lower == Step(s.settings))
    requires t == s.(confirming := true, nextBatch := Some(s.lower * s.profile.World()))
    ensures Confirming(t, ceiling)
  {
  }

  /** Choosing the next batch keeps the bracket and the evidence. */
  lemma AdvanceSound(s: BatchSearch, ceiling: nat) returns (t: BatchSearch)
    requires Choosing(s, ceiling) && Evidence(s)
    ensures Advance(s, ceiling) == Ok(t) && SoundBelow(t, ceiling)
  {
    hide GrowthCandidate, Ceiling;
    if s.lower == ceiling || (s.upper.Some? && s.upper.value - s.lower == Step(s.settings)) {
      t := s.(confirming := true, nextBatch := Some(s.lower * s.profile.World()));
      SettlingSound(s, t, ceiling);
    } else {
      var c := CandidateInside(s, ceiling);
      t := s.(nextBatch := Some(c * s.profile.World()));
      assert Discovering(t, c, ceiling);
    }
    EvidenceKept(s, t);
  }

  /** An open bracket always leaves room for one more trial below the ceiling. */
  lemma RoomLeft(s: BatchSearch, c: int, ceiling: nat)
    requires Bounds(s, ceiling) && Discovering(s, c, ceiling)
    ensures Used(s) + Step(s.settings) <= ceiling
  {
    GridGap(s.lower, c, s.settings);
    if s.upper.Some? { GridGap(c, s.upper.value, s.settings); }
  }

  /** A numerical failure above a success settles the search on that success. */
  lemma NumericalStop(s: BatchSearch, c: int, trial: Trial, t: BatchSearch, ceiling: nat)
    requires Bounds(s, ceiling) && Evidence(s) && Discovering(s, c, ceiling) && s.lower > 0
    requires Observation(trial, s.profile, s.settings) == Nonfinite && s.nextBatch == Some(trial.globalBatch)
    requires t == s.(trials := s.trials + [trial], confirming := true, nextBatch := Some(s.lower * s.profile.World()),
                     numericalFailure := Some(trial.globalBatch))
    ensures SoundBelow(t, ceiling)
  {
    hide Observation;
    RoomLeft(s, c, ceiling);
    assert Used(t) == Used(s) + Step(s.settings);
    EvidenceKept(s, t);
    assert Witness(t, |s.trials|, c, NotFinite);
    assert FailedAbove(t, c);
    assert Confirming(t, ceiling);
  }

  lemma FailureStop(s: BatchSearch, c: int, trial: Trial, t: BatchSearch, ceiling: nat)
    requires Bounds(s, ceiling) && Evidence(s) && Discovering(s, c, ceiling)
    requires t == Finish(s.(trials := s.trials + [trial]), Failed, None)
    ensures SoundBelow(t, ceiling)
  {
    RoomLeft(s, c, ceiling);
    assert Used(t) == Used(s) + Step(s.settings);
    EvidenceKept(s, t);
    assert Ended(t, ceiling);
  }

  /** A trial outside the acting outcomes, or a numerical one above a success, stops discovery. */
  lemma DiscoveryStops(s: BatchSearch, c: int, trial: Trial, ceiling: nat) returns (t: BatchSearch)
    requires SoundBelow(s, ceiling) && Discovering(s, c, ceiling)
    requires ObserveBelow(s, trial, ceiling).Ok?
    requires Observation(trial, s.profile, s.settings) !in {Success, Oom, MemoryLimit}
    ensures ObserveBelow(s, trial, ceiling) == Ok(t) && SoundBelow(t, ceiling)
  {
    hide Advance, Observation;
    t := ObserveBelow(s, trial, ceiling).value;
    if Observation(trial, s.profile, s.settings) == Nonfinite && s.lower > 0 {
      NumericalStop(s, c, trial, t, ceiling);
    } else {
      FailureStop(s, c, trial, t, ceiling);
    }
  }

  /** How a discovery trial that moves a bound is turned into the next choice. */
  lemma ObserveAdvances(s: BatchSearch, c: int, trial: Trial, ceiling: nat)
    requires s.status == Searching && !s.confirming && c > 0
    requires s.nextBatch == Some(c * s.profile.World()) && s.nextBatch == Some(trial.globalBatch)
    requires trial.trialId !in Ids(s.trials)
    ensures var outcome, next := Observation(trial, s.profile, s.settings), s.(trials := s.trials + [trial]);
            && (outcome == Success ==> ObserveBelow(s, trial, ceiling) == Advance(next.(lower := c), ceiling))
            && (outcome == Oom || outcome == MemoryLimit ==>
                  ObserveBelow(s, trial, ceiling) ==
                  (if c == Step(s.settings) then Ok(Finish(next, NoCapacity, None))
                   else Advance(next.(upper := Some(c)), ceiling)))
  {
    MulDivExact(c, s.profile.World());
  }

  lemma SuccessChoosing(s: BatchSearch, c: int, trial: Trial, ceiling: nat)
    requires SoundBelow(s, ceiling) && Discovering(s, c, ceiling)
    requires s.nextBatch == Some(trial.globalBatch) && trial.trialId !in Ids(s.trials)
    requires Observation(trial, s.profile, s.settings) == Success
    ensures var next := s.(trials := s.trials + [trial], lower := c);
            && Choosing(next, ceiling) && Evidence(next)
            && ObserveBelow(s, trial, ceiling) == Advance(next, ceiling)
  {
    hide Advance, Observation;
    ObserveAdvances(s, c, trial, ceiling);
    var next := s.(trials := s.trials + [trial], lower := c);
    assert Used(next) == Used(s) + Step(s.settings);
    assert Witness(next, |s.trials|, c, Fits);
    if s.upper.Some? { WitnessKept(s, next, s.upper.value, TooBig); }
    GridGap(s.lower, c, s.settings);
  }

  lemma FailureChoosing(s: BatchSearch, c: int, trial: Trial, ceiling: nat)
    requires SoundBelow(s, ceiling) && Discovering(s, c, ceiling) && c != Step(s.settings)
    requires s.nextBatch == Some(trial.globalBatch) && trial.trialId !in Ids(s.trials)
    requires Observation(trial, s.profile, s.settings) in {Oom, MemoryLimit}
    ensures var next := s.(trials := s.trials + [trial], upper := Some(c));
            && Choosing(next, ceiling) && Evidence(next)
            && ObserveBelow(s, trial, ceiling) == Advance(next, ceiling)
  {
    hide Advance, Observation;
    ObserveAdvances(s, c, trial, ceiling);
    var next := s.(trials := s.trials + [trial], upper := Some(c));
    assert Used(next) == Used(s) + Step(s.settings);
    if s.upper.Some? { GridGap(c, s.upper.value, s.settings); }
    assert Witness(next, |s.trials|, c, TooBig);
    WitnessKept(s, next, s.lower, Fits);
  }

  lemma DiscoverySucceeds(s: BatchSearch, c: int, trial: Trial, ceiling: nat) returns (t: BatchSearch)
    requires SoundBelow(s, ceiling) && Discovering(s, c, ceiling)
    requires s.nextBatch == Some(trial.globalBatch) && trial.trialId !in Ids(s.trials)
    requires Observation(trial, s.profile, s.settings) == Success
    ensures ObserveBelow(s, trial, ceiling) == Ok(t) && SoundBelow(t, ceiling)
  {
    hide Advance, Observation;
    SuccessChoosing(s, c, trial, ceiling);
    t := AdvanceSound(s.(trials := s.trials + [trial], lower := c), ceiling);
  }

  lemma DiscoveryFails(s: BatchSearch, c: int, trial: Trial, ceiling: nat) returns (t: BatchSearch)
    requires SoundBelow(s, ceiling) && Discovering(s, c, ceiling)
    requires s.nextBatch == Some(trial.globalBatch) && trial.trialId !in Ids(s.trials)
    requires Observation(trial, s.profile, s.settings) in {Oom, MemoryLimit}
    ensures ObserveBelow(s, trial, ceiling) == Ok(t) && SoundBelow(t, ceiling)
  {
    hide Advance, Observation;
    ObserveAdvances(s, c, trial, ceiling);
    if c == Step(s.settings) {
      t := Finish(s.(trials := s.trials + [trial]), NoCapacity, None);
      EvidenceKept(s, t);
      assert Witness(t, |s.trials|, c, TooBig);
      assert Ended(t, ceiling);
    } else {
      FailureChoosing(s, c, trial, ceiling);
      t := AdvanceSound(s.(trials := s.trials + [trial], upper := Some(c)), ceiling);
    }
  }

  lemma SettledKept(s: BatchSearch, t: BatchSearch, ceiling: nat)
    requires Settled(s, ceiling) && s.trials <= t.trials
    requires t.profile == s.profile && t.settings == s.settings && t.lower == s.lower && t.upper == s.upper
    requires t.numericalFailure == s.numericalFailure
    ensures Settled(t, ceiling)
  {
    if s.numericalFailure.Some? {
      var b :| FailedAbove(s, b);
      WitnessKept(s, t, b, NotFinite);
      assert FailedAbove(t, b);
    }
  }

  /** A confirming success ends the search with the measured bound. */
  lemma ConfirmedSound(s: BatchSearch, trial: Trial, t: BatchSearch, ceiling: nat)
    requires Bounds(s, ceiling) && Evidence(s) && Confirming(s, ceiling) && s.nextBatch == Some(trial.globalBatch)
    requires Observation(trial, s.profile, s.settings) == Success
    requires t == Confirmed(s.(trials := s.trials + [trial]), Success, ceiling)
    ensures ConfirmedResult(t, ceiling)
  {
    MulDivExact(s.lower, s.profile.World());
    SettledKept(s, t, ceiling);
    var i :| Witness(s, i, s.lower, Fits);
    assert Witness(t, i, s.lower, Fits);
    assert Witness(t, |s.trials|, s.lower, Fits);
  }

  lemma ConfirmationSound(s: BatchSearch, trial: Trial, ceiling: nat) returns (t: BatchSearch)
    requires SoundBelow(s, ceiling) && Confirming(s, ceiling) && ObserveBelow(s, trial, ceiling).Ok?
    ensures ObserveBelow(s, trial, ceiling) == Ok(t) && SoundBelow(t, ceiling)
  {
    hide Advance;
    t := ObserveBelow(s, trial, ceiling).value;
    EvidenceKept(s, t);
    if Observation(trial, s.profile, s.settings) == Success { ConfirmedSound(s, trial, t, ceiling); }
    assert Ended(t, ceiling);
  }

  /** Observing appends the trial and keeps profile and settings. */
  lemma ObserveAppends(s: BatchSearch, trial: Trial)
    requires Observe(s, trial).Ok?
    ensures var t := Observe(s, trial).value;
            t.trials == s.trials + [trial] && t.profile == s.profile && t.settings == s.settings
  {
  }

  lemma {:induction false} RunAppends(profile: TrainingProfile, settings: Settings, trials: seq<Trial>)
    requires Replay(profile, settings, trials).Ok?
    ensures var s := Replay(profile, settings, trials).value;
            s.trials == trials && s.profile == profile && s.settings == settings
  {
    if trials != [] {
      var prefix, last := trials[..|trials| - 1], trials[|trials| - 1];
      RunAppends(profile, settings, prefix);
      ObserveAppends(Replay(profile, settings, prefix).value, last);
      assert prefix + [last] == trials;
    }
  }

  /** Every state any run reaches keeps its bounds, its evidence and its trial budget. */
  lemma {:induction false} EveryRunSound(profile: TrainingProfile, settings: Settings, trials: seq<Trial>)
    requires Replay(profile, settings, trials).Ok?
    ensures Sound(Replay(profile, settings, trials).value)
  {
    hide Ceiling, Advance, Observation;
    if trials == [] {
      StartSound(profile, settings);
    } else {
      var prefix, last := trials[..|trials| - 1], trials[|trials| - 1];
      EveryRunSound(profile, settings, prefix);
      var s := Replay(profile, settings, prefix).value;
      var ceiling := Ceiling(profile, settings);
      RunAppends(profile, settings, prefix);
      ObserveAppends(s, last);
      if Confirming(s, ceiling) {
        var t := ConfirmationSound(s, last, ceiling);
      } else {
        var c :| Discovering(s, c, ceiling);
        var outcome := Observation(last, profile, settings);
        if outcome == Success {
          var t := DiscoverySucceeds(s, c, last, ceiling);
        } else if outcome == Oom || outcome == MemoryLimit {
          var t := DiscoveryFails(s, c, last, ceiling);
        } else {
          var t := DiscoveryStops(s, c, last, ceiling);
        }
      }
    }
  }
}
