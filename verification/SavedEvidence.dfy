/** Saved records: what an accepted one proves, and what survives saving, reloading and reattaching. */
module SavedEvidence {
  import opened Prelude
  import opened BatchEstimation
  import opened SearchInvariants
  import opened SearchTheorems

  const PENDING := "search"

  /** The record written after a step: unfinished searches are saved as failed. */
  function Snapshot(s: BatchSearch, workload: Workload, createdAt: string, finished: string): EstimateCase {
    if s.status == Searching then
      EstimateCase(s.profile, workload, s.settings, Failed, None, None, s.trials, createdAt, PENDING)
    else
      EstimateCase(s.profile, workload, s.settings, s.status, s.globalBatch, s.perGpuBatch, s.trials, createdAt,
        finished)
  }

  /** A success at this record's per-rank batch, under complete evidence and every rank's budget. */
  ghost predicate MeasuredWithin(trial: Trial, c: EstimateCase) {
    && c.perGpuBatch.Some?
    && trial.globalBatch == c.perGpuBatch.value * c.profile.World()
    && trial.status == Success && CompleteEvidence(trial, c.profile, c.settings)
    && forall i :: 0 <= i < |c.profile.gpus| ==> trial.peaks[i] <= Budget(c.profile.gpus[i], c.settings)
  }

  ghost predicate MeasuredAs(c: EstimateCase, perRank: int, outcome: Outcome) {
    exists t :: t in c.trials && t.globalBatch == perRank * c.profile.World()
             && Shows(Observation(t, c.profile, c.settings), outcome)
  }

  /** What a usable record must contain for its status to be believed. */
  ghost predicate Substantiated(c: EstimateCase) {
    var last := |c.trials| - 1;
    && c.perGpuBatch.Some? && c.perGpuBatch.value > 0
    && c.globalBatch == Some(c.perGpuBatch.value * c.profile.World())
    && last >= 1 && MeasuredWithin(c.trials[last], c)
    && (exists i :: 0 <= i < last && MeasuredWithin(c.trials[i], c) && c.trials[i].trialId != c.trials[last].trialId)
    && (c.status == Validated ==> MeasuredAs(c, c.perGpuBatch.value + Step(c.settings), TooBig))
    && (c.status == CeilingLimited ==> c.perGpuBatch.value == Ceiling(c.profile, c.settings))
    && (c.status == NumericallyLimited ==> exists b :: b > c.perGpuBatch.value && MeasuredAs(c, b, NotFinite))
  }

  lemma {:induction false} IdsDistinct(profile: TrainingProfile, settings: Settings, trials: seq<Trial>, i: nat, j: nat)
    requires Replay(profile, settings, trials).Ok? && i < j < |trials|
    ensures trials[i].trialId != trials[j].trialId
  {
    var prefix := trials[..|trials| - 1];
    RunAppends(profile, settings, prefix);
    if j < |trials| - 1 {
      IdsDistinct(profile, settings, prefix, i, j);
    } else {
      assert prefix[i].trialId in Ids(prefix);
    }
  }

  lemma WitnessSubstantiates(s: BatchSearch, c: EstimateCase, i: nat)
    requires c.profile == s.profile && c.settings == s.settings && c.trials == s.trials
    requires c.perGpuBatch == Some(s.lower) && Witness(s, i, s.lower, Fits)
    ensures MeasuredWithin(c.trials[i], c)
  {
  }

  lemma WitnessedMeans(s: BatchSearch, c: EstimateCase, perRank: int, outcome: Outcome)
    requires c.profile == s.profile && c.settings == s.settings && c.trials == s.trials
    requires Witnessed(s, perRank, outcome)
    ensures MeasuredAs(c, perRank, outcome)
  {
    var i :| Witness(s, i, perRank, outcome);
    assert s.trials[i] in c.trials;
  }

  /** Accepted evidence is real: a usable record holds the measurements its status claims. */
  lemma AcceptedEvidenceIsReal(c: EstimateCase)
    requires Accepted(c) && c.Usable()
    ensures Substantiated(c)
  {
    hide Replay, Ceiling, MeasuredWithin, MeasuredAs;
    EveryRunSound(c.profile, c.settings, c.trials);
    RunAppends(c.profile, c.settings, c.trials);
    var s := Replay(c.profile, c.settings, c.trials).value;
    var last := |c.trials| - 1;
    assert ConfirmedResult(s, Ceiling(c.profile, c.settings));
    WitnessSubstantiates(s, c, last);
    var i :| i < last && Witness(s, i, s.lower, Fits);
    WitnessSubstantiates(s, c, i);
    IdsDistinct(c.profile, c.settings, c.trials, i, last);
    if s.upper.Some? { WitnessedMeans(s, c, s.upper.value, TooBig); }
    if s.numericalFailure.Some? {
      var b :| FailedAbove(s, b);
      WitnessedMeans(s, c, b, NotFinite);
    }
  }

  /** Every snapshot of every run is accepted on reload; only a finished search is usable. */
  lemma SnapshotsReload(profile: TrainingProfile, settings: Settings, trials: seq<Trial>,
                        workload: Workload, createdAt: string, finished: string)
    requires Replay(profile, settings, trials).Ok?
    ensures var s := Replay(profile, settings, trials).value;
            var c := Snapshot(s, workload, createdAt, finished);
            && Accepted(c) && c.trials == trials && c.profile == profile
            && CaseKey(c) == KeyOf(profile, workload, settings)
            && (c.Usable() <==> s.status in {Validated, CeilingLimited, NumericallyLimited})
  {
    RunAppends(profile, settings, trials);
  }

  lemma {:induction false} PrefixReplays(profile: TrainingProfile, settings: Settings, trials: seq<Trial>, k: nat)
    requires Replay(profile, settings, trials).Ok? && k <= |trials|
    ensures Replay(profile, settings, trials[..k]).Ok?
  {
    if k < |trials| {
      PrefixReplays(profile, settings, trials[..|trials| - 1], k);
      assert trials[..|trials| - 1][..k] == trials[..k];
    } else {
      assert trials[..k] == trials;
    }
  }

  /** Any prefix of a run, saved as failed with a diagnostic, is accepted and never usable. */
  lemma PrefixSavedAsFailed(profile: TrainingProfile, settings: Settings, trials: seq<Trial>, k: nat,
                            workload: Workload, createdAt: string, diagnostic: string)
    requires Replay(profile, settings, trials).Ok? && k <= |trials| && diagnostic != ""
    ensures var c := EstimateCase(profile, workload, settings, Failed, None, None, trials[..k], createdAt, diagnostic);
            Accepted(c) && !c.Usable()
  {
    PrefixReplays(profile, settings, trials, k);
  }

  /** Status and batches of an accepted record are determined by its trials, unless it admits failure. */
  lemma AcceptedResultUnique(a: EstimateCase, b: EstimateCase)
    requires Accepted(a) && Accepted(b) && a.status != Failed && b.status != Failed
    requires a.profile == b.profile && a.settings == b.settings && a.trials == b.trials
    ensures a.status == b.status && a.globalBatch == b.globalBatch && a.perGpuBatch == b.perGpuBatch
    ensures var s := Replay(a.profile, a.settings, a.trials).value;
            a.status == s.status && a.globalBatch == s.globalBatch && a.perGpuBatch == s.perGpuBatch
  {
    assert Judge(a, Replay(a.profile, a.settings, a.trials)).Ok?;
    assert Judge(b, Replay(a.profile, a.settings, a.trials)).Ok?;
  }

  /** An accepted record carries a batch exactly when it is usable. */
  lemma BatchOnlyWhenUsable(c: EstimateCase)
    requires Accepted(c)
    ensures c.Usable() <==> c.perGpuBatch.Some?
    ensures c.Usable() <==> c.globalBatch.Some?
  {
    EveryRunSound(c.profile, c.settings, c.trials);
    RunAppends(c.profile, c.settings, c.trials);
  }

  /** The trials themselves end in a failure, or at least in a numerical one. */
  ghost predicate FailsByItself(c: EstimateCase) {
    var r := Replay(c.profile, c.settings, c.trials);
    r.Ok? && (r.value.status == Failed || (c.trials != [] && c.trials[|c.trials| - 1].status == Nonfinite))
  }

  /**
   * Exactly which records are accepted: those whose trials replay, and that either admit failure without a batch and
   * with a diagnostic or failing trials, or state the finished result of the replay.
   */
  lemma AcceptedIff(c: EstimateCase)
    ensures Accepted(c) <==>
      var r := Replay(c.profile, c.settings, c.trials);
      && r.Ok?
      && if c.status == Failed then
           c.globalBatch.None? && c.perGpuBatch.None? && (c.diagnostic != "" || FailsByItself(c))
         else
           c.status != Searching && c.status == r.value.status
           && c.globalBatch == r.value.globalBatch && c.perGpuBatch == r.value.perGpuBatch
  {
    hide Replay;
    var r := Replay(c.profile, c.settings, c.trials);
    if r.Ok? && r.value.status == Failed {
      EveryRunSound(c.profile, c.settings, c.trials);
      RunAppends(c.profile, c.settings, c.trials);
      FailedWithoutBatch(r.value, Ceiling(c.profile, c.settings));
    }
  }

  lemma FailedWithoutBatch(s: BatchSearch, ceiling: nat)
    requires SoundBelow(s, ceiling) && s.status == Failed
    ensures s.globalBatch.None? && s.perGpuBatch.None?
  {
    hide Bounds, Evidence;
  }

  // ----- GPU identities -----

  /** Equal in everything but the identities of the GPUs. */
  ghost predicate SameAllocation(p: TrainingProfile, q: TrainingProfile) {
    p.recipe == q.recipe && HardwareOf(p.gpus) == HardwareOf(q.gpus)
  }

  lemma SameHardware(p: TrainingProfile, q: TrainingProfile, i: nat)
    requires SameAllocation(p, q) && i < |p.gpus|
    ensures |p.gpus| == |q.gpus| && Hardware(p.gpus[i]) == Hardware(q.gpus[i])
  {
    assert HardwareOf(p.gpus)[i] == HardwareOf(q.gpus)[i];
  }

  lemma ObservationIgnoresIdentity(trial: Trial, p: TrainingProfile, q: TrainingProfile, settings: Settings)
    requires SameAllocation(p, q)
    ensures Observation(trial, p, settings) == Observation(trial, q, settings)
  {
    assert |HardwareOf(p.gpus)| == |HardwareOf(q.gpus)|;
    if trial.status == Success && CompleteEvidence(trial, p, settings) {
      forall i | 0 <= i < |p.gpus| ensures Budget(p.gpus[i], settings) == Budget(q.gpus[i], settings) {
        SameHardware(p, q, i);
      }
    }
  }

  lemma GrowthIgnoresIdentity(s: BatchSearch, q: TrainingProfile, ceiling: nat)
    requires SameAllocation(s.profile, q) && |s.profile.gpus| == |q.gpus|
    ensures GrowthCandidate(s, ceiling) == GrowthCandidate(s.(profile := q), ceiling)
  {
    hide Extrapolated, HardwareOf;
    if |s.trials| > 1 {
      var previous, current := s.trials[|s.trials| - 2], s.trials[|s.trials| - 1];
      if |previous.peaks| == |current.peaks| == |q.gpus| {
        if forall i :: 0 <= i < |current.peaks| ==> previous.peaks[i] < current.peaks[i] {
          ExtrapolationIgnoresIdentity(s, q, ceiling, previous, current);
        }
      }
    }
  }

  lemma ExtrapolationIgnoresIdentity(s: BatchSearch, q: TrainingProfile, ceiling: nat, previous: Trial, current: Trial)
    requires SameAllocation(s.profile, q)
    requires |previous.peaks| == |current.peaks| == |s.profile.gpus| == |q.gpus|
    requires forall i :: 0 <= i < |current.peaks| ==> previous.peaks[i] < current.peaks[i]
    ensures Extrapolated(s, ceiling, previous, current) == Extrapolated(s.(profile := q), ceiling, previous, current)
  {
    PredictionsIgnoreIdentity(s, q, previous.peaks, current.peaks);
  }

  lemma PredictionsIgnoreIdentity(s: BatchSearch, q: TrainingProfile, before: seq<nat>, after: seq<nat>)
    requires SameAllocation(s.profile, q)
    requires |before| == |after| == |s.profile.gpus| == |q.gpus|
    requires forall i :: 0 <= i < |after| ==> before[i] < after[i]
    ensures forall first, second :: Predictions(before, after, s, first, second)
                                 == Predictions(before, after, s.(profile := q), first, second)
  {
    forall i | 0 <= i < |q.gpus| ensures Budget(s.profile.gpus[i], s.settings) == Budget(q.gpus[i], s.settings) {
      SameHardware(s.profile, q, i);
    }
  }

  function Rename(r: Result<BatchSearch, SearchError>, q: TrainingProfile): Result<BatchSearch, SearchError> {
    if r.Err? then r else Ok(r.value.(profile := q))
  }

  lemma ObserveIgnoresIdentity(s: BatchSearch, q: TrainingProfile, trial: Trial)
    requires SameAllocation(s.profile, q)
    ensures Observe(s.(profile := q), trial) == Rename(Observe(s, trial), q)
  {
    hide ObserveBelow;
    assert |HardwareOf(s.profile.gpus)| == |HardwareOf(q.gpus)|;
    var ceiling := Ceiling(s.profile, s.settings);
    assert Ceiling(q, s.settings) == ceiling;
    ObserveBelowIgnoresIdentity(s, q, trial, ceiling);
  }

  lemma AdvanceIgnoresIdentity(s: BatchSearch, q: TrainingProfile, ceiling: nat)
    requires SameAllocation(s.profile, q) && |s.profile.gpus| == |q.gpus|
    ensures Advance(s.(profile := q), ceiling) == Rename(Advance(s, ceiling), q)
  {
    hide GrowthCandidate, HardwareOf;
    GrowthIgnoresIdentity(s, q, ceiling);
  }

  lemma ObserveBelowIgnoresIdentity(s: BatchSearch, q: TrainingProfile, trial: Trial, ceiling: nat)
    requires SameAllocation(s.profile, q) && |s.profile.gpus| == |q.gpus|
    ensures ObserveBelow(s.(profile := q), trial, ceiling) == Rename(ObserveBelow(s, trial, ceiling), q)
  {
    hide Advance, HardwareOf, Observation;
    ObservationIgnoresIdentity(trial, s.profile, q, s.settings);
    var outcome := Observation(trial, s.profile, s.settings);
    var current := s.(trials := s.trials + [trial]);
    if outcome == Success || outcome == Oom || outcome == MemoryLimit {
      var perRank := trial.globalBatch / s.profile.World();
      AdvanceIgnoresIdentity(if outcome == Success then current.(lower := perRank)
        else current.(upper := Some(perRank)), q, ceiling);
    }
  }

  /** Replay does not depend on which physical GPUs were measured. */
  lemma {:induction false} ReplayIgnoresIdentity(p: TrainingProfile, q: TrainingProfile, settings: Settings,
                                                 trials: seq<Trial>)
    requires SameAllocation(p, q)
    ensures Replay(q, settings, trials) == Rename(Replay(p, settings, trials), q)
  {
    assert |HardwareOf(p.gpus)| == |HardwareOf(q.gpus)|;
    if trials != [] {
      var prefix, last := trials[..|trials| - 1], trials[|trials| - 1];
      ReplayIgnoresIdentity(p, q, settings, prefix);
      if Replay(p, settings, prefix).Ok? {
        RunAppends(p, settings, prefix);
        ObserveIgnoresIdentity(Replay(p, settings, prefix).value, q, last);
      }
    }
  }

  /** Trials reattached under an equal key always re-verify, on whichever GPU the new attempt ran. */
  lemma ReattachedTrialsVerify(prior: EstimateCase, profile: TrainingProfile, workload: Workload, settings: Settings,
                               createdAt: string, diagnostic: string)
    requires Accepted(prior) && CaseKey(prior) == KeyOf(profile, workload, settings) && diagnostic != ""
    ensures var c := EstimateCase(profile, workload, settings, Failed, None, None, prior.trials, createdAt, diagnostic);
            Accepted(c) && !c.Usable() && CaseKey(c) == CaseKey(prior)
  {
    ReplayIgnoresIdentity(prior.profile, profile, settings, prior.trials);
  }
}
