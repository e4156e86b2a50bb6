/** The loop that drives a search with a real probe and saves a record after every trial. */
module Measuring {
  import opened Prelude
  import opened BatchEstimation
  import opened SearchInvariants
  import opened SearchTheorems
  import opened SavedEvidence

  /** One attempt of the probe: a trial, or an exception with its rendered text. */
  datatype ProbeOutcome = Answered(trial: Trial) | Raised(text: string)

  /** Everything saved so far is valid evidence under one key, and only the last save can be usable. */
  ghost predicate Saves(saves: seq<EstimateCase>, c: EstimateCase, key: EstimateKey) {
    && saves != [] && saves[|saves| - 1] == c
    && (forall i :: 0 <= i < |saves| ==> Accepted(saves[i]) && CaseKey(saves[i]) == key)
    && (forall i :: 0 <= i < |saves| - 1 ==> !saves[i].Usable())
  }

  /** The trials are the probe's answers, in order. */
  ghost predicate FromProbe(trials: seq<Trial>, probe: (nat, nat) -> ProbeOutcome) {
    forall i: nat :: i < |trials| ==> probe(i, trials[i].globalBatch) == Answered(trials[i])
  }

  function TrialLimit(profile: TrainingProfile, settings: Settings): nat {
    GridPoints(Ceiling(profile, settings), settings) + 1
  }

  /** A state of the measuring loop: the search is a replay of its trials and is saved as it stands. */
  ghost predicate InProgress(s: BatchSearch, c: EstimateCase, profile: TrainingProfile, workload: Workload,
                             settings: Settings) {
    && Replay(profile, settings, s.trials) == Ok(s)
    && |s.trials| <= TrialLimit(profile, settings)
    && (s.nextBatch.Some? <==> s.status == Searching)
    && (s.status == Searching ==> c.status == Failed && |s.trials| < TrialLimit(profile, settings))
    && (s.status != Searching ==> c.status == s.status && c.perGpuBatch == s.perGpuBatch)
    && Accepted(c) && c.trials == s.trials && c.profile == profile && CaseKey(c) == KeyOf(profile, workload, settings)
  }

  lemma SnapshotInProgress(s: BatchSearch, profile: TrainingProfile, workload: Workload, settings: Settings,
                          createdAt: string, finished: string)
    requires Replay(profile, settings, s.trials) == Ok(s)
    ensures InProgress(s, Snapshot(s, workload, createdAt, finished), profile, workload, settings)
  {
    SnapshotsReload(profile, settings, s.trials, workload, createdAt, finished);
    PendingExists(profile, settings, s.trials);
    TrialBound(profile, settings, s.trials);
  }

  lemma ObservedReplays(s: BatchSearch, trial: Trial, profile: TrainingProfile, settings: Settings)
    requires Replay(profile, settings, s.trials) == Ok(s) && Observe(s, trial).Ok?
    ensures var t := Observe(s, trial).value;
            t.trials == s.trials + [trial] && Replay(profile, settings, t.trials) == Ok(t)
            && Some(trial.globalBatch) == s.nextBatch
  {
    hide Observe;
    ObserveAppends(s, trial);
    ObservedPending(s, trial);
    assert (s.trials + [trial])[..|s.trials|] == s.trials;
  }

  lemma ObservedPending(s: BatchSearch, trial: Trial)
    requires Observe(s, trial).Ok?
    ensures Some(trial.globalBatch) == s.nextBatch
  {
    hide Observation, Advance;
  }

  /** A probe on hardware where exactly `cap` images per rank fit; its memory peaks may be anything. */
  ghost predicate CapacityProbe(probe: (nat, nat) -> ProbeOutcome, profile: TrainingProfile, settings: Settings,
                                cap: nat) {
    && (forall k, batch :: probe(k, batch).Answered? && (batch > 0 ==> probe(k, batch).trial.globalBatch == batch)
                           && AnswersLike(probe(k, batch).trial, profile, settings, cap))
    && (forall k, j, batch, other :: k != j ==> probe(k, batch).trial.trialId != probe(j, other).trial.trialId)
  }

  /** The record states the capacity the linear scan would have found. */
  ghost predicate StatesCapacity(c: EstimateCase, cap: nat) {
    var best := LinearScan(0, Step(c.settings), cap, Ceiling(c.profile, c.settings));
    && c.perGpuBatch == (if best == 0 then None else Some(best))
    && c.status == (if best == 0 then NoCapacity else if cap >= Ceiling(c.profile, c.settings) then CeilingLimited
      else Validated)
  }

  lemma CapacityProbeAccepted(s: BatchSearch, probe: (nat, nat) -> ProbeOutcome, profile: TrainingProfile,
                              settings: Settings, cap: nat)
    requires Replay(profile, settings, s.trials) == Ok(s) && s.nextBatch.Some? && s.status == Searching
    requires FromProbe(s.trials, probe) && CapacityProbe(probe, profile, settings, cap)
    ensures Observe(s, probe(|s.trials|, s.nextBatch.value).trial).Ok?
  {
    PendingExists(profile, settings, s.trials);
    var trial := probe(|s.trials|, s.nextBatch.value).trial;
    forall i: nat | i < |s.trials| ensures s.trials[i].trialId != trial.trialId {
      assert probe(i, s.trials[i].globalBatch) == Answered(s.trials[i]);
    }
    NeverStuck(profile, settings, s.trials, trial);
    assert (s.trials + [trial])[..|s.trials|] == s.trials;
  }

  lemma CapacityStated(s: BatchSearch, c: EstimateCase, probe: (nat, nat) -> ProbeOutcome, cap: nat)
    requires Replay(c.profile, c.settings, s.trials) == Ok(s) && s.status != Searching
    requires FromProbe(s.trials, probe) && CapacityProbe(probe, c.profile, c.settings, cap)
    requires c.status == s.status && c.perGpuBatch == s.perGpuBatch
    ensures StatesCapacity(c, cap)
  {
    forall i: nat | i < |s.trials| ensures AnswersLike(s.trials[i], c.profile, c.settings, cap) {
      assert probe(i, s.trials[i].globalBatch) == Answered(s.trials[i]);
    }
    SearchRefinesLinearScan(c.profile, c.settings, s.trials, cap);
    EveryRunSound(c.profile, c.settings, s.trials);
    RunAppends(c.profile, c.settings, s.trials);
    GridScan(0, c.settings, cap, Ceiling(c.profile, c.settings));
  }

  /** Whatever capacity the probe answers like is the one the record states. */
  ghost predicate TrueToCapacity(c: EstimateCase, probe: (nat, nat) -> ProbeOutcome, profile: TrainingProfile,
                                 settings: Settings) {
    forall cap: nat :: CapacityProbe(probe, profile, settings, cap) ==> StatesCapacity(c, cap)
  }

  /** What the loop promises about its final record and everything it saved on the way. */
  ghost predicate Delivered(c: EstimateCase, saves: seq<EstimateCase>, probe: (nat, nat) -> ProbeOutcome,
                            profile: TrainingProfile, workload: Workload, settings: Settings) {
    && Saves(saves, c, KeyOf(profile, workload, settings)) && c.profile == profile
    && (c.Usable() ==> Substantiated(c))
    && |c.trials| <= TrialLimit(profile, settings) && FromProbe(c.trials, probe)
    && TrueToCapacity(c, probe, profile, settings)
  }

  lemma SavesExtend(saves: seq<EstimateCase>, c: EstimateCase, next: EstimateCase, key: EstimateKey)
    requires Saves(saves, c, key) && !c.Usable() && Accepted(next) && CaseKey(next) == key
    ensures Saves(saves + [next], next, key)
  {
    hide Accepted, CaseKey;
  }

  lemma FinishedResult(s: BatchSearch, c: EstimateCase, saves: seq<EstimateCase>, probe: (nat, nat) -> ProbeOutcome,
                       profile: TrainingProfile, workload: Workload, settings: Settings)
    requires InProgress(s, c, profile, workload, settings) && s.nextBatch.None? && FromProbe(s.trials, probe)
    requires Saves(saves, c, KeyOf(profile, workload, settings))
    ensures Delivered(c, saves, probe, profile, workload, settings)
  {
    if c.Usable() { AcceptedEvidenceIsReal(c); }
    forall cap: nat | CapacityProbe(probe, profile, settings, cap) ensures StatesCapacity(c, cap) {
      CapacityStated(s, c, probe, cap);
    }
  }

  /** A search cut short by an error is saved as failed; a probe true to a capacity never causes that. */
  lemma InterruptedResult(s: BatchSearch, before: EstimateCase, saves: seq<EstimateCase>, c: EstimateCase,
                          probe: (nat, nat) -> ProbeOutcome, profile: TrainingProfile, workload: Workload,
                            settings: Settings)
    requires InProgress(s, before, profile, workload, settings) && s.nextBatch.Some? && FromProbe(s.trials, probe)
    requires Saves(saves, before, KeyOf(profile, workload, settings))
    requires var outcome := probe(|s.trials|, s.nextBatch.value);
             outcome.Raised? || Observe(s, outcome.trial).Err?
    requires c == EstimateCase(profile, workload, settings, Failed, None, None, s.trials, c.createdAt, c.diagnostic)
    requires c.diagnostic != ""
    ensures Delivered(c, saves + [c], probe, profile, workload, settings)
  {
    SavesExtend(saves, before, c, KeyOf(profile, workload, settings));
    if cap: nat :| CapacityProbe(probe, profile, settings, cap) {
      CapacityProbeAccepted(s, probe, profile, settings, cap);
      assert false;
    }
  }

  /** One attempt: the next state, or the text of the exception that ends the case. */
  method TakeTrial(s: BatchSearch, outcome: ProbeOutcome, ghost probe: (nat, nat) -> ProbeOutcome,
                   profile: TrainingProfile, settings: Settings)
    returns (next: Result<BatchSearch, string>)
    requires Replay(profile, settings, s.trials) == Ok(s) && FromProbe(s.trials, probe) && s.nextBatch.Some?
    requires outcome == probe(|s.trials|, s.nextBatch.value) && (outcome.Raised? ==> outcome.text != "")
    ensures next.Err? <==> outcome.Raised? || Observe(s, outcome.trial).Err?
    ensures next.Err? ==> next.error != ""
    ensures next.Ok? ==>
        Replay(profile, settings, next.value.trials) == Ok(next.value) && |next.value.trials| == |s.trials| + 1
    ensures next.Ok? ==> FromProbe(next.value.trials, probe)
  {
    if outcome.Raised? { return Err(outcome.text); }
    var observed := Observe(s, outcome.trial);
    if observed.Err? { return Err("error"); }
    ObservedReplays(s, outcome.trial, profile, settings);
    return Ok(observed.value);
  }

  /**
   * The search driven by a real probe: `probe(k, batch)` is the outcome of the k-th trial.
   * Returns the final record and everything saved on the way, the last save being the record itself.
   */
  method Measure(profile: TrainingProfile, workload: Workload, settings: Settings, createdAt: string,
                 probe: (nat, nat) -> ProbeOutcome)
    returns (r: Result<(EstimateCase, seq<EstimateCase>), SearchError>)
    requires forall k, batch :: probe(k, batch).Raised? ==> probe(k, batch).text != ""
    ensures r.Err? <==> Start(profile, settings).Err?
    ensures r.Ok? ==> Delivered(r.value.0, r.value.1, probe, profile, workload, settings)
  {
    var started := Start(profile, settings);
    if started.Err? { return Err(started.error); }
    var search := started.value;
    var c := Snapshot(search, workload, createdAt, "");
    var saves := [c];
    SnapshotInProgress(search, profile, workload, settings, createdAt, "");
    while search.nextBatch.Some?
      invariant InProgress(search, c, profile, workload, settings)
      invariant Saves(saves, c, KeyOf(profile, workload, settings))
      invariant FromProbe(search.trials, probe)
      decreases TrialLimit(profile, settings) - |search.trials|
    {
      var outcome := probe(|search.trials|, search.nextBatch.value);
      var next := TakeTrial(search, outcome, probe, profile, settings);
      if next.Err? {
        var failed := EstimateCase(profile, workload, settings, Failed, None, None, search.trials, createdAt,
          next.error);
        InterruptedResult(search, c, saves, failed, probe, profile, workload, settings);
        return Ok((failed, saves + [failed]));
      }
      search := next.value;
      SnapshotInProgress(search, profile, workload, settings, createdAt, "");
      var saved := Snapshot(search, workload, createdAt, "");
      SavesExtend(saves, c, saved, KeyOf(profile, workload, settings));
      c, saves := saved, saves + [saved];
    }
    FinishedResult(search, c, saves, probe, profile, workload, settings);
    return Ok((c, saves));
  }
}
