/**
 * Capacity search for one allocation, its saved record and the replay that
 * guards it (core/batch_estimation.py). Records are frozen, so they are values.
 */
module BatchEstimation {
  import opened Prelude

  datatype TrialStatus =
    | Success | Oom | MemoryLimit | Timeout | Crash | Nonfinite
    | MissingAsset | Contaminated | Cancelled | Error

  datatype SearchStatus =
    | Searching | NoCapacity | Failed | Validated | CeilingLimited | NumericallyLimited

  datatype Strategy = ExponentialBinaryV1 | MemoryGuidedV1 | MemoryGuidedAlignedV1

  datatype GPU = GPU(name: string, totalMemory: pos, uuid: Option<string>)

  datatype ModelVariant = ModelVariant(selection: string, backend: string, preset: string, architecture: string)

  /** Every memory-relevant training input except the GPUs. */
  datatype Recipe = Recipe(
    model: ModelVariant, nominalSize: (pos, pos), effectiveSize: (pos, pos),
    dependencies: map<string, string>, precision: string, compilation: string,
    optimizers: seq<string>, accumulation: string, ema: bool,
    augmentation: string, implementationRevision: string)

  datatype ProfileRecord = Profile(recipe: Recipe, gpus: seq<GPU>) {
    function World(): nat {
      |gpus|
    }
  }

  const PLACEHOLDER := GPU("gpu", 1, None)

  type TrainingProfile = p: ProfileRecord | p.gpus != []
    witness Profile(Recipe(ModelVariant("m", "b", "p", "a"), (1, 1), (1, 1), map[], "", "", [], "", false, "", ""),
                    [PLACEHOLDER])

  type Fraction = f: real | 0.0 < f <= 1.0 witness 1.0

  datatype Settings = Settings(
    force: bool, strategy: Strategy, memoryFraction: Fraction, maxGlobalBatch: pos,
    warmupSteps: pos, measuredSteps: pos, trialTimeout: real)

  datatype Workload = Workload(classes: pos, objectsPerImage: pos)

  datatype Trial = Trial(
    globalBatch: pos, status: TrialStatus, trialId: string, actualGlobalBatch: Option<pos>,
    peaks: seq<nat>, warmupSteps: nat, measuredSteps: nat, validationSteps: nat,
    optimizerPaths: seq<string>, diagnostic: string)

  datatype SearchError = CeilingTooSmall | WrongCandidate | StaleProcess | RaggedPeaks

  /** Per-rank memory allowance: the fraction of total memory, rounded down. */
  function Budget(gpu: GPU, settings: Settings): int {
    (gpu.totalMemory as real * settings.memoryFraction).Floor
  }

  predicate CompleteEvidence(trial: Trial, profile: TrainingProfile, settings: Settings) {
    && trial.actualGlobalBatch == Some(trial.globalBatch)
    && |trial.peaks| == profile.World()
    && (forall i :: 0 <= i < |trial.peaks| ==> trial.peaks[i] > 0)
    && trial.warmupSteps >= settings.warmupSteps
    && trial.measuredSteps >= settings.measuredSteps
    && trial.validationSteps > 0
    && trial.optimizerPaths == profile.recipe.optimizers
  }

  /** What a trial counts as: claimed successes need complete, in-budget evidence. */
  function Observation(trial: Trial, profile: TrainingProfile, settings: Settings): TrialStatus {
    if trial.status != Success then trial.status
    else if !CompleteEvidence(trial, profile, settings) then Error
    else if exists i :: 0 <= i < |profile.gpus| && trial.peaks[i] > Budget(profile.gpus[i], settings) then MemoryLimit
    else Success
  }

  datatype BatchSearch = BatchSearch(
    profile: TrainingProfile, settings: Settings, lower: nat, upper: Option<nat>,
    nextBatch: Option<nat>, confirming: bool, status: SearchStatus,
    globalBatch: Option<nat>, perGpuBatch: Option<nat>, trials: seq<Trial>,
    numericalFailure: Option<nat>)

  function Step(settings: Settings): (step: pos)
    ensures step == 1 || step == 8
  {
    if settings.strategy == MemoryGuidedAlignedV1 then 8 else 1
  }

  /** `x // step * step`, written out for the two grid steps. */
  function RoundDown(x: int, settings: Settings): int {
    if Step(settings) == 8 then x / 8 * 8 else x
  }

  /** Largest per-rank batch on the grid that the requested global maximum allows. */
  function Ceiling(profile: TrainingProfile, settings: Settings): nat {
    RoundDown(settings.maxGlobalBatch / profile.World(), settings)
  }

  function Start(profile: TrainingProfile, settings: Settings): Result<BatchSearch, SearchError> {
    var step := Step(settings);
    if settings.maxGlobalBatch < step * profile.World() then Err(CeilingTooSmall)
    else Ok(BatchSearch(profile, settings, 0, None, Some(step * profile.World()), false, Searching, None, None, [],
      None))
  }

  function Finish(s: BatchSearch, status: SearchStatus, batch: Option<nat>): BatchSearch {
    s.(status := status, nextBatch := None, globalBatch := batch,
       perGpuBatch := if batch.Some? then Some(batch.value / s.profile.World()) else None)
  }

  /** Linear extrapolation of one rank's memory growth to its budget. */
  function Prediction(before: nat, after: nat, budget: int, first: int, second: int): int
    requires before < after
  {
    second + (budget - after) * (second - first) / (after - before)
  }

  function Predictions(before: seq<nat>, after: seq<nat>, s: BatchSearch, first: int, second: int): (p: seq<int>)
    requires |before| == |after| == |s.profile.gpus|
    requires forall i :: 0 <= i < |after| ==> before[i] < after[i]
    ensures |p| == |after|
  {
    seq(|after|, i requires 0 <= i < |after| =>
      Prediction(before[i], after[i], Budget(s.profile.gpus[i], s.settings), first, second))
  }

  /** The most cautious rank's prediction, within four times the lower bound and the ceiling. */
  function Extrapolated(s: BatchSearch, ceiling: nat, previous: Trial, current: Trial): int
    requires |previous.peaks| == |current.peaks| == |s.profile.gpus|
    requires forall i :: 0 <= i < |current.peaks| ==> previous.peaks[i] < current.peaks[i]
  {
    var first, second := previous.globalBatch / s.profile.World(), current.globalBatch / s.profile.World();
    var predictions := Predictions(previous.peaks, current.peaks, s, first, second);
    Max(s.lower + Step(s.settings), Min(MinOf(predictions), Min(4 * s.lower, ceiling)))
  }

  /** Next per-rank batch while nothing has failed yet. */
  function GrowthCandidate(s: BatchSearch, ceiling: nat): Result<int, SearchError> {
    var fallback := Min(s.lower * 2, ceiling);
    if s.settings.strategy == ExponentialBinaryV1 || |s.trials| <= 1 then Ok(fallback)
    else
      var previous, current := s.trials[|s.trials| - 2], s.trials[|s.trials| - 1];
      var ranks := Min(Min(|previous.peaks|, |current.peaks|), |s.profile.gpus|);
      if exists i :: 0 <= i < ranks && current.peaks[i] <= previous.peaks[i] then Ok(fallback)
      else if !(|previous.peaks| == |current.peaks| == |s.profile.gpus|) then Err(RaggedPeaks)
      else
        Ok(Extrapolated(s, ceiling, previous, current))
  }

  /** Round down to the grid without revisiting the lower bound. */
  function Align(candidate: int, lower: nat, settings: Settings): (c: nat)
    ensures c >= lower + Step(settings)
  {
    Max(lower + Step(settings), RoundDown(candidate, settings))
  }

  /** The unaligned next candidate: growth before any failure, bisection after one. */
  function Candidate(s: BatchSearch, ceiling: nat): Result<int, SearchError> {
    if s.upper.None? then GrowthCandidate(s, ceiling) else Ok((s.lower + s.upper.value) / 2)
  }

  /** The next pending candidate below the aligned ceiling, or a confirmation. */
  function Advance(s: BatchSearch, ceiling: nat): Result<BatchSearch, SearchError> {
    var step := Step(s.settings);
    if s.lower == ceiling || (s.upper.Some? && s.upper.value - s.lower == step) then
      Ok(s.(confirming := true, nextBatch := Some(s.lower * s.profile.World())))
    else
      var candidate := Candidate(s, ceiling);
      if candidate.Err? then Err(candidate.error)
      else Ok(s.(nextBatch := Some(Align(candidate.value, s.lower, s.settings) * s.profile.World())))
  }

  function Confirmed(s: BatchSearch, status: TrialStatus, ceiling: nat): BatchSearch {
    var batch := s.lower * s.profile.World();
    if status != Success then Finish(s, Failed, None)
    else if s.numericalFailure.Some? then Finish(s, NumericallyLimited, Some(batch))
    else Finish(s, if s.lower == ceiling then CeilingLimited else Validated, Some(batch))
  }

  /** The process identities used so far. */
  function Ids(trials: seq<Trial>): set<string> {
    set i | 0 <= i < |trials| :: trials[i].trialId
  }

  /** One transition of the search on one measured trial. */
  function Observe(s: BatchSearch, trial: Trial): Result<BatchSearch, SearchError> {
    ObserveBelow(s, trial, Ceiling(s.profile, s.settings))
  }

  function ObserveBelow(s: BatchSearch, trial: Trial, ceiling: nat): Result<BatchSearch, SearchError> {
    if s.status != Searching || s.nextBatch != Some(trial.globalBatch) then Err(WrongCandidate)
    else if trial.trialId in Ids(s.trials) then Err(StaleProcess)
    else
      var status := Observation(trial, s.profile, s.settings);
      var current := s.(trials := s.trials + [trial]);
      if s.confirming then Ok(Confirmed(current, status, ceiling))
      else if status == Nonfinite && s.lower > 0 then
        Ok(current.(confirming := true, nextBatch := Some(s.lower * s.profile.World()),
                    numericalFailure := Some(trial.globalBatch)))
      else if status !in {Success, Oom, MemoryLimit} then Ok(Finish(current, Failed, None))
      else
        var perRank := trial.globalBatch / s.profile.World();
        if status == Success then Advance(current.(lower := perRank), ceiling)
        else if perRank == Step(s.settings) then Ok(Finish(current, NoCapacity, None))
        else Advance(current.(upper := Some(perRank)), ceiling)
  }

  /** The state after a whole run of trials, or the first error it hits. */
  function Replay(profile: TrainingProfile, settings: Settings, trials: seq<Trial>): Result<BatchSearch, SearchError> {
    if trials == [] then Start(profile, settings)
    else
      var before := Replay(profile, settings, trials[..|trials| - 1]);
      if before.Err? then before else Observe(before.value, trials[|trials| - 1])
  }

  datatype EstimateCase = EstimateCase(
    profile: TrainingProfile, workload: Workload, settings: Settings, status: SearchStatus,
    globalBatch: Option<nat>, perGpuBatch: Option<nat>, trials: seq<Trial>,
    createdAt: string, diagnostic: string) {

    predicate Usable() {
      status in {Validated, CeilingLimited, NumericallyLimited}
    }
  }

  datatype EvidenceError = SavedSearching | Rejected(search: SearchError) | NoDiagnostic | Mismatch

  /** The verdict of a saved record's validator on the state its trials replay to. */
  function Judge(c: EstimateCase, replay: Result<BatchSearch, SearchError>): Result<(), EvidenceError> {
    if c.status == Searching then Err(SavedSearching)
    else if replay.Err? then Err(Rejected(replay.error))
    else if c.status == Failed && c.globalBatch == None && c.perGpuBatch == None then
      var terminalNonfinite := c.trials != [] && c.trials[|c.trials| - 1].status == Nonfinite;
      if c.diagnostic == "" && replay.value.status != Failed && !terminalNonfinite then Err(NoDiagnostic) else Ok(())
    else if (c.status, c.globalBatch, c.perGpuBatch)
         != (replay.value.status, replay.value.globalBatch, replay.value.perGpuBatch) then Err(Mismatch)
    else Ok(())
  }

  function VerifiedEvidence(c: EstimateCase): Result<(), EvidenceError> {
    Judge(c, Replay(c.profile, c.settings, c.trials))
  }

  predicate Accepted(c: EstimateCase) {
    VerifiedEvidence(c).Ok?
  }

  /** The storage key: an injective image of everything except GPU identities. */
  datatype EstimateKey = EstimateKey(recipe: Recipe, hardware: seq<(string, pos)>, workload: Workload,
                                     settings: Settings)

  function Hardware(gpu: GPU): (string, pos) {
    (gpu.name, gpu.totalMemory)
  }

  function HardwareOf(gpus: seq<GPU>): (h: seq<(string, pos)>)
    ensures |h| == |gpus|
    ensures forall i :: 0 <= i < |gpus| ==> h[i] == Hardware(gpus[i])
  {
    seq(|gpus|, i requires 0 <= i < |gpus| => Hardware(gpus[i]))
  }

  function KeyOf(profile: TrainingProfile, workload: Workload, settings: Settings): EstimateKey {
    EstimateKey(profile.recipe, HardwareOf(profile.gpus), workload, settings)
  }

  function CaseKey(c: EstimateCase): EstimateKey {
    KeyOf(c.profile, c.workload, c.settings)
  }
}
