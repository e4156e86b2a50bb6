/** Choosing a training batch for an allocation from saved single- and multi-GPU evidence. */
module Recommendation {
  import opened Prelude
  import opened BatchEstimation
  import opened SavedEvidence

  datatype Issue = NotUsable(status: SearchStatus) | NotDivisible | ProfileDiffers(field: string) | ClassBound
      | DensityBound

  function Differs(field: string, same: bool): seq<Issue> {
    if same then [] else [ProfileDiffers(field)]
  }

  function ProfileIssues(a: TrainingProfile, b: TrainingProfile): seq<Issue> {
    var p, q := a.recipe, b.recipe;
    Differs("model", p.model == q.model) + Differs("nominal_size", p.nominalSize == q.nominalSize)
    + Differs("effective_size", p.effectiveSize == q.effectiveSize)
      + Differs("dependencies", p.dependencies == q.dependencies)
    + Differs("precision", p.precision == q.precision) + Differs("compilation", p.compilation == q.compilation)
    + Differs("optimizers", p.optimizers == q.optimizers) + Differs("accumulation", p.accumulation == q.accumulation)
    + Differs("ema", p.ema == q.ema) + Differs("augmentation", p.augmentation == q.augmentation)
    + Differs("implementation_revision", p.implementationRevision == q.implementationRevision)
    + Differs("gpus", HardwareOf(a.gpus) == HardwareOf(b.gpus))
  }

  function CompatibilityIssues(c: EstimateCase, profile: TrainingProfile, workload: Workload): seq<Issue> {
    (if c.Usable() then [] else [NotUsable(c.status)])
    + (if c.perGpuBatch.Some? && c.perGpuBatch.value % 8 != 0 then [NotDivisible] else [])
    + ProfileIssues(c.profile, profile)
    + (if workload.classes > c.workload.classes then [ClassBound] else [])
    + (if workload.objectsPerImage > c.workload.objectsPerImage then [DensityBound] else [])
  }

  /** Evidence, recipe, hardware and dataset bounds all carry over to the requested training. */
  predicate Compatible(c: EstimateCase, profile: TrainingProfile, workload: Workload) {
    && c.Usable() && (c.perGpuBatch.Some? ==> c.perGpuBatch.value % 8 == 0)
    && c.profile.recipe == profile.recipe && HardwareOf(c.profile.gpus) == HardwareOf(profile.gpus)
    && workload.classes <= c.workload.classes && workload.objectsPerImage <= c.workload.objectsPerImage
  }

  /** The gate the source tests, an empty issue list, is exactly compatibility. */
  lemma NoIssuesMeansCompatible(c: EstimateCase, profile: TrainingProfile, workload: Workload)
    ensures CompatibilityIssues(c, profile, workload) == [] <==> Compatible(c, profile, workload)
  {
    ProfileIssuesMean(c.profile, profile);
  }

  lemma ProfileIssuesMean(a: TrainingProfile, b: TrainingProfile)
    ensures ProfileIssues(a, b) == [] <==> SameAllocation(a, b)
  {
  }

  /** Every case in a catalogue has passed its validator. */
  ghost predicate AllAccepted(cases: seq<EstimateCase>) {
    forall i :: 0 <= i < |cases| ==> Accepted(cases[i])
  }

  function BatchOrZero(c: EstimateCase): nat {
    if c.globalBatch.Some? then c.globalBatch.value else 0
  }

  /** The first compatible case with the smallest global batch, if any is compatible. */
  function SelectEstimate(cases: seq<EstimateCase>, profile: TrainingProfile, workload: Workload):
      (r: Option<EstimateCase>)
    ensures r.None? <==> forall i :: 0 <= i < |cases| ==> !Compatible(cases[i], profile, workload)
    ensures r.Some? ==> r.value in cases && Compatible(r.value, profile, workload)
    ensures r.Some? ==> forall i :: 0 <= i < |cases| && Compatible(cases[i], profile, workload)
                          ==> BatchOrZero(r.value) <= BatchOrZero(cases[i])
  {
    if cases == [] then None
    else
      var init, last := SelectEstimate(cases[..|cases| - 1], profile, workload), cases[|cases| - 1];
      if !Compatible(last, profile, workload) then init
      else if init.Some? && BatchOrZero(init.value) <= BatchOrZero(last) then init
      else Some(last)
  }

  /** Ties go to the case listed first. */
  lemma {:induction false} SelectsEarliest(cases: seq<EstimateCase>, profile: TrainingProfile, workload: Workload)
    returns (i: nat)
    requires SelectEstimate(cases, profile, workload).Some?
    ensures i < |cases| && cases[i] == SelectEstimate(cases, profile, workload).value
    ensures forall j :: 0 <= j < i && Compatible(cases[j], profile, workload) ==>
        BatchOrZero(cases[j]) > BatchOrZero(cases[i])
  {
    hide Compatible;
    var init, last := cases[..|cases| - 1], |cases| - 1;
    if SelectEstimate(cases, profile, workload) == SelectEstimate(init, profile, workload) {
      i := SelectsEarliest(init, profile, workload);
    } else {
      i := last;
      assert forall j :: 0 <= j < last ==> init[j] == cases[j];
    }
  }

  /** The case fits this allocation reduced to one of its GPUs. */
  predicate FitsSingle(c: EstimateCase, profile: TrainingProfile, gpu: GPU, workload: Workload) {
    Compatible(c, profile.(gpus := [gpu]), workload)
  }

  datatype Origin = Measured | Extrapolated

  datatype Resolved = Resolved(
    origin: Origin, profile: TrainingProfile, globalBatch: nat, perGpuBatch: nat, sources: seq<EstimateCase>,
    sourceKeys: seq<EstimateKey>, sourceStatuses: seq<SearchStatus>)

  function SourceHardware(c: EstimateCase): (string, pos) {
    Hardware(c.profile.gpus[0])
  }

  /** The last target GPU of a hardware type: the dictionary entry that survives. */
  function TargetGpu(gpus: seq<GPU>, hardware: (string, pos)): (g: GPU)
    requires hardware in HardwareOf(gpus)
    ensures g in gpus && Hardware(g) == hardware
  {
    if Hardware(gpus[|gpus| - 1]) == hardware then gpus[|gpus| - 1]
    else
      assert HardwareOf(gpus) == HardwareOf(gpus[..|gpus| - 1]) + [Hardware(gpus[|gpus| - 1])];
      TargetGpu(gpus[..|gpus| - 1], hardware)
  }

  function CapacityOrZero(c: EstimateCase): nat {
    if c.perGpuBatch.Some? then c.perGpuBatch.value else 0
  }

  predicate SmallestCapacity(sources: seq<EstimateCase>, capacity: nat) {
    && (exists i :: 0 <= i < |sources| && CapacityOrZero(sources[i]) == capacity)
    && (forall i :: 0 <= i < |sources| ==> capacity <= CapacityOrZero(sources[i]))
  }

  predicate ValidMeasured(r: Resolved) {
    && |r.sources| == 1
    && Compatible(r.sources[0], r.profile, r.sources[0].workload)
    && r.sources[0].globalBatch == Some(r.globalBatch)
  }

  function SourceTypes(sources: seq<EstimateCase>): (t: seq<(string, pos)>)
    ensures |t| == |sources|
    ensures forall k :: 0 <= k < |sources| ==> t[k] == SourceHardware(sources[k])
  {
    seq(|sources|, k requires 0 <= k < |sources| => SourceHardware(sources[k]))
  }

  /** One source per hardware type present, no more and no fewer. */
  predicate CoversHardware(types: seq<(string, pos)>, targets: seq<(string, pos)>) {
    && (forall k :: 0 <= k < |types| ==> types[k] in targets)
    && (forall i :: 0 <= i < |targets| ==> targets[i] in types)
    && Distinct(types)
  }

  predicate ValidExtrapolated(r: Resolved) {
    && r.profile.World() != 1
    && CoversHardware(SourceTypes(r.sources), HardwareOf(r.profile.gpus))
    && (forall k :: 0 <= k < |r.sources| ==>
          FitsSingle(r.sources[k], r.profile, TargetGpu(r.profile.gpus, SourceTypes(r.sources)[k]),
            r.sources[k].workload))
    && SmallestCapacity(r.sources, r.perGpuBatch)
  }

  /** The validator of a recommendation record. */
  predicate SourceEvidence(r: Resolved) {
    && r.globalBatch > 0 && r.perGpuBatch > 0 && r.sources != []
    && r.globalBatch == r.perGpuBatch * r.profile.World()
    && r.sourceKeys == seq(|r.sources|, i requires 0 <= i < |r.sources| => CaseKey(r.sources[i]))
    && r.sourceStatuses == seq(|r.sources|, i requires 0 <= i < |r.sources| => r.sources[i].status)
    && (forall i :: 0 <= i < |r.sources| ==> r.sources[i].Usable())
    && if r.origin == Origin.Measured then ValidMeasured(r) else ValidExtrapolated(r)
  }

  datatype RecommendationError = MissingEvidence(gpu: GPU) | UnusableSource | InvalidRecord

  predicate UsableSources(sources: seq<EstimateCase>) {
    forall i :: 0 <= i < |sources| ==> sources[i].Usable() && sources[i].perGpuBatch.Some?
  }

  /** Combine sources conservatively: the smallest capacity, uniformly on every target GPU. */
  method Recommend(profile: TrainingProfile, sources: seq<EstimateCase>, origin: Origin)
    returns (r: Result<Resolved, RecommendationError>)
    requires sources != []
    ensures !UsableSources(sources) ==> r == Err(UnusableSource)
    ensures UsableSources(sources) ==>
      forall capacity :: SmallestCapacity(sources, capacity) ==>
        r == var record := Record(origin, profile, sources, capacity);
             if SourceEvidence(record) then Ok(record) else Err(InvalidRecord)
  {
    var statuses: seq<SearchStatus>, capacities: seq<int> := [], [];
    for i := 0 to |sources|
      invariant |statuses| == |capacities| == i
      invariant forall k :: 0 <= k < i ==>
        sources[k].Usable() && sources[k].perGpuBatch == Some(capacities[k]) && statuses[k] == sources[k].status
    {
      if !sources[i].Usable() || sources[i].perGpuBatch.None? { return Err(UnusableSource); }
      statuses := statuses + [sources[i].status];
      capacities := capacities + [sources[i].perGpuBatch.value];
    }
    var smallest := MinOf(capacities);
    SmallestIsMinimum(sources, capacities);
    var record := Record(origin, profile, sources, smallest);
    assert record.sourceStatuses == statuses;
    r := if SourceEvidence(record) then Ok(record) else Err(InvalidRecord);
  }

  /** The minimum the loop collects is the smallest capacity, and there is only one. */
  lemma SmallestIsMinimum(sources: seq<EstimateCase>, capacities: seq<int>)
    requires capacities != [] && |capacities| == |sources|
    requires forall k :: 0 <= k < |sources| ==> sources[k].perGpuBatch == Some(capacities[k])
    ensures forall c: nat :: SmallestCapacity(sources, c) <==> c == MinOf(capacities)
  {
    var smallest := MinOf(capacities);
    var k :| 0 <= k < |capacities| && capacities[k] == smallest;
    assert CapacityOrZero(sources[k]) == smallest;
    forall c: nat | SmallestCapacity(sources, c) ensures c == smallest {
      var j :| 0 <= j < |sources| && CapacityOrZero(sources[j]) == c;
      assert c <= CapacityOrZero(sources[k]);
    }
  }

  lemma {:induction false} SmallestExists(sources: seq<EstimateCase>) returns (capacity: nat)
    requires sources != []
    ensures SmallestCapacity(sources, capacity)
  {
    var last := CapacityOrZero(sources[|sources| - 1]);
    if |sources| == 1 {
      capacity := last;
      assert CapacityOrZero(sources[0]) == capacity;
    } else {
      var rest := SmallestExists(sources[..|sources| - 1]);
      var k :| 0 <= k < |sources| - 1 && CapacityOrZero(sources[..|sources| - 1][k]) == rest;
      assert CapacityOrZero(sources[k]) == rest;
      assert forall i :: 0 <= i < |sources| - 1 ==> sources[..|sources| - 1][i] == sources[i];
      capacity := if rest <= last then rest else last;
    }
  }

  function Record(origin: Origin, profile: TrainingProfile, sources: seq<EstimateCase>, capacity: nat): Resolved {
    Resolved(origin, profile, capacity * profile.World(), capacity, sources,
             seq(|sources|, i requires 0 <= i < |sources| => CaseKey(sources[i])),
             seq(|sources|, i requires 0 <= i < |sources| => sources[i].status))
  }

  /** An accepted case that carries over: its trials prove its batch, a multiple of eight, for these bounds. */
  ghost predicate GoodSource(c: EstimateCase, workload: Workload) {
    && Accepted(c) && c.Usable() && c.perGpuBatch.Some? && c.perGpuBatch.value > 0 && c.perGpuBatch.value % 8 == 0
    && workload.classes <= c.workload.classes && workload.objectsPerImage <= c.workload.objectsPerImage
  }

  /** On this hardware a fresh confirmation succeeded at `batch` or more per rank, every rank within budget. */
  ghost predicate Supports(gpu: GPU, batch: nat, source: EstimateCase) {
    && source.perGpuBatch.Some? && batch <= source.perGpuBatch.value
    && Hardware(gpu) in HardwareOf(source.profile.gpus)
    && exists t :: FreshSuccess(source, t)
  }

  ghost predicate FreshSuccess(source: EstimateCase, t: nat) {
    && t < |source.trials| && MeasuredWithin(source.trials[t], source)
    && exists i ::
      0 <= i < t && MeasuredWithin(source.trials[i], source) && source.trials[i].trialId != source.trials[t].trialId
  }

  ghost predicate Supported(gpu: GPU, batch: nat, sources: seq<EstimateCase>) {
    exists k :: 0 <= k < |sources| && Supports(gpu, batch, sources[k])
  }

  /** What a caller may rely on. */
  ghost predicate SoundFor(r: Resolved, profile: TrainingProfile, workload: Workload, cases: seq<EstimateCase>) {
    && SourceEvidence(r) && r.profile == profile
    && r.perGpuBatch % 8 == 0
    && (forall k :: 0 <= k < |r.sources| ==> r.sources[k] in cases && GoodSource(r.sources[k], workload))
    && (forall i :: 0 <= i < |profile.gpus| ==> Supported(profile.gpus[i], r.perGpuBatch, r.sources))
  }

  lemma CompatibleIsGood(c: EstimateCase, profile: TrainingProfile, workload: Workload)
    requires Accepted(c) && Compatible(c, profile, workload)
    ensures GoodSource(c, workload) && Compatible(c, profile, c.workload)
    ensures |c.profile.gpus| == |profile.gpus| && c.globalBatch == Some(c.perGpuBatch.value * profile.World())
  {
    AcceptedEvidenceIsReal(c);
    assert |HardwareOf(c.profile.gpus)| == |HardwareOf(profile.gpus)|;
  }

  lemma SourceSupports(gpu: GPU, batch: nat, source: EstimateCase, workload: Workload)
    requires GoodSource(source, workload) && batch <= source.perGpuBatch.value
    requires Hardware(gpu) in HardwareOf(source.profile.gpus)
    ensures Supports(gpu, batch, source)
  {
    AcceptedEvidenceIsReal(source);
    assert FreshSuccess(source, |source.trials| - 1);
  }

  /** Arithmetic shared by both origins. */
  lemma RecordBatch(origin: Origin, profile: TrainingProfile, sources: seq<EstimateCase>, capacity: nat,
                    workload: Workload)
    requires SmallestCapacity(sources, capacity)
    requires forall k :: 0 <= k < |sources| ==> GoodSource(sources[k], workload)
    ensures capacity > 0 && capacity % 8 == 0
    ensures forall k :: 0 <= k < |sources| ==> capacity <= sources[k].perGpuBatch.value
    ensures Record(origin, profile, sources, capacity).globalBatch > 0
  {
    var k :| 0 <= k < |sources| && CapacityOrZero(sources[k]) == capacity;
    MulMonotone(0, capacity, profile.World());
  }

  lemma MeasuredSupports(source: EstimateCase, profile: TrainingProfile, workload: Workload, capacity: nat, i: nat)
    requires GoodSource(source, workload) && capacity <= source.perGpuBatch.value
    requires HardwareOf(source.profile.gpus) == HardwareOf(profile.gpus) && i < |profile.gpus|
    ensures Supported(profile.gpus[i], capacity, [source])
  {
    assert HardwareOf(profile.gpus)[i] in HardwareOf(source.profile.gpus);
    SourceSupports(profile.gpus[i], capacity, source, workload);
    assert Supports(profile.gpus[i], capacity, [source][0]);
  }

  lemma MeasuredIsValid(source: EstimateCase, profile: TrainingProfile, workload: Workload, capacity: nat)
    requires Accepted(source) && Compatible(source, profile, workload) && SmallestCapacity([source], capacity)
    ensures ValidMeasured(Record(Origin.Measured, profile, [source], capacity)) && source.perGpuBatch == Some(capacity)
  {
    CompatibleIsGood(source, profile, workload);
    assert CapacityOrZero([source][0]) == capacity;
  }

  lemma MeasuredIsSound(cases: seq<EstimateCase>, source: EstimateCase, profile: TrainingProfile, workload: Workload,
                        capacity: nat)
    requires AllAccepted(cases) && source in cases && Compatible(source, profile, workload)
    requires SmallestCapacity([source], capacity)
    ensures SoundFor(Record(Origin.Measured, profile, [source], capacity), profile, workload, cases)
  {
    var sources, r := [source], Record(Origin.Measured, profile, [source], capacity);
    CompatibleIsGood(source, profile, workload);
    MeasuredIsValid(source, profile, workload, capacity);
    RecordBatch(Origin.Measured, profile, sources, capacity, workload);
    RecordIsValid(Origin.Measured, profile, sources, capacity);
    forall i | 0 <= i < |profile.gpus| ensures Supported(profile.gpus[i], capacity, sources) {
      MeasuredSupports(source, profile, workload, capacity, i);
    }
  }

  /** A record built from usable sources passes its validator once its origin's own conditions hold. */
  lemma RecordIsValid(origin: Origin, profile: TrainingProfile, sources: seq<EstimateCase>, capacity: nat)
    requires sources != [] && capacity > 0 && Record(origin, profile, sources, capacity).globalBatch > 0
    requires forall k :: 0 <= k < |sources| ==> sources[k].Usable()
    requires var r := Record(origin, profile, sources, capacity);
             if origin == Origin.Measured then ValidMeasured(r) else ValidExtrapolated(r)
    ensures SourceEvidence(Record(origin, profile, sources, capacity))
  {
  }

  ghost predicate Sourced(c: EstimateCase, cases: seq<EstimateCase>, profile: TrainingProfile, workload: Workload,
                          gpus: seq<GPU>) {
    c in cases && exists i :: 0 <= i < |gpus| && FitsSingle(c, profile, gpus[i], workload)
  }

  /** One single-GPU source per hardware type of the GPUs seen so far. */
  ghost predicate SingleSources(sources: seq<EstimateCase>, cases: seq<EstimateCase>, profile: TrainingProfile,
                                workload: Workload, gpus: seq<GPU>) {
    && CoversHardware(SourceTypes(sources), HardwareOf(gpus))
    && forall k :: 0 <= k < |sources| ==> Sourced(sources[k], cases, profile, workload, gpus)
  }

  lemma SingleSource(c: EstimateCase, profile: TrainingProfile, gpu: GPU, workload: Workload)
    requires Accepted(c) && FitsSingle(c, profile, gpu, workload)
    ensures GoodSource(c, workload) && HardwareOf(c.profile.gpus) == [Hardware(gpu)]
        && SourceHardware(c) == Hardware(gpu)
    ensures forall other :: Hardware(other) == Hardware(gpu) ==> FitsSingle(c, profile, other, c.workload)
  {
    var single: TrainingProfile := profile.(gpus := [gpu]);
    CompatibleIsGood(c, single, workload);
    assert HardwareOf(single.gpus) == [Hardware(gpu)];
    assert HardwareOf(c.profile.gpus)[0] == SourceHardware(c);
    forall other | Hardware(other) == Hardware(gpu) ensures FitsSingle(c, profile, other, c.workload) {
      assert HardwareOf([other]) == HardwareOf(single.gpus);
    }
  }

  lemma SourcedIsGood(c: EstimateCase, cases: seq<EstimateCase>, profile: TrainingProfile, workload: Workload,
                      target: GPU)
    requires AllAccepted(cases) && Sourced(c, cases, profile, workload, profile.gpus)
    ensures GoodSource(c, workload) && HardwareOf(c.profile.gpus) == [SourceHardware(c)]
    ensures Hardware(target) == SourceHardware(c) ==> FitsSingle(c, profile, target, c.workload)
  {
    var i :| 0 <= i < |profile.gpus| && FitsSingle(c, profile, profile.gpus[i], workload);
    SingleSource(c, profile, profile.gpus[i], workload);
  }

  lemma ExtrapolatedIsValid(cases: seq<EstimateCase>, sources: seq<EstimateCase>, profile: TrainingProfile,
                            workload: Workload, capacity: nat)
    requires AllAccepted(cases) && SingleSources(sources, cases, profile, workload, profile.gpus)
    requires profile.World() != 1 && SmallestCapacity(sources, capacity)
    ensures ValidExtrapolated(Record(Extrapolated, profile, sources, capacity))
  {
    forall k | 0 <= k < |sources|
      ensures FitsSingle(sources[k], profile, TargetGpu(profile.gpus, SourceTypes(sources)[k]), sources[k].workload)
    {
      SourcedIsGood(sources[k], cases, profile, workload, TargetGpu(profile.gpus, SourceTypes(sources)[k]));
    }
  }

  lemma SourcesSupport(cases: seq<EstimateCase>, sources: seq<EstimateCase>, profile: TrainingProfile,
                       workload: Workload, capacity: nat, i: nat)
    requires AllAccepted(cases) && SingleSources(sources, cases, profile, workload, profile.gpus)
    requires SmallestCapacity(sources, capacity) && i < |profile.gpus|
    ensures Supported(profile.gpus[i], capacity, sources)
  {
    assert HardwareOf(profile.gpus)[i] in SourceTypes(sources);
    var k :| 0 <= k < |sources| && SourceTypes(sources)[k] == Hardware(profile.gpus[i]);
    SourcedIsGood(sources[k], cases, profile, workload, profile.gpus[i]);
    assert capacity <= CapacityOrZero(sources[k]);
    SourceSupports(profile.gpus[i], capacity, sources[k], workload);
  }

  lemma ExtrapolatedIsSound(cases: seq<EstimateCase>, sources: seq<EstimateCase>, profile: TrainingProfile,
                            workload: Workload, capacity: nat)
    requires AllAccepted(cases) && SingleSources(sources, cases, profile, workload, profile.gpus)
    requires profile.World() != 1 && sources != [] && SmallestCapacity(sources, capacity)
    ensures SoundFor(Record(Extrapolated, profile, sources, capacity), profile, workload, cases)
  {
    var r := Record(Extrapolated, profile, sources, capacity);
    forall k | 0 <= k < |sources| ensures GoodSource(sources[k], workload) && sources[k] in cases {
      SourcedIsGood(sources[k], cases, profile, workload, profile.gpus[0]);
    }
    RecordBatch(Extrapolated, profile, sources, capacity, workload);
    ExtrapolatedIsValid(cases, sources, profile, workload, capacity);
    RecordIsValid(Extrapolated, profile, sources, capacity);
    forall i | 0 <= i < |profile.gpus| ensures Supported(profile.gpus[i], capacity, sources) {
      SourcesSupport(cases, sources, profile, workload, capacity, i);
    }
  }

  /** Compatible single-GPU evidence exists for this GPU. */
  predicate HasSingle(cases: seq<EstimateCase>, profile: TrainingProfile, gpu: GPU, workload: Workload) {
    exists i :: 0 <= i < |cases| && FitsSingle(cases[i], profile, gpu, workload)
  }

  lemma SameHardwareSameEvidence(cases: seq<EstimateCase>, profile: TrainingProfile, a: GPU, b: GPU, workload: Workload)
    requires Hardware(a) == Hardware(b) && HasSingle(cases, profile, a, workload)
    ensures HasSingle(cases, profile, b, workload)
  {
    var i :| 0 <= i < |cases| && FitsSingle(cases[i], profile, a, workload);
    assert HardwareOf([a]) == HardwareOf([b]);
    assert FitsSingle(cases[i], profile, b, workload);
  }

  /** The gathering loop after some GPUs: their sources, and the hardware types already covered. */
  ghost predicate Gathered(sources: seq<EstimateCase>, seen: set<(string, pos)>, cases: seq<EstimateCase>,
                           profile: TrainingProfile, workload: Workload, gpus: seq<GPU>) {
    && SingleSources(sources, cases, profile, workload, gpus)
    && (forall h :: h in seen <==> h in HardwareOf(gpus))
    && (forall j :: 0 <= j < |gpus| ==> HasSingle(cases, profile, gpus[j], workload))
  }

  lemma NothingGathered(cases: seq<EstimateCase>, profile: TrainingProfile, workload: Workload)
    ensures Gathered([], {}, cases, profile, workload, [])
  {
  }

  lemma StillCovered(sources: seq<EstimateCase>, cases: seq<EstimateCase>, profile: TrainingProfile, workload: Workload,
                     gpus: seq<GPU>, gpu: GPU)
    requires SingleSources(sources, cases, profile, workload, gpus) && Hardware(gpu) in HardwareOf(gpus)
    ensures SingleSources(sources, cases, profile, workload, gpus + [gpu])
  {
    assert HardwareOf(gpus + [gpu]) == HardwareOf(gpus) + [Hardware(gpu)];
    forall k | 0 <= k < |sources| ensures Sourced(sources[k], cases, profile, workload, gpus + [gpu]) {
      SourcedMore(sources[k], cases, profile, workload, gpus, gpu);
    }
  }

  /** A GPU whose hardware was already seen adds nothing: its evidence is the same. */
  lemma SeenAgain(cases: seq<EstimateCase>, profile: TrainingProfile, workload: Workload, gpus: seq<GPU>, gpu: GPU,
                  sources: seq<EstimateCase>, seen: set<(string, pos)>)
    requires Gathered(sources, seen, cases, profile, workload, gpus) && Hardware(gpu) in seen
    ensures Gathered(sources, seen, cases, profile, workload, gpus + [gpu])
  {
    StillCovered(sources, cases, profile, workload, gpus, gpu);
    assert HardwareOf(gpus + [gpu]) == HardwareOf(gpus) + [Hardware(gpu)];
    EvidenceAgain(cases, profile, workload, gpus, gpu);
  }

  lemma EvidenceAgain(cases: seq<EstimateCase>, profile: TrainingProfile, workload: Workload, gpus: seq<GPU>, gpu: GPU)
    requires Hardware(gpu) in HardwareOf(gpus)
    requires forall j :: 0 <= j < |gpus| ==> HasSingle(cases, profile, gpus[j], workload)
    ensures HasSingle(cases, profile, gpu, workload)
  {
    var j :| 0 <= j < |gpus| && HardwareOf(gpus)[j] == Hardware(gpu);
    SameHardwareSameEvidence(cases, profile, gpus[j], gpu, workload);
  }

  lemma SourcedMore(c: EstimateCase, cases: seq<EstimateCase>, profile: TrainingProfile, workload: Workload,
                    gpus: seq<GPU>, gpu: GPU)
    requires Sourced(c, cases, profile, workload, gpus)
    ensures Sourced(c, cases, profile, workload, gpus + [gpu])
  {
    var i :| 0 <= i < |gpus| && FitsSingle(c, profile, gpus[i], workload);
    assert (gpus + [gpu])[i] == gpus[i];
  }

  lemma FirstSeen(cases: seq<EstimateCase>, profile: TrainingProfile, workload: Workload, gpus: seq<GPU>, gpu: GPU,
                  sources: seq<EstimateCase>, seen: set<(string, pos)>, source: EstimateCase)
    requires AllAccepted(cases) && Gathered(sources, seen, cases, profile, workload, gpus) && Hardware(gpu) !in seen
    requires source in cases && FitsSingle(source, profile, gpu, workload)
    ensures Gathered(sources + [source], seen + {Hardware(gpu)}, cases, profile, workload, gpus + [gpu])
  {
    SingleSource(source, profile, gpu, workload);
    assert HardwareOf(gpus + [gpu]) == HardwareOf(gpus) + [Hardware(gpu)];
    assert SourceTypes(sources + [source]) == SourceTypes(sources) + [Hardware(gpu)];
    CoversMore(SourceTypes(sources), HardwareOf(gpus), Hardware(gpu));
    forall k | 0 <= k < |sources| ensures Sourced(sources[k], cases, profile, workload, gpus + [gpu]) {
      SourcedMore(sources[k], cases, profile, workload, gpus, gpu);
    }
    assert (gpus + [gpu])[|gpus|] == gpu;
    assert Sourced(source, cases, profile, workload, gpus + [gpu]);
  }

  lemma CoversMore(types: seq<(string, pos)>, targets: seq<(string, pos)>, h: (string, pos))
    requires CoversHardware(types, targets) && h !in targets
    ensures CoversHardware(types + [h], targets + [h])
  {
  }

  lemma SourcesUsable(cases: seq<EstimateCase>, sources: seq<EstimateCase>, profile: TrainingProfile,
                      workload: Workload)
    requires AllAccepted(cases) && SingleSources(sources, cases, profile, workload, profile.gpus)
    ensures UsableSources(sources)
  {
    forall k | 0 <= k < |sources| ensures sources[k].Usable() && sources[k].perGpuBatch.Some? {
      SourcedIsGood(sources[k], cases, profile, workload, profile.gpus[0]);
    }
  }

  lemma SingleAllocation(profile: TrainingProfile)
    requires profile.World() == 1
    ensures profile.(gpus := [profile.gpus[0]]) == profile
  {
    assert profile.gpus == [profile.gpus[0]];
  }

  /** The single-GPU sources for an allocation, or the first GPU that has none. */
  method GatherSources(cases: seq<EstimateCase>, profile: TrainingProfile, workload: Workload)
    returns (r: Result<seq<EstimateCase>, RecommendationError>)
    requires AllAccepted(cases)
    ensures r.Ok? ==> r.value != [] && SingleSources(r.value, cases, profile, workload, profile.gpus)
    ensures r.Ok? <==> forall i :: 0 <= i < |profile.gpus| ==> HasSingle(cases, profile, profile.gpus[i], workload)
    ensures r.Err? ==>
      r.error.MissingEvidence? && r.error.gpu in profile.gpus && !HasSingle(cases, profile, r.error.gpu, workload)
  {
    hide SingleSources, AllAccepted, SelectEstimate, Compatible;
    NothingGathered(cases, profile, workload);
    assert profile.gpus[..0] == [];
    var sources: seq<EstimateCase> := [];
    var seen: set<(string, pos)> := {};
    for i := 0 to |profile.gpus|
      invariant Gathered(sources, seen, cases, profile, workload, profile.gpus[..i])
      invariant i > 0 ==> sources != []
    {
      var gpu := profile.gpus[i];
      assert profile.gpus[..i + 1] == profile.gpus[..i] + [gpu];
      if Hardware(gpu) in seen {
        SeenAgain(cases, profile, workload, profile.gpus[..i], gpu, sources, seen);
      } else {
        var single := SelectEstimate(cases, profile.(gpus := [gpu]), workload);
        if single.None? {
          assert !HasSingle(cases, profile, gpu, workload);
          return Err(MissingEvidence(gpu));
        }
        FirstSeen(cases, profile, workload, profile.gpus[..i], gpu, sources, seen, single.value);
        seen := seen + {Hardware(gpu)};
        sources := sources + [single.value];
      }
    }
    assert profile.gpus[..|profile.gpus|] == profile.gpus;
    return Ok(sources);
  }

  /**
   * Prefer evidence for exactly this allocation, else scale single-GPU evidence.
   * The only error is missing evidence: the record's own validator never rejects the result.
   */
  method SelectRecommendation(cases: seq<EstimateCase>, profile: TrainingProfile, workload: Workload)
    returns (r: Result<Resolved, RecommendationError>)
    requires AllAccepted(cases)
    ensures r.Ok? ==> SoundFor(r.value, profile, workload, cases)
    ensures r.Err? ==>
      r.error.MissingEvidence? && r.error.gpu in profile.gpus && !HasSingle(cases, profile, r.error.gpu, workload)
    ensures r.Ok? <==>
      || SelectEstimate(cases, profile, workload).Some?
      || forall i :: 0 <= i < |profile.gpus| ==> HasSingle(cases, profile, profile.gpus[i], workload)
    ensures SelectEstimate(cases, profile, workload).Some? ==>
      r.Ok? && r.value.origin == Origin.Measured && r.value.sources == [SelectEstimate(cases, profile, workload).value]
  {
    var exact := SelectEstimate(cases, profile, workload);
    if exact.Some? {
      ghost var sources := [exact.value];
      CompatibleIsGood(exact.value, profile, workload);
      assert SmallestCapacity(sources, exact.value.perGpuBatch.value) by {
        assert CapacityOrZero(sources[0]) == exact.value.perGpuBatch.value;
      }
      MeasuredIsSound(cases, exact.value, profile, workload, exact.value.perGpuBatch.value);
      r := Recommend(profile, [exact.value], Origin.Measured);
      return;
    }
    var gathered := GatherSources(cases, profile, workload);
    if gathered.Err? { return Err(gathered.error); }
    if profile.World() == 1 { SingleAllocation(profile); }
    SourcesUsable(cases, gathered.value, profile, workload);
    ghost var capacity := SmallestExists(gathered.value);
    ExtrapolatedIsSound(cases, gathered.value, profile, workload, capacity);
    r := Recommend(profile, gathered.value, Extrapolated);
  }
}
