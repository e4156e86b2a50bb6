/**
 * The whole estimate command (entrypoints/batch_estimate.py): measure one case for each kind of GPU, then recommend a
 * batch for an allocation from everything the store holds.
 */
module EstimateCommand {
  import opened Prelude
  import opened BatchEstimation
  import opened CaseProtocol
  import SchedulerSafety
  import CaseScheduler
  import Recommendation

  /** The allocation reduced to one of its GPUs. */
  function Single(allocation: TrainingProfile, gpu: GPU): TrainingProfile {
    allocation.(gpus := [gpu])
  }

  function SingleKey(o: Options, allocation: TrainingProfile, gpu: GPU): Key {
    KeyOf(Single(allocation, gpu), o.workload, o.settings)
  }

  predicate Asked(pending: seq<Pending>, key: Key) {
    exists i :: 0 <= i < |pending| && pending[i].key == key
  }

  /** One request for each kind of GPU, in order of first appearance. */
  function Requests(o: Options, allocation: TrainingProfile, gpus: seq<GPU>): seq<Pending> {
    if gpus == [] then []
    else
      var before, gpu := Requests(o, allocation, gpus[..|gpus| - 1]), gpus[|gpus| - 1];
      var key := SingleKey(o, allocation, gpu);
      if Asked(before, key) then before else before + [Pending(key, Single(allocation, gpu))]
  }

  lemma {:induction false} RequestsAre(o: Options, allocation: TrainingProfile, gpus: seq<GPU>)
    ensures var pending := Requests(o, allocation, gpus);
            && SchedulerSafety.DistinctKeys(pending) && CaseScheduler.AllValid(o, pending)
            && forall i :: 0 <= i < |gpus| ==> Asked(pending, SingleKey(o, allocation, gpus[i]))
  {
    if gpus != [] {
      var prefix, gpu := gpus[..|gpus| - 1], gpus[|gpus| - 1];
      RequestsAre(o, allocation, prefix);
      var before, pending := Requests(o, allocation, prefix), Requests(o, allocation, gpus);
      forall key | Asked(before, key) ensures Asked(pending, key) {
        var i :| 0 <= i < |before| && before[i].key == key;
        assert pending[i] == before[i];
      }
      if !Asked(before, SingleKey(o, allocation, gpu)) {
        assert pending[|before|].key == SingleKey(o, allocation, gpu);
      }
      forall i | 0 <= i < |gpus| ensures Asked(pending, SingleKey(o, allocation, gpus[i])) {
        if i < |prefix| { assert gpus[i] == prefix[i]; }
      }
    }
  }

  /** The stored records, in some order. */
  method Catalogue(cases: map<Key, EstimateCase>) returns (listed: seq<EstimateCase>)
    ensures forall c :: c in listed <==> c in cases.Values
  {
    listed := [];
    var left := cases.Keys;
    while left != {}
      invariant left <= cases.Keys
      invariant forall c :: c in listed <==> exists k :: k in cases && k !in left && cases[k] == c
      decreases |left|
    {
      var key :| key in left;
      listed := listed + [cases[key]];
      left := left - {key};
    }
  }

  /** Measured evidence for one GPU of the allocation carries over to it. */
  lemma MeasuredFits(o: Options, allocation: TrainingProfile, count: nat, gpu: GPU, c: EstimateCase)
    requires 0 < count <= |allocation.gpus| && CaseKey(c) == SingleKey(o, allocation, gpu)
    requires c.Usable() && (c.perGpuBatch.Some? ==> c.perGpuBatch.value % 8 == 0)
    ensures Recommendation.FitsSingle(c, allocation.(gpus := allocation.gpus[..count]), gpu, o.workload)
  {
  }

  /** Every GPU of the allocation was measured with success, on the grid that recommendations need. */
  ghost predicate AllMeasured(o: Options, allocation: TrainingProfile, count: nat, results: map<Key, EstimateCase>)
    requires count <= |allocation.gpus|
  {
    forall i :: 0 <= i < count ==> MeasuredOne(o, allocation, i, results)
  }

  ghost predicate MeasuredOne(o: Options, allocation: TrainingProfile, i: nat, results: map<Key, EstimateCase>)
    requires i < |allocation.gpus|
  {
    var key := SingleKey(o, allocation, allocation.gpus[i]);
    key in results && results[key].Usable()
      && (results[key].perGpuBatch.Some? ==> results[key].perGpuBatch.value % 8 == 0)
  }

  lemma StoredAccepted(store: map<Key, EstimateCase>, listed: seq<EstimateCase>)
    requires ValidStore(store) && forall c :: c in listed <==> c in store.Values
    ensures Recommendation.AllAccepted(listed)
  {
    hide Accepted;
    forall i | 0 <= i < |listed| ensures Accepted(listed[i]) {
      assert listed[i] in store.Values;
    }
  }

  lemma MeasuredSingles(o: Options, allocation: TrainingProfile, count: nat, results: map<Key, EstimateCase>,
                        store: map<Key, EstimateCase>, listed: seq<EstimateCase>)
    requires 0 < count <= |allocation.gpus| && AllMeasured(o, allocation, count, results) && ValidStore(store)
    requires forall c :: c in listed <==> c in store.Values
    requires forall k :: k in results && results[k].Usable() ==> k in store && store[k] == results[k]
    ensures forall i :: 0 <= i < count ==>
      Recommendation.HasSingle(listed, allocation.(gpus := allocation.gpus[..count]), allocation.gpus[i], o.workload)
  {
    hide Accepted, Recommendation.FitsSingle;
    forall i | 0 <= i < count
      ensures Recommendation.HasSingle(listed, allocation.(gpus := allocation.gpus[..count]), allocation.gpus[i],
          o.workload)
    {
      assert MeasuredOne(o, allocation, i, results);
      var key := SingleKey(o, allocation, allocation.gpus[i]);
      var c := results[key];
      assert c in store.Values && CaseKey(c) == key;
      MeasuredFits(o, allocation, count, allocation.gpus[i], c);
      var j :| 0 <= j < |listed| && listed[j] == c;
    }
  }

  /**
   * Measure, then recommend for the first `count` GPUs: a recommendation rests on records of the store, each backed by
   * its trials, and there is one whenever every GPU was measured with success on the grid of eights.
   */
  method EstimateBatches(o: Options, store: CaseScheduler.Store, allocation: TrainingProfile, count: nat,
                         env: CaseScheduler.Environment)
    returns (results: map<Key, EstimateCase>, listed: seq<EstimateCase>,
             r: Result<Recommendation.Resolved, Recommendation.RecommendationError>)
    requires Feasible(o) && Limit(o) > 0 && CaseScheduler.Honest(env) && CaseScheduler.EventuallyReturns(env)
    requires ValidStore(store.cases) && 0 < count <= |allocation.gpus|
    modifies store
    ensures forall i :: 0 <= i < |allocation.gpus| ==> SingleKey(o, allocation, allocation.gpus[i]) in results
    ensures forall c :: c in listed <==> c in store.cases.Values
    ensures r.Ok? ==> Recommendation.SoundFor(r.value, allocation.(gpus := allocation.gpus[..count]), o.workload,
        listed)
    ensures AllMeasured(o, allocation, count, results) ==> r.Ok?
  {
    hide Accepted, Recommendation.SoundFor, Recommendation.HasSingle;
    var pending := Requests(o, allocation, allocation.gpus);
    RequestsAre(o, allocation, allocation.gpus);
    results := CaseScheduler.Execute(o, store, pending, env);
    listed := Catalogue(store.cases);
    StoredAccepted(store.cases, listed);
    var target := allocation.(gpus := allocation.gpus[..count]);
    r := Recommendation.SelectRecommendation(listed, target, o.workload);
    if AllMeasured(o, allocation, count, results) {
      MeasuredSingles(o, allocation, count, results, store.cases, listed);
    }
  }
}
