/** Safety, conservation and publication over every interleaving of scheduler and worker steps. */
module SchedulerSafety {
  import opened Prelude
  import opened BatchEstimation
  import opened SavedEvidence
  import opened CaseProtocol

  // ----- the pending list -----

  lemma {:induction false} WithoutKeeps(pending: seq<Pending>, key: Key)
    ensures forall p :: p in Without(pending, key) <==> p in pending && p.key != key
    ensures |Without(pending, key)| <= |pending|
    ensures (exists p :: p in pending && p.key == key) ==> |Without(pending, key)| < |pending|
  {
    if pending != [] {
      WithoutKeeps(pending[1..], key);
      assert pending == [pending[0]] + pending[1..];
    }
  }

  ghost predicate DistinctKeys(pending: seq<Pending>) {
    forall i, j :: 0 <= i < j < |pending| ==> pending[i].key != pending[j].key
  }

  lemma {:induction false} WithoutDistinct(pending: seq<Pending>, key: Key)
    requires DistinctKeys(pending)
    ensures DistinctKeys(Without(pending, key))
  {
    if pending != [] {
      assert DistinctKeys(pending[1..]);
      WithoutDistinct(pending[1..], key);
      WithoutKeeps(pending[1..], key);
      var rest := Without(pending[1..], key);
      forall j | 0 <= j < |rest| ensures rest[j].key != pending[0].key {
        assert rest[j] in pending[1..];
      }
    }
  }

  lemma PendingKeyWithout(s: State, t: State, key: Key)
    requires t.pending == Without(s.pending, key)
    ensures forall k :: PendingKey(t, k) <==> PendingKey(s, k) && k != key
  {
    WithoutKeeps(s.pending, key);
    forall k | PendingKey(t, k) ensures PendingKey(s, k) && k != key {
      var i :| 0 <= i < |t.pending| && t.pending[i].key == k;
      assert t.pending[i] in s.pending;
    }
    forall k | PendingKey(s, k) && k != key ensures PendingKey(t, k) {
      var i :| 0 <= i < |s.pending| && s.pending[i].key == k;
      assert s.pending[i] in t.pending;
    }
  }

  lemma PendingValid(o: Options, s: State, p: Pending)
    requires WellFormed(o, s) && p in s.pending
    ensures ValidPending(o, p) && PendingKey(s, p.key)
  {
  }

  lemma OnDevice(o: Options, p: Pending, d: Device, token: string)
    requires ValidPending(o, p) && d in o.devices && Matches(p.profile, d)
    ensures ValidRequest(o, p.key, Request(token, p.key, On(p.profile, d)))
    ensures Uuid(On(p.profile, d)) == d.uuid
  {
    var q: TrainingProfile := On(p.profile, d);
    assert HardwareOf(q.gpus) == HardwareOf(p.profile.gpus);
  }

  // ----- conservation -----

  lemma LaunchConserves(o: Options, s: State, p: Pending, profile: TrainingProfile, token: string, started: bool,
                        keys: set<Key>)
    requires Conserved(s, keys) && p in s.pending
    ensures Conserved(Launch(o, s, p.key, profile, token, started), keys)
  {
    var t := Launch(o, s, p.key, profile, token, started);
    WithoutDistinct(s.pending, p.key);
    PendingKeyWithout(s, t, p.key);
    assert PendingKey(s, p.key);
  }

  lemma RefuseConserves(o: Options, s: State, p: Pending, keys: set<Key>)
    requires Conserved(s, keys) && p in s.pending
    ensures Conserved(Refuse(o, s, p), keys)
  {
    var t := Refuse(o, s, p);
    WithoutDistinct(s.pending, p.key);
    PendingKeyWithout(s, t, p.key);
    assert PendingKey(s, p.key);
  }

  lemma ReceiveConserves(o: Options, s: State, outcome: Completion, keys: set<Key>)
    requires Conserved(s, keys) && outcome.key in s.active
    ensures Conserved(Receive(o, s, outcome), keys)
  {
    var t := Receive(o, s, outcome);
    assert t.pending == s.pending;
    assert forall k :: PendingKey(t, k) <==> PendingKey(s, k);
  }

  // ----- stored evidence stays valid -----

  lemma UnpublishedValid(c: EstimateCase)
    requires Accepted(c)
    ensures Accepted(Unpublished(c)) && !Unpublished(c).Usable() && CaseKey(Unpublished(c)) == CaseKey(c)
    ensures Unpublished(c).trials == c.trials
  {
  }

  lemma SaveKeepsValid(store: map<Key, EstimateCase>, c: EstimateCase)
    requires ValidStore(store) && Accepted(c)
    ensures ValidStore(Save(store, c))
  {
  }

  /** Failing a key writes one unusable, valid entry under it and nothing else. */
  lemma FailWrites(o: Options, s: State, key: Key, profile: TrainingProfile, diagnostic: string)
    requires Feasible(o) && ValidStore(s.store) && |profile.gpus| == 1
    requires KeyOf(profile, o.workload, o.settings) == key && diagnostic != ""
    ensures var t := Fail(o, s, key, profile, diagnostic);
            && key in t.store && !t.store[key].Usable() && t.store == s.store[key := t.store[key]]
            && ValidStore(t.store)
            && t.results == s.results[key := t.store[key]]
            && t == s.(store := t.store, results := t.results)
  {
    FailedCaseValid(o, s, key, profile, diagnostic);
    SaveKeepsValid(s.store, FailedCase(o, s, key, profile, diagnostic));
  }

  lemma FailedCaseValid(o: Options, s: State, key: Key, profile: TrainingProfile, diagnostic: string)
    requires Feasible(o) && ValidStore(s.store) && |profile.gpus| == 1
    requires KeyOf(profile, o.workload, o.settings) == key && diagnostic != ""
    ensures var c := FailedCase(o, s, key, profile, diagnostic);
            Accepted(c) && !c.Usable() && CaseKey(c) == key
  {
    if key in s.store {
      ReattachedTrialsVerify(s.store[key], profile, o.workload, o.settings, "now", diagnostic);
    }
  }

  lemma ReceiptIdentifies(request: Request, outcome: Completion)
    requires CompletedCase(request, outcome).Some?
    ensures var c := CompletedCase(request, outcome).value;
            && outcome.exitCode == 0 && outcome.cleanupComplete
            && outcome.receipt == Some(Receipt(request.token, request.key, c))
            && Accepted(c) && CaseKey(c) == request.key && c.profile.gpus == request.profile.gpus
  {
  }

  /** One key's entry is replaced; every other entry stays. */
  ghost predicate Rewrites(s: State, t: State, key: Key) {
    key in t.store && t.store == s.store[key := t.store[key]]
  }

  /** A launch in terms of its effects: one key moves, its entry becomes unusable, its GPU becomes owned. */
  ghost predicate LaunchEffect(s: State, t: State, request: Request, started: bool) {
    var key, uuid := request.key, Uuid(request.profile);
    && Rewrites(s, t, key) && !t.store[key].Usable()
    && t.pending == Without(s.pending, key) && t.workers == s.workers[key := uuid]
    && t.active == (if started then s.active[key := request] else s.active)
    && t.results == (if started then s.results else s.results[key := t.store[key]])
    && t.unavailable == (if started then s.unavailable else s.unavailable + {uuid})
  }

  lemma LaunchWrites(o: Options, s: State, key: Key, profile: TrainingProfile, token: string, started: bool)
    requires Feasible(o) && ValidStore(s.store) && |profile.gpus| == 1
    requires KeyOf(profile, o.workload, o.settings) == key
    ensures LaunchEffect(s, Launch(o, s, key, profile, token, started), Request(token, key, profile), started)
    ensures ValidStore(Launch(o, s, key, profile, token, started).store)
  {
    hide Accepted, ValidStore, FailedCase;
    var c := EstimateCase(profile, o.workload, o.settings, Failed, None, None, [], "now", LAUNCHED);
    LaunchedCaseValid(o, profile, c);
    SaveKeepsValid(s.store, c);
    if !started {
      var launched := s.(pending := Without(s.pending, key), store := Save(s.store, c),
                         workers := s.workers[key := Uuid(profile)], unavailable := s.unavailable + {Uuid(profile)});
      FailWrites(o, launched, key, profile, LAUNCH_FAILED);
    }
  }

  lemma LaunchedCaseValid(o: Options, profile: TrainingProfile, c: EstimateCase)
    requires Feasible(o) && |profile.gpus| == 1
    requires c == EstimateCase(profile, o.workload, o.settings, Failed, None, None, [], "now", LAUNCHED)
    ensures Accepted(c) && CaseKey(c) == KeyOf(profile, o.workload, o.settings)
  {
  }

  /** A receipt in terms of its effects. */
  ghost predicate ReceiveEffect(s: State, t: State, outcome: Completion)
    requires outcome.key in s.active
  {
    var key, uuid := outcome.key, Uuid(s.active[outcome.key].profile);
    && Rewrites(s, t, key) && t.results == s.results[key := t.store[key]]
    && t.active == s.active - {key} && t.pending == s.pending
    && t.workers == (if outcome.cleanupComplete then s.workers - {key} else s.workers)
    && t.unavailable == (if outcome.cleanupComplete then s.unavailable else s.unavailable + {uuid})
    && (t.store[key].Usable() ==> outcome.cleanupComplete)
  }

  lemma ReceiveWrites(o: Options, s: State, outcome: Completion)
    requires Feasible(o) && ValidStore(s.store) && outcome.key in s.active
    requires ValidRequest(o, outcome.key, s.active[outcome.key])
    ensures ReceiveEffect(s, Receive(o, s, outcome), outcome) && ValidStore(Receive(o, s, outcome).store)
  {
    var key, request := outcome.key, s.active[outcome.key];
    if CompletedCase(request, outcome).Some? {
      ReceiptIdentifies(request, outcome);
    } else {
      var popped := s.(active := s.active - {key}, workers := if outcome.cleanupComplete then s.workers - {key}
        else s.workers,
                       unavailable := if outcome.cleanupComplete then s.unavailable
                         else s.unavailable + {Uuid(request.profile)});
      FailWrites(o, popped, key, request.profile, INCOMPLETE);
    }
  }

  // ----- every step keeps every invariant -----

  lemma OccupiedMeans(s: State, k: Key)
    requires k in s.active
    ensures Uuid(s.active[k].profile) in Occupied(s.active)
  {
  }

  /** A free device is one of ours, of the right hardware, neither occupied nor quarantined. */
  lemma FreeMeans(o: Options, s: State, profile: TrainingProfile, busy: set<string>, i: nat)
    requires i < |o.devices|
    ensures Free(o, s, profile, busy, i) <==>
      && Matches(profile, o.devices[i]) && o.devices[i].uuid !in busy
      && o.devices[i].uuid !in Occupied(s.active) + s.unavailable
  {
  }

  lemma LaunchDevice(o: Options, s: State, p: Pending, d: Device, token: string, started: bool, busy: set<string>)
    requires Enabled(o, s, LaunchStep(p, d, token, started, busy))
    ensures p in s.pending && |s.active| < Limit(o)
    ensures d in o.devices && Matches(p.profile, d) && d.uuid !in Occupied(s.active) + s.unavailable
  {
    hide Free, Limit, Matches, Occupied;
    var i: nat :| i < |o.devices| && o.devices[i] == d && FirstFree(o, s, p.profile, busy, i);
    FreeMeans(o, s, p.profile, busy, i);
  }

  lemma LaunchKeeps(o: Options, s: State, p: Pending, d: Device, token: string, started: bool, busy: set<string>,
                    keys: set<Key>)
    requires Feasible(o) && Inv(o, s, keys) && Enabled(o, s, LaunchStep(p, d, token, started, busy))
    ensures Inv(o, Apply(o, s, LaunchStep(p, d, token, started, busy)), keys)
  {
    hide Launch, LaunchEffect, Accepted, ValidStore, FirstFree;
    LaunchDevice(o, s, p, d, token, started, busy);
    var profile: TrainingProfile := On(p.profile, d);
    var t := Launch(o, s, p.key, profile, token, started);
    PendingValid(o, s, p);
    OnDevice(o, p, d, token);
    LaunchConserves(o, s, p, profile, token, started, keys);
    LaunchWrites(o, s, p.key, profile, token, started);
    FreshGpu(s, d);
    LaunchEffectKeeps(o, s, t, Request(token, p.key, profile), started);
  }

  lemma LaunchEffectKeeps(o: Options, s: State, t: State, request: Request, started: bool)
    requires WellFormed(o, s) && Exclusive(s) && Published(s) && LaunchEffect(s, t, request, started)
    requires PendingKey(s, request.key) && request.key !in s.active && request.key !in s.results
    requires ValidRequest(o, request.key, request) && |s.active| < Limit(o)
    requires forall k :: k in s.workers ==> s.workers[k] != Uuid(request.profile)
    requires Uuid(request.profile) !in s.unavailable
    ensures WellFormed(o, t) && Exclusive(t) && Published(t)
  {
    hide WellFormed, Exclusive, Published, ValidRequest, Rewrites, PendingKey, Without;
    PendingKeyWithout(s, t, request.key);
    LaunchedWellFormed(o, s, t, request, started);
    LaunchExclusive(s, t, request.key, Uuid(request.profile), started);
    LaunchPublished(s, t, request.key, started);
  }

  lemma LaunchedWellFormed(o: Options, s: State, t: State, request: Request, started: bool)
    requires WellFormed(o, s) && LaunchEffect(s, t, request, started) && request.key !in s.active
    requires ValidRequest(o, request.key, request) && |s.active| < Limit(o)
    ensures WellFormed(o, t)
  {
    hide ValidRequest, ValidPending, Rewrites, Without, Limit;
    PendingStaysValid(o, s, t, request.key);
    if started {
      ActivatedValid(o, s, t, request);
      OneMore(s.active, request.key, request);
    }
  }

  lemma ActivatedValid(o: Options, s: State, t: State, request: Request)
    requires forall k :: k in s.active ==> ValidRequest(o, k, s.active[k])
    requires t.active == s.active[request.key := request] && request.key !in s.active
        && ValidRequest(o, request.key, request)
    ensures forall k :: k in t.active ==> ValidRequest(o, k, t.active[k])
  {
    forall k | k in t.active ensures ValidRequest(o, k, t.active[k]) {
      if k != request.key { assert t.active[k] == s.active[k]; }
    }
  }

  lemma OneMore<K, V>(m: map<K, V>, k: K, v: V)
    requires k !in m
    ensures |m[k := v]| == |m| + 1
  {
    assert m[k := v].Keys == m.Keys + {k};
  }

  lemma LaunchPublished(s: State, t: State, key: Key, started: bool)
    requires Published(s) && Rewrites(s, t, key) && !t.store[key].Usable()
    requires key !in s.results
    requires t.results == (if started then s.results else s.results[key := t.store[key]])
    requires t.workers.Keys == s.workers.Keys + {key}
    ensures Published(t)
  {
  }

  /** Publishing a finished key: its worker is gone unless the entry is unusable. */
  lemma FinishPublished(s: State, t: State, key: Key)
    requires Published(s) && Rewrites(s, t, key)
    requires t.results == s.results[key := t.store[key]] && t.workers.Keys <= s.workers.Keys
    requires t.store[key].Usable() ==> key !in t.workers
    ensures Published(t)
  {
  }

  lemma PendingStaysValid(o: Options, s: State, t: State, key: Key)
    requires WellFormed(o, s) && t.pending == Without(s.pending, key)
    ensures forall i :: 0 <= i < |t.pending| ==> ValidPending(o, t.pending[i])
  {
    WithoutKeeps(s.pending, key);
    forall i | 0 <= i < |t.pending| ensures ValidPending(o, t.pending[i]) {
      assert t.pending[i] in s.pending;
    }
  }

  /** A device that is neither occupied nor quarantined runs no process at all. */
  lemma FreshGpu(s: State, d: Device)
    requires Exclusive(s) && d.uuid !in Occupied(s.active) + s.unavailable
    ensures forall k :: k in s.workers ==> s.workers[k] != d.uuid
  {
    forall k | k in s.workers ensures s.workers[k] != d.uuid {
      if k in s.active { OccupiedMeans(s, k); }
    }
  }

  lemma LaunchExclusive(s: State, t: State, key: Key, uuid: string, started: bool)
    requires Exclusive(s) && PendingKey(s, key) && key !in s.active
    requires forall k :: k in s.workers ==> s.workers[k] != uuid
    requires forall k :: PendingKey(t, k) ==> PendingKey(s, k) && k != key
    requires uuid !in s.unavailable
    requires t.workers == s.workers[key := uuid]
    requires t.unavailable == (if started then s.unavailable else s.unavailable + {uuid})
    requires if started then key in t.active && t.active == s.active[key := t.active[key]]
        && Uuid(t.active[key].profile) == uuid
             else t.active == s.active
    ensures Exclusive(t)
  {
  }

  lemma RefuseKeeps(o: Options, s: State, p: Pending, keys: set<Key>)
    requires Feasible(o) && Inv(o, s, keys) && p in s.pending
    ensures Inv(o, Refuse(o, s, p), keys)
  {
    var t := Refuse(o, s, p);
    PendingValid(o, s, p);
    RefuseConserves(o, s, p, keys);
    FailWrites(o, s, p.key, p.profile, NO_IDLE_GPU);
    RefuseEffectKeeps(o, s, t, p.key);
  }

  lemma RefuseEffectKeeps(o: Options, s: State, t: State, key: Key)
    requires WellFormed(o, s) && Exclusive(s) && Published(s) && PendingKey(s, key)
    requires Rewrites(s, t, key) && !t.store[key].Usable()
    requires t.pending == Without(s.pending, key) && t.results == s.results[key := t.store[key]]
    requires t.active == s.active && t.workers == s.workers && t.unavailable == s.unavailable
    ensures WellFormed(o, t) && Exclusive(t) && Published(t)
  {
    PendingKeyWithout(s, t, key);
    PendingStaysValid(o, s, t, key);
    FinishPublished(s, t, key);
  }

  lemma ReceiveKeeps(o: Options, s: State, outcome: Completion, keys: set<Key>)
    requires Feasible(o) && Inv(o, s, keys) && outcome.key in s.active
    ensures Inv(o, Receive(o, s, outcome), keys)
  {
    ReceiveConserves(o, s, outcome, keys);
    ReceiveWrites(o, s, outcome);
    ReceiveEffectKeeps(o, s, Receive(o, s, outcome), outcome);
  }

  lemma ReceiveEffectKeeps(o: Options, s: State, t: State, outcome: Completion)
    requires WellFormed(o, s) && Exclusive(s) && Published(s)
    requires outcome.key in s.active && ReceiveEffect(s, t, outcome)
    ensures WellFormed(o, t) && Exclusive(t) && Published(t)
  {
    assert forall k :: PendingKey(t, k) <==> PendingKey(s, k);
    FinishPublished(s, t, outcome.key);
    ReceiveExclusive(s, t, outcome);
    assert t.active.Keys == s.active.Keys - {outcome.key};
    assert |t.active| == |t.active.Keys| && |s.active| == |s.active.Keys|;
  }

  lemma ReceiveExclusive(s: State, t: State, outcome: Completion)
    requires Exclusive(s) && outcome.key in s.active && ReceiveEffect(s, t, outcome)
    ensures Exclusive(t)
  {
    assert forall k :: PendingKey(t, k) <==> PendingKey(s, k);
  }

  lemma WorkerKeeps(o: Options, s: State, c: EstimateCase, keys: set<Key>)
    requires Inv(o, s, keys) && Enabled(o, s, WorkerStep(c))
    ensures Inv(o, WorkerSave(s, c), keys)
  {
    UnpublishedValid(c);
    SaveKeepsValid(s.store, Unpublished(c));
    WorkerEffectKeeps(o, s, WorkerSave(s, c), CaseKey(c), keys);
  }

  lemma WorkerEffectKeeps(o: Options, s: State, t: State, key: Key, keys: set<Key>)
    requires Conserved(s, keys) && WellFormed(o, s) && Exclusive(s) && Published(s) && key in s.workers
    requires Rewrites(s, t, key) && !t.store[key].Usable() && t == s.(store := t.store)
    ensures Conserved(t, keys) && WellFormed(o, t) && Exclusive(t) && Published(t)
  {
    assert forall k :: PendingKey(t, k) <==> PendingKey(s, k);
    WorkerPublished(s, t, key);
    WorkerExclusive(s, t);
  }

  lemma WorkerExclusive(s: State, t: State)
    requires Exclusive(s) && t == s.(store := t.store)
    ensures Exclusive(t)
  {
    assert forall k :: PendingKey(t, k) <==> PendingKey(s, k);
  }

  /** A worker may run only while nothing usable is stored under its key, so it can hide nothing. */
  lemma WorkerPublished(s: State, t: State, key: Key)
    requires Published(s) && key in s.workers
    requires Rewrites(s, t, key) && !t.store[key].Usable() && t == s.(store := t.store)
    ensures Published(t)
  {
    assert !s.store[key].Usable();
  }

  lemma CacheKeeps(o: Options, s: State, p: Pending, keys: set<Key>)
    requires Inv(o, s, keys) && Enabled(o, s, CacheStep(p))
    ensures Inv(o, ServeCached(s, p), keys)
  {
    var t := ServeCached(s, p);
    PendingValid(o, s, p);
    WithoutDistinct(s.pending, p.key);
    PendingKeyWithout(s, t, p.key);
    PendingStaysValid(o, s, t, p.key);
    CacheEffectKeeps(s, t, p.key, keys);
  }

  lemma CacheEffectKeeps(s: State, t: State, key: Key, keys: set<Key>)
    requires Conserved(s, keys) && Exclusive(s) && Published(s) && PendingKey(s, key) && key in s.store
    requires DistinctKeys(t.pending) && forall k :: PendingKey(t, k) <==> PendingKey(s, k) && k != key
    requires t == s.(pending := t.pending, results := s.results[key := s.store[key]], cached := t.cached)
    ensures Conserved(t, keys) && Exclusive(t) && Published(t)
  {
  }

  lemma StepKeeps(o: Options, s: State, step: Event, keys: set<Key>)
    requires Feasible(o) && Inv(o, s, keys) && Enabled(o, s, step)
    ensures Inv(o, Apply(o, s, step), keys)
  {
    match step
    case CacheStep(p) => CacheKeeps(o, s, p, keys);
    case LaunchStep(p, d, token, started, busy) => LaunchKeeps(o, s, p, d, token, started, busy, keys);
    case RefuseStep(p, _) => RefuseKeeps(o, s, p, keys);
    case ReceiveStep(outcome) => ReceiveKeeps(o, s, outcome, keys);
    case WorkerStep(c) => WorkerKeeps(o, s, c, keys);
  }
}
