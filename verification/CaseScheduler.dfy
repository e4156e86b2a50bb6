/** The scheduler and its store as the mutable objects they are, each method tied to the protocol's steps. */
module CaseScheduler {
  import opened Prelude
  import opened BatchEstimation
  import opened SavedEvidence
  import opened CaseProtocol
  import opened SchedulerSafety
  import opened Admission
  import opened SchedulerRuns
  import opened CaseOutcomes

  /** A keyed upsert that revalidates what it is given. */
  class Store {
    var cases: map<Key, EstimateCase>

    constructor (cases: map<Key, EstimateCase>)
      ensures this.cases == cases
    {
      this.cases := cases;
    }

    method Put(c: EstimateCase) returns (ok: bool)
      modifies this
      ensures ok == Accepted(c)
      ensures cases == if ok then Save(old(cases), c) else old(cases)
    {
      ok := Accepted(c);
      if ok { cases := cases[CaseKey(c) := c]; }
    }
  }

  /** The store a worker process sees: usable results are downgraded before they are written. */
  class PendingStore {
    const store: Store

    constructor (store: Store)
      ensures this.store == store
    {
      this.store := store;
    }

    method Put(c: EstimateCase)
      requires Accepted(c)
      modifies store
      ensures store.cases == Save(old(store.cases), Unpublished(c))
      ensures CaseKey(c) in store.cases && !store.cases[CaseKey(c)].Usable()
    {
      var rewritten := c;
      if c.Usable() {
        rewritten := c.(status := Failed, globalBatch := None, perGpuBatch := None, diagnostic := UNPUBLISHED);
      }
      UnpublishedValid(c);
      var ok := store.Put(rewritten);
    }
  }

  /** Answers of the environment: a round per loop iteration, worker saves, and the pool's polls. */
  datatype Environment = Environment(
    rounds: nat -> Round, saves: nat -> seq<EstimateCase>, poll: (nat, set<Key>) -> seq<Completion>)

  /** The pool reports each owned case at most once. */
  ghost predicate HonestPoll(outcomes: seq<Completion>, active: set<Key>) {
    && (forall i :: 0 <= i < |outcomes| ==> outcomes[i].key in active)
    && (forall i, j :: 0 <= i < j < |outcomes| ==> outcomes[i].key != outcomes[j].key)
  }

  ghost predicate Honest(env: Environment) {
    forall n, active :: HonestPoll(env.poll(n, active), active)
  }

  /** While cases run, some later poll reports one of them. */
  ghost predicate EventuallyReturns(env: Environment) {
    forall n, active :: active != {} ==> Returns(env, n, active)
  }

  ghost predicate Returns(env: Environment, n: nat, active: set<Key>) {
    exists m: nat :: m >= n && env.poll(m, active) != []
  }

  /** The idleness tests this environment can give. */
  ghost function TestsOf(o: Options, env: Environment): Tests {
    (key, busy) => exists n: nat :: busy == Busy(o, env.rounds(n), key)
  }

  lemma RoundTested(o: Options, env: Environment, n: nat)
    ensures forall key :: TestsOf(o, env)(key, Busy(o, env.rounds(n), key))
  {
  }

  class Scheduler {
    const o: Options
    const store: Store
    var pending: seq<Pending>
    var results: map<Key, EstimateCase>
    var cached: set<Key>
    var active: map<Key, Request>
    var unavailable: set<string>
    // The process table: which keys may still have a running worker, and on which GPU.
    var workers: map<Key, string>

    ghost function S(): State
      reads this, store
    {
      State(pending, active, results, cached, unavailable, store.cases, workers)
    }

    constructor (o: Options, store: Store, pending: seq<Pending>)
      ensures this.o == o && this.store == store
      ensures S() == State(pending, map[], map[], {}, {}, store.cases, map[])
    {
      this.o, this.store, this.pending := o, store, pending;
      results, cached, active, unavailable, workers := map[], {}, map[], {}, map[];
    }

    method Failed(key: Key, profile: TrainingProfile, diagnostic: string)
      requires Feasible(o) && ValidStore(store.cases) && |profile.gpus| == 1
      requires KeyOf(profile, o.workload, o.settings) == key && diagnostic != ""
      modifies this`results, store
      ensures S() == Fail(o, old(S()), key, profile, diagnostic)
    {
      var trials := if key in store.cases then store.cases[key].trials else [];
      var c := EstimateCase(profile, o.workload, o.settings, BatchEstimation.Failed, None, None, trials, "now",
        diagnostic);
      FailedCaseValid(o, S(), key, profile, diagnostic);
      var ok := store.Put(c);
      results := results[key := c];
    }

    method IdleProfile(profile: TrainingProfile, excluded: set<string>, idle: string -> bool)
      returns (r: Option<Device>)
      ensures r == FirstIdle(o.devices, excluded, profile, idle)
    {
      for i := 0 to |o.devices|
        invariant FirstIdle(o.devices, excluded, profile, idle) == FirstIdle(o.devices[i..], excluded, profile, idle)
      {
        var d := o.devices[i];
        if d.uuid !in excluded && Matches(profile, d) && idle(d.uuid) { return Some(d); }
        assert o.devices[i..][1..] == o.devices[i + 1..];
      }
      return None;
    }

    /** Dequeue, publish an unusable placeholder, start the process; a failed start quarantines the GPU. */
    method Launch(key: Key, profile: TrainingProfile, token: string, started: bool)
      requires Feasible(o) && ValidStore(store.cases) && |profile.gpus| == 1
      requires KeyOf(profile, o.workload, o.settings) == key
      modifies this, store
      ensures S() == CaseProtocol.Launch(o, old(S()), key, profile, token, started)
    {
      pending := Without(pending, key);
      var c := EstimateCase(profile, o.workload, o.settings, BatchEstimation.Failed, None, None, [], "now", LAUNCHED);
      LaunchedCaseValid(o, profile, c);
      SaveKeepsValid(store.cases, c);
      var ok := store.Put(c);
      workers := workers[key := Uuid(profile)];
      if !started {
        unavailable := unavailable + {Uuid(profile)};
        Failed(key, profile, LAUNCH_FAILED);
        return;
      }
      active := active[key := Request(token, key, profile)];
    }

    method Refuse(p: Pending)
      requires Feasible(o) && ValidStore(store.cases) && ValidPending(o, p)
      modifies this, store
      ensures S() == CaseProtocol.Refuse(o, old(S()), p)
    {
      Failed(p.key, p.profile, NO_IDLE_GPU);
      pending := Without(pending, p.key);
    }

    /** Offer one key. */
    method AdmitNext(p: Pending, round: Round)
      requires Feasible(o) && ValidStore(store.cases) && ValidPending(o, p)
      modifies this, store
      ensures S() == AdmitOne(o, old(S()), p, round)
      ensures Admitted(o, old(S()), p, round, S())
    {
      ghost var before := S();
      OfferAdmits(o, before, p, round);
      var occupied := Occupied(active);
      var device := IdleProfile(p.profile, occupied + unavailable, IdleFor(round, p.key));
      if device.Some? {
        OnDevice(o, p, device.value, round.token(p.key));
        Launch(p.key, On(p.profile, device.value), round.token(p.key), round.starts(p.key));
      } else if !Awaitable(o, occupied, p.profile) {
        Refuse(p);
      }
    }

    /** Processes save whenever they like; only running ones, only their own key. */
    method Interfere(saves: seq<EstimateCase>)
      modifies store
      ensures S() == SaveAll(o, old(S()), saves)
    {
      ghost var goal := SaveAll(o, S(), saves);
      var i := 0;
      while i < |saves|
        invariant 0 <= i <= |saves|
        invariant SaveAll(o, S(), saves[i..]) == goal
      {
        assert saves[i..][0] == saves[i] && saves[i..][1..] == saves[i + 1..];
        if CaseKey(saves[i]) in workers && Accepted(saves[i]) {
          var pendingStore := new PendingStore(store);
          pendingStore.Put(saves[i]);
        }
        i := i + 1;
      }
    }

    method Admit(round: Round)
      requires Feasible(o) && ValidStore(store.cases) && AllValid(o, pending)
      modifies this, store
      ensures S() == AdmitAll(o, old(S()), old(pending), round)
    {
      hide AdmitOne, Admitted, Accepted, AdmitAll, SaveAll;
      ghost var s := S();
      var todo := pending;
      ghost var goal := AdmitAll(o, s, todo, round);
      var i := 0;
      assert todo[0..] == todo;
      while i < |todo| && |active| < Limit(o)
        invariant 0 <= i <= |todo|
        invariant S() == s && ValidStore(s.store)
        invariant AdmitAll(o, s, todo[i..], round) == goal
      {
        ghost var t := AdmitAllUnfold(o, s, todo, i, round);
        AdmitNext(todo[i], round);
        Interfere(round.offered(todo[i].key));
        s := t;
        i := i + 1;
      }
      AdmitAllStops(o, s, todo, i, round);
    }

    method Receive(outcome: Completion)
      requires Feasible(o) && ValidStore(store.cases) && outcome.key in active
          && ValidRequest(o, outcome.key, active[outcome.key])
      modifies this, store
      ensures S() == CaseProtocol.Receive(o, old(S()), outcome)
    {
      var request := active[outcome.key];
      active := active - {outcome.key};
      if outcome.cleanupComplete {
        workers := workers - {outcome.key};
      } else {
        unavailable := unavailable + {Uuid(request.profile)};
      }
      var c := CompletedCase(request, outcome);
      if c.None? {
        Failed(outcome.key, request.profile, INCOMPLETE);
        return;
      }
      ReceiptIdentifies(request, outcome);
      var ok := store.Put(c.value);
      results := results[outcome.key := c.value];
    }

    method UseCached(ghost keys: set<Key>)
      modifies this
      ensures S() == CacheAll(o, old(S()), old(pending))
    {
      ghost var before := S();
      var todo := pending;
      var i := 0;
      while i < |todo|
        invariant 0 <= i <= |todo|
        invariant CacheAll(o, S(), todo[i..]) == CacheAll(o, before, todo)
        invariant store.cases == before.store
      {
        var key := todo[i].key;
        assert todo[i..][0] == todo[i] && todo[i..][1..] == todo[i + 1..];
        if key in store.cases && store.cases[key].Usable() {
          results := results[key := store.cases[key]];
          cached := cached + {key};
          pending := Without(pending, key);
        }
        i := i + 1;
      }
    }

    /** Receive every outcome; workers still running save in between. */
    method ReceiveBatch(outcomes: seq<Completion>, round: Round)
      requires Feasible(o) && ValidStore(store.cases) && AllRequestsValid(o, active)
          && HonestPoll(outcomes, active.Keys)
      modifies this, store
      ensures S() == ReceiveAll(o, old(S()), outcomes, round)
    {
      ghost var s := S();
      ghost var goal := ReceiveAll(o, s, outcomes, round);
      var i := 0;
      assert outcomes[0..] == outcomes;
      while i < |outcomes|
        invariant 0 <= i <= |outcomes|
        invariant S() == s && ValidStore(s.store) && AllRequestsValid(o, s.active)
            && HonestPoll(outcomes[i..], s.active.Keys)
        invariant ReceiveAll(o, s, outcomes[i..], round) == goal
      {
        ghost var t := ReceiveAllUnfold(o, s, outcomes, i, round);
        Receive(outcomes[i]);
        Interfere(round.received(outcomes[i].key));
        s := t;
        i := i + 1;
      }
    }

    /**
     * One loop iteration: admit, poll and receive, workers saving throughout; without a report nothing but the store
     * moves.
     */
    method Pass(env: Environment, n: nat, ghost first: State, ghost keys: set<Key>)
      requires Feasible(o) && Limit(o) > 0 && Honest(env) && Reachable(o, TestsOf(o, env), first, S(), keys)
      requires pending != [] || active != map[]
      modifies this, store
      ensures Reachable(o, TestsOf(o, env), first, S(), keys) && ResultsStay(old(S()), S())
      ensures Work(S()) <= Work(old(S()))
      ensures Work(S()) == Work(old(S())) ==> active == old(active) && env.poll(n, active.Keys) == []
      ensures Work(S()) == Work(old(S())) ==> active.Keys != {}
    {
      ghost var before := S();
      ReadyToAdmit(o, TestsOf(o, env), first, before, keys);
      Admit(env.rounds(n));
      RoundTested(o, env, n);
      PassEffect(o, TestsOf(o, env), first, before, env.rounds(n), keys);
      AdmitStays(o, TestsOf(o, env), first, before, env.rounds(n), keys);
      ghost var admitted := S();
      SaveAllReachable(o, TestsOf(o, env), first, admitted, env.saves(n), keys);
      SaveAllOnlyStore(o, admitted, env.saves(n));
      Interfere(env.saves(n));
      ghost var saved := S();
      var outcomes := env.poll(n, active.Keys);
      assert HonestPoll(outcomes, active.Keys);
      ReceiveAllReachable(o, TestsOf(o, env), first, saved, outcomes, env.rounds(n), keys);
      ReadyToReceive(o, TestsOf(o, env), first, saved, keys);
      ReceiveAllStays(o, saved, outcomes, env.rounds(n));
      ReceiveBatch(outcomes, env.rounds(n));
    }

    /**
     * The whole run of a new scheduler: every requested key gets a result, nothing is left running, and the
     * store agrees with the results.
     */
    method Run(env: Environment, ghost keys: set<Key>)
      requires Feasible(o) && Limit(o) > 0 && Honest(env) && EventuallyReturns(env)
      requires Initial(o, S(), keys)
      modifies this, store
      ensures pending == [] && active == map[] && results.Keys == keys
      ensures Reachable(o, TestsOf(o, env), old(S()), S(), keys) && Settled(S())
      ensures AllCaused(o, TestsOf(o, env), old(S()), keys, S())
      ensures !o.refresh ==> SavedServed(old(S()), results)
    {
      ghost var first := S();
      ReachableStart(o, TestsOf(o, env), first, keys);
      if !o.refresh {
        QueuedAtFirst(o, TestsOf(o, env), first, S(), keys);
        CacheAllReachable(o, TestsOf(o, env), first, S(), pending, keys);
        UseCached(keys);
        CacheServes(o, first);
      }
      var n: nat := 0;
      ghost var deadline: int := Deadline(env, n, active.Keys);
      while pending != [] || active != map[]
        invariant Reachable(o, TestsOf(o, env), first, S(), keys)
        invariant !o.refresh ==> SavedServed(first, results)
        invariant active.Keys != {} ==> n <= deadline && env.poll(deadline, active.Keys) != []
        decreases Work(S()), deadline - n
      {
        ghost var before, running := Work(S()), active.Keys;
        Pass(env, n, first, keys);
        ghost var after := Work(S());
        if after < before {
          deadline := Deadline(env, n + 1, active.Keys);
        } else {
          assert active.Keys == running && env.poll(n, running) == [];
          assert n != deadline;
        }
        n := n + 1;
      }
      FinishedRun(o, TestsOf(o, env), first, S(), keys);
      ResultsHaveCauses(o, TestsOf(o, env), first, S(), keys);
    }
  }

  /**
   * Build a scheduler for distinct valid requests over a valid store and run it: a result for exactly every request.
   */
  method Execute(o: Options, store: Store, pending: seq<Pending>, env: Environment)
    returns (results: map<Key, EstimateCase>)
    requires Feasible(o) && Limit(o) > 0 && Honest(env) && EventuallyReturns(env)
    requires ValidStore(store.cases) && DistinctKeys(pending) && AllValid(o, pending)
    modifies store
    ensures forall k :: k in results <==> exists i :: 0 <= i < |pending| && pending[i].key == k
    ensures forall k :: k in results ==>
      && k in store.cases && store.cases[k].Usable() == results[k].Usable()
      && (results[k].Usable() ==> store.cases[k] == results[k])
    ensures !o.refresh ==> forall k :: k in results && k in old(store.cases) && old(store.cases)[k].Usable() ==>
      results[k] == old(store.cases)[k] && store.cases[k] == old(store.cases)[k]
    ensures ValidStore(store.cases)
    ensures forall k :: k !in results ==>
      (k in store.cases <==> k in old(store.cases)) && (k in store.cases ==> store.cases[k] == old(store.cases)[k])
  {
    var scheduler := new Scheduler(o, store, pending);
    ghost var keys := set p | p in pending :: p.key;
    ghost var first := scheduler.S();
    KeysQueued(first, keys);
    scheduler.Run(env, keys);
    OthersAsFound(o, TestsOf(o, env), first, scheduler.S(), keys);
    ReachableKeeps(o, TestsOf(o, env), first, scheduler.S(), keys);
    results := scheduler.results;
  }

  lemma KeysQueued(s: State, keys: set<Key>)
    requires keys == set p | p in s.pending :: p.key
    ensures forall k :: k in keys <==> PendingKey(s, k)
  {
  }

  /** A finished run: the store is usable exactly where the result is, and then it is the result. */
  ghost predicate Settled(s: State) {
    forall k :: k in s.results ==>
      && k in s.store && s.store[k].Usable() == s.results[k].Usable()
      && (s.results[k].Usable() ==> s.store[k] == s.results[k])
  }

  /** A later poll that reports something, while something runs. */
  ghost function Deadline(env: Environment, n: nat, active: set<Key>): (m: nat)
    requires EventuallyReturns(env)
    ensures active != {} ==> m >= n && env.poll(m, active) != []
  {
    if active == {} then n
    else
      assert Returns(env, n, active);
      var m: nat :| m >= n && env.poll(m, active) != [];
      m
  }

  lemma FinishedRun(o: Options, tests: Tests, first: State, s: State, keys: set<Key>)
    requires Feasible(o) && Reachable(o, tests, first, s, keys) && s.pending == [] && s.active == map[]
    ensures s.results.Keys == keys && Settled(s)
  {
    ReachableKeeps(o, tests, first, s, keys);
    ConservedAtEnd(s, keys);
  }

  lemma ConservedAtEnd(s: State, keys: set<Key>)
    requires Conserved(s, keys) && s.pending == [] && s.active == map[]
    ensures s.results.Keys == keys
  {
    assert forall k :: !PendingKey(s, k);
  }

  /** One admission pass from a reachable state. */
  lemma PassEffect(o: Options, tests: Tests, first: State, s: State, round: Round, keys: set<Key>)
    requires Feasible(o) && Limit(o) > 0 && Reachable(o, tests, first, s, keys)
    requires forall key :: tests(key, Busy(o, round, key))
    ensures var t := AdmitAll(o, s, s.pending, round);
            && Reachable(o, tests, first, t, keys) && (t == s.(store := t.store) || Work(t) < Work(s))
            && (t.pending != [] ==> t.active != map[])
  {
    QueuedAtFirst(o, tests, first, s, keys);
    AdmitAllReachable(o, tests, first, s, s.pending, round, keys);
    AdmitAllProgress(o, s, s.pending, round);
    var t := AdmitAll(o, s, s.pending, round);
    if t.pending != [] { assert t.pending[0] in t.pending && t.pending[0] in s.pending; }
  }

  lemma AdmitStays(o: Options, tests: Tests, first: State, s: State, round: Round, keys: set<Key>)
    requires Feasible(o) && Reachable(o, tests, first, s, keys)
    ensures ResultsStay(s, AdmitAll(o, s, s.pending, round))
  {
    ReachableKeeps(o, tests, first, s, keys);
    AdmitAllStays(o, s, round, keys);
  }

  ghost predicate AllRequestsValid(o: Options, active: map<Key, Request>) {
    forall k :: k in active ==> ValidRequest(o, k, active[k])
  }

  lemma ReadyToReceive(o: Options, tests: Tests, first: State, s: State, keys: set<Key>)
    requires Feasible(o) && Reachable(o, tests, first, s, keys)
    ensures ValidStore(s.store) && AllRequestsValid(o, s.active) && s.active.Keys !! s.results.Keys
  {
    ReachableKeeps(o, tests, first, s, keys);
  }

  lemma ReadyToAdmit(o: Options, tests: Tests, first: State, s: State, keys: set<Key>)
    requires Feasible(o) && Reachable(o, tests, first, s, keys)
    ensures ValidStore(s.store) && AllValid(o, s.pending)
  {
    ReachableKeeps(o, tests, first, s, keys);
  }

  /** One iteration of the receipt loop, seen on values. */
  lemma ReceiveAllUnfold(o: Options, s: State, outcomes: seq<Completion>, i: nat, round: Round) returns (t: State)
    requires Feasible(o) && i < |outcomes| && HonestPoll(outcomes[i..], s.active.Keys)
    requires ValidStore(s.store) && AllRequestsValid(o, s.active)
    ensures outcomes[i].key in s.active && ValidRequest(o, outcomes[i].key, s.active[outcomes[i].key])
    ensures t == SaveAll(o, CaseProtocol.Receive(o, s, outcomes[i]), round.received(outcomes[i].key))
    ensures ValidStore(t.store) && AllRequestsValid(o, t.active) && HonestPoll(outcomes[i + 1..], t.active.Keys)
    ensures ReceiveAll(o, s, outcomes[i..], round) == ReceiveAll(o, t, outcomes[i + 1..], round)
  {
    var received, saves := CaseProtocol.Receive(o, s, outcomes[i]), round.received(outcomes[i].key);
    t := SaveAll(o, received, saves);
    SaveAllOnlyStore(o, received, saves);
    assert outcomes[i..][0] == outcomes[i] && outcomes[i..][1..] == outcomes[i + 1..];
    ReceiveWrites(o, s, outcomes[i]);
    ReceivePops(o, s, outcomes[i]);
    PollRest(outcomes[i..], s.active.Keys);
    StillValidRequests(o, s.active, outcomes[i].key);
    SaveAllKeepsValid(o, received, saves);
  }

  lemma {:induction false} SaveAllKeepsValid(o: Options, s: State, saves: seq<EstimateCase>)
    requires ValidStore(s.store)
    ensures ValidStore(SaveAll(o, s, saves).store)
    decreases |saves|
  {
    hide Accepted, Unpublished;
    if saves != [] {
      if Enabled(o, s, WorkerStep(saves[0])) {
        UnpublishedValid(saves[0]);
        SaveKeepsValid(s.store, Unpublished(saves[0]));
        SaveAllKeepsValid(o, WorkerSave(s, saves[0]), saves[1..]);
      } else {
        SaveAllKeepsValid(o, s, saves[1..]);
      }
    }
  }

  lemma StillValidRequests(o: Options, active: map<Key, Request>, key: Key)
    requires AllRequestsValid(o, active)
    ensures AllRequestsValid(o, active - {key})
  {
  }

  lemma ReceivePops(o: Options, s: State, outcome: Completion)
    requires outcome.key in s.active
    ensures CaseProtocol.Receive(o, s, outcome).active == s.active - {outcome.key}
    ensures CaseProtocol.Receive(o, s, outcome).active.Keys == s.active.Keys - {outcome.key}
  {
  }

  lemma PollRest(outcomes: seq<Completion>, active: set<Key>)
    requires outcomes != [] && HonestPoll(outcomes, active)
    ensures HonestPoll(outcomes[1..], active - {outcomes[0].key})
  {
  }

  lemma QueuedAtFirst(o: Options, tests: Tests, first: State, s: State, keys: set<Key>)
    requires Feasible(o) && Reachable(o, tests, first, s, keys)
    ensures Queued(s.pending, s)
  {
    ReachableKeeps(o, tests, first, s, keys);
  }

  ghost predicate AllValid(o: Options, pending: seq<Pending>) {
    forall i :: 0 <= i < |pending| ==> ValidPending(o, pending[i])
  }

  lemma AdmitOneStore(o: Options, s: State, p: Pending, round: Round)
    requires Feasible(o) && ValidStore(s.store) && ValidPending(o, p)
    ensures ValidStore(AdmitOne(o, s, p, round).store)
  {
    var device := FirstIdle(o.devices, Occupied(s.active) + s.unavailable, p.profile, IdleFor(round, p.key));
    if device.Some? {
      OnDevice(o, p, device.value, round.token(p.key));
      LaunchWrites(o, s, p.key, On(p.profile, device.value), round.token(p.key), round.starts(p.key));
    } else {
      FailWrites(o, s, p.key, p.profile, NO_IDLE_GPU);
    }
  }

  /** One iteration of the admission loop, seen on values. */
  lemma AdmitAllUnfold(o: Options, s: State, todo: seq<Pending>, i: nat, round: Round) returns (t: State)
    requires Feasible(o) && i < |todo| && |s.active| < Limit(o) && ValidStore(s.store) && ValidPending(o, todo[i])
    ensures t == SaveAll(o, AdmitOne(o, s, todo[i], round), round.offered(todo[i].key)) && ValidStore(t.store)
    ensures AdmitAll(o, s, todo[i..], round) == AdmitAll(o, t, todo[i + 1..], round)
  {
    t := Offer(o, s, todo[i], round);
    assert todo[i..][0] == todo[i] && todo[i..][1..] == todo[i + 1..];
    AdmitOneStore(o, s, todo[i], round);
    SaveAllKeepsValid(o, AdmitOne(o, s, todo[i], round), round.offered(todo[i].key));
  }

  lemma AdmitAllStops(o: Options, s: State, todo: seq<Pending>, i: nat, round: Round)
    requires i <= |todo| && (i == |todo| || |s.active| >= Limit(o))
    ensures AdmitAll(o, s, todo[i..], round) == s
  {
  }
}
