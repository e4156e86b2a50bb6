/** Whole runs of the scheduler: safety on every interleaving, progress of every pass, and termination. */
module SchedulerRuns {
  import opened Prelude
  import opened BatchEstimation
  import opened SavedEvidence
  import opened CaseProtocol
  import opened SchedulerSafety
  import opened Admission

  // ----- every interleaving -----

  /** The state after a sequence of events, if each is enabled when it happens. */
  function RunEvents(o: Options, s: State, events: seq<Event>): Option<State>
    decreases |events|
  {
    if events == [] then Some(s)
    else if !Enabled(o, s, events[0]) then None
    else RunEvents(o, Apply(o, s, events[0]), events[1..])
  }

  lemma {:induction false} EveryInterleavingKeeps(o: Options, s: State, events: seq<Event>, keys: set<Key>)
    requires Feasible(o) && Inv(o, s, keys) && RunEvents(o, s, events).Some?
    ensures Inv(o, RunEvents(o, s, events).value, keys)
    decreases |events|
  {
    if events != [] {
      StepKeeps(o, s, events[0], keys);
      EveryInterleavingKeeps(o, Apply(o, s, events[0]), events[1..], keys);
    }
  }

  /** The invariant holds before anything happened. */
  lemma InitialInv(o: Options, s: State, keys: set<Key>)
    requires Initial(o, s, keys)
    ensures Inv(o, s, keys)
  {
  }

  /** The idleness tests that can happen: which devices a test on behalf of a key may have found busy. */
  type Tests = (Key, set<string>) -> bool

  predicate Tested(tests: Tests, event: Event) {
    match event
    case LaunchStep(p, _, _, _, busy) => tests(p.key, busy)
    case RefuseStep(p, busy) => tests(p.key, busy)
    case _ => true
  }

  predicate AllTested(tests: Tests, events: seq<Event>) {
    forall i :: 0 <= i < |events| ==> Tested(tests, events[i])
  }

  /** Reached from this start of a command by some interleaving of scheduler and worker steps. */
  ghost predicate Reachable(o: Options, tests: Tests, first: State, s: State, keys: set<Key>) {
    Initial(o, first, keys) && exists events :: AllTested(tests, events) && RunEvents(o, first, events) == Some(s)
  }

  lemma ReachableKeeps(o: Options, tests: Tests, first: State, s: State, keys: set<Key>)
    requires Feasible(o) && Reachable(o, tests, first, s, keys)
    ensures Inv(o, s, keys)
  {
    var events :| AllTested(tests, events) && RunEvents(o, first, events) == Some(s);
    InitialInv(o, first, keys);
    EveryInterleavingKeeps(o, first, events, keys);
  }

  lemma ReachableStart(o: Options, tests: Tests, first: State, keys: set<Key>)
    requires Initial(o, first, keys)
    ensures Reachable(o, tests, first, first, keys)
  {
    assert AllTested(tests, []) && RunEvents(o, first, []) == Some(first);
  }

  lemma {:induction false} RunAppend(o: Options, s: State, events: seq<Event>, event: Event)
    requires RunEvents(o, s, events).Some? && Enabled(o, RunEvents(o, s, events).value, event)
    ensures RunEvents(o, s, events + [event]) == Some(Apply(o, RunEvents(o, s, events).value, event))
    decreases |events|
  {
    if events == [] {
      assert [event][1..] == [];
      assert events + [event] == [event];
    } else {
      assert (events + [event])[1..] == events[1..] + [event];
      RunAppend(o, Apply(o, s, events[0]), events[1..], event);
    }
  }

  lemma ReachableStep(o: Options, tests: Tests, first: State, s: State, event: Event, keys: set<Key>)
    requires Reachable(o, tests, first, s, keys) && Enabled(o, s, event) && Tested(tests, event)
    ensures Reachable(o, tests, first, Apply(o, s, event), keys)
  {
    var events :| AllTested(tests, events) && RunEvents(o, first, events) == Some(s);
    RunAppend(o, first, events, event);
    ReachedBy(o, tests, first, events + [event], Apply(o, s, event), keys);
  }

  lemma ReachedBy(o: Options, tests: Tests, first: State, events: seq<Event>, t: State, keys: set<Key>)
    requires Initial(o, first, keys) && AllTested(tests, events) && RunEvents(o, first, events) == Some(t)
    ensures Reachable(o, tests, first, t, keys)
  {
  }

  /** The state of a run that other owners, the operator or a crash could observe. */
  ghost predicate Safe(o: Options, s: State, keys: set<Key>) {
    && (forall j, k :: j in s.active && k in s.active && j != k ==>
      Uuid(s.active[j].profile) != Uuid(s.active[k].profile))
    && (forall k, w :: k in s.active && w in s.workers && w != k ==> s.workers[w] != Uuid(s.active[k].profile))
    && |s.active| <= |o.devices| && (o.jobs.Some? ==> |s.active| <= o.jobs.value)
    && (forall k :: k in s.active ==> Uuid(s.active[k].profile) !in s.unavailable)
    && (forall k :: k in s.active ==> k in s.store && !s.store[k].Usable())
    && (forall k :: k in s.results ==> k in s.store && s.store[k].Usable() == s.results[k].Usable())
  }

  /** No two running processes share a GPU, limits hold, and nothing unfinished is ever published. */
  lemma EveryInterleavingSafe(o: Options, s: State, events: seq<Event>, keys: set<Key>)
    requires Feasible(o) && Initial(o, s, keys) && RunEvents(o, s, events).Some?
    ensures Safe(o, RunEvents(o, s, events).value, keys) && Conserved(RunEvents(o, s, events).value, keys)
  {
    hide Inv, Conserved, WellFormed, Exclusive, Published, ValidStore, Initial, Safe;
    InitialInv(o, s, keys);
    EveryInterleavingKeeps(o, s, events, keys);
    InvIsSafe(o, RunEvents(o, s, events).value, keys);
  }

  lemma InvIsSafe(o: Options, s: State, keys: set<Key>)
    requires Inv(o, s, keys)
    ensures Safe(o, s, keys) && Conserved(s, keys)
  {
    hide Conserved, ValidStore, ValidRequest, ValidPending;
  }

  /** A launched key becomes usable only through the owner's receipt of a clean, identified exit. */
  lemma OnlyOwnerPublishes(o: Options, s: State, event: Event, keys: set<Key>, key: Key)
    requires Feasible(o) && Inv(o, s, keys) && Enabled(o, s, event)
    requires key in s.workers && key in Apply(o, s, event).store && Apply(o, s, event).store[key].Usable()
    ensures event.ReceiveStep? && event.outcome.key == key && key in s.active
    ensures event.outcome.exitCode == 0 && event.outcome.cleanupComplete
    ensures event.outcome.receipt == Some(Receipt(s.active[key].token, key, Apply(o, s, event).store[key]))
    ensures Apply(o, s, event).store[key].profile.gpus == s.active[key].profile.gpus
  {
    hide WellFormed, ValidStore, Conserved, Exclusive, Free, FirstFree, NoneFree, MayBeReleased;
    StepRewrites(o, s, event);
    StoreMovesOnlyAt(s, Apply(o, s, event), EventKey(event), key);
    match event
    case CacheStep(p) => PendingValid(o, s, p); assert false;
    case LaunchStep(p, d, token, started, _) => PendingValid(o, s, p); assert false;
    case RefuseStep(p, _) => PendingValid(o, s, p); assert false;
    case ReceiveStep(outcome) => PublishedByReceipt(o, s, outcome, key);
    case WorkerStep(c) => UnpublishedValid(c);
  }

  /** An entry that became usable is the one the event rewrote. */
  lemma StoreMovesOnlyAt(s: State, t: State, moved: Key, key: Key)
    requires Published(s) && key in s.workers && Rewrites(s, t, moved) && t.store[key].Usable()
    ensures moved == key
  {
  }

  lemma PublishedByReceipt(o: Options, s: State, outcome: Completion, key: Key)
    requires Feasible(o) && WellFormed(o, s) && ValidStore(s.store) && Published(s) && outcome.key in s.active
    requires key in s.workers && key in Receive(o, s, outcome).store && Receive(o, s, outcome).store[key].Usable()
    ensures outcome.key == key && CompletedCase(s.active[key], outcome) == Some(Receive(o, s, outcome).store[key])
    ensures outcome.exitCode == 0 && outcome.cleanupComplete
    ensures outcome.receipt == Some(Receipt(s.active[key].token, key, Receive(o, s, outcome).store[key]))
    ensures Receive(o, s, outcome).store[key].profile.gpus == s.active[key].profile.gpus
  {
    ReceiveWrites(o, s, outcome);
    var request := s.active[outcome.key];
    if CompletedCase(request, outcome).Some? {
      ReceiptIdentifies(request, outcome);
    } else {
      ReceiveFailure(o, s, outcome);
    }
  }

  lemma ReceiveFailure(o: Options, s: State, outcome: Completion)
    requires outcome.key in s.active && CompletedCase(s.active[outcome.key], outcome).None?
    requires KeyOf(s.active[outcome.key].profile, o.workload, o.settings) == outcome.key
    ensures outcome.key in Receive(o, s, outcome).store && !Receive(o, s, outcome).store[outcome.key].Usable()
  {
  }

  /** Quarantine only grows. */
  lemma QuarantineGrows(o: Options, s: State, event: Event)
    requires Enabled(o, s, event)
    ensures s.unavailable <= Apply(o, s, event).unavailable
  {
  }

  /** A quarantined GPU is never assigned again, however the run continues. */
  lemma {:induction false} QuarantineIsFinal(o: Options, s: State, events: seq<Event>, keys: set<Key>, uuid: string)
    requires Feasible(o) && Inv(o, s, keys) && RunEvents(o, s, events).Some? && uuid in s.unavailable
    ensures var t := RunEvents(o, s, events).value;
            uuid in t.unavailable && uuid !in Occupied(t.active)
    decreases |events|
  {
    if events == [] {
    } else {
      QuarantineGrows(o, s, events[0]);
      StepKeeps(o, s, events[0], keys);
      QuarantineIsFinal(o, Apply(o, s, events[0]), events[1..], keys, uuid);
    }
  }

  /** Entries of keys nobody asked for stay as they were. */
  lemma {:induction false} OtherEntriesKept(o: Options, s: State, events: seq<Event>, keys: set<Key>, other: Key)
    requires Feasible(o) && Inv(o, s, keys) && RunEvents(o, s, events).Some? && other !in keys
    ensures var t := RunEvents(o, s, events).value;
            (other in t.store <==> other in s.store) && (other in s.store ==> t.store[other] == s.store[other])
    decreases |events|
  {
    if events != [] {
      StepLeavesOther(o, s, events[0], keys, other);
      StepKeeps(o, s, events[0], keys);
      OtherEntriesKept(o, Apply(o, s, events[0]), events[1..], keys, other);
    }
  }

  /** The records of keys nobody requested are those the command found. */
  lemma OthersAsFound(o: Options, tests: Tests, first: State, s: State, keys: set<Key>)
    requires Feasible(o) && Reachable(o, tests, first, s, keys)
    ensures forall k :: k !in keys ==>
        (k in s.store <==> k in first.store) && (k in s.store ==> s.store[k] == first.store[k])
  {
    hide Inv;
    var events :| AllTested(tests, events) && RunEvents(o, first, events) == Some(s);
    InitialInv(o, first, keys);
    forall k | k !in keys ensures (k in s.store <==> k in first.store)
      && (k in s.store ==> s.store[k] == first.store[k]) {
      OtherEntriesKept(o, first, events, keys, k);
    }
  }

  lemma StepLeavesOther(o: Options, s: State, event: Event, keys: set<Key>, other: Key)
    requires Feasible(o) && Inv(o, s, keys) && Enabled(o, s, event) && other !in keys
    ensures var t := Apply(o, s, event);
            (other in t.store <==> other in s.store) && (other in s.store ==> t.store[other] == s.store[other])
  {
    EventKeyRequested(o, s, event, keys);
    StepRewrites(o, s, event);
  }

  function EventKey(event: Event): Key {
    match event
    case CacheStep(p) => p.key
    case LaunchStep(p, _, _, _, _) => p.key
    case RefuseStep(p, _) => p.key
    case ReceiveStep(outcome) => outcome.key
    case WorkerStep(c) => CaseKey(c)
  }

  lemma EventKeyRequested(o: Options, s: State, event: Event, keys: set<Key>)
    requires Conserved(s, keys) && WellFormed(o, s) && Enabled(o, s, event)
    ensures EventKey(event) in keys
  {
    match event
    case CacheStep(p) => PendingValid(o, s, p);
    case LaunchStep(p, _, _, _, _) => PendingValid(o, s, p);
    case RefuseStep(p, _) => PendingValid(o, s, p);
    case ReceiveStep(outcome) =>
    case WorkerStep(c) => assert CaseKey(c) in s.workers.Keys;
  }

  /** Each event rewrites the entry of one key. */
  lemma StepRewrites(o: Options, s: State, event: Event)
    requires Feasible(o) && WellFormed(o, s) && ValidStore(s.store) && Enabled(o, s, event)
    ensures Rewrites(s, Apply(o, s, event), EventKey(event))
  {
    hide Free, FirstFree, NoneFree, MayBeReleased, Receive, Launch, Refuse;
    match event
    case CacheStep(p) =>
    case LaunchStep(p, d, token, started, busy) =>
      LaunchDevice(o, s, p, d, token, started, busy);
      LaunchRewrites(o, s, p, d, token, started);
    case RefuseStep(p, _) => RefuseRewrites(o, s, p);
    case ReceiveStep(outcome) => ReceiveWrites(o, s, outcome);
    case WorkerStep(c) => UnpublishedValid(c);
  }

  lemma RefuseRewrites(o: Options, s: State, p: Pending)
    requires Feasible(o) && WellFormed(o, s) && ValidStore(s.store) && p in s.pending
    ensures Rewrites(s, Refuse(o, s, p), p.key)
  {
    PendingValid(o, s, p);
    FailWrites(o, s, p.key, p.profile, NO_IDLE_GPU);
  }

  lemma LaunchRewrites(o: Options, s: State, p: Pending, d: Device, token: string, started: bool)
    requires Feasible(o) && WellFormed(o, s) && ValidStore(s.store) && p in s.pending
    requires d in o.devices && Matches(p.profile, d)
    ensures Rewrites(s, Launch(o, s, p.key, On(p.profile, d), token, started), p.key)
  {
    PendingValid(o, s, p);
    OnDevice(o, p, d, token);
    LaunchWrites(o, s, p.key, On(p.profile, d), token, started);
  }

  // ----- progress -----

  function Work(s: State): nat {
    2 * |s.pending| + |s.active|
  }

  /** Every owner event uses up work; worker saves leave it alone. */
  lemma WorkFalls(o: Options, s: State, event: Event)
    requires Enabled(o, s, event)
    ensures event.WorkerStep? ==> Work(Apply(o, s, event)) == Work(s)
    ensures !event.WorkerStep? ==> Work(Apply(o, s, event)) < Work(s)
  {
    match event
    case CacheStep(p) =>
      WithoutKeeps(s.pending, p.key);
    case LaunchStep(p, d, token, started, _) =>
      LaunchWork(o, s, p, On(p.profile, d), token, started);
    case RefuseStep(p, _) =>
      WithoutKeeps(s.pending, p.key);
    case ReceiveStep(outcome) =>
      ReceiveWork(o, s, outcome);
    case WorkerStep(c) =>
  }

  lemma LaunchWork(o: Options, s: State, p: Pending, profile: TrainingProfile, token: string, started: bool)
    requires p in s.pending
    ensures Work(Launch(o, s, p.key, profile, token, started)) < Work(s)
  {
    WithoutKeeps(s.pending, p.key);
    var request := Request(token, p.key, profile);
    if p.key in s.active {
      assert s.active[p.key := request].Keys == s.active.Keys;
      assert |s.active[p.key := request]| == |s.active[p.key := request].Keys| && |s.active| == |s.active.Keys|;
    } else {
      OneMore(s.active, p.key, request);
    }
  }

  lemma ReceiveWork(o: Options, s: State, outcome: Completion)
    requires outcome.key in s.active
    ensures Work(Receive(o, s, outcome)) < Work(s)
  {
    OneFewer(s.active, outcome.key);
  }

  lemma OneFewer<K, V>(m: map<K, V>, k: K)
    requires k in m
    ensures |m - {k}| == |m| - 1
  {
    assert (m - {k}).Keys == m.Keys - {k};
    assert |m.Keys| == |m| && |(m - {k}).Keys| == |m - {k}|;
  }

  /** Offering one key is one enabled event, or nothing because another owned case may free a GPU. */
  lemma AdmitOneIsEvent(o: Options, s: State, p: Pending, round: Round) returns (event: Option<Event>)
    requires p in s.pending && |s.active| < Limit(o)
    ensures event.None? ==> AdmitOne(o, s, p, round) == s && Awaitable(o, Occupied(s.active), p.profile)
    ensures event.Some? ==> Enabled(o, s, event.value) && AdmitOne(o, s, p, round) == Apply(o, s, event.value)
    ensures event.Some? ==> !event.value.WorkerStep? && !event.value.ReceiveStep?
    ensures event.Some? ==> AdmitOne(o, s, p, round).pending == Without(s.pending, p.key)
    ensures forall tests: Tests :: event.Some? && tests(p.key, Busy(o, round, p.key)) ==> Tested(tests, event.value)
  {
    hide FirstIdle, Free, Busy;
    FirstIdleIsFree(o, s, p, round);
    AwaitableMeans(o, s, p.profile);
    var device := FirstIdle(o.devices, Occupied(s.active) + s.unavailable, p.profile, IdleFor(round, p.key));
    if device.Some? {
      event := Some(LaunchStep(p, device.value, round.token(p.key), round.starts(p.key), Busy(o, round, p.key)));
    } else if Awaitable(o, Occupied(s.active), p.profile) {
      event := None;
    } else {
      event := Some(RefuseStep(p, Busy(o, round, p.key)));
    }
  }

  /** What offering one key does to the queue and to the running cases. */
  lemma AdmitOneEffect(o: Options, s: State, p: Pending, round: Round)
    requires p in s.pending && |s.active| < Limit(o)
    ensures var t := AdmitOne(o, s, p, round);
            && s.active.Keys <= t.active.Keys && (t == s || Work(t) < Work(s))
            && (t.pending == Without(s.pending, p.key) || (t == s && Awaitable(o, Occupied(s.active), p.profile)))
  {
    var event := AdmitOneIsEvent(o, s, p, round);
    if event.Some? { WorkFalls(o, s, event.value); }
  }

  lemma AdmitOneReachable(o: Options, tests: Tests, first: State, s: State, p: Pending, round: Round, keys: set<Key>)
    requires Reachable(o, tests, first, s, keys) && p in s.pending && |s.active| < Limit(o)
    requires tests(p.key, Busy(o, round, p.key))
    ensures Reachable(o, tests, first, AdmitOne(o, s, p, round), keys)
  {
    var event := AdmitOneIsEvent(o, s, p, round);
    if event.Some? { ReachableStep(o, tests, first, s, event.value, keys); }
  }

  /** Worker saves move nothing but the store. */
  lemma {:induction false} SaveAllOnlyStore(o: Options, s: State, saves: seq<EstimateCase>)
    ensures SaveAll(o, s, saves) == s.(store := SaveAll(o, s, saves).store)
    decreases |saves|
  {
    if saves != [] {
      SaveAllOnlyStore(o, if Enabled(o, s, WorkerStep(saves[0])) then WorkerSave(s, saves[0]) else s, saves[1..]);
    }
  }

  lemma {:induction false} SaveAllReachable(o: Options, tests: Tests, first: State, s: State, saves: seq<EstimateCase>,
                                            keys: set<Key>)
    requires Reachable(o, tests, first, s, keys)
    ensures Reachable(o, tests, first, SaveAll(o, s, saves), keys)
    decreases |saves|
  {
    if saves != [] {
      if Enabled(o, s, WorkerStep(saves[0])) {
        ReachableStep(o, tests, first, s, WorkerStep(saves[0]), keys);
        SaveAllReachable(o, tests, first, WorkerSave(s, saves[0]), saves[1..], keys);
      } else {
        SaveAllReachable(o, tests, first, s, saves[1..], keys);
      }
    }
  }

  /** What one turn of the admission loop does, saves included. */
  lemma OfferEffect(o: Options, s: State, p: Pending, round: Round)
    requires p in s.pending && |s.active| < Limit(o)
    ensures var t := Offer(o, s, p, round);
            && s.active.Keys <= t.active.Keys && (t == s.(store := t.store) || Work(t) < Work(s))
            && (t.pending == Without(s.pending, p.key)
              || (t == s.(store := t.store) && Awaitable(o, Occupied(s.active), p.profile)))
  {
    AdmitOneEffect(o, s, p, round);
    SaveAllOnlyStore(o, AdmitOne(o, s, p, round), round.offered(p.key));
  }

  ghost predicate Queued(todo: seq<Pending>, s: State) {
    DistinctKeys(todo) && forall p :: p in todo ==> p in s.pending
  }

  /** A pass is a run of enabled events. */
  lemma {:induction false} AdmitAllReachable(o: Options, tests: Tests, first: State, s: State, todo: seq<Pending>,
                                             round: Round,
                                             keys: set<Key>)
    requires Reachable(o, tests, first, s, keys) && Queued(todo, s)
    requires forall key :: tests(key, Busy(o, round, key))
    ensures Reachable(o, tests, first, AdmitAll(o, s, todo, round), keys)
    decreases |todo|
  {
    if todo != [] && |s.active| < Limit(o) {
      assert todo[0] in s.pending;
      OfferEffect(o, s, todo[0], round);
      AdmitOneReachable(o, tests, first, s, todo[0], round, keys);
      SaveAllReachable(o, tests, first, AdmitOne(o, s, todo[0], round), round.offered(todo[0].key), keys);
      var next := Offer(o, s, todo[0], round);
      AdmitNextStillPending(todo, s, next);
      AdmitAllReachable(o, tests, first, next, todo[1..], round, keys);
    }
  }

  /** What is still queued after a pass waits for a running case. */
  ghost predicate NoneStranded(o: Options, todo: seq<Pending>, t: State) {
    (exists p :: p in t.pending && p in todo) ==> t.active != map[] || Limit(o) == 0
  }

  /** A pass uses up work unless it changes nothing, and leaves no queued key without a running case to wait for. */
  lemma {:induction false} AdmitAllProgress(o: Options, s: State, todo: seq<Pending>, round: Round)
    requires Queued(todo, s)
    ensures var t := AdmitAll(o, s, todo, round);
            && (t == s.(store := t.store) || Work(t) < Work(s)) && s.active.Keys <= t.active.Keys
            && (forall p :: p in t.pending ==> p in s.pending)
            && NoneStranded(o, todo, t)
    decreases |todo|
  {
    if todo != [] && |s.active| < Limit(o) {
      assert todo[0] in s.pending;
      OfferEffect(o, s, todo[0], round);
      var next := Offer(o, s, todo[0], round);
      AdmitNextStillPending(todo, s, next);
      AdmitAllProgress(o, next, todo[1..], round);
      AdmitNoneLeft(o, s, todo, next, AdmitAll(o, next, todo[1..], round));
    }
  }

  lemma AdmitNextStillPending(todo: seq<Pending>, s: State, next: State)
    requires todo != [] && Queued(todo, s)
    requires next.pending == s.pending || next.pending == Without(s.pending, todo[0].key)
    ensures Queued(todo[1..], next)
    ensures forall p :: p in next.pending ==> p in s.pending
  {
    WithoutKeeps(s.pending, todo[0].key);
    forall p | p in todo[1..] ensures p.key != todo[0].key && p in todo {
      var i :| 0 <= i < |todo[1..]| && todo[1..][i] == p;
      assert todo[i + 1] == p;
    }
  }

  lemma AdmitNoneLeft(o: Options, s: State, todo: seq<Pending>, next: State, t: State)
    requires todo != []
    requires next.pending == Without(s.pending, todo[0].key)
        || (next == s.(store := next.store) && Awaitable(o, Occupied(s.active), todo[0].profile))
    requires next.active.Keys <= t.active.Keys && forall p :: p in t.pending ==> p in next.pending
    requires NoneStranded(o, todo[1..], t)
    ensures NoneStranded(o, todo, t)
  {
    WithoutKeeps(s.pending, todo[0].key);
    if p :| p in t.pending && p in todo {
      if p !in todo[1..] {
        assert todo == [todo[0]] + todo[1..];
        assert p == todo[0];
        var d :| d in o.devices && d.uuid in Occupied(s.active) && Matches(todo[0].profile, d);
        var k :| k in s.active && Uuid(s.active[k].profile) == d.uuid;
        assert k in t.active.Keys;
      }
    }
  }

  // ----- cached results, receipts and worker saves -----

  lemma {:induction false} CacheAllReachable(o: Options, tests: Tests, first: State, s: State, todo: seq<Pending>,
                                             keys: set<Key>)
    requires Reachable(o, tests, first, s, keys) && Queued(todo, s) && !o.refresh
    ensures Reachable(o, tests, first, CacheAll(o, s, todo), keys)
    decreases |todo|
  {
    if todo != [] {
      assert todo[0] in s.pending;
      var hit := todo[0].key in s.store && s.store[todo[0].key].Usable();
      if hit { ReachableStep(o, tests, first, s, CacheStep(todo[0]), keys); }
      var next := if hit then ServeCached(s, todo[0]) else s;
      AdmitNextStillPending(todo, s, next);
      CacheAllReachable(o, tests, first, next, todo[1..], keys);
    }
  }

  /** Receipts of distinct running cases, saves in between, are a run of events and use up work. */
  lemma {:induction false} ReceiveAllReachable(o: Options, tests: Tests, first: State, s: State,
                                               outcomes: seq<Completion>,
                                               round: Round, keys: set<Key>)
    requires Reachable(o, tests, first, s, keys)
    ensures Reachable(o, tests, first, ReceiveAll(o, s, outcomes, round), keys)
    ensures outcomes != [] && outcomes[0].key in s.active ==> Work(ReceiveAll(o, s, outcomes, round)) < Work(s)
    ensures Work(ReceiveAll(o, s, outcomes, round)) <= Work(s)
    decreases |outcomes|
  {
    if outcomes != [] && outcomes[0].key in s.active {
      var received, saves := Receive(o, s, outcomes[0]), round.received(outcomes[0].key);
      ReachableStep(o, tests, first, s, ReceiveStep(outcomes[0]), keys);
      ReceiveWork(o, s, outcomes[0]);
      SaveAllReachable(o, tests, first, received, saves, keys);
      SaveAllOnlyStore(o, received, saves);
      ReceiveAllReachable(o, tests, first, SaveAll(o, received, saves), outcomes[1..], round, keys);
    }
  }
}
