/** What becomes of every key: in one admission pass, and in a whole run. */
module CaseOutcomes {
  import opened Prelude
  import opened BatchEstimation
  import opened CaseProtocol
  import opened SchedulerSafety
  import opened Admission
  import opened SchedulerRuns

  // ----- one admission pass -----

  lemma {:induction false} AdmitAllSplit(o: Options, s: State, a: seq<Pending>, b: seq<Pending>, round: Round)
    ensures AdmitAll(o, s, a + b, round) == AdmitAll(o, AdmitAll(o, s, a, round), b, round)
    decreases |a|
  {
    hide Offer;
    if a == [] {
      assert a + b == b;
    } else {
      assert (a + b)[1..] == a[1..] + b;
      if |s.active| < Limit(o) { AdmitAllSplit(o, Offer(o, s, a[0], round), a[1..], b, round); }
    }
  }

  /** Nothing about this key changes, and no quarantine is lifted. */
  ghost predicate Untouched(s: State, t: State, p: Pending) {
    && (p in t.pending <==> p in s.pending)
    && (p.key in t.active <==> p.key in s.active) && (p.key in s.active ==> t.active[p.key] == s.active[p.key])
    && (p.key in t.results <==> p.key in s.results) && (p.key in s.results ==> t.results[p.key] == s.results[p.key])
    && s.unavailable <= t.unavailable
  }

  lemma StartedLeaves(o: Options, s: State, p: Pending, d: Device, token: string, started: bool, t: State,
                      other: Pending)
    requires StartedOn(o, s, p, d, token, started, t) && other.key != p.key
    ensures Untouched(s, t, other)
  {
    hide Rewrites;
    WithoutKeeps(s.pending, p.key);
  }

  lemma RefusedLeaves(o: Options, s: State, p: Pending, t: State, other: Pending)
    requires Refused(o, s, p, t) && other.key != p.key
    ensures Untouched(s, t, other)
  {
    WithoutKeeps(s.pending, p.key);
  }

  lemma OfferLeaves(o: Options, s: State, p: Pending, round: Round, other: Pending)
    requires ValidPending(o, p) && other.key != p.key
    ensures Untouched(s, Offer(o, s, p, round), other)
  {
    hide Free, FirstFree, NoneFree, MayBeReleased, StartedOn, Refused, AdmitOne, Busy;
    var t := AdmitOne(o, s, p, round);
    OfferAdmits(o, s, p, round);
    SaveAllOnlyStore(o, t, round.offered(p.key));
    var i := FreeOrNot(o, s, p.profile, Busy(o, round, p.key));
    if i < |o.devices| && FirstFree(o, s, p.profile, Busy(o, round, p.key), i) {
      StartedLeaves(o, s, p, o.devices[i], round.token(p.key), round.starts(p.key), t, other);
    } else if !MayBeReleased(o, s, p.profile) {
      RefusedLeaves(o, s, p, t, other);
    }
  }

  /** Valid requests for other keys. */
  ghost predicate Others(o: Options, todo: seq<Pending>, key: Key) {
    forall i :: 0 <= i < |todo| ==> ValidPending(o, todo[i]) && todo[i].key != key
  }

  lemma {:induction false} AdmitAllLeaves(o: Options, s: State, todo: seq<Pending>, round: Round, other: Pending)
    requires Others(o, todo, other.key)
    ensures Untouched(s, AdmitAll(o, s, todo, round), other)
    decreases |todo|
  {
    hide Offer;
    if todo != [] && |s.active| < Limit(o) {
      OfferLeaves(o, s, todo[0], round, other);
      AdmitAllLeaves(o, Offer(o, s, todo[0], round), todo[1..], round, other);
    }
  }

  /** The state the key at this position of the queue meets. */
  function Met(o: Options, s: State, todo: seq<Pending>, round: Round, i: nat): State
    requires i <= |todo|
  {
    AdmitAll(o, s, todo[..i], round)
  }

  /**
   * A pass, key by key. A key that meets a free device leaves the queue: it runs on the first one, or that device is
   * quarantined. A key that meets the job limit or may wait for a running case stays; only any other key is refused.
   */
  ghost predicate Outcome(o: Options, met: State, p: Pending, round: Round, t: State) {
    var key, busy := p.key, Busy(o, round, p.key);
    if |met.active| >= |o.devices| || (o.jobs.Some? && |met.active| >= o.jobs.value) then p in t.pending
    else
      && (forall i: nat :: i < |o.devices| && FirstFree(o, met, p.profile, busy, i) ==>
            var d := o.devices[i];
            p !in t.pending && if round.starts(key) then RunsOn(t, p, d, round.token(key))
                               else key in t.results && d.uuid in t.unavailable)
      && (NoneFree(o, met, p.profile, busy) ==>
            if MayBeReleased(o, met, p.profile) then p in t.pending
            else p !in t.pending && key in t.results && t.results[key].diagnostic == NO_IDLE_GPU)
  }

  ghost predicate RunsOn(t: State, p: Pending, d: Device, token: string) {
    && p.key in t.active
    && t.active[p.key] == Request(token, p.key, p.profile.(gpus := [GPU(d.name, d.totalMemory, Some(d.uuid))]))
  }

  lemma StartedShows(o: Options, s: State, p: Pending, d: Device, token: string, started: bool, t: State)
    requires StartedOn(o, s, p, d, token, started, t)
    ensures p !in t.pending
    ensures if started then RunsOn(t, p, d, token) else p.key in t.results && d.uuid in t.unavailable
  {
    hide Rewrites;
    WithoutKeeps(s.pending, p.key);
  }

  lemma RefusedShows(o: Options, s: State, p: Pending, t: State)
    requires Refused(o, s, p, t)
    ensures p !in t.pending && p.key in t.results && t.results[p.key].diagnostic == NO_IDLE_GPU
  {
    WithoutKeeps(s.pending, p.key);
  }

  /** What offering a key does is what the state right afterwards shows. */
  lemma OfferOutcome(o: Options, s: State, p: Pending, round: Round)
    requires ValidPending(o, p) && p in s.pending && |s.active| < Limit(o)
    ensures Outcome(o, s, p, round, Offer(o, s, p, round))
  {
    hide Free, FirstFree, NoneFree, MayBeReleased, Busy, StartedOn, Refused, AdmitOne, RunsOn, SaveAll;
    var t, busy := AdmitOne(o, s, p, round), Busy(o, round, p.key);
    OfferAdmits(o, s, p, round);
    SaveAllOnlyStore(o, t, round.offered(p.key));
    OnlyStoreShows(t, Offer(o, s, p, round), p);
    forall i: nat | i < |o.devices| && FirstFree(o, s, p.profile, busy, i)
      ensures p !in t.pending && if round.starts(p.key) then RunsOn(t, p, o.devices[i], round.token(p.key))
                                 else p.key in t.results && o.devices[i].uuid in t.unavailable
    {
      StartedShows(o, s, p, o.devices[i], round.token(p.key), round.starts(p.key), t);
    }
    if NoneFree(o, s, p.profile, busy) && !MayBeReleased(o, s, p.profile) { RefusedShows(o, s, p, t); }
  }

  lemma OnlyStoreShows(t: State, u: State, p: Pending)
    requires u == t.(store := u.store)
    ensures forall d: Device, token :: RunsOn(t, p, d, token) ==> RunsOn(u, p, d, token)
  {
  }

  lemma OutcomeKept(o: Options, met: State, p: Pending, round: Round, t: State, u: State)
    requires Outcome(o, met, p, round, t) && Untouched(t, u, p)
    ensures Outcome(o, met, p, round, u)
  {
    hide Free, NoneFree, FirstFree, MayBeReleased, Busy;
  }

  /** The other keys of the queue are other keys. */
  lemma OthersDiffer(o: Options, s: State, todo: seq<Pending>, i: nat)
    requires Queued(todo, s) && i < |todo| && forall j :: 0 <= j < |todo| ==> ValidPending(o, todo[j])
    ensures Others(o, todo[..i], todo[i].key) && Others(o, todo[i + 1..], todo[i].key)
    ensures todo == todo[..i] + ([todo[i]] + todo[i + 1..])
  {
    hide ValidPending;
  }

  /** The rest of a pass, once the key is next. */
  lemma RestOutcome(o: Options, met: State, p: Pending, rest: seq<Pending>, round: Round)
    requires p in met.pending && ValidPending(o, p)
    requires Others(o, rest, p.key)
    ensures Outcome(o, met, p, round, AdmitAll(o, met, [p] + rest, round))
  {
    hide Outcome, Offer, Untouched, ValidPending;
    assert ([p] + rest)[1..] == rest;
    if |met.active| < Limit(o) {
      OfferOutcome(o, met, p, round);
      AdmitAllLeaves(o, Offer(o, met, p, round), rest, round, p);
      OutcomeKept(o, met, p, round, Offer(o, met, p, round), AdmitAll(o, met, [p] + rest, round));
    } else {
      LimitOutcome(o, met, p, round);
    }
  }

  lemma {:induction false} PassOutcome(o: Options, s: State, todo: seq<Pending>, round: Round, i: nat)
    requires Queued(todo, s) && i < |todo| && forall j :: 0 <= j < |todo| ==> ValidPending(o, todo[j])
    ensures Outcome(o, Met(o, s, todo, round, i), todo[i], round, AdmitAll(o, s, todo, round))
  {
    hide Outcome, AdmitAll, Untouched, ValidPending;
    var met, p, rest := Met(o, s, todo, round, i), todo[i], todo[i + 1..];
    OthersDiffer(o, s, todo, i);
    AdmitAllSplit(o, s, todo[..i], [p] + rest, round);
    AdmitAllLeaves(o, s, todo[..i], round, p);
    StillQueued(s, met, p);
    RestOutcome(o, met, p, rest, round);
  }

  lemma StillQueued(s: State, met: State, p: Pending)
    requires Untouched(s, met, p) && p in s.pending
    ensures p in met.pending
  {
  }

  lemma LimitOutcome(o: Options, met: State, p: Pending, round: Round)
    requires p in met.pending && |met.active| >= Limit(o)
    ensures Outcome(o, met, p, round, met)
  {
  }

  // ----- receipts -----

  /** A clean exit whose result file names this invocation, this key and this GPU and holds a valid record. */
  predicate Identified(request: Request, outcome: Completion) {
    && outcome.exitCode == 0 && outcome.cleanupComplete && outcome.receipt.Some?
    && var r := outcome.receipt.value;
       && r.token == request.token && r.key == request.key
       && Accepted(r.c) && CaseKey(r.c) == request.key && r.c.profile.gpus == request.profile.gpus
  }

  /** Exactly the identified receipts of clean exits become results; every other outcome is a failure. */
  lemma ReceiptAcceptedIff(o: Options, s: State, outcome: Completion)
    requires outcome.key in s.active && s.active[outcome.key].key == outcome.key
    requires KeyOf(s.active[outcome.key].profile, o.workload, o.settings) == outcome.key
    ensures var t, key, request := Receive(o, s, outcome), outcome.key, s.active[outcome.key];
            && key in t.results && key in t.store && t.store[key] == t.results[key]
            && if Identified(request, outcome) then t.results[key] == outcome.receipt.value.c
               else
                 && t.results[key].status == Failed && t.results[key].profile == request.profile
                 && t.results[key].trials == (if key in s.store then s.store[key].trials else [])
                 && t.results[key].diagnostic == INCOMPLETE
  {
  }

  // ----- where every result comes from -----

  /** This event gave the key this result. */
  ghost predicate Caused(o: Options, s: State, event: Event, key: Key, c: EstimateCase) {
    Enabled(o, s, event) &&
    match event
    case CacheStep(p) => p.key == key && !o.refresh && key in s.store && c == s.store[key] && c.Usable()
    case LaunchStep(p, d, _, started, busy) =>
      && p.key == key && !started && c.status == Failed && c.diagnostic == LAUNCH_FAILED
      && exists i: nat :: i < |o.devices| && o.devices[i] == d && FirstFree(o, s, p.profile, busy, i)
    case RefuseStep(p, busy) =>
      && p.key == key && c.status == Failed && c.diagnostic == NO_IDLE_GPU
      && NoneFree(o, s, p.profile, busy) && !MayBeReleased(o, s, p.profile)
    case ReceiveStep(outcome) =>
      && outcome.key == key && key in s.active
      && if Identified(s.active[key], outcome) then c == outcome.receipt.value.c
         else c.status == Failed && c.diagnostic == INCOMPLETE
    case WorkerStep(_) => false
  }

  /** Earlier results stay, and at most this one is added. */
  ghost predicate OnlyNew(o: Options, s: State, event: Event, t: State) {
    && (forall k :: k in s.results ==> k in t.results && t.results[k] == s.results[k])
    && (forall k :: k in t.results && k !in s.results ==> Caused(o, s, event, k, t.results[k]))
  }

  lemma ServedCause(o: Options, s: State, p: Pending)
    requires Enabled(o, s, CacheStep(p)) && p.key !in s.results
    ensures OnlyNew(o, s, CacheStep(p), ServeCached(s, p))
  {
  }

  lemma LaunchCause(o: Options, s: State, p: Pending, d: Device, token: string, started: bool, busy: set<string>)
    requires Enabled(o, s, LaunchStep(p, d, token, started, busy)) && p.key !in s.results
    ensures OnlyNew(o, s, LaunchStep(p, d, token, started, busy), Launch(o, s, p.key, On(p.profile, d), token, started))
  {
    hide Free, FirstFree, Identified, Accepted;
  }

  lemma RefuseCause(o: Options, s: State, p: Pending, busy: set<string>)
    requires Enabled(o, s, RefuseStep(p, busy)) && p.key !in s.results
    ensures OnlyNew(o, s, RefuseStep(p, busy), Refuse(o, s, p))
  {
    hide Free, NoneFree, MayBeReleased;
  }

  lemma ReceiveCause(o: Options, s: State, outcome: Completion)
    requires outcome.key in s.active && outcome.key !in s.results
    requires ValidRequest(o, outcome.key, s.active[outcome.key])
    ensures OnlyNew(o, s, ReceiveStep(outcome), Receive(o, s, outcome))
  {
    hide Identified;
    ReceiptAcceptedIff(o, s, outcome);
    ReceiveOneResult(o, s, outcome);
  }

  lemma ReceiveOneResult(o: Options, s: State, outcome: Completion)
    requires outcome.key in s.active
    ensures var t := Receive(o, s, outcome);
            outcome.key in t.results && t.results == s.results[outcome.key := t.results[outcome.key]]
            && t.active == s.active - {outcome.key}
  {
  }

  /** Results are never changed; an event adds at most the one it causes. */
  lemma StepCauses(o: Options, s: State, event: Event, keys: set<Key>)
    requires Feasible(o) && Inv(o, s, keys) && Enabled(o, s, event)
    ensures OnlyNew(o, s, event, Apply(o, s, event))
  {
    hide ValidStore, Published, Exclusive, Accepted, OnlyNew, Launch, Receive, Refuse, ServeCached, Free, FirstFree;
    match event
    case CacheStep(p) => PendingValid(o, s, p); ServedCause(o, s, p);
    case LaunchStep(p, d, token, started, busy) => PendingValid(o, s, p); LaunchCause(o, s, p, d, token, started, busy);
    case RefuseStep(p, busy) => PendingValid(o, s, p); RefuseCause(o, s, p, busy);
    case ReceiveStep(outcome) => ReceiveCause(o, s, outcome);
    case WorkerStep(c) => SaveCause(o, s, c);
  }

  lemma SaveCause(o: Options, s: State, c: EstimateCase)
    ensures OnlyNew(o, s, WorkerStep(c), WorkerSave(s, c))
  {
  }

  /** Some reachable state and an event there explain the result. */
  ghost predicate HasCause(o: Options, tests: Tests, first: State, keys: set<Key>, key: Key, c: EstimateCase) {
    exists u, event :: Reachable(o, tests, first, u, keys) && Tested(tests, event) && Caused(o, u, event, key, c)
  }

  ghost predicate AllCaused(o: Options, tests: Tests, first: State, keys: set<Key>, s: State) {
    forall key :: key in s.results ==> HasCause(o, tests, first, keys, key, s.results[key])
  }

  lemma StepAllCaused(o: Options, tests: Tests, first: State, keys: set<Key>, s: State, event: Event)
    requires Feasible(o) && Reachable(o, tests, first, s, keys) && AllCaused(o, tests, first, keys, s)
    requires Enabled(o, s, event) && Tested(tests, event)
    ensures AllCaused(o, tests, first, keys, Apply(o, s, event))
  {
    hide Reachable, Caused, Inv, Enabled, Apply;
    ReachableKeeps(o, tests, first, s, keys);
    var t := Apply(o, s, event);
    StepCauses(o, s, event, keys);
    forall key | key in t.results ensures HasCause(o, tests, first, keys, key, t.results[key]) {
      if key in s.results { assert HasCause(o, tests, first, keys, key, s.results[key]); }
    }
  }

  lemma {:induction false} RunAllCaused(o: Options, tests: Tests, first: State, keys: set<Key>, s: State,
                                        events: seq<Event>)
    requires Feasible(o) && Reachable(o, tests, first, s, keys) && AllCaused(o, tests, first, keys, s)
    requires AllTested(tests, events) && RunEvents(o, s, events).Some?
    ensures AllCaused(o, tests, first, keys, RunEvents(o, s, events).value)
    decreases |events|
  {
    hide Reachable, AllCaused, Enabled, Apply;
    if events != [] {
      assert Tested(tests, events[0]);
      StepAllCaused(o, tests, first, keys, s, events[0]);
      ReachableStep(o, tests, first, s, events[0], keys);
      RunAllCaused(o, tests, first, keys, Apply(o, s, events[0]), events[1..]);
    }
  }

  /**
   * Every result of every run was served from the store, failed to start, was refused without a device, or received.
   */
  lemma ResultsHaveCauses(o: Options, tests: Tests, first: State, s: State, keys: set<Key>)
    requires Feasible(o) && Reachable(o, tests, first, s, keys)
    ensures AllCaused(o, tests, first, keys, s)
  {
    var events :| AllTested(tests, events) && RunEvents(o, first, events) == Some(s);
    ReachableStart(o, tests, first, keys);
    RunAllCaused(o, tests, first, keys, first, events);
  }

  // ----- saved cases -----

  /** Exactly the keys with a usable saved case are served with it. */
  lemma {:induction false} CacheAllServes(o: Options, s: State, todo: seq<Pending>, p: Pending)
    requires Queued(todo, s) && p in todo
    ensures var t, key := CacheAll(o, s, todo), p.key;
            && t.store == s.store
            && if key in s.store && s.store[key].Usable() then
                 p !in t.pending && key in t.results && t.results[key] == s.store[key] && key in t.cached
               else p in t.pending && (key in t.results <==> key in s.results) && (key in t.cached <==> key in s.cached)
    decreases |todo|
  {
    var q := todo[0];
    var next := if q.key in s.store && s.store[q.key].Usable() then ServeCached(s, q) else s;
    assert q in s.pending;
    WithoutKeeps(s.pending, q.key);
    AdmitNextStillPending(todo, s, next);
    if p in todo[1..] {
      CacheAllServes(o, next, todo[1..], p);
    } else {
      assert todo == [q] + todo[1..];
      CacheAllLeaves(o, next, todo[1..], p);
    }
  }

  lemma {:induction false} CacheAllLeaves(o: Options, s: State, todo: seq<Pending>, other: Pending)
    requires forall q :: q in todo ==> q.key != other.key
    ensures Untouched(s, CacheAll(o, s, todo), other) && CacheAll(o, s, todo).store == s.store
    ensures other.key in CacheAll(o, s, todo).cached <==> other.key in s.cached
    decreases |todo|
  {
    if todo != [] {
      var q := todo[0];
      assert q in todo;
      WithoutKeeps(s.pending, q.key);
      CacheAllLeaves(o, if q.key in s.store && s.store[q.key].Usable() then ServeCached(s, q) else s, todo[1..], other);
    }
  }

  ghost predicate ResultsStay(s: State, t: State) {
    forall k :: k in s.results ==> k in t.results && t.results[k] == s.results[k]
  }

  lemma AdmitAllStays(o: Options, s: State, round: Round, keys: set<Key>)
    requires Conserved(s, keys) && WellFormed(o, s)
    ensures ResultsStay(s, AdmitAll(o, s, s.pending, round))
  {
    hide AdmitAll, ValidPending, ValidRequest, Matches;
    forall k | k in s.results ensures Untouched(s, AdmitAll(o, s, s.pending, round), Pending(k, s.results[k].profile)) {
      forall i | 0 <= i < |s.pending| ensures ValidPending(o, s.pending[i]) && s.pending[i].key != k {
        assert PendingKey(s, s.pending[i].key);
      }
      AdmitAllLeaves(o, s, s.pending, round, Pending(k, s.results[k].profile));
    }
  }

  lemma {:induction false} ReceiveAllStays(o: Options, s: State, outcomes: seq<Completion>, round: Round)
    requires s.active.Keys !! s.results.Keys
    ensures ResultsStay(s, ReceiveAll(o, s, outcomes, round))
    decreases |outcomes|
  {
    hide Receive;
    if outcomes != [] && outcomes[0].key in s.active {
      var received, saves := Receive(o, s, outcomes[0]), round.received(outcomes[0].key);
      ReceiveOneResult(o, s, outcomes[0]);
      SaveAllOnlyStore(o, received, saves);
      ReceiveAllStays(o, SaveAll(o, received, saves), outcomes[1..], round);
    }
  }

  /** Every requested key with a usable saved case got that case. */
  ghost predicate SavedServed(first: State, results: map<Key, EstimateCase>) {
    forall p :: p in first.pending && p.key in first.store && first.store[p.key].Usable() ==>
      p.key in results && results[p.key] == first.store[p.key]
  }

  lemma CacheServes(o: Options, first: State)
    requires Queued(first.pending, first)
    ensures SavedServed(first, CacheAll(o, first, first.pending).results)
  {
    hide CacheAll, Queued;
    forall p | p in first.pending && p.key in first.store && first.store[p.key].Usable()
      ensures var results := CacheAll(o, first, first.pending).results;
              p.key in results && results[p.key] == first.store[p.key]
    {
      CacheAllServes(o, first, first.pending, p);
    }
  }
}
