/**
 * The steps of the case scheduler and of its worker processes on their shared store, as values.
 * A worker may save at any moment until the owner has seen its clean exit.
 */
module CaseProtocol {
  import opened Prelude
  import opened BatchEstimation
  import opened SavedEvidence

  type Key = EstimateKey

  datatype Device = Device(index: nat, uuid: string, name: string, totalMemory: pos)

  datatype Options = Options(devices: seq<Device>, jobs: Option<pos>, workload: Workload, settings: Settings,
                             refresh: bool)

  datatype Pending = Pending(key: Key, profile: TrainingProfile)

  datatype Request = Request(token: string, key: Key, profile: TrainingProfile)

  datatype Receipt = Receipt(token: string, key: Key, c: EstimateCase)

  /** What the pool reports; the receipt is whatever the result file holds, if it is readable. */
  datatype Completion = Completion(key: Key, exitCode: int, cleanupComplete: bool, receipt: Option<Receipt>)

  /** `workers` holds the GPU of every process that may still be running and saving. */
  datatype State = State(
    pending: seq<Pending>, active: map<Key, Request>, results: map<Key, EstimateCase>, cached: set<Key>,
    unavailable: set<string>, store: map<Key, EstimateCase>, workers: map<Key, string>)

  function Limit(o: Options): nat {
    if o.jobs.Some? then Min(o.jobs.value, |o.devices|) else |o.devices|
  }

  function Uuid(profile: TrainingProfile): string {
    if profile.gpus[0].uuid.Some? then profile.gpus[0].uuid.value else "None"
  }

  function Occupied(active: map<Key, Request>): set<string> {
    set k | k in active :: Uuid(active[k].profile)
  }

  predicate Matches(profile: TrainingProfile, d: Device) {
    Hardware(profile.gpus[0]) == (d.name, d.totalMemory)
  }

  function On(profile: TrainingProfile, d: Device): TrainingProfile {
    profile.(gpus := [GPU(d.name, d.totalMemory, Some(d.uuid))])
  }

  /** The first device that matches, is neither owned nor quarantined, and tests idle. */
  function FirstIdle(devices: seq<Device>, excluded: set<string>, profile: TrainingProfile, idle: string -> bool):
      (r: Option<Device>)
    ensures r.Some? ==>
        r.value in devices && r.value.uuid !in excluded && Matches(profile, r.value) && idle(r.value.uuid)
    ensures r.None? ==> forall d :: d in devices && d.uuid !in excluded && Matches(profile, d) ==> !idle(d.uuid)
  {
    if devices == [] then None
    else if devices[0].uuid !in excluded && Matches(profile, devices[0]) && idle(devices[0].uuid) then Some(devices[0])
    else FirstIdle(devices[1..], excluded, profile, idle)
  }

  /** The device at this position could be used. */
  predicate Suitable(devices: seq<Device>, i: nat, excluded: set<string>, profile: TrainingProfile,
                     idle: string -> bool)
    requires i < |devices|
  {
    devices[i].uuid !in excluded && Matches(profile, devices[i]) && idle(devices[i].uuid)
  }

  /** No suitable device comes before the chosen one. */
  lemma {:induction false} FirstIdleIsFirst(devices: seq<Device>, excluded: set<string>, profile: TrainingProfile,
                                            idle: string -> bool)
    returns (i: nat)
    requires FirstIdle(devices, excluded, profile, idle).Some?
    ensures i < |devices| && devices[i] == FirstIdle(devices, excluded, profile, idle).value
        && Suitable(devices, i, excluded, profile, idle)
    ensures forall j: nat :: j < i ==> !Suitable(devices, j, excluded, profile, idle)
  {
    if Suitable(devices, 0, excluded, profile, idle) {
      i := 0;
    } else {
      var k := FirstIdleIsFirst(devices[1..], excluded, profile, idle);
      i := k + 1;
      forall j: nat | j < i ensures !Suitable(devices, j, excluded, profile, idle) {
        if j > 0 { assert !Suitable(devices[1..], j - 1, excluded, profile, idle); }
      }
    }
  }

  /** Another owned case may release a compatible GPU. */
  predicate Awaitable(o: Options, occupied: set<string>, profile: TrainingProfile) {
    exists d :: d in o.devices && d.uuid in occupied && Matches(profile, d)
  }

  function Without(pending: seq<Pending>, key: Key): seq<Pending> {
    if pending == [] then []
    else if pending[0].key == key then Without(pending[1..], key)
    else [pending[0]] + Without(pending[1..], key)
  }

  function Save(store: map<Key, EstimateCase>, c: EstimateCase): map<Key, EstimateCase> {
    store[CaseKey(c) := c]
  }

  // Diagnostics stand for the source's messages; only their being nonempty matters.
  const NO_IDLE_GPU := "idle"
  const LAUNCH_FAILED := "launch"
  const INCOMPLETE := "exit"
  const LAUNCHED := "case"
  const UNPUBLISHED := "owner"

  /** What a worker writes: it may never publish success itself. */
  function Unpublished(c: EstimateCase): EstimateCase {
    if c.Usable() then c.(status := Failed, globalBatch := None, perGpuBatch := None, diagnostic := UNPUBLISHED) else c
  }

  /** Record a failure, keeping the trials already stored under the key. */
  function FailedCase(o: Options, s: State, key: Key, profile: TrainingProfile, diagnostic: string): EstimateCase {
    EstimateCase(profile, o.workload, o.settings, Failed, None, None,
                 if key in s.store then s.store[key].trials else [], "now", diagnostic)
  }

  function Fail(o: Options, s: State, key: Key, profile: TrainingProfile, diagnostic: string): State {
    var c := FailedCase(o, s, key, profile, diagnostic);
    s.(store := Save(s.store, c), results := s.results[key := c])
  }

  function Launch(o: Options, s: State, key: Key, profile: TrainingProfile, token: string, started: bool): State {
    var pending := EstimateCase(profile, o.workload, o.settings, Failed, None, None, [], "now", LAUNCHED);
    var launched := s.(pending := Without(s.pending, key), store := Save(s.store, pending),
                       workers := s.workers[key := Uuid(profile)]);
    if started then launched.(active := s.active[key := Request(token, key, profile)])
    else Fail(o, launched.(unavailable := s.unavailable + {Uuid(profile)}), key, profile, LAUNCH_FAILED)
  }

  /** The case of a clean exit whose receipt identifies this invocation, this key and this GPU. */
  function CompletedCase(request: Request, outcome: Completion): Option<EstimateCase> {
    if outcome.exitCode != 0 || !outcome.cleanupComplete || outcome.receipt.None? then None
    else
      var r := outcome.receipt.value;
      if !Accepted(r.c) || r.key != CaseKey(r.c) then None
      else if (r.token, r.key) != (request.token, request.key) then None
      else if r.c.profile.gpus != request.profile.gpus then None
      else Some(r.c)
  }

  function Receive(o: Options, s: State, outcome: Completion): State
    requires outcome.key in s.active
  {
    var request := s.active[outcome.key];
    var popped := s.(active := s.active - {outcome.key},
                     workers := if outcome.cleanupComplete then s.workers - {outcome.key} else s.workers,
                     unavailable := if outcome.cleanupComplete then s.unavailable
                                    else s.unavailable + {Uuid(request.profile)});
    var c := CompletedCase(request, outcome);
    if c.None? then Fail(o, popped, outcome.key, request.profile, INCOMPLETE)
    else popped.(store := Save(s.store, c.value), results := s.results[outcome.key := c.value])
  }

  function WorkerSave(s: State, c: EstimateCase): State {
    s.(store := Save(s.store, Unpublished(c)))
  }

  /** Reuse a saved usable case instead of measuring again. */
  function ServeCached(s: State, p: Pending): State
    requires p.key in s.store
  {
    s.(pending := Without(s.pending, p.key), results := s.results[p.key := s.store[p.key]],
      cached := s.cached + {p.key})
  }

  /** No GPU can be had for this key: record the failure and drop it. */
  function Refuse(o: Options, s: State, p: Pending): State {
    Fail(o, s, p.key, p.profile, NO_IDLE_GPU).(pending := Without(s.pending, p.key))
  }

  /**
   * The device at this position could run the key now: right hardware, not running another case, not quarantined, and
   * not among the devices that just tested busy.
   */
  predicate Free(o: Options, s: State, profile: TrainingProfile, busy: set<string>, i: nat)
    requires i < |o.devices|
  {
    && Matches(profile, o.devices[i]) && o.devices[i].uuid !in s.unavailable && o.devices[i].uuid !in busy
    && forall k :: k in s.active ==> Uuid(s.active[k].profile) != o.devices[i].uuid
  }

  predicate FirstFree(o: Options, s: State, profile: TrainingProfile, busy: set<string>, i: nat)
    requires i < |o.devices|
  {
    Free(o, s, profile, busy, i) && forall j: nat :: j < i ==> !Free(o, s, profile, busy, j)
  }

  predicate NoneFree(o: Options, s: State, profile: TrainingProfile, busy: set<string>) {
    forall i: nat :: i < |o.devices| ==> !Free(o, s, profile, busy, i)
  }

  /** Some device of the right hardware runs another case of this command. */
  predicate MayBeReleased(o: Options, s: State, profile: TrainingProfile) {
    exists i: nat, k :: i < |o.devices| && k in s.active
      && Matches(profile, o.devices[i]) && Uuid(s.active[k].profile) == o.devices[i].uuid
  }

  /**
   * Everything that can happen between two observations of the shared state; `busy` holds the devices that tested so.
   */
  datatype Event =
    | CacheStep(p: Pending)
    | LaunchStep(p: Pending, device: Device, token: string, started: bool, busy: set<string>)
    | RefuseStep(p: Pending, busy: set<string>)
    | ReceiveStep(outcome: Completion)
    | WorkerStep(c: EstimateCase)

  predicate Enabled(o: Options, s: State, step: Event) {
    match step
    case CacheStep(p) => !o.refresh && p in s.pending && p.key in s.store && s.store[p.key].Usable()
    case LaunchStep(p, d, _, _, busy) =>
      && p in s.pending && |s.active| < Limit(o)
      && exists i: nat :: i < |o.devices| && o.devices[i] == d && FirstFree(o, s, p.profile, busy, i)
    case RefuseStep(p, busy) =>
      p in s.pending && |s.active| < Limit(o) && NoneFree(o, s, p.profile, busy) && !MayBeReleased(o, s, p.profile)
    case ReceiveStep(outcome) => outcome.key in s.active
    case WorkerStep(c) => CaseKey(c) in s.workers && Accepted(c)
  }

  function Apply(o: Options, s: State, step: Event): State
    requires Enabled(o, s, step)
  {
    match step
    case CacheStep(p) => ServeCached(s, p)
    case LaunchStep(p, d, token, started, _) => Launch(o, s, p.key, On(p.profile, d), token, started)
    case RefuseStep(p, _) => Refuse(o, s, p)
    case ReceiveStep(outcome) => Receive(o, s, outcome)
    case WorkerStep(c) => WorkerSave(s, c)
  }

  // ----- one pass of the scheduling loop -----

  /**
   * What happens around one pass: idleness tests, launches, fresh tokens, and what running workers save
   * after each key is offered and after each outcome is received.
   */
  datatype Round = Round(
    idle: (Key, string) -> bool, starts: Key -> bool, token: Key -> string,
    offered: Key -> seq<EstimateCase>, received: Key -> seq<EstimateCase>)

  /** The idleness tests one key sees. */
  function IdleFor(round: Round, key: Key): string -> bool {
    uuid => round.idle(key, uuid)
  }

  function AdmitOne(o: Options, s: State, p: Pending, round: Round): State {
    var device := FirstIdle(o.devices, Occupied(s.active) + s.unavailable, p.profile, IdleFor(round, p.key));
    if device.Some? then Launch(o, s, p.key, On(p.profile, device.value), round.token(p.key), round.starts(p.key))
    else if Awaitable(o, Occupied(s.active), p.profile) then s
    else Refuse(o, s, p)
  }

  /** Serve every listed key that has a usable saved case. */
  function CacheAll(o: Options, s: State, todo: seq<Pending>): State
    decreases |todo|
  {
    if todo == [] then s
    else CacheAll(o, if todo[0].key in s.store && s.store[todo[0].key].Usable() then ServeCached(s, todo[0])
      else s, todo[1..])
  }

  /** Offer one key, and let workers save before the next one. */
  function Offer(o: Options, s: State, p: Pending, round: Round): State {
    SaveAll(o, AdmitOne(o, s, p, round), round.offered(p.key))
  }

  /** Offer every listed key in order while the job limit allows. */
  function AdmitAll(o: Options, s: State, todo: seq<Pending>, round: Round): State
    decreases |todo|
  {
    if todo == [] || |s.active| >= Limit(o) then s
    else AdmitAll(o, Offer(o, s, todo[0], round), todo[1..], round)
  }

  /** Receive every outcome in order; workers save in between. */
  function ReceiveAll(o: Options, s: State, outcomes: seq<Completion>, round: Round): State
    decreases |outcomes|
  {
    if outcomes == [] || outcomes[0].key !in s.active then s
    else ReceiveAll(o, SaveAll(o, Receive(o, s, outcomes[0]), round.received(outcomes[0].key)), outcomes[1..], round)
  }

  /** The saves of running workers, in order. */
  function SaveAll(o: Options, s: State, saves: seq<EstimateCase>): State
    decreases |saves|
  {
    if saves == [] then s
    else SaveAll(o, if Enabled(o, s, WorkerStep(saves[0])) then WorkerSave(s, saves[0]) else s, saves[1..])
  }

  // ----- what every state keeps -----

  /** The search can start on one GPU; otherwise no case record can be built at all. */
  predicate Feasible(o: Options) {
    o.settings.maxGlobalBatch >= Step(o.settings)
  }

  ghost predicate ValidPending(o: Options, p: Pending) {
    |p.profile.gpus| == 1 && KeyOf(p.profile, o.workload, o.settings) == p.key
  }

  ghost predicate ValidRequest(o: Options, key: Key, r: Request) {
    && r.key == key && |r.profile.gpus| == 1 && r.profile.gpus[0].uuid.Some?
    && KeyOf(r.profile, o.workload, o.settings) == key
    && exists d :: d in o.devices && d.uuid == Uuid(r.profile) && Matches(r.profile, d)
  }

  ghost predicate PendingKey(s: State, key: Key) {
    exists i :: 0 <= i < |s.pending| && s.pending[i].key == key
  }

  /** Pending, active and finished keys partition the requested ones. */
  ghost predicate Conserved(s: State, keys: set<Key>) {
    && (forall i, j :: 0 <= i < j < |s.pending| ==> s.pending[i].key != s.pending[j].key)
    && (forall k :: PendingKey(s, k) ==> k !in s.active && k !in s.results)
    && s.active.Keys !! s.results.Keys
    && s.workers.Keys <= s.active.Keys + s.results.Keys
    && (forall k :: k in keys <==> PendingKey(s, k) || k in s.active || k in s.results)
  }

  ghost predicate WellFormed(o: Options, s: State) {
    && (forall i :: 0 <= i < |s.pending| ==> ValidPending(o, s.pending[i]))
    && (forall k :: k in s.active ==> ValidRequest(o, k, s.active[k]))
    && |s.active| <= Limit(o)
  }

  /** No two processes that may be running share a GPU, and a quarantined GPU has no active case. */
  ghost predicate Exclusive(s: State) {
    && (forall k :: k in s.active ==> k in s.workers && s.workers[k] == Uuid(s.active[k].profile))
    && (forall k :: k in s.active ==> Uuid(s.active[k].profile) !in s.unavailable)
    && (forall k :: k in s.workers && k !in s.active ==> s.workers[k] in s.unavailable)
    && (forall j, k :: j in s.workers && k in s.workers && j != k ==> s.workers[j] != s.workers[k])
    && (forall k :: k in s.workers ==> !PendingKey(s, k))
  }

  /** Unusable while a worker may run; afterwards the store says what the result says. */
  ghost predicate Published(s: State) {
    && (forall k :: k in s.workers ==> k in s.store && !s.store[k].Usable())
    && (forall k :: k in s.results ==> k in s.store && s.store[k].Usable() == s.results[k].Usable())
    && (forall k :: k in s.results && s.results[k].Usable() ==> s.store[k] == s.results[k])
  }

  /** Every stored record passes its validator and lies under its own key. */
  ghost predicate ValidStore(store: map<Key, EstimateCase>) {
    forall k :: k in store ==> Accepted(store[k]) && CaseKey(store[k]) == k
  }

  /** How every command starts: distinct valid requests in the queue, a valid store, nothing running. */
  ghost predicate Initial(o: Options, s: State, keys: set<Key>) {
    && (forall i, j :: 0 <= i < j < |s.pending| ==> s.pending[i].key != s.pending[j].key)
    && (forall i :: 0 <= i < |s.pending| ==> ValidPending(o, s.pending[i]))
    && ValidStore(s.store) && (forall k :: k in keys <==> PendingKey(s, k))
    && s == State(s.pending, map[], map[], {}, {}, s.store, map[])
  }

  ghost predicate Inv(o: Options, s: State, keys: set<Key>) {
    Conserved(s, keys) && WellFormed(o, s) && ValidStore(s.store) && Exclusive(s) && Published(s)
  }
}
