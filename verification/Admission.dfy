/** What offering a queued key does, told by the devices themselves. */
module Admission {
  import opened Prelude
  import opened BatchEstimation
  import opened CaseProtocol
  import opened SchedulerSafety

  /** The devices whose idleness test fails for this key. */
  function Busy(o: Options, round: Round, key: Key): set<string> {
    set i | 0 <= i < |o.devices| && !round.idle(key, o.devices[i].uuid) :: o.devices[i].uuid
  }

  /** The device was free and is now taken: a placeholder is stored, and the key runs there or the device is out. */
  ghost predicate StartedOn(o: Options, s: State, p: Pending, d: Device, token: string, started: bool, t: State) {
    var key, profile := p.key, p.profile.(gpus := [GPU(d.name, d.totalMemory, Some(d.uuid))]);
    && Rewrites(s, t, key) && t.store[key].profile == profile
    && t.store[key].status == Failed && t.store[key].trials == [] && t.store[key].globalBatch == None
    && t.pending == Without(s.pending, key) && t.workers == s.workers[key := d.uuid] && t.cached == s.cached
    && if started then
         t.active == s.active[key := Request(token, key, profile)]
         && t.results == s.results && t.unavailable == s.unavailable
       else
         t.active == s.active && t.results == s.results[key := t.store[key]]
         && t.unavailable == s.unavailable + {d.uuid}
  }

  /** The key is recorded as failed, keeping the trials stored before, and leaves the queue. */
  ghost predicate Refused(o: Options, s: State, p: Pending, t: State) {
    var key := p.key;
    && Rewrites(s, t, key) && t.store[key].profile == p.profile
    && t.store[key].status == Failed && t.store[key].globalBatch == None && t.store[key].diagnostic == NO_IDLE_GPU
    && t.store[key].trials == (if key in s.store then s.store[key].trials else [])
    && t == s.(pending := Without(s.pending, key), store := t.store, results := s.results[key := t.store[key]])
  }

  /** Started on the first free device; left queued while a fitting device may be released; otherwise refused. */
  ghost predicate Admitted(o: Options, s: State, p: Pending, round: Round, t: State) {
    var busy := Busy(o, round, p.key);
    && (forall i: nat :: i < |o.devices| && FirstFree(o, s, p.profile, busy, i) ==>
          StartedOn(o, s, p, o.devices[i], round.token(p.key), round.starts(p.key), t))
    && (NoneFree(o, s, p.profile, busy) ==> if MayBeReleased(o, s, p.profile) then t == s else Refused(o, s, p, t))
  }

  /** Either some device is the first free one, or none is free. */
  lemma FreeOrNot(o: Options, s: State, profile: TrainingProfile, busy: set<string>) returns (i: nat)
    ensures NoneFree(o, s, profile, busy) || (i < |o.devices| && FirstFree(o, s, profile, busy, i))
  {
    hide Free;
    i := 0;
    while i < |o.devices| && !Free(o, s, profile, busy, i)
      invariant i <= |o.devices| && forall j: nat :: j < i ==> !Free(o, s, profile, busy, j)
    {
      i := i + 1;
    }
  }

  /** The search for an idle device finds the first free one. */
  lemma FirstIdleIsFree(o: Options, s: State, p: Pending, round: Round)
    ensures var r := FirstIdle(o.devices, Occupied(s.active) + s.unavailable, p.profile, IdleFor(round, p.key));
            var busy := Busy(o, round, p.key);
            if r.None? then NoneFree(o, s, p.profile, busy)
            else exists i: nat :: i < |o.devices| && o.devices[i] == r.value && FirstFree(o, s, p.profile, busy, i)
  {
    hide Free, Matches, Occupied;
    var idle, busy, excluded := IdleFor(round, p.key), Busy(o, round, p.key), Occupied(s.active) + s.unavailable;
    forall i: nat | i < |o.devices|
      ensures Free(o, s, p.profile, busy, i) <==> Suitable(o.devices, i, excluded, p.profile, idle)
    {
      FreeMeans(o, s, p.profile, busy, i);
      BusyMeans(o, round, p.key, i);
    }
    if FirstIdle(o.devices, excluded, p.profile, idle).Some? {
      var i := FirstIdleIsFirst(o.devices, excluded, p.profile, idle);
      assert FirstFree(o, s, p.profile, busy, i);
    }
  }

  lemma BusyMeans(o: Options, round: Round, key: Key, i: nat)
    requires i < |o.devices|
    ensures o.devices[i].uuid in Busy(o, round, key) <==> !round.idle(key, o.devices[i].uuid)
  {
  }

  lemma AwaitableMeans(o: Options, s: State, profile: TrainingProfile)
    ensures Awaitable(o, Occupied(s.active), profile) <==> MayBeReleased(o, s, profile)
  {
    hide Matches;
    if Awaitable(o, Occupied(s.active), profile) {
      var d :| d in o.devices && d.uuid in Occupied(s.active) && Matches(profile, d);
      var i: nat :| i < |o.devices| && o.devices[i] == d;
      var k :| k in s.active && Uuid(s.active[k].profile) == d.uuid;
    }
    if MayBeReleased(o, s, profile) {
      var i: nat, k :| i < |o.devices| && k in s.active
        && Matches(profile, o.devices[i]) && Uuid(s.active[k].profile) == o.devices[i].uuid;
      assert o.devices[i].uuid in Occupied(s.active);
    }
  }

  lemma LaunchStarts(o: Options, s: State, p: Pending, d: Device, token: string, started: bool)
    requires ValidPending(o, p) && Matches(p.profile, d)
    ensures StartedOn(o, s, p, d, token, started, Launch(o, s, p.key, On(p.profile, d), token, started))
  {
    assert HardwareOf(On(p.profile, d).gpus) == HardwareOf(p.profile.gpus);
  }

  lemma RefuseRecords(o: Options, s: State, p: Pending)
    requires ValidPending(o, p)
    ensures Refused(o, s, p, Refuse(o, s, p))
  {
  }

  /** Below the job limit a key with a free device is started on the first one, and refused only without any. */
  lemma OfferAdmits(o: Options, s: State, p: Pending, round: Round)
    requires ValidPending(o, p)
    ensures Admitted(o, s, p, round, AdmitOne(o, s, p, round))
  {
    hide Free, Launch, Refuse, StartedOn, Refused, Awaitable, MayBeReleased, FirstIdle, Busy;
    FirstIdleIsFree(o, s, p, round);
    AwaitableMeans(o, s, p.profile);
    var r := FirstIdle(o.devices, Occupied(s.active) + s.unavailable, p.profile, IdleFor(round, p.key));
    var busy := Busy(o, round, p.key);
    if r.Some? {
      var i: nat :| i < |o.devices| && o.devices[i] == r.value && FirstFree(o, s, p.profile, busy, i);
      LaunchStarts(o, s, p, r.value, round.token(p.key), round.starts(p.key));
    } else {
      RefuseRecords(o, s, p);
    }
  }
}
