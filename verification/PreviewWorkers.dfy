/**
 * Ownership of preview processes (adapters/documentation/worker.py): request threads and closers interleave
 * in steps that each hold the lock, while the operating system lets leaders exit at any time.
 */
module PreviewWorkers {
  import opened Prelude

  type Proc = nat

  type Thread = nat

  /** Where a request stands; the process it owns, if any. */
  datatype Phase = Admitted | Working(p: Proc) | Stopping(p: Proc) | Cleaning(p: Proc) | Finishing | Done

  /** A closer works through the processes registered when it closed; `stopped` once the first one is. */
  datatype Closer = Closing(todo: seq<Proc>, stopped: bool) | Returned | Aborted

  /** The kernel's view of a group leader: after `Gone` its number may belong to someone else. */
  datatype Leader = Running | Zombie | Gone

  datatype State = State(slots: int, closed: bool, next: Proc, registered: set<Proc>, cleaned: map<Proc, nat>,
                         leader: map<Proc, Leader>, known: set<Proc>, phase: map<Thread, Phase>, closers: map<Thread,
                           Closer>,
                         owner: map<Proc, Thread>, abandoned: set<Proc>)

  const INIT := State(2, false, 0, {}, map[], map[], {}, map[], map[], map[], {})

  datatype Event =
    | Arrive(t: Thread) | Begin(t: Thread, spawns: bool) | Observe(t: Thread) | Leave(t: Thread)
    | Stop(t: Thread, ends: bool) | Clean(t: Thread) | Finish(t: Thread)
    | Exit(p: Proc)
    | Close(t: Thread) | CloseStop(t: Thread, ends: bool) | CloseClean(t: Thread) | CloseReturn(t: Thread)

  predicate Busy(s: State, t: Thread) {
    t in s.closers && s.closers[t].Closing? && s.closers[t].todo != []
  }

  predicate Enabled(s: State, e: Event) {
    match e
    case Arrive(t) => t !in s.phase
    case Begin(t, _) => t in s.phase && s.phase[t] == Admitted
    case Observe(t) => t in s.phase && s.phase[t].Working? && s.phase[t].p in s.leader
    case Leave(t) => t in s.phase && s.phase[t].Working?
    case Stop(t, _) => t in s.phase && s.phase[t].Stopping?
    case Clean(t) => t in s.phase && s.phase[t].Cleaning? && s.phase[t].p in s.cleaned
    case Finish(t) => t in s.phase && s.phase[t] == Finishing
    case Exit(p) => p in s.leader && s.leader[p] == Running
    case Close(t) => t !in s.closers
    case CloseStop(t, _) => Busy(s, t) && !s.closers[t].stopped
    case CloseClean(t) => Busy(s, t) && s.closers[t].stopped && s.closers[t].todo[0] in s.cleaned
    case CloseReturn(t) => t in s.closers && s.closers[t].Closing? && s.closers[t].todo == []
  }

  /** Reaping, together with recording the return code. */
  function Reap(s: State, p: Proc): State {
    s.(leader := s.leader[p := Gone], known := s.known + {p})
  }

  /** Remove the directory of a registered process and forget the process. */
  function Forget(s: State, p: Proc): State
    requires p in s.cleaned
  {
    if p in s.registered then s.(cleaned := s.cleaned[p := s.cleaned[p] + 1], registered := s.registered - {p}) else s
  }

  function Move(s: State, t: Thread, to: Phase): State {
    s.(phase := s.phase[t := to])
  }

  function Spawn(s: State, t: Thread): State {
    var p := s.next;
    Move(s.(next := p + 1, registered := s.registered + {p}, cleaned := s.cleaned[p := 0],
      leader := s.leader[p := Running],
            owner := s.owner[p := t]), t, Working(p))
  }

  /** The registered processes in the order they were started. */
  function Listed(procs: set<Proc>, n: nat): (r: seq<Proc>)
    ensures forall p: Proc :: p in r <==> p in procs && p < n
  {
    if n == 0 then [] else Listed(procs, n - 1) + if n - 1 in procs then [n - 1] else []
  }

  function Apply(s: State, e: Event): State
    requires Enabled(s, e)
  {
    match e
    case Arrive(t) => if s.slots > 0 then Move(s.(slots := s.slots - 1), t, Admitted) else Move(s, t, Done)
    case Begin(t, spawns) => if s.closed || !spawns then Move(s, t, Finishing) else Spawn(s, t)
    case Observe(t) =>
      var p := s.phase[t].p;
      if p in s.known then Move(s, t, Stopping(p))
      else if s.leader[p] == Zombie then Move(Reap(s, p), t, Stopping(p))
      else s
    case Leave(t) => Move(s, t, Stopping(s.phase[t].p))
    case Stop(t, ends) =>
      var p := s.phase[t].p;
      if p in s.known then Move(s, t, Cleaning(p))
      else if ends then Move(Reap(s, p), t, Cleaning(p))
      else Move(s.(abandoned := s.abandoned + {p}), t, Finishing)
    case Clean(t) => Move(Forget(s, s.phase[t].p), t, Finishing)
    case Finish(t) => Move(s.(slots := s.slots + 1), t, Done)
    case Exit(p) => s.(leader := s.leader[p := Zombie])
    case Close(t) => s.(closed := true, closers := s.closers[t := Closing(Listed(s.registered, s.next), false)])
    case CloseStop(t, ends) =>
      var todo := s.closers[t].todo;
      if todo[0] in s.known then s.(closers := s.closers[t := Closing(todo, true)])
      else if ends then Reap(s, todo[0]).(closers := s.closers[t := Closing(todo, true)])
      else s.(closers := s.closers[t := Aborted])
    case CloseClean(t) => Forget(s,
      s.closers[t].todo[0]).(closers := s.closers[t := Closing(s.closers[t].todo[1..], false)])
    case CloseReturn(t) => s.(closers := s.closers[t := Returned])
  }

  /** The process group a step sends a signal to. */
  function Signals(s: State, e: Event): Option<Proc>
    requires Enabled(s, e)
  {
    match e
    case Observe(t) => if s.phase[t].p !in s.known && s.leader[s.phase[t].p] == Zombie then Some(s.phase[t].p) else None
    case Stop(t, _) => if s.phase[t].p !in s.known then Some(s.phase[t].p) else None
    case CloseStop(t, _) => if s.closers[t].todo[0] !in s.known then Some(s.closers[t].todo[0]) else None
    case _ => None
  }

  // ----- the invariant -----

  predicate Inside(f: Phase) {
    f != Done
  }

  predicate Owns(f: Phase) {
    f.Working? || f.Stopping? || f.Cleaning?
  }

  predicate Holds(f: Phase, p: Proc) {
    Owns(f) && f.p == p
  }

  function InsideThreads(phase: map<Thread, Phase>): set<Thread> {
    set t | t in phase && Inside(phase[t])
  }

  /** Return codes are known exactly for reaped leaders, so a leader without one still owns its number. */
  ghost predicate CodesMatch(next: Proc, leader: map<Proc, Leader>, known: set<Proc>) {
    && (forall p: Proc :: p in leader <==> p < next)
    && (forall p: Proc :: p in known <==> p < next && leader[p] == Gone)
  }

  /** A directory exists exactly while its process is registered; otherwise it was removed once. */
  ghost predicate DirectoriesMatch(next: Proc, registered: set<Proc>, cleaned: map<Proc, nat>) {
    && (forall p: Proc :: p in cleaned <==> p < next) && (forall p: Proc :: p in registered ==> p < next)
    && forall p: Proc :: p < next ==> cleaned[p] == if p in registered then 0 else 1
  }

  /** Every process a request holds is its own; every registered one is held, unless its stop timed out. */
  ghost predicate Owned(next: Proc, owner: map<Proc, Thread>, phase: map<Thread, Phase>, registered: set<Proc>,
                        abandoned: set<Proc>,
                        known: set<Proc>) {
    && (forall p: Proc :: p in owner <==> p < next) && (forall p: Proc :: p in registered ==> p < next)
    && (forall t: Thread :: t in phase && Owns(phase[t]) ==> phase[t].p < next && owner[phase[t].p] == t)
    && (forall p: Proc :: p in registered && p !in abandoned ==> owner[p] in phase && Holds(phase[owner[p]], p))
    && (forall t: Thread :: t in phase && phase[t].Cleaning? ==> phase[t].p in known)
  }

  ghost predicate SlotsMatch(slots: int, phase: map<Thread, Phase>) {
    slots >= 0 && slots + |InsideThreads(phase)| == 2
  }

  /** A closer that is not done covers everything still registered; one that returned left nothing. */
  ghost predicate Covers(c: Closer, next: Proc, registered: set<Proc>, known: set<Proc>) {
    && (c.Closing? ==>
          && (forall p: Proc :: p in registered ==> p in c.todo) && (forall p: Proc :: p in c.todo ==> p < next)
          && (c.stopped ==> c.todo != [] && c.todo[0] in known))
    && (c.Returned? ==> registered == {})
  }

  ghost predicate Covered(closed: bool, next: Proc, registered: set<Proc>, known: set<Proc>, closers: map<Thread,
                          Closer>) {
    forall t: Thread :: t in closers ==> closed && Covers(closers[t], next, registered, known)
  }

  ghost predicate Inv(s: State) {
    && CodesMatch(s.next, s.leader, s.known) && DirectoriesMatch(s.next, s.registered, s.cleaned)
    && Owned(s.next, s.owner, s.phase, s.registered, s.abandoned, s.known)
    && SlotsMatch(s.slots, s.phase) && Covered(s.closed, s.next, s.registered, s.known, s.closers)
  }

  lemma InitInv()
    ensures Inv(INIT)
  {
    assert InsideThreads(map[]) == {};
  }

  // ----- what each change keeps -----

  lemma HeldIsStarted(s: State, t: Thread)
    requires Inv(s) && t in s.phase && Owns(s.phase[t])
    ensures s.phase[t].p < s.next && s.phase[t].p in s.owner && s.owner[s.phase[t].p] == t
  {
    hide CodesMatch, DirectoriesMatch, SlotsMatch, Covered;
  }

  lemma TodoIsStarted(s: State, t: Thread)
    requires Inv(s) && Busy(s, t)
    ensures s.closers[t].todo[0] < s.next && s.closed
  {
    hide CodesMatch, DirectoriesMatch, SlotsMatch, Owned;
    assert Covers(s.closers[t], s.next, s.registered, s.known);
    assert s.closers[t].todo[0] in s.closers[t].todo;
  }

  lemma CodesReap(next: Proc, leader: map<Proc, Leader>, known: set<Proc>, p: Proc)
    requires CodesMatch(next, leader, known) && p < next
    ensures CodesMatch(next, leader[p := Gone], known + {p})
  {
  }

  lemma DirectoriesForget(s: State, p: Proc)
    requires DirectoriesMatch(s.next, s.registered, s.cleaned) && p < s.next
    ensures var s2 := Forget(s, p);
            DirectoriesMatch(s2.next, s2.registered, s2.cleaned) && s2.registered == s.registered - {p}
  {
  }

  /** A request that keeps its process, or moves on without one that still needs it. */
  lemma OwnedMove(next: Proc, owner: map<Proc, Thread>, phase: map<Thread, Phase>, registered: set<Proc>,
                  abandoned: set<Proc>,
                  known: set<Proc>, t: Thread, to: Phase, registered2: set<Proc>, abandoned2: set<Proc>,
                    known2: set<Proc>)
    requires Owned(next, owner, phase, registered, abandoned, known)
    requires registered2 <= registered && abandoned <= abandoned2 && known <= known2
    requires to.Cleaning? ==> to.p in known2
    requires Owns(to) ==> t in phase && Holds(phase[t], to.p)
    requires t in phase && Owns(phase[t]) && phase[t].p in registered2 && phase[t].p !in abandoned2 ==>
        Holds(to, phase[t].p)
    ensures Owned(next, owner, phase[t := to], registered2, abandoned2, known2)
  {
  }

  lemma OwnedSpawn(s: State, t: Thread)
    requires Owned(s.next, s.owner, s.phase, s.registered, s.abandoned, s.known) && t in s.phase
        && s.phase[t] == Admitted
    ensures var s2 := Spawn(s, t); Owned(s2.next, s2.owner, s2.phase, s2.registered, s2.abandoned, s2.known)
  {
  }

  /** Fewer registered processes and more known codes keep every owner. */
  lemma OwnedShrinks(s: State, s2: State)
    requires Owned(s.next, s.owner, s.phase, s.registered, s.abandoned, s.known)
    requires s2.next == s.next && s2.owner == s.owner && s2.phase == s.phase && s2.abandoned == s.abandoned
    requires s2.registered <= s.registered && s.known <= s2.known
    ensures Owned(s2.next, s2.owner, s2.phase, s2.registered, s2.abandoned, s2.known)
  {
  }

  lemma InsideMoves(phase: map<Thread, Phase>, t: Thread, to: Phase)
    ensures InsideThreads(phase[t := to])
        == (if Inside(to) then InsideThreads(phase) + {t} else InsideThreads(phase) - {t})
    ensures t in InsideThreads(phase) <==> t in phase && Inside(phase[t])
  {
  }

  /** A thread that stays inside or outside leaves the slots alone; entering takes one and leaving returns it. */
  lemma SlotsMove(slots: int, phase: map<Thread, Phase>, t: Thread, to: Phase)
    requires SlotsMatch(slots, phase)
    ensures var was := t in phase && Inside(phase[t]);
            && (was == Inside(to) ==> SlotsMatch(slots, phase[t := to]))
            && (was && !Inside(to) ==> SlotsMatch(slots + 1, phase[t := to]))
            && (!was && Inside(to) && slots > 0 ==> SlotsMatch(slots - 1, phase[t := to]))
  {
    hide InsideThreads;
    InsideMoves(phase, t, to);
  }

  /** Fewer registered processes and more known codes keep every closer covered. */
  lemma CoveredShrinks(closed: bool, next: Proc, registered: set<Proc>, known: set<Proc>, closers: map<Thread, Closer>,
                       registered2: set<Proc>, known2: set<Proc>)
    requires Covered(closed, next, registered, known, closers) && registered2 <= registered && known <= known2
    ensures Covered(closed, next, registered2, known2, closers)
  {
  }

  lemma CoveredOpen(s: State, s2: State)
    requires Covered(s.closed, s.next, s.registered, s.known, s.closers) && !s.closed && s2.closers == s.closers
        && s2.closed == s.closed
    ensures Covered(s2.closed, s2.next, s2.registered, s2.known, s2.closers)
  {
  }

  lemma CoveredUpdate(closed: bool, next: Proc, registered: set<Proc>, known: set<Proc>, closers: map<Thread, Closer>,
                      t: Thread, c: Closer,
                      before: bool)
    requires Covered(before, next, registered, known, closers) && closed && Covers(c, next, registered, known)
    ensures Covered(closed, next, registered, known, closers[t := c])
  {
  }

  // ----- every step keeps the invariant -----

  /** A request thread moves; nothing else changes but slots, abandoned processes and reaped or forgotten ones. */
  lemma RequestKeeps(s: State, s2: State, t: Thread, to: Phase)
    requires Inv(s) && s2 == s.(phase := s.phase[t := to], slots := s2.slots, leader := s2.leader, known := s2.known,
                                registered := s2.registered, cleaned := s2.cleaned, abandoned := s2.abandoned)
    requires CodesMatch(s.next, s2.leader, s2.known) && DirectoriesMatch(s.next, s2.registered, s2.cleaned)
    requires SlotsMatch(s2.slots, s2.phase)
    requires s2.registered <= s.registered && s.abandoned <= s2.abandoned && s.known <= s2.known
    requires to.Cleaning? ==> to.p in s2.known
    requires Owns(to) ==> t in s.phase && Holds(s.phase[t], to.p)
    requires t in s.phase && Owns(s.phase[t]) && s.phase[t].p in s2.registered && s.phase[t].p !in s2.abandoned ==>
        Holds(to, s.phase[t].p)
    ensures Inv(s2)
  {
    hide CodesMatch, DirectoriesMatch, SlotsMatch, Owned, Covered;
    OwnedMove(s.next, s.owner, s.phase, s.registered, s.abandoned, s.known, t, to, s2.registered, s2.abandoned,
      s2.known);
    CoveredShrinks(s.closed, s.next, s.registered, s.known, s.closers, s2.registered, s2.known);
  }

  lemma ArriveKeeps(s: State, t: Thread)
    requires Inv(s) && Enabled(s, Arrive(t))
    ensures Inv(Apply(s, Arrive(t)))
  {
    hide CodesMatch, DirectoriesMatch, SlotsMatch, Owned, Covered;
    var to := if s.slots > 0 then Admitted else Done;
    SlotsMove(s.slots, s.phase, t, to);
    RequestKeeps(s, Apply(s, Arrive(t)), t, to);
  }

  lemma BeginKeeps(s: State, t: Thread, spawns: bool)
    requires Inv(s) && Enabled(s, Begin(t, spawns))
    ensures Inv(Apply(s, Begin(t, spawns)))
  {
    hide CodesMatch, DirectoriesMatch, SlotsMatch, Owned, Covered;
    var s2 := Apply(s, Begin(t, spawns));
    SlotsMove(s.slots, s.phase, t, s2.phase[t]);
    if s.closed || !spawns {
      RequestKeeps(s, s2, t, Finishing);
    } else {
      OwnedSpawn(s, t);
      SpawnKeeps(s, t);
      CoveredOpen(s, s2);
    }
  }

  lemma SpawnKeeps(s: State, t: Thread)
    requires CodesMatch(s.next, s.leader, s.known) && DirectoriesMatch(s.next, s.registered, s.cleaned)
    ensures var s2 := Spawn(s, t);
            CodesMatch(s2.next, s2.leader, s2.known) && DirectoriesMatch(s2.next, s2.registered, s2.cleaned)
  {
  }

  lemma ObserveKeeps(s: State, t: Thread)
    requires Inv(s) && Enabled(s, Observe(t))
    ensures Inv(Apply(s, Observe(t)))
  {
    hide CodesMatch, DirectoriesMatch, SlotsMatch, Owned, Covered;
    var p := s.phase[t].p;
    HeldIsStarted(s, t);
    CodesReap(s.next, s.leader, s.known, p);
    SlotsMove(s.slots, s.phase, t, Stopping(p));
    if p in s.known || s.leader[p] == Zombie { RequestKeeps(s, Apply(s, Observe(t)), t, Stopping(p)); }
  }

  lemma LeaveKeeps(s: State, t: Thread)
    requires Inv(s) && Enabled(s, Leave(t))
    ensures Inv(Apply(s, Leave(t)))
  {
    hide CodesMatch, DirectoriesMatch, SlotsMatch, Owned, Covered;
    SlotsMove(s.slots, s.phase, t, Stopping(s.phase[t].p));
    RequestKeeps(s, Apply(s, Leave(t)), t, Stopping(s.phase[t].p));
  }

  lemma StopKeeps(s: State, t: Thread, ends: bool)
    requires Inv(s) && Enabled(s, Stop(t, ends))
    ensures Inv(Apply(s, Stop(t, ends)))
  {
    hide CodesMatch, DirectoriesMatch, SlotsMatch, Owned, Covered;
    var p := s.phase[t].p;
    HeldIsStarted(s, t);
    CodesReap(s.next, s.leader, s.known, p);
    var to := if p in s.known || ends then Cleaning(p) else Finishing;
    SlotsMove(s.slots, s.phase, t, to);
    RequestKeeps(s, Apply(s, Stop(t, ends)), t, to);
  }

  lemma CleanKeeps(s: State, t: Thread)
    requires Inv(s) && Enabled(s, Clean(t))
    ensures Inv(Apply(s, Clean(t)))
  {
    hide CodesMatch, DirectoriesMatch, SlotsMatch, Owned, Covered;
    HeldIsStarted(s, t);
    DirectoriesForget(s, s.phase[t].p);
    SlotsMove(s.slots, s.phase, t, Finishing);
    RequestKeeps(s, Apply(s, Clean(t)), t, Finishing);
  }

  lemma FinishKeeps(s: State, t: Thread)
    requires Inv(s) && Enabled(s, Finish(t))
    ensures Inv(Apply(s, Finish(t)))
  {
    hide CodesMatch, DirectoriesMatch, SlotsMatch, Owned, Covered;
    SlotsMove(s.slots, s.phase, t, Done);
    RequestKeeps(s, Apply(s, Finish(t)), t, Done);
  }

  lemma ExitKeeps(s: State, p: Proc)
    requires Inv(s) && Enabled(s, Exit(p))
    ensures Inv(Apply(s, Exit(p)))
  {
    hide DirectoriesMatch, SlotsMatch, Owned, Covered;
  }

  /** A closer moves; at most a process is reaped or forgotten. */
  lemma CloserKeeps(s: State, s2: State, t: Thread, c: Closer)
    requires Inv(s) && s2 == s.(closers := s.closers[t := c], closed := s2.closed, leader := s2.leader,
        known := s2.known,
                                registered := s2.registered, cleaned := s2.cleaned)
    requires CodesMatch(s.next, s2.leader, s2.known) && DirectoriesMatch(s.next, s2.registered, s2.cleaned)
    requires s2.registered <= s.registered && s.known <= s2.known && s2.closed
        && Covers(c, s.next, s2.registered, s2.known)
    ensures Inv(s2)
  {
    hide CodesMatch, DirectoriesMatch, SlotsMatch, Owned, Covered, Covers;
    OwnedShrinks(s, s2);
    CoveredShrinks(s.closed, s.next, s.registered, s.known, s.closers, s2.registered, s2.known);
    CoveredUpdate(s2.closed, s.next, s2.registered, s2.known, s.closers, t, c, s.closed);
  }

  lemma CloseKeeps(s: State, t: Thread)
    requires Inv(s) && Enabled(s, Close(t))
    ensures Inv(Apply(s, Close(t)))
  {
    hide CodesMatch, SlotsMatch, Owned, Covered;
    CloserKeeps(s, Apply(s, Close(t)), t, Closing(Listed(s.registered, s.next), false));
  }

  lemma CloserCovers(s: State, t: Thread)
    requires Inv(s) && t in s.closers
    ensures s.closed && Covers(s.closers[t], s.next, s.registered, s.known)
  {
  }

  lemma CloseStopKeeps(s: State, t: Thread, ends: bool)
    requires Inv(s) && Enabled(s, CloseStop(t, ends))
    ensures Inv(Apply(s, CloseStop(t, ends)))
  {
    hide CodesMatch, DirectoriesMatch, SlotsMatch, Owned, Covered;
    CloserCovers(s, t);
    TodoIsStarted(s, t);
    var todo := s.closers[t].todo;
    CodesReap(s.next, s.leader, s.known, todo[0]);
    CloserKeeps(s, Apply(s, CloseStop(t, ends)), t, if todo[0] in s.known || ends then Closing(todo, true)
      else Aborted);
  }

  lemma Rest(todo: seq<Proc>)
    requires todo != []
    ensures forall p: Proc :: p in todo && p != todo[0] ==> p in todo[1..]
    ensures forall p: Proc :: p in todo[1..] ==> p in todo
  {
    assert todo == [todo[0]] + todo[1..];
  }

  lemma CloseCleanKeeps(s: State, t: Thread)
    requires Inv(s) && Enabled(s, CloseClean(t))
    ensures Inv(Apply(s, CloseClean(t)))
  {
    hide CodesMatch, DirectoriesMatch, SlotsMatch, Owned, Covered;
    CloserCovers(s, t);
    TodoIsStarted(s, t);
    DirectoriesForget(s, s.closers[t].todo[0]);
    Rest(s.closers[t].todo);
    CloserKeeps(s, Apply(s, CloseClean(t)), t, Closing(s.closers[t].todo[1..], false));
  }

  lemma CloseReturnKeeps(s: State, t: Thread)
    requires Inv(s) && Enabled(s, CloseReturn(t))
    ensures Inv(Apply(s, CloseReturn(t)))
  {
    hide CodesMatch, DirectoriesMatch, SlotsMatch, Owned, Covered;
    CloserCovers(s, t);
    CloserKeeps(s, Apply(s, CloseReturn(t)), t, Returned);
  }

  lemma StepKeeps(s: State, e: Event)
    requires Inv(s) && Enabled(s, e)
    ensures Inv(Apply(s, e))
  {
    hide Inv, Apply, Enabled;
    match e
    case Arrive(t) => ArriveKeeps(s, t);
    case Begin(t, spawns) => BeginKeeps(s, t, spawns);
    case Observe(t) => ObserveKeeps(s, t);
    case Leave(t) => LeaveKeeps(s, t);
    case Stop(t, ends) => StopKeeps(s, t, ends);
    case Clean(t) => CleanKeeps(s, t);
    case Finish(t) => FinishKeeps(s, t);
    case Exit(p) => ExitKeeps(s, p);
    case Close(t) => CloseKeeps(s, t);
    case CloseStop(t, ends) => CloseStopKeeps(s, t, ends);
    case CloseClean(t) => CloseCleanKeeps(s, t);
    case CloseReturn(t) => CloseReturnKeeps(s, t);
  }

  // ----- runs -----

  /** The state after some steps, if each was possible. */
  function Run(s: State, events: seq<Event>): Option<State> {
    if events == [] then Some(s)
    else
      var before := Run(s, events[..|events| - 1]);
      if before.Some? && Enabled(before.value,
        events[|events| - 1]) then Some(Apply(before.value, events[|events| - 1])) else None
  }

  ghost predicate Runs(s: State, events: seq<Event>, s2: State) {
    Run(s, events) == Some(s2)
  }

  /** Reachable from a fresh object by some interleaving. */
  ghost predicate Reachable(s: State) {
    exists events :: Runs(INIT, events, s)
  }

  lemma {:induction false} RunsKeep(s: State, events: seq<Event>, s2: State)
    requires Inv(s) && Runs(s, events, s2)
    ensures Inv(s2)
  {
    hide Inv, Apply, Enabled;
    if events != [] {
      var last := events[|events| - 1];
      var m := Run(s, events[..|events| - 1]).value;
      RunsKeep(s, events[..|events| - 1], m);
      StepKeeps(m, last);
    }
  }

  lemma ReachableInv(s: State)
    requires Reachable(s)
    ensures Inv(s)
  {
    hide Inv;
    var events :| Runs(INIT, events, s);
    InitInv();
    RunsKeep(INIT, events, s);
  }

  /** A process group is signalled only while its leader is unreaped, so its number cannot have been reused. */
  lemma SignalsOnlyUnreaped(s: State, e: Event)
    requires Reachable(s) && Enabled(s, e) && Signals(s, e).Some?
    ensures Signals(s, e).value in s.leader && s.leader[Signals(s, e).value] != Gone
  {
    hide DirectoriesMatch, SlotsMatch, Owned, Covered;
    ReachableInv(s);
    if e.CloseStop? { TodoIsStarted(s, e.t); } else { HeldIsStarted(s, e.t); }
  }

  /** No directory is ever removed twice, and only a forgotten process has lost its own. */
  lemma DirectoriesRemovedOnce(s: State, p: Proc)
    requires Reachable(s) && p < s.next
    ensures p in s.cleaned && s.cleaned[p] == if p in s.registered then 0 else 1
  {
    hide CodesMatch, SlotsMatch, Owned, Covered;
    ReachableInv(s);
  }

  lemma SpawnDirectories(s: State)
    ensures forall t: Thread :: Spawn(s, t).cleaned == s.cleaned[s.next := 0]
  {
  }

  lemma OnlyCleaning(s: State, e: Event, p: Proc)
    requires Enabled(s, e) && !e.Clean? && !e.CloseClean? && p in s.cleaned && p in Apply(s, e).cleaned
    ensures Apply(s, e).cleaned[p] <= s.cleaned[p]
  {
    hide Listed, Spawn;
    SpawnDirectories(s);
    match e {
      case Arrive(t) =>
      case Begin(t, _) =>
      case Observe(t) =>
      case Leave(t) =>
      case Stop(t, _) =>
      case Finish(t) =>
      case Exit(p) =>
      case Close(t) =>
      case CloseStop(t, _) =>
      case CloseReturn(t) =>
      case _ =>
    }
  }

  ghost predicate SignalledReap(s: State, e: Event, p: Proc)
    requires Enabled(s, e)
  {
    p in Apply(s, e).known && p !in s.known ==>
      Signals(s, e) == Some(p) && p in Apply(s, e).leader && Apply(s, e).leader[p] == Gone
  }

  lemma ObserveSignals(s: State, t: Thread, p: Proc)
    requires Enabled(s, Observe(t))
    ensures SignalledReap(s, Observe(t), p)
  {
  }

  lemma StopSignals(s: State, t: Thread, ends: bool, p: Proc)
    requires Enabled(s, Stop(t, ends))
    ensures SignalledReap(s, Stop(t, ends), p)
  {
  }

  lemma CloseSignals(s: State, t: Thread, ends: bool, p: Proc)
    requires Enabled(s, CloseStop(t, ends))
    ensures SignalledReap(s, CloseStop(t, ends), p)
  {
  }

  /** No leader is reaped without a signal to its group in the same step, so none of its children outlives it. */
  lemma ReapedIsSignalled(s: State, e: Event, p: Proc)
    requires Enabled(s, e) && p !in s.known && p in Apply(s, e).known
    ensures Signals(s, e) == Some(p) && p in Apply(s, e).leader && Apply(s, e).leader[p] == Gone
  {
    hide Apply, Signals, Enabled;
    match e
    case Observe(t) => ObserveSignals(s, t, p);
    case Stop(t, ends) => StopSignals(s, t, ends, p);
    case CloseStop(t, ends) => CloseSignals(s, t, ends, p);
    case _ => NothingReaped(s, e);
  }

  lemma NothingReaped(s: State, e: Event)
    requires Enabled(s, e) && !e.Observe? && !e.Stop? && !e.CloseStop?
    ensures Apply(s, e).known == s.known
  {
    hide Listed, Busy;
  }

  /** A directory is removed only after its leader was reaped. */
  lemma RemovedAfterReaping(s: State, e: Event, p: Proc)
    requires Reachable(s) && Enabled(s, e) && p in s.cleaned && p in Apply(s, e).cleaned
        && s.cleaned[p] < Apply(s, e).cleaned[p]
    ensures p in s.leader && s.leader[p] == Gone
  {
    hide SlotsMatch, DirectoriesMatch;
    ReachableInv(s);
    if e.CloseClean? {
      CloserCovers(s, e.t);
    } else if e.Clean? {
      HeldIsStarted(s, e.t);
    } else {
      OnlyCleaning(s, e, p);
    }
  }

  // ----- how many workers -----

  function HeldBy(phase: map<Thread, Phase>, threads: set<Thread>): set<Proc>
    requires threads <= phase.Keys
  {
    set t | t in threads && Owns(phase[t]) :: phase[t].p
  }

  function InsideOf(phase: map<Thread, Phase>, threads: set<Thread>): set<Thread>
    requires threads <= phase.Keys
  {
    set t | t in threads && Inside(phase[t])
  }

  /** No more processes are held than threads are inside. */
  lemma {:induction false} HeldAtMost(phase: map<Thread, Phase>, threads: set<Thread>)
    requires threads <= phase.Keys
    ensures |HeldBy(phase, threads)| <= |InsideOf(phase, threads)|
    decreases |threads|
  {
    if threads == {} {
      assert HeldBy(phase, threads) == {};
    } else {
      var t :| t in threads;
      var rest := threads - {t};
      HeldAtMost(phase, rest);
      if Owns(phase[t]) {
        assert HeldBy(phase, threads) == HeldBy(phase, rest) + {phase[t].p};
        assert InsideOf(phase, threads) == InsideOf(phase, rest) + {t};
      } else {
        assert HeldBy(phase, threads) == HeldBy(phase, rest);
        assert InsideOf(phase, rest) <= InsideOf(phase, threads);
        SubsetSize(InsideOf(phase, rest), InsideOf(phase, threads));
      }
    }
  }

  /** At most two workers are registered, plus one for each stop that timed out. */
  lemma AtMostTwoAndTimeouts(s: State)
    requires Reachable(s)
    ensures |s.registered| <= 2 + |s.abandoned|
  {
    hide CodesMatch, DirectoriesMatch, Covered;
    ReachableInv(s);
    var held := HeldBy(s.phase, s.phase.Keys);
    HeldAtMost(s.phase, s.phase.Keys);
    assert InsideOf(s.phase, s.phase.Keys) == InsideThreads(s.phase);
    forall p | p in s.registered && p !in s.abandoned ensures p in held {
      assert Holds(s.phase[s.owner[p]], p);
    }
    assert s.registered <= held + s.abandoned;
    SubsetSize(s.registered, held + s.abandoned);
  }

  /** No stop of a request times out. */
  ghost predicate Calm(events: seq<Event>) {
    forall k :: 0 <= k < |events| ==> events[k].Stop? ==> events[k].ends
  }

  /** Only a timed-out stop abandons a process. */
  lemma {:induction false} CalmAbandonsNone(s: State, events: seq<Event>, s2: State)
    requires Runs(s, events, s2) && Calm(events)
    ensures s2.abandoned == s.abandoned
  {
    hide Enabled, Listed;
    if events != [] {
      var last := events[|events| - 1];
      var m := Run(s, events[..|events| - 1]).value;
      CalmAbandonsNone(s, events[..|events| - 1], m);
      AbandonOnly(m, last);
    }
  }

  lemma AbandonOnly(s: State, e: Event)
    requires Enabled(s, e) && (e.Stop? ==> e.ends)
    ensures Apply(s, e).abandoned == s.abandoned
  {
    hide Listed;
    match e {
      case Arrive(t) =>
      case Begin(t, _) =>
      case Observe(t) =>
      case Leave(t) =>
      case Stop(t, _) =>
      case Clean(t) =>
      case Finish(t) =>
      case Exit(p) =>
      case Close(t) =>
      case CloseStop(t, _) =>
      case CloseClean(t) =>
      case CloseReturn(t) =>
    }
  }

  /** From then on, without further timeouts, at most two more than those already abandoned are registered. */
  lemma AtMostTwoMore(s: State, events: seq<Event>, later: State)
    requires Reachable(s) && Runs(s, events, later) && Calm(events)
    ensures |later.registered| <= 2 + |s.abandoned|
  {
    hide Runs;
    ReachRun(s, events, later);
    CalmAbandonsNone(s, events, later);
    AtMostTwoAndTimeouts(later);
  }

  lemma AtMostTwo(events: seq<Event>, s: State)
    requires Runs(INIT, events, s) && Calm(events)
    ensures |s.registered| <= 2
  {
    hide Runs;
    ReachInit();
    AtMostTwoMore(INIT, events, s);
  }

  lemma {:induction false} ReachRun(s: State, events: seq<Event>, later: State)
    requires Reachable(s) && Runs(s, events, later)
    ensures Reachable(later)
  {
    hide Apply, Enabled, Reachable;
    if events != [] {
      var m := Run(s, events[..|events| - 1]).value;
      ReachRun(s, events[..|events| - 1], m);
      ReachStep(m, events[|events| - 1]);
    }
  }

  lemma ReachStep(s: State, e: Event)
    requires Reachable(s) && Enabled(s, e)
    ensures Reachable(Apply(s, e))
  {
    hide Apply, Enabled;
    var events :| Runs(INIT, events, s);
    assert (events + [e])[..|events|] == events;
    assert Runs(INIT, events + [e], Apply(s, e));
  }

  lemma ReachInit()
    ensures Reachable(INIT)
  {
    assert Runs(INIT, [], INIT);
  }

  // ----- the bound is attained -----

  /** While open, what is held or was abandoned is still registered, and nothing is both. */
  ghost predicate Listing(s: State) {
    !s.closed ==>
      && s.abandoned <= s.registered
      && forall t: Thread :: t in s.phase && Owns(s.phase[t]) ==>
        s.phase[t].p in s.registered && s.phase[t].p !in s.abandoned
  }

  lemma ListingBegin(s: State, t: Thread, spawns: bool)
    requires Inv(s) && Listing(s) && Enabled(s, Begin(t, spawns))
    ensures Listing(Apply(s, Begin(t, spawns)))
  {
    hide CodesMatch, SlotsMatch, Covered;
  }

  lemma ListingStop(s: State, t: Thread, ends: bool)
    requires Inv(s) && Listing(s) && Enabled(s, Stop(t, ends))
    ensures Listing(Apply(s, Stop(t, ends)))
  {
    hide CodesMatch, SlotsMatch, Covered, DirectoriesMatch;
  }

  lemma ListingClean(s: State, t: Thread)
    requires Inv(s) && Listing(s) && Enabled(s, Clean(t))
    ensures Listing(Apply(s, Clean(t)))
  {
    hide CodesMatch, SlotsMatch, Covered, DirectoriesMatch;
  }

  /** A request that keeps its process or holds none any more. */
  lemma ListingMove(s: State, s2: State, t: Thread, to: Phase)
    requires Listing(s) && s2.phase == s.phase[t := to] && (Owns(to) ==> t in s.phase && Holds(s.phase[t], to.p))
    requires s2.registered == s.registered && s2.abandoned == s.abandoned && s2.closed == s.closed
    ensures Listing(s2)
  {
  }

  lemma ListingStep(s: State, e: Event)
    requires Inv(s) && Listing(s) && Enabled(s, e)
    ensures Listing(Apply(s, e))
  {
    hide CodesMatch, SlotsMatch, DirectoriesMatch, Owned, Listing, Listed, Forget, Spawn, Covers;
    match e {
      case Arrive(t) => ListingMove(s, Apply(s, e), t, if s.slots > 0 then Admitted else Done);
      case Begin(t, spawns) => ListingBegin(s, t, spawns);
      case Observe(t) => if Apply(s, e) != s { ListingMove(s, Apply(s, e), t, Stopping(s.phase[t].p)); }
      case Leave(t) => ListingMove(s, Apply(s, e), t, Stopping(s.phase[t].p));
      case Stop(t, ends) => ListingStop(s, t, ends);
      case Clean(t) => ListingClean(s, t);
      case Finish(t) => ListingMove(s, Apply(s, e), t, Done);
      case Exit(p) => ListingSame(s, Apply(s, e));
      case _ => ListingClosed(s, e);
    }
  }

  lemma ListingSame(s: State, s2: State)
    requires Listing(s) && s2.phase == s.phase && s2.registered == s.registered && s2.abandoned == s.abandoned
        && s2.closed == s.closed
    ensures Listing(s2)
  {
  }

  /** A closer exists only after closing, and closing ends the claim. */
  lemma ListingClosed(s: State, e: Event)
    requires Inv(s) && Enabled(s, e) && (e.Close? || e.CloseStop? || e.CloseClean? || e.CloseReturn?)
    ensures Listing(Apply(s, e))
  {
    hide CodesMatch, SlotsMatch, DirectoriesMatch, Owned, Listed, Covers;
  }

  lemma {:induction false} ReachableListing(events: seq<Event>, s: State)
    requires Runs(INIT, events, s)
    ensures Listing(s)
  {
    hide Apply, Enabled, Inv, Listing;
    if events == [] {
      InitListing();
    } else {
      var m := Run(INIT, events[..|events| - 1]).value;
      ReachableListing(events[..|events| - 1], m);
      InitInv();
      RunsKeep(INIT, events[..|events| - 1], m);
      ListingStep(m, events[|events| - 1]);
    }
  }

  lemma InitListing()
    ensures Listing(INIT)
  {
  }

  /** Reached without a further timed-out stop. */
  ghost predicate Calmly(s: State, later: State) {
    exists events :: Calm(events) && Runs(s, events, later)
  }

  lemma CalmHere(s: State)
    ensures Calmly(s, s)
  {
    assert Calm([]) && Runs(s, [], s);
  }

  lemma CalmStep(s: State, m: State, e: Event)
    requires Calmly(s, m) && Reachable(m) && Enabled(m, e) && (e.Stop? ==> e.ends)
    ensures Calmly(s, Apply(m, e)) && Reachable(Apply(m, e))
  {
    hide Apply, Enabled, Reachable;
    var events :| Calm(events) && Runs(s, events, m);
    assert (events + [e])[..|events|] == events;
    assert Calm(events + [e]) && Runs(s, events + [e], Apply(m, e));
    ReachStep(m, e);
  }

  function Rank(f: Phase): nat {
    match f
    case Working(_) => 4
    case Stopping(_) => 3
    case Cleaning(_) => 2
    case Admitted => 2
    case Finishing => 1
    case Done => 0
  }

  /** The step that brings a request nearer to its end. */
  function Onward(f: Phase, t: Thread): Event
    requires f != Done
  {
    match f
    case Admitted => Begin(t, false)
    case Working(_) => Leave(t)
    case Stopping(_) => Stop(t, true)
    case Cleaning(_) => Clean(t)
    case Finishing => Finish(t)
  }

  lemma OnwardStep(s: State, t: Thread)
    requires Inv(s) && t in s.phase && s.phase[t] != Done
    ensures var e := Onward(s.phase[t], t);
            && Enabled(s, e) && (e.Stop? ==> e.ends) && t in Apply(s, e).phase
            && Rank(Apply(s, e).phase[t]) < Rank(s.phase[t])
            && Apply(s, e).phase == s.phase[t := Apply(s, e).phase[t]] && Apply(s, e).closed == s.closed
  {
    hide CodesMatch, SlotsMatch, Covered;
  }

  /** One request runs to its end. */
  lemma {:induction false} Drain(start: State, s: State, t: Thread) returns (s2: State)
    requires Calmly(start, s) && Reachable(s) && t in s.phase
    ensures Calmly(start, s2) && Reachable(s2) && s2.phase == s.phase[t := Done] && s2.closed == s.closed
    decreases Rank(s.phase[t])
  {
    hide Inv, Reachable, Calmly, Apply, Enabled, Onward, Rank;
    s2 := s;
    if s.phase[t] == Done {
      assert s.phase == s.phase[t := Done];
    } else {
      ReachableInv(s);
      OnwardStep(s, t);
      CalmStep(start, s, Onward(s.phase[t], t));
      s2 := Drain(start, Apply(s, Onward(s.phase[t], t)), t);
    }
  }

  /** All requests run to their ends. */
  lemma {:induction false} DrainAll(start: State, s: State) returns (s2: State)
    requires Calmly(start, s) && Reachable(s)
    ensures Calmly(start, s2) && Reachable(s2) && s2.closed == s.closed && InsideThreads(s2.phase) == {}
    ensures s2.phase.Keys == s.phase.Keys
    decreases |InsideThreads(s.phase)|
  {
    hide Reachable, Calmly;
    s2 := s;
    if t :| t in InsideThreads(s.phase) {
      s2 := Drain(start, s, t);
      InsideMoves(s.phase, t, Done);
      s2 := DrainAll(start, s2);
    }
  }

  /** With no request inside, what is registered is what was abandoned. */
  lemma QuietLists(s: State)
    requires Reachable(s) && !s.closed && InsideThreads(s.phase) == {}
    ensures s.registered == s.abandoned && s.slots == 2
  {
    hide CodesMatch, DirectoriesMatch, Covered;
    var events :| Runs(INIT, events, s);
    ReachableListing(events, s);
    ReachableInv(s);
    forall t | t in s.phase ensures !Owns(s.phase[t]) {
      assert t !in InsideThreads(s.phase);
    }
  }

  /** Admitting and starting one more worker. */
  lemma OneMore(start: State, s: State, t: Thread) returns (s2: State)
    requires Calmly(start, s) && Reachable(s) && t !in s.phase && s.slots > 0 && !s.closed
    ensures Calmly(start, s2) && Reachable(s2) && s2.registered == s.registered + {s.next} && s2.slots == s.slots - 1
        && !s2.closed
    ensures s2.next == s.next + 1 && s2.phase.Keys == s.phase.Keys + {t}
  {
    hide Reachable, Calmly;
    CalmStep(start, s, Arrive(t));
    s2 := Apply(s, Arrive(t));
    CalmStep(start, s2, Begin(t, true));
    s2 := Apply(s2, Begin(t, true));
  }

  /** A thread that has not asked for anything yet. */
  lemma NewThread(known: set<Thread>) returns (t: Thread)
    ensures t !in known
  {
    t := 0;
    var rest := known;
    while t in known
      invariant forall u: Thread :: u in known && u >= t ==> u in rest
      decreases rest
    {
      assert t in rest;
      rest := rest - {t};
      t := t + 1;
    }
  }

  /**
   * The bound is exact from every open state: without further timeouts the registered workers can reach two more
   * than were abandoned so far, because each timed-out stop gave its slot back.
   */
  lemma TwoMoreReached(s: State) returns (later: State)
    requires Reachable(s) && !s.closed
    ensures Calmly(s, later) && |later.registered| == 2 + |s.abandoned|
  {
    hide Reachable, Calmly;
    CalmHere(s);
    var quiet := DrainAll(s, s);
    QuietLists(quiet);
    CalmKeeps(s, quiet);
    RegisteredStarted(quiet);
    var t := NewThread(quiet.phase.Keys);
    later := OneMore(s, quiet, t);
    var u := NewThread(later.phase.Keys);
    later := OneMore(s, later, u);
    assert later.registered == s.abandoned + {quiet.next, quiet.next + 1};
    assert quiet.next !in s.abandoned && quiet.next + 1 !in s.abandoned;
    assert |s.abandoned + {quiet.next, quiet.next + 1}| == |s.abandoned| + |{quiet.next, quiet.next + 1}|;
  }

  lemma CalmKeeps(s: State, later: State)
    requires Calmly(s, later)
    ensures later.abandoned == s.abandoned
  {
    var events :| Calm(events) && Runs(s, events, later);
    CalmAbandonsNone(s, events, later);
  }

  lemma RegisteredStarted(s: State)
    requires Reachable(s)
    ensures forall p: Proc :: p in s.registered ==> p < s.next
  {
    hide CodesMatch, SlotsMatch, Covered;
    ReachableInv(s);
  }

  /** A third worker can be registered, without any further timeout, exactly when some stop has timed out before. */
  lemma ThirdWorkerIsExact(s: State)
    requires Reachable(s) && !s.closed
    ensures (exists later :: Calmly(s, later) && |later.registered| > 2) <==> s.abandoned != {}
  {
    hide Reachable, Runs, Calm;
    var most := TwoMoreReached(s);
    forall later | Calmly(s, later) ensures |later.registered| <= 2 + |s.abandoned| {
      var events :| Calm(events) && Runs(s, events, later);
      AtMostTwoMore(s, events, later);
    }
  }

  /** A request whose worker could not be reaped in time leaves such a state behind. */
  lemma TimedOutRequest() returns (s: State)
    ensures Reachable(s) && !s.closed && s.abandoned == {0}
  {
    hide Reachable;
    ReachInit();
    s := INIT;
    ReachStep(s, Arrive(0));
    s := Apply(s, Arrive(0));
    ReachStep(s, Begin(0, true));
    s := Apply(s, Begin(0, true));
    ReachStep(s, Leave(0));
    s := Apply(s, Leave(0));
    ReachStep(s, Stop(0, false));
    s := Apply(s, Stop(0, false));
  }

  /** So three workers can be registered at once. */
  lemma ThirdWorker()
    ensures exists s :: Reachable(s) && |s.registered| == 3
  {
    hide Reachable, Calm, Runs;
    var s := TimedOutRequest();
    var later := TwoMoreReached(s);
    var events :| Calm(events) && Runs(s, events, later);
    ReachRun(s, events, later);
  }

  // ----- closing -----

  lemma {:induction false} ClosedStays(s: State, events: seq<Event>, s2: State)
    requires Runs(s, events, s2) && s.closed
    ensures s2.closed && s2.registered <= s.registered && s2.next == s.next
  {
    hide Enabled, Listed;
    if events != [] {
      var m := Run(s, events[..|events| - 1]).value;
      ClosedStays(s, events[..|events| - 1], m);
      ClosedStep(m, events[|events| - 1]);
    }
  }

  lemma ClosedStep(s: State, e: Event)
    requires Enabled(s, e) && s.closed
    ensures Apply(s, e).closed && Apply(s, e).registered <= s.registered && Apply(s, e).next == s.next
  {
    hide Listed;
    match e {
      case Arrive(t) =>
      case Begin(t, _) =>
      case Observe(t) =>
      case Leave(t) =>
      case Stop(t, _) =>
      case Clean(t) =>
      case Finish(t) =>
      case Exit(p) =>
      case Close(t) =>
      case CloseStop(t, _) =>
      case CloseClean(t) =>
      case CloseReturn(t) =>
    }
  }

  /** Once a close has returned, nothing is registered, nothing starts any more, and every directory is gone. */
  lemma CloseIsFinal(s: State, t: Thread, events: seq<Event>, later: State)
    requires Reachable(s) && t in s.closers && s.closers[t].Returned? && Runs(s, events, later)
    ensures later.registered == {} && later.next == s.next
    ensures forall p: Proc :: p < later.next ==> p in later.cleaned && later.cleaned[p] == 1
  {
    hide CodesMatch, SlotsMatch, Owned, Runs;
    ReachableInv(s);
    CloserCovers(s, t);
    ClosedStays(s, events, later);
    RunsKeep(s, events, later);
  }

  /** When every request is done and none was abandoned, nothing is left behind. */
  lemma QuietMeansClean(s: State)
    requires Reachable(s) && s.abandoned == {} && forall t :: t in s.phase ==> s.phase[t] == Done
    ensures s.registered == {} && s.slots == 2
    ensures forall p: Proc :: p < s.next ==> p in s.cleaned && s.cleaned[p] == 1
  {
    hide CodesMatch, Covered;
    ReachableInv(s);
    assert InsideThreads(s.phase) == {};
  }
}
