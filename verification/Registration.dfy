/**
 Namespace registration: the per-name build lock, the slow build, and the registry.
 */
module Registration {
  type Name = string
  type Pid = nat
  type Lock = nat
  type Entry = nat

  datatype Phase =
    | Start
    | Waiting(lock: Lock)
    | Holding(lock: Lock)
    | Building(lock: Lock)
    | Built(lock: Lock, entry: Entry)
    | Finished

  datatype Request = Request(name: Name, phase: Phase)

  /** `locks` is the table of build locks, `held` the acquired ones; `nextEntry` names fresh caches. */
  datatype State = State(
    locks: map<Name, Lock>,
    nextLock: Lock,
    held: map<Lock, Pid>,
    registry: map<Name, Entry>,
    nextEntry: Entry,
    requests: map<Pid, Request>)

  datatype Event =
    | Arrive(p: Pid, name: Name)
    | GetLock(p: Pid)
    | Acquire(p: Pid)
    | Resolve(p: Pid, parses: bool)
    | Build(p: Pid, ok: bool)
    | Insert(p: Pid)

  predicate In(s: State, p: Pid) {
    p in s.requests
  }

  predicate Enabled(s: State, e: Event) {
    match e
    case Arrive(p, _) => p !in s.requests
    case GetLock(p) => In(s, p) && s.requests[p].phase.Start?
    case Acquire(p) => In(s, p) && s.requests[p].phase.Waiting? && s.requests[p].phase.lock !in s.held
    case Resolve(p, _) => In(s, p) && s.requests[p].phase.Holding?
    case Build(p, _) => In(s, p) && s.requests[p].phase.Building?
    case Insert(p) => In(s, p) && s.requests[p].phase.Built?
  }

  function Goto(s: State, p: Pid, phase: Phase): State
    requires In(s, p)
  {
    s.(requests := s.requests[p := s.requests[p].(phase := phase)])
  }

  /** Returning drops the lock guard. */
  function Return(s: State, p: Pid, lock: Lock): State
    requires In(s, p)
  {
    Goto(s, p, Finished).(held := s.held - {lock})
  }

  function Apply(s: State, e: Event): State
    requires Enabled(s, e)
  {
    match e
    case Arrive(p, name) => s.(requests := s.requests[p := Request(name, Start)])
    case GetLock(p) =>
      var name := s.requests[p].name;
      if name in s.locks then Goto(s, p, Waiting(s.locks[name]))
      else Goto(s, p, Waiting(s.nextLock)).(locks := s.locks[name := s.nextLock], nextLock := s.nextLock + 1)
    case Acquire(p) =>
      var lock := s.requests[p].phase.lock;
      Goto(s, p, Holding(lock)).(held := s.held[lock := p])
    case Resolve(p, parses) =>
      var lock := s.requests[p].phase.lock;
      if s.requests[p].name in s.registry || !parses then Return(s, p, lock) else Goto(s, p, Building(lock))
    case Build(p, ok) =>
      var lock := s.requests[p].phase.lock;
      if ok then Goto(s, p, Built(lock, s.nextEntry)).(nextEntry := s.nextEntry + 1) else Return(s, p, lock)
    case Insert(p) =>
      var Built(lock, entry) := s.requests[p].phase;
      Return(s, p, lock).(registry := s.registry[s.requests[p].name := entry])
  }

  ghost predicate Init(s: State) {
    s.locks == map[] && s.held == map[] && s.registry == map[] && s.requests == map[]
  }

  ghost predicate StepAt(states: seq<State>, events: seq<Event>, i: nat) {
    i < |events| && i + 1 < |states| && Enabled(states[i], events[i]) && states[i + 1] == Apply(states[i], events[i])
  }

  ghost predicate IsRun(states: seq<State>, events: seq<Event>) {
    && |states| == |events| + 1 && Init(states[0])
    && forall i | 0 <= i < |events| :: StepAt(states, events, i)
  }

  predicate Inside(phase: Phase) {
    phase.Holding? || phase.Building? || phase.Built?
  }

  /** A request inside the critical section holds the one lock of its name; one past its resolve found
      the name unregistered. */
  ghost predicate RequestOk(s: State, r: Request, p: Pid) {
    && (r.phase.Waiting? || Inside(r.phase) ==> r.name in s.locks && r.phase.lock == s.locks[r.name])
    && (Inside(r.phase) ==> r.phase.lock in s.held && s.held[r.phase.lock] == p)
    && (r.phase.Building? || r.phase.Built? ==> r.name !in s.registry)
  }

  ghost predicate Locked(s: State) {
    && (forall n | n in s.locks :: s.locks[n] < s.nextLock)
    && (forall n, m | n in s.locks && m in s.locks && n != m :: s.locks[n] != s.locks[m])
    && (forall p | In(s, p) :: RequestOk(s, s.requests[p], p))
  }

  lemma OtherKept(s: State, e: Event, p: Pid)
    requires Locked(s) && Enabled(s, e) && In(s, p) && p != e.p
    ensures RequestOk(Apply(s, e), s.requests[p], p)
  {
  }

  lemma LockedStep(s: State, e: Event)
    requires Locked(s) && Enabled(s, e)
    ensures Locked(Apply(s, e))
  {
    var s' := Apply(s, e);
    forall p | In(s', p) ensures RequestOk(s', s'.requests[p], p) {
      if p == e.p {
        assert In(s, p) ==> RequestOk(s, s.requests[p], p);
      } else {
        OtherKept(s, e, p);
      }
    }
  }

  lemma {:induction false} LockedAlong(states: seq<State>, events: seq<Event>, i: nat)
    requires IsRun(states, events) && i < |states|
    ensures Locked(states[i])
  {
    if i > 0 {
      LockedAlong(states, events, i - 1);
      assert StepAt(states, events, i - 1);
      LockedStep(states[i - 1], events[i - 1]);
    }
  }

  /** Builds of one name never overlap, whatever number of registrations race. */
  lemma BuildsNeverOverlap(states: seq<State>, events: seq<Event>, i: nat, p: Pid, q: Pid)
    requires IsRun(states, events) && i < |states|
    requires In(states[i], p) && Inside(states[i].requests[p].phase)
    requires In(states[i], q) && Inside(states[i].requests[q].phase)
    requires states[i].requests[p].name == states[i].requests[q].name
    ensures p == q
  {
    LockedAlong(states, events, i);
  }

  /** Once a name is registered its entry never changes, so all its requests share one shadow buffer. */
  lemma {:induction false} EntryNeverReplaced(states: seq<State>, events: seq<Event>, i: nat, j: nat, name: Name)
    requires IsRun(states, events) && i <= j < |states| && name in states[i].registry
    ensures name in states[j].registry && states[j].registry[name] == states[i].registry[name]
  {
    if i < j {
      EntryNeverReplaced(states, events, i, j - 1, name);
      LockedAlong(states, events, j - 1);
      assert StepAt(states, events, j - 1);
    }
  }

  /** At most one insert per name in a whole run. */
  lemma InsertedAtMostOnce(states: seq<State>, events: seq<Event>, i: nat, j: nat)
    requires IsRun(states, events) && i <= j < |events| && events[i].Insert? && events[j].Insert?
    requires In(states[i], events[i].p) && In(states[j], events[j].p)
    requires states[i].requests[events[i].p].name == states[j].requests[events[j].p].name
    ensures i == j
  {
    assert StepAt(states, events, i) && StepAt(states, events, j);
    LockedAlong(states, events, j);
    if i < j {
      EntryNeverReplaced(states, events, i + 1, j, states[i].requests[events[i].p].name);
    }
  }

  // ------------------------------------------------------------------ which entry a name leads to

  /** Every build has an entry of its own: below the next fresh one, registered for one name or held by one
      request. */
  ghost predicate Fresh(s: State) {
    && (forall n | n in s.registry :: s.registry[n] < s.nextEntry)
    && (forall n, m | n in s.registry && m in s.registry && n != m :: s.registry[n] != s.registry[m])
    && (forall p | In(s, p) && s.requests[p].phase.Built? ::
          s.requests[p].phase.entry < s.nextEntry
          && forall n | n in s.registry :: s.registry[n] != s.requests[p].phase.entry)
    && (forall p, q | In(s, p) && In(s, q) && p != q && s.requests[p].phase.Built? && s.requests[q].phase.Built? ::
          s.requests[p].phase.entry != s.requests[q].phase.entry)
  }

  lemma FreshStep(s: State, e: Event)
    requires Fresh(s) && Enabled(s, e)
    ensures Fresh(Apply(s, e))
  {
    if e.Build? {
      FreshBuild(s, e);
    } else if e.Insert? {
      FreshInsert(s, e);
    } else {
      FreshOther(s, e);
    }
  }

  lemma FreshBuild(s: State, e: Event)
    requires Fresh(s) && Enabled(s, e) && e.Build?
    ensures Fresh(Apply(s, e))
  {
  }

  lemma FreshInsert(s: State, e: Event)
    requires Fresh(s) && Enabled(s, e) && e.Insert?
    ensures Fresh(Apply(s, e))
  {
  }

  lemma FreshOther(s: State, e: Event)
    requires Fresh(s) && Enabled(s, e) && !e.Build? && !e.Insert?
    ensures Fresh(Apply(s, e))
  {
    var s' := Apply(s, e);
    assert s'.registry == s.registry && s'.nextEntry == s.nextEntry;
    assert forall p | In(s', p) && s'.requests[p].phase.Built? :: In(s, p) && s'.requests[p] == s.requests[p];
  }

  lemma {:induction false} FreshAlong(states: seq<State>, events: seq<Event>, i: nat)
    requires IsRun(states, events) && i < |states|
    ensures Fresh(states[i])
  {
    if i > 0 {
      FreshAlong(states, events, i - 1);
      assert StepAt(states, events, i - 1);
      FreshStep(states[i - 1], events[i - 1]);
    }
  }

  /** Event `k` is the successful build of `entry` by request `p` for `name`. */
  ghost predicate Builds(states: seq<State>, events: seq<Event>, k: nat, p: Pid, name: Name, entry: Entry) {
    && k < |events| && k < |states| && events[k] == Build(p, true)
    && In(states[k], p) && states[k].requests[p].name == name && states[k].nextEntry == entry
  }

  /** What a request has built, it built itself, for its own name. */
  lemma {:induction false} BuiltByItself(states: seq<State>, events: seq<Event>, j: nat, p: Pid) returns (k: nat)
    requires IsRun(states, events) && j < |states| && In(states[j], p) && states[j].requests[p].phase.Built?
    ensures k < j && Builds(states, events, k, p, states[j].requests[p].name, states[j].requests[p].phase.entry)
  {
    assert j > 0;
    assert StepAt(states, events, j - 1);
    if events[j - 1] == Build(p, true) {
      k := j - 1;
    } else {
      k := BuiltByItself(states, events, j - 1, p);
    }
  }

  /** Whatever a request builds, it had resolved its name as unregistered, with a config that parsed. */
  lemma {:induction false} BuildWasResolved(states: seq<State>, events: seq<Event>, j: nat, p: Pid) returns (k: nat)
    requires IsRun(states, events) && j < |states| && In(states[j], p)
    requires states[j].requests[p].phase.Building? || states[j].requests[p].phase.Built?
    ensures k < j && k < |events| && events[k] == Resolve(p, true) && In(states[k], p)
    ensures states[k].requests[p].name == states[j].requests[p].name && states[j].requests[p].name !in states[k].registry
  {
    assert j > 0;
    assert StepAt(states, events, j - 1);
    if events[j - 1].Resolve? && events[j - 1].p == p {
      k := j - 1;
    } else {
      k := BuildWasResolved(states, events, j - 1, p);
    }
  }

  /** An insert registers, for the name of the request, the entry the request built. */
  lemma InsertRegistersBuilt(states: seq<State>, events: seq<Event>, j: nat, p: Pid) returns (k: nat)
    requires IsRun(states, events) && j < |events| && events[j] == Insert(p)
    ensures k < j && In(states[j], p) && states[j].requests[p].name in states[j + 1].registry
    ensures Builds(states, events, k, p, states[j].requests[p].name, states[j + 1].registry[states[j].requests[p].name])
  {
    assert StepAt(states, events, j);
    k := BuiltByItself(states, events, j, p);
  }

  /** A registered entry is one that an earlier request for that very name has built. */
  lemma {:induction false} EntryWasBuilt(states: seq<State>, events: seq<Event>, j: nat, name: Name)
      returns (k: nat, p: Pid)
    requires IsRun(states, events) && j < |states| && name in states[j].registry
    ensures k < j && Builds(states, events, k, p, name, states[j].registry[name])
  {
    assert j > 0;
    assert StepAt(states, events, j - 1);
    if name in states[j - 1].registry && states[j - 1].registry[name] == states[j].registry[name] {
      k, p := EntryWasBuilt(states, events, j - 1, name);
    } else {
      p := events[j - 1].p;
      k := InsertRegistersBuilt(states, events, j - 1, p);
    }
  }

  /** Two names never share an entry. */
  lemma EntriesDistinct(states: seq<State>, events: seq<Event>, i: nat, n: Name, m: Name)
    requires IsRun(states, events) && i < |states| && n in states[i].registry && m in states[i].registry && n != m
    ensures states[i].registry[n] != states[i].registry[m]
  {
    FreshAlong(states, events, i);
  }

  // ------------------------------------------------------------------ the lock is given back

  /** A held lock is held by a request inside its critical section; whoever has returned holds none. */
  ghost predicate Released(s: State) {
    forall lock | lock in s.held ::
      In(s, s.held[lock]) && Inside(s.requests[s.held[lock]].phase) && s.requests[s.held[lock]].phase.lock == lock
  }

  lemma {:induction false} ReleasedAlong(states: seq<State>, events: seq<Event>, i: nat)
    requires IsRun(states, events) && i < |states|
    ensures Released(states[i])
  {
    if i > 0 {
      ReleasedAlong(states, events, i - 1);
      LockedAlong(states, events, i - 1);
      assert StepAt(states, events, i - 1);
      ReleasedStep(states[i - 1], events[i - 1]);
    }
  }

  lemma ReleasedStep(s: State, e: Event)
    requires Released(s) && Locked(s) && Enabled(s, e)
    ensures Released(Apply(s, e))
  {
    assert In(s, e.p) ==> RequestOk(s, s.requests[e.p], e.p);
  }

  lemma HeldLock(s: State, lock: Lock)
    requires Locked(s) && Released(s) && lock in s.held
    ensures lock < s.nextLock && s.requests[s.held[lock]].name in s.locks && s.locks[s.requests[s.held[lock]].name] == lock
  {
    assert RequestOk(s, s.requests[s.held[lock]], s.held[lock]);
  }

  lemma ExtendRun(states: seq<State>, events: seq<Event>, e: Event) returns (states': seq<State>, events': seq<Event>)
    requires IsRun(states, events) && Enabled(states[|events|], e)
    ensures IsRun(states', events') && events' == events + [e] && states' == states + [Apply(states[|events|], e)]
  {
    states', events' := states + [Apply(states[|events|], e)], events + [e];
    forall i | 0 <= i < |events'| ensures StepAt(states', events', i) {
      assert i < |events| ==> StepAt(states, events, i);
    }
  }

  /** While nobody is inside for its name, a new request gets the lock, */
  lemma TakesLock(states: seq<State>, events: seq<Event>, p: Pid, name: Name)
      returns (states': seq<State>, events': seq<Event>)
    requires IsRun(states, events) && p !in states[|events|].requests
    requires forall q | In(states[|events|], q) && states[|events|].requests[q].name == name ::
               !Inside(states[|events|].requests[q].phase)
    ensures IsRun(states', events') && events' == events + [Arrive(p, name), GetLock(p), Acquire(p)]
    ensures var s, s' := states[|events|], states'[|events'|];
            && s'.registry == s.registry && s'.nextEntry == s.nextEntry
            && In(s', p) && s'.requests[p].name == name && s'.requests[p].phase.Holding?
  {
    LockedAlong(states, events, |events|);
    ReleasedAlong(states, events, |events|);
    var s := states[|events|];
    forall lock | lock in s.held ensures lock != s.nextLock && (name in s.locks ==> lock != s.locks[name]) {
      HeldLock(s, lock);
    }
    states', events' := ExtendRun(states, events, Arrive(p, name));
    states', events' := ExtendRun(states', events', GetLock(p));
    states', events' := ExtendRun(states', events', Acquire(p));
  }

  /** and, if its config parses and builds, registers a fresh entry for an unregistered name. */
  lemma RegistrationCompletes(states: seq<State>, events: seq<Event>, p: Pid, name: Name)
      returns (states': seq<State>, events': seq<Event>)
    requires IsRun(states, events) && p !in states[|events|].requests && name !in states[|events|].registry
    requires forall q | In(states[|events|], q) && states[|events|].requests[q].name == name ::
               !Inside(states[|events|].requests[q].phase)
    ensures IsRun(states', events')
    ensures events' == events + [Arrive(p, name), GetLock(p), Acquire(p), Resolve(p, true), Build(p, true), Insert(p)]
    ensures states'[|events'|].registry == states[|events|].registry[name := states[|events|].nextEntry]
  {
    states', events' := TakesLock(states, events, p, name);
    states', events' := ExtendRun(states', events', Resolve(p, true));
    states', events' := ExtendRun(states', events', Build(p, true));
    states', events' := ExtendRun(states', events', Insert(p));
  }
}
