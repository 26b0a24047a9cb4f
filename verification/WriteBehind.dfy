/**
 The write-behind protocol of the daemon as a step system: set handlers, the bounded queue, the
 worker threads, delete handlers, the pending-writes shadow and the two durable stores.

 One event is one atomic action of one thread, so a run of events is an arbitrary interleaving,
 and every prefix of a run covers a crash at that point.  An `Arc` is modelled by its allocation
 token: the position of the write in the append-only list `jobs`, so two sets of equal bytes
 still carry different tokens.
 */
module WriteBehind {
  import opened Common
  import opened Identity
  import opened Shadow

  datatype Job = Job(slot: Slot, value: Bytes)

  datatype Outcome = Committed | CommitFailed | Skipped | PrepareFailed | Refused

  /** Where a worker is inside its loop body; `Received` is the gap between `recv` and the in-flight guard. */
  datatype Stage =
    | Received
    | Entered
    | Prepared
    | Checked
    | Stored
    | Cleaning(durable: bool)
    | Leaving(outcome: Outcome)

  datatype Worker = Idle | Busy(token: Token, stage: Stage)

  /** A set handler after its shadow insert: about to push, or refused by a full queue and about to roll back. */
  datatype Handler = Inserted | Overflowed

  /** A delete handler after it dropped the shadow: searching, holding a match, or between the two store deletes. */
  datatype Deleter = Searching | Found(hit: Slot) | Unindexed(hit: Slot)

  datatype Config = Config(capacity: nat, workers: nat)

  /** Where every write is: with its set handler, queued, held by a worker, or finished. */
  datatype Pool = Pool(
    handlers: map<Token, Handler>,
    accepted: set<Token>,
    queue: seq<Token>,
    workers: seq<Worker>,
    finished: map<Token, Outcome>)

  datatype State = State(
    jobs: seq<Job>,
    shadow: map<Slot, Token>,
    pool: Pool,
    inFlight: int,
    objects: map<Slot, Bytes>,
    index: set<Slot>,
    deleters: map<nat, Deleter>)

  datatype Event =
    | SetInsert(slot: Slot, value: Bytes)
    | Push(t: Token)
    | Rollback(t: Token)
    | Recv(w: nat)
    | Enter(w: nat)
    | Prepare(w: nat, ok: bool)
    | Check(w: nat)
    | Put(w: nat, ok: bool)
    | Upsert(w: nat, ok: bool)
    | Cleanup(w: nat)
    | Exit(w: nat)
    | DelShadow(d: nat, slot: Slot)
    | DelMatch(d: nat, found: Option<Slot>)
    | DelVector(d: nat, ok: bool)
    | DelObject(d: nat, ok: bool)

  predicate Working(p: Pool, w: nat) {
    w < |p.workers| && p.workers[w].Busy?
  }

  /** Worker `w` holds the job `t`. */
  predicate Holding(p: Pool, w: nat, t: Token) {
    Working(p, w) && p.workers[w].token == t
  }

  predicate At(s: State, w: nat, stage: Stage) {
    Working(s.pool, w) && s.pool.workers[w].stage == stage && s.pool.workers[w].token < |s.jobs|
  }

  /** Whether the event can happen; the tokens in a reachable state are always below `|jobs|`. */
  predicate Enabled(c: Config, s: State, e: Event) {
    match e
    case SetInsert(_, _) => true
    case Push(t) => t in s.pool.handlers && s.pool.handlers[t].Inserted?
    case Rollback(t) => t in s.pool.handlers && s.pool.handlers[t].Overflowed? && t < |s.jobs|
    case Recv(w) => w < |s.pool.workers| && s.pool.workers[w].Idle? && s.pool.queue != []
    case Enter(w) => At(s, w, Received)
    case Prepare(w, _) => At(s, w, Entered)
    case Check(w) => At(s, w, Prepared)
    case Put(w, _) => At(s, w, Checked)
    case Upsert(w, _) => At(s, w, Stored)
    case Cleanup(w) => Working(s.pool, w) && s.pool.workers[w].stage.Cleaning? && s.pool.workers[w].token < |s.jobs|
    case Exit(w) => Working(s.pool, w) && s.pool.workers[w].stage.Leaving?
    case DelShadow(d, _) => d !in s.deleters
    case DelMatch(d, found) => d in s.deleters && s.deleters[d].Searching? && (found.Some? ==> found.value in s.index)
    case DelVector(d, _) => d in s.deleters && s.deleters[d].Found?
    case DelObject(d, _) => d in s.deleters && s.deleters[d].Unindexed?
  }

  function Move(p: Pool, w: nat, stage: Stage): Pool
    requires Working(p, w)
  {
    p.(workers := p.workers[w := Busy(p.workers[w].token, stage)])
  }

  function Receive(p: Pool, w: nat): Pool
    requires w < |p.workers| && p.queue != []
  {
    p.(queue := p.queue[1..], workers := p.workers[w := Busy(p.queue[0], Received)])
  }

  function Leave(p: Pool, w: nat): Pool
    requires Working(p, w) && p.workers[w].stage.Leaving?
  {
    p.(workers := p.workers[w := Idle], finished := p.finished[p.workers[w].token := p.workers[w].stage.outcome])
  }

  function Accept(p: Pool, t: Token): Pool {
    p.(queue := p.queue + [t], accepted := p.accepted + {t}, handlers := p.handlers - {t})
  }

  function Refuse(p: Pool, t: Token): Pool {
    p.(handlers := p.handlers - {t}, finished := p.finished[t := Refused])
  }

  function Apply(c: Config, s: State, e: Event): State
    requires Enabled(c, s, e)
  {
    match e
    case SetInsert(slot, value) =>
      var t := |s.jobs|;
      s.(jobs := s.jobs + [Job(slot, value)], shadow := s.shadow[slot := t],
         pool := s.pool.(handlers := s.pool.handlers[t := Inserted]))
    case Push(t) =>
      if |s.pool.queue| < c.capacity then s.(pool := Accept(s.pool, t))
      else s.(pool := s.pool.(handlers := s.pool.handlers[t := Overflowed]))
    case Rollback(t) =>
      s.(shadow := RemoveIf(s.shadow, s.jobs[t].slot, t), pool := Refuse(s.pool, t))
    case Recv(w) =>
      s.(pool := Receive(s.pool, w))
    case Enter(w) =>
      s.(pool := Move(s.pool, w, Entered), inFlight := s.inFlight + 1)
    case Prepare(w, ok) =>
      s.(pool := Move(s.pool, w, if ok then Prepared else Leaving(PrepareFailed)))
    case Check(w) =>
      var t := s.pool.workers[w].token;
      s.(pool := Move(s.pool, w, if HoldsToken(s.shadow, s.jobs[t].slot, t) then Checked else Leaving(Skipped)))
    case Put(w, ok) =>
      var job := s.jobs[s.pool.workers[w].token];
      if ok then s.(pool := Move(s.pool, w, Stored), objects := s.objects[job.slot := job.value])
      else s.(pool := Move(s.pool, w, Cleaning(false)))
    case Upsert(w, ok) =>
      var job := s.jobs[s.pool.workers[w].token];
      s.(pool := Move(s.pool, w, Cleaning(ok)), index := if ok then s.index + {job.slot} else s.index)
    case Cleanup(w) =>
      var t := s.pool.workers[w].token;
      s.(pool := Move(s.pool, w, Leaving(if s.pool.workers[w].stage.durable then Committed else CommitFailed)),
         shadow := RemoveIf(s.shadow, s.jobs[t].slot, t))
    case Exit(w) =>
      s.(pool := Leave(s.pool, w), inFlight := s.inFlight - 1)
    case DelShadow(d, slot) =>
      s.(shadow := s.shadow - {slot}, deleters := s.deleters[d := Searching])
    case DelMatch(d, found) =>
      s.(deleters := if found.Some? then s.deleters[d := Found(found.value)] else s.deleters - {d})
    case DelVector(d, ok) =>
      var hit := s.deleters[d].hit;
      if ok then s.(index := s.index - {hit}, deleters := s.deleters[d := Unindexed(hit)])
      else s.(deleters := s.deleters - {d})
    case DelObject(d, ok) =>
      var hit := s.deleters[d].hit;
      s.(objects := if ok then s.objects - {hit} else s.objects, deleters := s.deleters - {d})
  }

  ghost predicate Next(c: Config, s: State, e: Event, s': State) {
    Enabled(c, s, e) && s' == Apply(c, s, e)
  }

  /** A fresh daemon over stores left by an earlier one: any objects, and no index entry without an object. */
  ghost predicate Init(c: Config, s: State) {
    && s.jobs == [] && s.shadow == map[] && s.inFlight == 0 && s.deleters == map[]
    && s.pool == Pool(map[], {}, [], seq(c.workers, _ => Idle), map[])
    && s.index <= s.objects.Keys
  }

  ghost predicate StepAt(c: Config, states: seq<State>, events: seq<Event>, i: nat) {
    i < |events| && i + 1 < |states| && Next(c, states[i], events[i], states[i + 1])
  }

  /** A run: event `i` leads from state `i` to state `i + 1`. */
  ghost predicate IsRun(c: Config, states: seq<State>, events: seq<Event>) {
    && |states| == |events| + 1
    && Init(c, states[0])
    && forall i | 0 <= i < |events| :: StepAt(c, states, events, i)
  }

  /** A run can be continued by any enabled event. */
  lemma Extend(c: Config, states: seq<State>, events: seq<Event>, e: Event) returns (states': seq<State>, events': seq<Event>)
    requires IsRun(c, states, events) && Enabled(c, states[|events|], e)
    ensures IsRun(c, states', events') && events' == events + [e]
    ensures states' == states + [Apply(c, states[|events|], e)]
  {
    states', events' := states + [Apply(c, states[|events|], e)], events + [e];
    forall i | 0 <= i < |events'| ensures StepAt(c, states', events', i) {
      assert i < |events| ==> StepAt(c, states, events, i);
    }
  }

  // ------------------------------------------------------------------ placement of every job

  ghost function Held(p: Pool): set<Token> {
    set w | 0 <= w < |p.workers| && p.workers[w].Busy? :: p.workers[w].token
  }

  /** No token is in two places: a handler, the queue (once), one worker, or finished. */
  ghost predicate Separate(c: Config, n: nat, p: Pool) {
    && |p.workers| == c.workers && |p.queue| <= c.capacity
    && (forall t | t in p.handlers :: t < n && t !in p.accepted && t !in p.finished)
    && (forall t | t in p.accepted :: t < n)
    && (forall t | t in p.finished :: t < n && (t in p.accepted <==> !p.finished[t].Refused?))
    && (forall t | t in p.queue :: t in p.accepted && t !in p.finished)
    && (forall i, j | 0 <= i < j < |p.queue| :: p.queue[i] != p.queue[j])
    && (forall w: nat | Working(p, w) :: p.workers[w].token in p.accepted && p.workers[w].token !in p.finished)
    && (forall w: nat | Working(p, w) :: p.workers[w].token !in p.queue)
    && (forall w: nat, v: nat | Working(p, w) && Working(p, v) && w != v :: p.workers[w].token != p.workers[v].token)
    && (forall w: nat | Working(p, w) && p.workers[w].stage.Leaving? :: !p.workers[w].stage.outcome.Refused?)
  }

  /** No token is lost: an accepted one is queued, held or finished, any other has its handler or was refused. */
  ghost predicate Covered(n: nat, p: Pool) {
    && (forall t | t in p.accepted :: t in p.queue || t in Held(p) || t in p.finished)
    && (forall t: Token | t < n :: t in p.handlers || t in p.accepted || t in p.finished)
  }

  ghost predicate Placed(c: Config, s: State) {
    Separate(c, |s.jobs|, s.pool) && Covered(|s.jobs|, s.pool)
  }

  lemma SeparateAccept(c: Config, n: nat, p: Pool, t: Token)
    requires Separate(c, n, p) && t in p.handlers && |p.queue| < c.capacity
    ensures Separate(c, n, Accept(p, t))
  {
  }

  lemma SeparateReceive(c: Config, n: nat, p: Pool, w: nat)
    requires Separate(c, n, p) && w < |p.workers| && p.workers[w].Idle? && p.queue != []
    ensures Separate(c, n, Receive(p, w))
  {
  }

  lemma SeparateLeave(c: Config, n: nat, p: Pool, w: nat)
    requires Separate(c, n, p) && Working(p, w) && p.workers[w].stage.Leaving?
    ensures Separate(c, n, Leave(p, w))
  {
  }

  lemma SeparateMove(c: Config, n: nat, p: Pool, w: nat, stage: Stage)
    requires Separate(c, n, p) && Working(p, w) && stage != Leaving(Refused)
    ensures Separate(c, n, Move(p, w, stage))
  {
  }

  /** Every held token stays held, except that of a worker going idle. */
  lemma HeldAfter(p: Pool, q: Pool, w: nat)
    requires w < |p.workers| && |q.workers| == |p.workers| && q.workers == p.workers[w := q.workers[w]]
    requires Working(p, w) && Working(q, w) ==> q.workers[w].token == p.workers[w].token
    ensures forall t | t in Held(p) :: t in Held(q) || (Holding(p, w, t) && q.workers[w].Idle?)
    ensures Working(q, w) ==> q.workers[w].token in Held(q)
  {
    forall t | t in Held(p) ensures t in Held(q) || (Holding(p, w, t) && q.workers[w].Idle?) {
      var v :| 0 <= v < |p.workers| && p.workers[v].Busy? && p.workers[v].token == t;
      assert v == w || q.workers[v] == p.workers[v];
    }
  }

  lemma CoveredMove(n: nat, p: Pool, w: nat, stage: Stage)
    requires Covered(n, p) && Working(p, w)
    ensures Covered(n, Move(p, w, stage))
  {
    HeldAfter(p, Move(p, w, stage), w);
  }

  lemma CoveredLeave(n: nat, p: Pool, w: nat)
    requires Covered(n, p) && Working(p, w) && p.workers[w].stage.Leaving?
    ensures Covered(n, Leave(p, w))
  {
    HeldAfter(p, Leave(p, w), w);
  }

  lemma PlacedRefuse(c: Config, n: nat, p: Pool, t: Token)
    requires Separate(c, n, p) && Covered(n, p) && t in p.handlers
    ensures Separate(c, n, Refuse(p, t)) && Covered(n, Refuse(p, t))
  {
  }

  lemma CoveredReceive(n: nat, p: Pool, w: nat)
    requires Covered(n, p) && w < |p.workers| && p.workers[w].Idle? && p.queue != []
    ensures Covered(n, Receive(p, w))
  {
    HeldAfter(p, Receive(p, w), w);
    assert p.queue == [p.queue[0]] + Receive(p, w).queue;
  }

  lemma CoveredAccept(n: nat, p: Pool, t: Token)
    requires Covered(n, p)
    ensures Covered(n, Accept(p, t))
  {
  }

  lemma PlacedStep(c: Config, s: State, e: Event, s': State)
    requires Placed(c, s) && Next(c, s, e, s')
    ensures Placed(c, s')
  {
    if e.SetInsert? || e.Push? || e.Rollback? {
      PlacedSet(c, s, e, s');
    } else if !e.DelShadow? && !e.DelMatch? && !e.DelVector? && !e.DelObject? {
      PlacedWork(c, s, e, s');
    }
  }

  lemma PlacedSet(c: Config, s: State, e: Event, s': State)
    requires Placed(c, s) && Next(c, s, e, s') && (e.SetInsert? || e.Push? || e.Rollback?)
    ensures Placed(c, s')
  {
    var n, p, q := |s.jobs|, s.pool, s'.pool;
    if e.SetInsert? {
      PlacedHandlers(c, n, p, n + 1, q);
    } else if e.Rollback? {
      PlacedRefuse(c, n, p, e.t);
    } else if |p.queue| < c.capacity {
      SeparateAccept(c, n, p, e.t);
      CoveredAccept(n, p, e.t);
    } else {
      PlacedHandlers(c, n, p, n, q);
    }
  }

  lemma PlacedWork(c: Config, s: State, e: Event, s': State)
    requires Placed(c, s) && Next(c, s, e, s') && !e.SetInsert? && !e.Push? && !e.Rollback?
    requires !e.DelShadow? && !e.DelMatch? && !e.DelVector? && !e.DelObject?
    ensures Placed(c, s')
  {
    var n, p, q := |s.jobs|, s.pool, s'.pool;
    if e.Recv? {
      SeparateReceive(c, n, p, e.w);
      CoveredReceive(n, p, e.w);
    } else if e.Exit? {
      SeparateLeave(c, n, p, e.w);
      CoveredLeave(n, p, e.w);
    } else {
      MoveFrame(c, s, e, s');
      PlacedMove(c, |s.jobs|, s.pool, e.w, q.workers[e.w].stage);
    }
  }

  lemma MoveFrame(c: Config, s: State, e: Event, s': State)
    requires Next(c, s, e, s') && (e.Enter? || e.Prepare? || e.Check? || e.Put? || e.Upsert? || e.Cleanup?)
    ensures Working(s.pool, e.w) && Working(s'.pool, e.w) && s'.jobs == s.jobs
    ensures s'.pool == Move(s.pool, e.w, s'.pool.workers[e.w].stage)
    ensures s'.pool.workers[e.w].stage != Leaving(Refused)
  {
  }

  lemma PlacedMove(c: Config, n: nat, p: Pool, w: nat, stage: Stage)
    requires Separate(c, n, p) && Covered(n, p) && Working(p, w) && stage != Leaving(Refused)
    ensures Separate(c, n, Move(p, w, stage)) && Covered(n, Move(p, w, stage))
  {
    SeparateMove(c, n, p, w, stage);
    CoveredMove(n, p, w, stage);
  }

  lemma PlacedHandlers(c: Config, n: nat, p: Pool, m: nat, q: Pool)
    requires Separate(c, n, p) && Covered(n, p)
    requires q == p.(handlers := q.handlers)
    requires q.handlers.Keys == p.handlers.Keys + (if n < m then {n} else {}) && n <= m <= n + 1
    ensures Separate(c, m, q) && Covered(m, q)
  {
  }
}
