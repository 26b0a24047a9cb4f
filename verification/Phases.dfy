/**
 The life of one write, read off the pool: every event moves at most the write it acts for.
 */
module Phases {
  import opened Shadow
  import opened WriteBehind

  datatype Phase = Unborn | AtHandler(handler: Handler) | InQueue | AtWorker(stage: Stage) | Done(outcome: Outcome)

  ghost function PhaseOf(p: Pool, t: Token): Phase {
    if t in p.handlers then AtHandler(p.handlers[t])
    else if t in p.finished then Done(p.finished[t])
    else if t in p.queue then InQueue
    else if w: nat :| Holding(p, w, t) then AtWorker(p.workers[w].stage)
    else Unborn
  }

  /** The event is a step of the set that carries token `t`. */
  ghost predicate Acts(s: State, e: Event, t: Token) {
    match e
    case SetInsert(_, _) => t == |s.jobs|
    case Push(u) => t == u
    case Rollback(u) => t == u
    case Recv(_) => s.pool.queue != [] && t == s.pool.queue[0]
    case DelShadow(_, _) => false
    case DelMatch(_, _) => false
    case DelVector(_, _) => false
    case DelObject(_, _) => false
    case _ => Holding(s.pool, e.w, t)
  }

  /** The phase an acting write moves to. */
  ghost function PhaseAfter(c: Config, s: State, e: Event): Phase
    requires Enabled(c, s, e)
  {
    match e
    case SetInsert(_, _) => AtHandler(Inserted)
    case Push(_) => if |s.pool.queue| < c.capacity then InQueue else AtHandler(Overflowed)
    case Rollback(_) => Done(Refused)
    case Recv(_) => AtWorker(Received)
    case Exit(w) => Done(s.pool.workers[w].stage.outcome)
    case DelShadow(_, _) => Unborn
    case DelMatch(_, _) => Unborn
    case DelVector(_, _) => Unborn
    case DelObject(_, _) => Unborn
    case _ => AtWorker(Apply(c, s, e).pool.workers[e.w].stage)
  }

  /** No job is with two workers. */
  ghost predicate OneHolder(p: Pool) {
    forall w: nat, v: nat | Working(p, w) && Working(p, v) && w != v :: p.workers[w].token != p.workers[v].token
  }

  lemma HoldingPhase(p: Pool, w: nat, t: Token)
    requires OneHolder(p) && Holding(p, w, t) && t !in p.handlers && t !in p.finished && t !in p.queue
    ensures PhaseOf(p, t) == AtWorker(p.workers[w].stage)
  {
  }

  lemma SamePhase(p: Pool, q: Pool, t: Token)
    requires OneHolder(p) && OneHolder(q)
    requires t in p.handlers <==> t in q.handlers
    requires t in p.handlers ==> p.handlers[t] == q.handlers[t]
    requires t in p.finished <==> t in q.finished
    requires t in p.finished ==> p.finished[t] == q.finished[t]
    requires t in p.queue <==> t in q.queue
    requires forall w: nat | Holding(p, w, t) :: Holding(q, w, t) && p.workers[w] == q.workers[w]
    requires forall w: nat | Holding(q, w, t) :: Holding(p, w, t)
    ensures PhaseOf(p, t) == PhaseOf(q, t)
  {
  }

  lemma AcceptPhase(p: Pool, u: Token, t: Token)
    requires OneHolder(p) && u !in p.finished
    ensures PhaseOf(Accept(p, u), t) == if t == u then InQueue else PhaseOf(p, t)
  {
    var q := Accept(p, u);
    assert forall w: nat :: Working(q, w) <==> Working(p, w);
    if t == u {
      assert q.queue[|p.queue|] == t;
    } else {
      SamePhase(p, q, t);
    }
  }

  lemma ReceivePhase(p: Pool, w: nat, t: Token)
    requires OneHolder(p) && w < |p.workers| && p.workers[w].Idle? && p.queue != []
    requires p.queue[0] !in p.handlers && p.queue[0] !in p.finished && p.queue[0] !in p.queue[1..]
    requires forall v: nat | Working(p, v) :: p.workers[v].token != p.queue[0]
    ensures PhaseOf(Receive(p, w), t) == if t == p.queue[0] then AtWorker(Received) else PhaseOf(p, t)
  {
    var q := Receive(p, w);
    assert forall v: nat :: Working(q, v) <==> v == w || Working(p, v);
    assert p.queue == [p.queue[0]] + q.queue;
    if t == p.queue[0] {
      HoldingPhase(q, w, t);
    } else {
      SamePhase(p, q, t);
    }
  }

  lemma MovePhase(p: Pool, w: nat, stage: Stage, t: Token)
    requires OneHolder(p) && Working(p, w)
    requires p.workers[w].token !in p.handlers && p.workers[w].token !in p.finished && p.workers[w].token !in p.queue
    ensures PhaseOf(Move(p, w, stage), t) == if t == p.workers[w].token then AtWorker(stage) else PhaseOf(p, t)
  {
    var q := Move(p, w, stage);
    assert forall v: nat :: Working(q, v) <==> Working(p, v);
    if t == p.workers[w].token {
      HoldingPhase(q, w, t);
    } else {
      SamePhase(p, q, t);
    }
  }

  lemma LeavePhase(p: Pool, w: nat, t: Token)
    requires OneHolder(p) && Working(p, w) && p.workers[w].stage.Leaving?
    requires p.workers[w].token !in p.handlers
    ensures PhaseOf(Leave(p, w), t) ==
            if t == p.workers[w].token then Done(p.workers[w].stage.outcome) else PhaseOf(p, t)
  {
    var q := Leave(p, w);
    assert forall v: nat :: Working(q, v) <==> v != w && Working(p, v);
    if t != p.workers[w].token {
      SamePhase(p, q, t);
    }
  }

  lemma HandlerPhase(p: Pool, q: Pool, t: Token)
    requires OneHolder(p) && q.workers == p.workers && q.queue == p.queue
    requires t in p.handlers <==> t in q.handlers
    requires t in p.handlers ==> p.handlers[t] == q.handlers[t]
    requires t in p.finished <==> t in q.finished
    requires t in p.finished ==> p.finished[t] == q.finished[t]
    ensures PhaseOf(q, t) == PhaseOf(p, t)
  {
    assert forall w: nat :: Working(q, w) <==> Working(p, w);
    SamePhase(p, q, t);
  }

  /** One event moves the phase of the write it acts for, and of no other. */
  lemma PhaseStep(c: Config, s: State, e: Event, s': State, t: Token)
    requires Placed(c, s) && Next(c, s, e, s')
    ensures PhaseOf(s'.pool, t) == if Acts(s, e, t) then PhaseAfter(c, s, e) else PhaseOf(s.pool, t)
  {
    if e.Enter? || e.Prepare? || e.Check? || e.Put? || e.Upsert? || e.Cleanup? || e.Exit? {
      WorkerPhase(c, s, e, s', t);
    } else {
      HandlerStep(c, s, e, s', t);
    }
  }

  lemma HandlerStep(c: Config, s: State, e: Event, s': State, t: Token)
    requires Placed(c, s) && Next(c, s, e, s')
    requires !e.Enter? && !e.Prepare? && !e.Check? && !e.Put? && !e.Upsert? && !e.Cleanup? && !e.Exit?
    ensures PhaseOf(s'.pool, t) == if Acts(s, e, t) then PhaseAfter(c, s, e) else PhaseOf(s.pool, t)
  {
    var p := s.pool;
    match e
    case SetInsert(_, _) =>
      if t != |s.jobs| { HandlerPhase(p, s'.pool, t); }
    case Push(u) =>
      if |p.queue| < c.capacity {
        AcceptPhase(p, u, t);
      } else if t != u {
        HandlerPhase(p, s'.pool, t);
      }
    case Rollback(u) =>
      if t != u { HandlerPhase(p, s'.pool, t); }
    case Recv(w) =>
      assert p.queue[0] in p.queue;
      ReceivePhase(p, w, t);
    case _ =>
  }

  lemma WorkerPhase(c: Config, s: State, e: Event, s': State, t: Token)
    requires Placed(c, s) && Next(c, s, e, s')
    requires e.Enter? || e.Prepare? || e.Check? || e.Put? || e.Upsert? || e.Cleanup? || e.Exit?
    ensures PhaseOf(s'.pool, t) == if Acts(s, e, t) then PhaseAfter(c, s, e) else PhaseOf(s.pool, t)
  {
    if e.Exit? {
      LeavePhase(s.pool, e.w, t);
    } else {
      MovePhase(s.pool, e.w, s'.pool.workers[e.w].stage, t);
    }
  }
}
