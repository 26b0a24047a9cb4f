/**
 The bounded queue and its drained test: what becomes of every accepted write.
 */
module Drain {
  import opened WriteBehind
  import opened Phases
  import opened Ownership
  import opened Common
  import opened Identity
  import opened Shadow

  // ------------------------------------------------------------------ the in-flight counter

  function Weight(worker: Worker): nat {
    if worker.Busy? && !worker.stage.Received? then 1 else 0
  }

  /** Number of workers inside the in-flight guard. */
  function InsideGuard(workers: seq<Worker>): nat {
    if workers == [] then 0
    else InsideGuard(workers[..|workers| - 1]) + Weight(workers[|workers| - 1])
  }

  lemma {:induction false} InsideUpdate(workers: seq<Worker>, w: nat, worker: Worker)
    requires w < |workers|
    ensures InsideGuard(workers[w := worker]) == InsideGuard(workers) - Weight(workers[w]) + Weight(worker)
  {
    var last := |workers| - 1;
    if w == last {
      assert workers[w := worker][..last] == workers[..last];
    } else {
      assert workers[w := worker][..last] == workers[..last][w := worker];
      InsideUpdate(workers[..last], w, worker);
    }
  }

  lemma {:induction false} InsidePositive(workers: seq<Worker>, w: nat)
    requires w < |workers|
    ensures InsideGuard(workers) >= Weight(workers[w])
  {
    if w < |workers| - 1 {
      InsidePositive(workers[..|workers| - 1], w);
    }
  }

  lemma {:induction false} AllIdle(n: nat)
    ensures InsideGuard(seq(n, _ => Idle)) == 0
  {
    if n > 0 {
      assert seq(n, _ => Idle)[..n - 1] == seq(n - 1, _ => Idle);
      AllIdle(n - 1);
    }
  }

  /** In every reachable state the atomic counter is the number of workers inside the guard. */
  lemma {:induction false} CounterExact(c: Config, states: seq<State>, events: seq<Event>, i: nat)
    requires IsRun(c, states, events) && i < |states|
    ensures states[i].inFlight == InsideGuard(states[i].pool.workers)
  {
    if i == 0 {
      AllIdle(c.workers);
    } else {
      CounterExact(c, states, events, i - 1);
      assert StepAt(c, states, events, i - 1);
      CounterStep(c, states[i - 1], events[i - 1], states[i]);
    }
  }

  lemma CounterStep(c: Config, s: State, e: Event, s': State)
    requires Next(c, s, e, s') && s.inFlight == InsideGuard(s.pool.workers)
    ensures s'.inFlight == InsideGuard(s'.pool.workers)
  {
    if e.Prepare? || e.Check? || e.Put? || e.Upsert? || e.Cleanup? {
      MoveKeepsCounter(c, s, e, s');
    } else if e.Recv? || e.Enter? || e.Exit? {
      InsideUpdate(s.pool.workers, e.w, s'.pool.workers[e.w]);
    }
  }

  lemma MoveKeepsCounter(c: Config, s: State, e: Event, s': State)
    requires Next(c, s, e, s') && (e.Prepare? || e.Check? || e.Put? || e.Upsert? || e.Cleanup?)
    ensures s'.inFlight == s.inFlight && InsideGuard(s'.pool.workers) == InsideGuard(s.pool.workers)
  {
    InsideUpdate(s.pool.workers, e.w, s'.pool.workers[e.w]);
  }

  // ------------------------------------------------------------------ conservation

  ghost function Ended(p: Pool): set<Token> {
    set t | t in p.finished && !p.finished[t].Refused?
  }

  lemma {:induction false} DistinctCount(q: seq<Token>)
    requires forall i, j | 0 <= i < j < |q| :: q[i] != q[j]
    ensures |Elements(q)| == |q|
  {
    if q != [] {
      DistinctCount(q[1..]);
      assert q == [q[0]] + q[1..];
      assert Elements(q) == {q[0]} + Elements(q[1..]);
    }
  }

  /** No accepted write is lost or duplicated: each is queued, held by a worker, or ended, and in only
      one of them; the queue keeps its bound. */
  lemma AcceptedConserved(c: Config, states: seq<State>, events: seq<Event>, i: nat)
    requires IsRun(c, states, events) && i < |states|
    ensures var p := states[i].pool;
            && p.accepted == Elements(p.queue) + Held(p) + Ended(p)
            && |p.accepted| == |p.queue| + |Held(p)| + |Ended(p)|
            && |p.queue| <= c.capacity && |p.workers| == c.workers
  {
    PlacedAlong(c, states, events, i);
    var p := states[i].pool;
    var queued := Elements(p.queue);
    DistinctCount(p.queue);
    forall t | t in Held(p) ensures t in p.accepted && t !in p.finished && t !in p.queue {
      var w: nat :| w < |p.workers| && p.workers[w].Busy? && p.workers[w].token == t;
      assert Working(p, w);
    }
    assert p.accepted == queued + Held(p) + Ended(p);
    assert queued !! Held(p) && (queued + Held(p)) !! Ended(p);
    assert |queued + Held(p) + Ended(p)| == |queued + Held(p)| + |Ended(p)|;
  }

  // ------------------------------------------------------------------ the drained test

  predicate Taken(phase: Phase) {
    phase.AtWorker? || phase.Done?
  }

  lemma {:induction false} TakenAlong(c: Config, states: seq<State>, events: seq<Event>, i: nat, j: nat, t: Token)
    requires IsRun(c, states, events) && i <= j < |states| && Taken(PhaseOf(states[i].pool, t)) && t < |states[i].jobs|
    ensures Taken(PhaseOf(states[j].pool, t))
  {
    if i < j {
      TakenAlong(c, states, events, i, j - 1, t);
      assert StepAt(c, states, events, j - 1);
      PlacedAlong(c, states, events, j - 1);
      JobsKept(c, states, events, i, j - 1);
      PhaseStep(c, states[j - 1], events[j - 1], states[j], t);
    }
  }

  /** `is_drained` reads the queue at one moment and the counter at a later one.  When it says yes,
      every write accepted before the call has ended, or sits between `recv` and the guard. */
  lemma DrainedMeans(c: Config, states: seq<State>, events: seq<Event>, i: nat, j: nat, t: Token)
    requires IsRun(c, states, events) && i <= j < |states|
    requires states[i].pool.queue == [] && states[j].inFlight == 0
    requires t in states[i].pool.accepted
    ensures PhaseOf(states[j].pool, t).Done? || PhaseOf(states[j].pool, t) == AtWorker(Received)
  {
    PlacedAlong(c, states, events, i);
    var p := states[i].pool;
    if t in Held(p) {
      var w: nat :| w < |p.workers| && p.workers[w].Busy? && p.workers[w].token == t;
      HeldPhase(c, states[i], w);
    }
    TakenAlong(c, states, events, i, j, t);
    CounterExact(c, states, events, j);
    var q := states[j].pool;
    if PhaseOf(q, t).AtWorker? {
      var w: nat :| Holding(q, w, t) && PhaseOf(q, t) == AtWorker(q.workers[w].stage);
      InsidePositive(q.workers, w);
    }
  }

  /** The gap is real: for every bound and worker count a run makes both reads say "drained" while an
      accepted write has not even been prepared. */
  lemma DrainedGap(c: Config, x: Slot, v: Bytes) returns (states: seq<State>, events: seq<Event>)
    requires c.capacity >= 1 && c.workers >= 1
    ensures IsRun(c, states, events) && |states| > 0
    ensures var s := states[|states| - 1];
            s.pool.queue == [] && s.inFlight == 0 && 0 in s.pool.accepted && PhaseOf(s.pool, 0) == AtWorker(Received)
  {
    var s0 := State([], map[], Pool(map[], {}, [], seq(c.workers, _ => Idle), map[]), 0, map[], {}, map[]);
    states, events := [s0], [];
    states, events := Extend(c, states, events, SetInsert(x, v));
    states, events := Extend(c, states, events, Push(0));
    states, events := Extend(c, states, events, Recv(0));
    PlacedAlong(c, states, events, 3);
    HeldPhase(c, states[3], 0);
  }

  /** A set refused by a full queue has already replaced the shadow of the accepted write queued for
      the same entry: after its rollback that entry has no shadow, and the accepted write is doomed. */
  lemma RefusedSetDropsAccepted(c: Config, states: seq<State>, events: seq<Event>, t: Token, v: Bytes)
      returns (states': seq<State>, events': seq<Event>)
    requires IsRun(c, states, events) && t in states[|events|].pool.queue
    requires |states[|events|].pool.queue| == c.capacity
    ensures IsRun(c, states', events') && events <= events' && t < |states[|events|].jobs|
    ensures var s, s' := states[|events|], states'[|events'|];
            && s.jobs[t].slot !in s'.shadow && t in s'.pool.accepted
            && PhaseOf(s'.pool, |s.jobs|) == Done(Refused)
            && Doomed(s', t)
  {
    var s := states[|events|];
    PlacedAlong(c, states, events, |events|);
    var u := |s.jobs|;
    states', events' := Extend(c, states, events, SetInsert(s.jobs[t].slot, v));
    states', events' := Extend(c, states', events', Push(u));
    states', events' := Extend(c, states', events', Rollback(u));
  }
}
