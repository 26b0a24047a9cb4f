/**
 Who owns a shadow, and which accepted writes reach the stores, over every interleaving and any
 number of workers.
 */
module Ownership {
  import opened Shadow
  import opened WriteBehind
  import opened Phases

  lemma {:induction false} PlacedAlong(c: Config, states: seq<State>, events: seq<Event>, i: nat)
    requires IsRun(c, states, events) && i < |states|
    ensures Placed(c, states[i])
  {
    if i > 0 {
      PlacedAlong(c, states, events, i - 1);
      assert StepAt(c, states, events, i - 1);
      PlacedStep(c, states[i - 1], events[i - 1], states[i]);
    }
  }

  // ------------------------------------------------------------------ ownership

  /** The write is under way and has not cleaned up, or its `prepare` failed. */
  predicate Owner(phase: Phase) {
    match phase
    case Unborn => false
    case AtHandler(_) => true
    case InQueue => true
    case AtWorker(stage) => stage.Leaving? ==> stage.outcome.PrepareFailed?
    case Done(outcome) => outcome.PrepareFailed?
  }

  ghost predicate Owned(s: State) {
    forall x | x in s.shadow :: s.shadow[x] < |s.jobs| && s.jobs[s.shadow[x]].slot == x && Owner(PhaseOf(s.pool, s.shadow[x]))
  }

  lemma OwnedStep(c: Config, s: State, e: Event, s': State)
    requires Placed(c, s) && Owned(s) && Next(c, s, e, s')
    ensures Owned(s')
  {
    forall x | x in s'.shadow
      ensures s'.shadow[x] < |s'.jobs| && s'.jobs[s'.shadow[x]].slot == x && Owner(PhaseOf(s'.pool, s'.shadow[x]))
    {
      if x in s.shadow && s.shadow[x] == s'.shadow[x] {
        KeptShadow(c, s, e, s', x);
      } else {
        NewShadow(c, s, e, s', x);
      }
    }
  }

  lemma KeptShadow(c: Config, s: State, e: Event, s': State, x: Slot)
    requires Placed(c, s) && Owned(s) && Next(c, s, e, s')
    requires x in s.shadow && x in s'.shadow && s.shadow[x] == s'.shadow[x]
    ensures s'.shadow[x] < |s'.jobs| && s'.jobs[s'.shadow[x]].slot == x && Owner(PhaseOf(s'.pool, s'.shadow[x]))
  {
    OwnerStep(c, s, e, s', x);
  }

  lemma NewShadow(c: Config, s: State, e: Event, s': State, x: Slot)
    requires Placed(c, s) && Next(c, s, e, s')
    requires x in s'.shadow && !(x in s.shadow && s.shadow[x] == s'.shadow[x])
    ensures s'.shadow[x] < |s'.jobs| && s'.jobs[s'.shadow[x]].slot == x && Owner(PhaseOf(s'.pool, s'.shadow[x]))
  {
    assert e.SetInsert?;
    PhaseStep(c, s, e, s', s'.shadow[x]);
  }

  lemma OwnerStep(c: Config, s: State, e: Event, s': State, x: Slot)
    requires Placed(c, s) && Owned(s) && Next(c, s, e, s')
    requires x in s.shadow && x in s'.shadow && s.shadow[x] == s'.shadow[x]
    ensures Owner(PhaseOf(s'.pool, s.shadow[x]))
  {
    var t := s.shadow[x];
    PhaseStep(c, s, e, s', t);
    if Acts(s, e, t) && WorkerEvent(e) {
      OwnerWorks(c, s, e, s', x);
    }
  }

  /** A step of a worker inside its loop body. */
  predicate WorkerEvent(e: Event) {
    e.Enter? || e.Prepare? || e.Check? || e.Put? || e.Upsert? || e.Cleanup? || e.Exit?
  }

  lemma OwnerWorks(c: Config, s: State, e: Event, s': State, x: Slot)
    requires Placed(c, s) && Owned(s) && Next(c, s, e, s') && WorkerEvent(e)
    requires x in s.shadow && x in s'.shadow && s.shadow[x] == s'.shadow[x] && Holding(s.pool, e.w, s.shadow[x])
    ensures Owner(PhaseAfter(c, s, e))
  {
    HeldPhase(c, s, e.w);
  }

  lemma HeldPhase(c: Config, s: State, w: nat)
    requires Placed(c, s) && Working(s.pool, w)
    ensures PhaseOf(s.pool, s.pool.workers[w].token) == AtWorker(s.pool.workers[w].stage)
  {
    HoldingPhase(s.pool, w, s.pool.workers[w].token);
  }

  lemma {:induction false} OwnedAlong(c: Config, states: seq<State>, events: seq<Event>, i: nat)
    requires IsRun(c, states, events) && i < |states|
    ensures Owned(states[i])
  {
    if i > 0 {
      OwnedAlong(c, states, events, i - 1);
      PlacedAlong(c, states, events, i - 1);
      assert StepAt(c, states, events, i - 1);
      OwnedStep(c, states[i - 1], events[i - 1], states[i]);
    }
  }

  ghost predicate Quiescent(s: State) {
    && s.pool.handlers == map[] && s.pool.queue == []
    && forall w | 0 <= w < |s.pool.workers| :: s.pool.workers[w].Idle?
  }

  /** At rest only failed `prepare` calls leave a shadow behind; without them the buffer is empty. */
  lemma QuiescentShadow(c: Config, states: seq<State>, events: seq<Event>, i: nat)
    requires IsRun(c, states, events) && i < |states| && Quiescent(states[i])
    ensures forall x | x in states[i].shadow :: PhaseOf(states[i].pool, states[i].shadow[x]) == Done(PrepareFailed)
    ensures (forall k | 0 <= k < |events| :: events[k].Prepare? ==> events[k].ok) ==> states[i].shadow == map[]
  {
    var s := states[i];
    PlacedAlong(c, states, events, i);
    OwnedAlong(c, states, events, i);
    forall x | x in s.shadow ensures PhaseOf(s.pool, s.shadow[x]) == Done(PrepareFailed) {
      assert forall w: nat :: !Holding(s.pool, w, s.shadow[x]);
    }
    if forall k | 0 <= k < |events| :: events[k].Prepare? ==> events[k].ok {
      forall t: Token ensures PhaseOf(s.pool, t) != Done(PrepareFailed) {
        NoPrepareFailure(c, states, events, i, t);
      }
      assert s.shadow.Keys == {};
    }
  }

  lemma {:induction false} NoPrepareFailure(c: Config, states: seq<State>, events: seq<Event>, i: nat, t: Token)
    requires IsRun(c, states, events) && i < |states|
    requires forall k | 0 <= k < |events| :: events[k].Prepare? ==> events[k].ok
    ensures PhaseOf(states[i].pool, t) != Done(PrepareFailed)
    ensures PhaseOf(states[i].pool, t) != AtWorker(Leaving(PrepareFailed))
  {
    if i > 0 {
      NoPrepareFailure(c, states, events, i - 1, t);
      var s, e, s' := states[i - 1], events[i - 1], states[i];
      assert StepAt(c, states, events, i - 1);
      PlacedAlong(c, states, events, i - 1);
      NoFailureStep(c, s, e, s', t);
    }
  }

  lemma NoFailureStep(c: Config, s: State, e: Event, s': State, t: Token)
    requires Placed(c, s) && Next(c, s, e, s') && (e.Prepare? ==> e.ok)
    requires PhaseOf(s.pool, t) != Done(PrepareFailed) && PhaseOf(s.pool, t) != AtWorker(Leaving(PrepareFailed))
    ensures PhaseOf(s'.pool, t) != Done(PrepareFailed) && PhaseOf(s'.pool, t) != AtWorker(Leaving(PrepareFailed))
  {
    PhaseStep(c, s, e, s', t);
    if e.Exit? && Holding(s.pool, e.w, t) {
      HeldPhase(c, s, e.w);
    }
  }

  /** A shadow changes only through a set or delete of its own entry, or through the rollback or
      cleanup of the very write it holds. */
  lemma ShadowChangesOnlyBy(c: Config, states: seq<State>, events: seq<Event>, i: nat, x: Slot)
    requires IsRun(c, states, events) && i < |events| && x in states[i].shadow
    requires x !in states[i + 1].shadow || states[i + 1].shadow[x] != states[i].shadow[x]
    ensures var s, e := states[i], events[i];
            || Touches(e, x)
            || (e.Rollback? && e.t == s.shadow[x])
            || (e.Cleanup? && Holding(s.pool, e.w, s.shadow[x]))
  {
    OwnedAlong(c, states, events, i);
    assert StepAt(c, states, events, i);
  }

  /** The event is a set or a delete of entry `x`: it changes the slot whatever the slot holds. */
  predicate Touches(e: Event, x: Slot) {
    (e.SetInsert? || e.DelShadow?) && e.slot == x
  }

  // ------------------------------------------------------------------ supersession

  /** The write is still to be checked. */
  predicate Unchecked(phase: Phase) {
    || phase == AtHandler(Inserted) || phase.InQueue?
    || (phase.AtWorker? && (phase.stage.Received? || phase.stage.Entered? || phase.stage.Prepared?))
  }

  /** The write has passed its check: it is committing, or ended committing. */
  predicate Passed(phase: Phase) {
    match phase
    case AtWorker(stage) =>
      || stage.Checked? || stage.Stored? || stage.Cleaning?
      || (stage.Leaving? && (stage.outcome.Committed? || stage.outcome.CommitFailed?))
    case Done(outcome) => outcome.Committed? || outcome.CommitFailed?
    case _ => false
  }

  /** The write has lost its slot before its check, so it can never pass it. */
  ghost predicate Doomed(s: State, t: Token) {
    t < |s.jobs| && !Passed(PhaseOf(s.pool, t)) && !HoldsToken(s.shadow, s.jobs[t].slot, t)
  }

  lemma DoomedStep(c: Config, s: State, e: Event, s': State, t: Token)
    requires Placed(c, s) && Doomed(s, t) && Next(c, s, e, s')
    ensures Doomed(s', t)
  {
    PhaseStep(c, s, e, s', t);
    if Acts(s, e, t) && WorkerEvent(e) {
      DoomedWorks(c, s, e, s', t);
    }
  }

  lemma DoomedWorks(c: Config, s: State, e: Event, s': State, t: Token)
    requires Placed(c, s) && Doomed(s, t) && Next(c, s, e, s') && WorkerEvent(e) && Holding(s.pool, e.w, t)
    ensures !Passed(PhaseAfter(c, s, e))
  {
  }

  lemma {:induction false} DoomedAlong(c: Config, states: seq<State>, events: seq<Event>, i: nat, j: nat, t: Token)
    requires IsRun(c, states, events) && i <= j < |states| && Doomed(states[i], t)
    ensures Doomed(states[j], t)
  {
    if i < j {
      DoomedAlong(c, states, events, i, j - 1, t);
      PlacedAlong(c, states, events, j - 1);
      assert StepAt(c, states, events, j - 1);
      DoomedStep(c, states[j - 1], events[j - 1], states[j], t);
    }
  }

  lemma TouchDooms(c: Config, s: State, e: Event, s': State, t: Token)
    requires Placed(c, s) && Next(c, s, e, s') && t < |s.jobs|
    requires !Passed(PhaseOf(s.pool, t)) && Touches(e, s.jobs[t].slot)
    ensures Doomed(s', t)
  {
    PhaseStep(c, s, e, s', t);
  }

  /** Supersession: once a later set or a delete touches its entry before its check, a write never
      puts or indexes anything, and never ends as committed. */
  lemma SupersededNeverCommits(c: Config, states: seq<State>, events: seq<Event>, i: nat, j: nat, t: Token)
    requires IsRun(c, states, events) && i < j < |states| && t < |states[i].jobs|
    requires !Passed(PhaseOf(states[i].pool, t)) && Touches(events[i], states[i].jobs[t].slot)
    ensures !Passed(PhaseOf(states[j].pool, t))
    ensures j < |events| && (events[j].Put? || events[j].Upsert?) ==> !Holding(states[j].pool, events[j].w, t)
  {
    assert StepAt(c, states, events, i);
    PlacedAlong(c, states, events, i);
    TouchDooms(c, states[i], events[i], states[i + 1], t);
    DoomedAlong(c, states, events, i + 1, j, t);
    if j < |events| {
      PlacedAlong(c, states, events, j);
      assert StepAt(c, states, events, j);
      if events[j].Put? || events[j].Upsert? {
        HeldPhase(c, states[j], events[j].w);
      }
    }
  }

  // ------------------------------------------------------------------ exactly which writes pass

  /** A write that is no longer to be checked never becomes so again. */
  lemma {:induction false} UncheckedBefore(c: Config, states: seq<State>, events: seq<Event>, k: nat, b: nat, t: Token)
    requires IsRun(c, states, events) && k <= b < |states| && t < |states[k].jobs|
    requires Unchecked(PhaseOf(states[b].pool, t))
    ensures Unchecked(PhaseOf(states[k].pool, t))
    decreases b - k
  {
    if k < b {
      assert StepAt(c, states, events, k);
      UncheckedBefore(c, states, events, k + 1, b, t);
      PlacedAlong(c, states, events, k);
      UncheckedStep(c, states[k], events[k], states[k + 1], t);
    }
  }

  lemma UncheckedStep(c: Config, s: State, e: Event, s': State, t: Token)
    requires Placed(c, s) && Next(c, s, e, s') && t < |s.jobs| && Unchecked(PhaseOf(s'.pool, t))
    ensures Unchecked(PhaseOf(s.pool, t))
  {
    PhaseStep(c, s, e, s', t);
    if Acts(s, e, t) && !e.Push? && !e.Rollback? && !e.Recv? {
      HeldPhase(c, s, e.w);
    } else if e.Recv? && Acts(s, e, t) {
      assert t in s.pool.queue;
    }
  }

  lemma UntouchedStep(c: Config, s: State, e: Event, s': State, t: Token)
    requires Placed(c, s) && Next(c, s, e, s') && t < |s.jobs|
    requires Unchecked(PhaseOf(s.pool, t)) && HoldsToken(s.shadow, s.jobs[t].slot, t) && !Touches(e, s.jobs[t].slot)
    ensures HoldsToken(s'.shadow, s'.jobs[t].slot, t)
  {
  }

  lemma {:induction false} UntouchedAlong(c: Config, states: seq<State>, events: seq<Event>, a: nat, b: nat, t: Token)
    requires IsRun(c, states, events) && a < b < |states|
    requires events[a].SetInsert? && t == |states[a].jobs|
    requires forall k | a < k < b :: !Touches(events[k], events[a].slot)
    requires Unchecked(PhaseOf(states[b].pool, t))
    ensures t < |states[b].jobs| && states[b].jobs[t].slot == events[a].slot
    ensures HoldsToken(states[b].shadow, events[a].slot, t)
  {
    assert StepAt(c, states, events, a);
    if a + 1 < b {
      JobsKept(c, states, events, a + 1, b - 1);
      UncheckedBefore(c, states, events, b - 1, b, t);
      UntouchedAlong(c, states, events, a, b - 1, t);
      PlacedAlong(c, states, events, b - 1);
      assert StepAt(c, states, events, b - 1);
      UntouchedStep(c, states[b - 1], events[b - 1], states[b], t);
      JobsKept(c, states, events, b - 1, b);
    }
  }

  lemma {:induction false} JobsKept(c: Config, states: seq<State>, events: seq<Event>, i: nat, j: nat)
    requires IsRun(c, states, events) && i <= j < |states|
    ensures states[i].jobs <= states[j].jobs
  {
    if i < j {
      JobsKept(c, states, events, i, j - 1);
      assert StepAt(c, states, events, j - 1);
    }
  }

  lemma TouchedFails(c: Config, states: seq<State>, events: seq<Event>, a: nat, k: nat, b: nat, t: Token)
    requires IsRun(c, states, events) && a < k < b < |states|
    requires events[a].SetInsert? && t == |states[a].jobs| && Touches(events[k], events[a].slot)
    requires Unchecked(PhaseOf(states[b].pool, t))
    ensures t < |states[b].jobs| && states[b].jobs[t].slot == events[a].slot
    ensures !HoldsToken(states[b].shadow, events[a].slot, t)
  {
    assert StepAt(c, states, events, a) && StepAt(c, states, events, k);
    JobsKept(c, states, events, a + 1, k);
    JobsKept(c, states, events, k, b);
    UncheckedBefore(c, states, events, k, b, t);
    PlacedAlong(c, states, events, k);
    TouchDooms(c, states[k], events[k], states[k + 1], t);
    DoomedAlong(c, states, events, k + 1, b, t);
  }

  lemma CheckStep(c: Config, s: State, e: Event, s': State, t: Token)
    requires Next(c, s, e, s') && e.Check? && Holding(s.pool, e.w, t)
    ensures t < |s.jobs| && (At(s', e.w, Checked) <==> HoldsToken(s.shadow, s.jobs[t].slot, t))
  {
  }

  /** The `holds` check of a write passes exactly when no set or delete of its entry came between its
      own shadow insert and the check.  Refused sets count: they insert before the queue refuses them. */
  lemma CheckPassesIffUntouched(c: Config, states: seq<State>, events: seq<Event>, a: nat, b: nat, t: Token)
    requires IsRun(c, states, events) && a < b < |events|
    requires events[a].SetInsert? && t == |states[a].jobs|
    requires events[b].Check? && Holding(states[b].pool, events[b].w, t)
    ensures At(states[b + 1], events[b].w, Checked) <==> forall k | a < k < b :: !Touches(events[k], events[a].slot)
  {
    assert StepAt(c, states, events, b);
    CheckStep(c, states[b], events[b], states[b + 1], t);
    PlacedAlong(c, states, events, b);
    HeldPhase(c, states[b], events[b].w);
    if k :| a < k < b && Touches(events[k], events[a].slot) {
      TouchedFails(c, states, events, a, k, b, t);
    } else {
      UntouchedAlong(c, states, events, a, b, t);
    }
  }
}
