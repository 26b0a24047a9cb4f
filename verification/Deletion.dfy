/**
 When a delete is final: no write that was under way brings the entry back.
 */
module Deletion {
  import opened Shadow
  import opened WriteBehind
  import opened Phases
  import opened Ownership
  import opened Common
  import opened Refinement

  /** A worker has passed its check for `x` and not yet indexed it. */
  ghost predicate Committing(s: State, x: Slot) {
    exists w: nat :: CommittingAt(s, w, x)
  }

  predicate CommittingAt(s: State, w: nat, x: Slot) {
    (At(s, w, Checked) || At(s, w, Stored)) && s.jobs[s.pool.workers[w].token].slot == x
  }

  /** The event puts or upserts entry `x`. */
  predicate Writes(s: State, e: Event, x: Slot) {
    && (e.Put? || e.Upsert?) && Working(s.pool, e.w)
    && s.pool.workers[e.w].token < |s.jobs| && s.jobs[s.pool.workers[e.w].token].slot == x
  }

  /** No set of `x` among the events from `i` up to `j`. */
  predicate NoSet(events: seq<Event>, i: nat, j: nat, x: Slot)
    requires i <= j <= |events|
  {
    forall k | i <= k < j :: !(events[k].SetInsert? && events[k].slot == x)
  }

  lemma {:induction false} BornBefore(c: Config, states: seq<State>, events: seq<Event>, i: nat, j: nat, t: Token)
    requires IsRun(c, states, events) && i <= j < |states| && t < |states[j].jobs|
    requires NoSet(events, i, j, states[j].jobs[t].slot)
    ensures t < |states[i].jobs| && states[i].jobs[t] == states[j].jobs[t]
  {
    if i < j {
      assert StepAt(c, states, events, j - 1);
      BornBefore(c, states, events, i, j - 1, t);
    }
  }

  /** The write is past both stores. */
  predicate Past(phase: Phase) {
    phase.Done? || (phase.AtWorker? && (phase.stage.Cleaning? || phase.stage.Leaving?))
  }

  lemma {:induction false} PastAlong(c: Config, states: seq<State>, events: seq<Event>, i: nat, j: nat, t: Token)
    requires IsRun(c, states, events) && i <= j < |states| && t < |states[i].jobs| && Past(PhaseOf(states[i].pool, t))
    ensures Past(PhaseOf(states[j].pool, t))
  {
    if i < j {
      PastAlong(c, states, events, i, j - 1, t);
      assert StepAt(c, states, events, j - 1);
      PlacedAlong(c, states, events, j - 1);
      JobsKept(c, states, events, i, j - 1);
      PastStep(c, states[j - 1], events[j - 1], states[j], t);
    }
  }

  lemma PastStep(c: Config, s: State, e: Event, s': State, t: Token)
    requires Placed(c, s) && Next(c, s, e, s') && t < |s.jobs| && Past(PhaseOf(s.pool, t))
    ensures Past(PhaseOf(s'.pool, t))
  {
    PhaseStep(c, s, e, s', t);
    if Acts(s, e, t) && WorkerEvent(e) {
      HeldPhase(c, s, e.w);
    }
  }

  lemma PassedButNotCommitting(c: Config, s: State, t: Token)
    requires Placed(c, s) && t < |s.jobs| && Passed(PhaseOf(s.pool, t)) && !Committing(s, s.jobs[t].slot)
    ensures Past(PhaseOf(s.pool, t))
  {
    if PhaseOf(s.pool, t).AtWorker? {
      var w: nat :| Holding(s.pool, w, t) && PhaseOf(s.pool, t) == AtWorker(s.pool.workers[w].stage);
      assert !CommittingAt(s, w, s.jobs[t].slot);
    }
  }

  /** A delete with no commit of its entry under way is final: only a later set writes the entry again. */
  lemma DeleteIsFinal(c: Config, states: seq<State>, events: seq<Event>, i: nat, j: nat, x: Slot)
    requires IsRun(c, states, events) && i < j < |events|
    requires events[i].DelShadow? && events[i].slot == x && !Committing(states[i], x)
    requires NoSet(events, i, j, x)
    ensures !Writes(states[j], events[j], x)
  {
    assert StepAt(c, states, events, j);
    if Writes(states[j], events[j], x) {
      var w: nat := events[j].w;
      var t := states[j].pool.workers[w].token;
      BornBefore(c, states, events, i, j, t);
      if Passed(PhaseOf(states[i].pool, t)) {
        PlacedAlong(c, states, events, i);
        PassedButNotCommitting(c, states[i], t);
        PastAlong(c, states, events, i, j, t);
        PlacedAlong(c, states, events, j);
        HeldPhase(c, states[j], w);
      } else {
        SupersededNeverCommits(c, states, events, i, j, t);
      }
    }
  }

  /** A commit under way at the delete can still index the entry. */
  lemma DeleteUndone(c: Config, states: seq<State>, events: seq<Event>, x: Slot)
      returns (states': seq<State>, events': seq<Event>)
    requires IsRun(c, states, events) && Committing(states[|events|], x)
    ensures IsRun(c, states', events') && events <= events' && states <= states'
    ensures |events| < |events'| <= |events| + 2 && NoSet(events', |events|, |events'|, x)
    ensures Writes(states'[|events'| - 1], events'[|events'| - 1], x) && x in states'[|events'|].index
  {
    var s := states[|events|];
    var w: nat :| CommittingAt(s, w, x);
    states', events' := states, events;
    if At(s, w, Checked) {
      states', events' := Extend(c, states', events', Put(w, true));
    }
    assert At(states'[|events'|], w, Stored);
    states', events' := Extend(c, states', events', Upsert(w, true));
  }

  /** In every continuation of the run the entry stays unwritten until it is set again. */
  ghost predicate StaysDeleted(c: Config, states: seq<State>, events: seq<Event>, x: Slot) {
    forall states', events', j: nat | IsRun(c, states', events') && states <= states' && events <= events' ::
      |events| <= j < |events'| && NoSet(events', |events|, j, x) ==> !Writes(states'[j], events'[j], x)
  }

  /** The delete that ends this run is final if and only if no worker is between its check and its
      upsert for the entry. */
  lemma DeleteFinalIff(c: Config, states: seq<State>, events: seq<Event>, x: Slot)
    requires IsRun(c, states, events) && |events| > 0
    requires events[|events| - 1].DelShadow? && events[|events| - 1].slot == x
    ensures StaysDeleted(c, states, events, x) <==> !Committing(states[|events| - 1], x)
  {
    var i := |events| - 1;
    assert StepAt(c, states, events, i);
    if w: nat :| CommittingAt(states[i], w, x) {
      assert CommittingAt(states[i + 1], w, x);
      var states', events' := DeleteUndone(c, states, events, x);
      assert NoSet(events', |events|, |events'| - 1, x);
    } else {
      forall states', events', j: nat | IsRun(c, states', events') && states <= states' && events <= events'
          && |events| <= j < |events'| && NoSet(events', |events|, j, x)
        ensures !Writes(states'[j], events'[j], x)
      {
        assert events'[i] == events[i] && states'[i] == states[i];
        DeleteIsFinal(c, states', events', i, j, x);
      }
    }
  }

  // ------------------------------------------------------------------ what a get sees

  lemma NoShadowStep(c: Config, s: State, e: Event, s': State, x: Slot)
    requires Next(c, s, e, s') && x !in s.shadow && !(e.SetInsert? && e.slot == x)
    ensures x !in s'.shadow
  {
  }

  lemma NoIndexStep(c: Config, s: State, e: Event, s': State, x: Slot)
    requires Next(c, s, e, s') && x !in s.index && !Writes(s, e, x)
    ensures x !in s'.index
  {
  }

  /** Without a new set a dropped shadow stays away, */
  lemma {:induction false} ShadowStaysAway(c: Config, states: seq<State>, events: seq<Event>, i: nat, j: nat, x: Slot)
    requires IsRun(c, states, events) && i < j < |states|
    requires events[i].DelShadow? && events[i].slot == x && NoSet(events, i, j, x)
    ensures x !in states[j].shadow
  {
    assert StepAt(c, states, events, j - 1);
    if i + 1 < j {
      ShadowStaysAway(c, states, events, i, j - 1, x);
      NoShadowStep(c, states[j - 1], events[j - 1], states[j], x);
    }
  }

  /** The delete unindexed `x`. */
  predicate Unindexes(s: State, e: Event, x: Slot) {
    e.DelVector? && e.ok && e.d in s.deleters && s.deleters[e.d] == Found(x)
  }

  /** and so does an unindexed entry. */
  lemma {:induction false} IndexStaysAway(c: Config, states: seq<State>, events: seq<Event>, i: nat, k: nat, j: nat, x: Slot)
    requires IsRun(c, states, events) && i < k < j < |states|
    requires events[i].DelShadow? && events[i].slot == x && !Committing(states[i], x)
    requires Unindexes(states[k], events[k], x) && NoSet(events, i, j, x)
    ensures x !in states[j].index
  {
    assert StepAt(c, states, events, j - 1);
    if k + 1 < j {
      IndexStaysAway(c, states, events, i, k, j - 1, x);
      DeleteIsFinal(c, states, events, i, j - 1, x);
      NoIndexStep(c, states[j - 1], events[j - 1], states[j], x);
    }
  }

  /** A delete that drops the shadow with no commit of the entry under way, and later unindexes it, makes it
      invisible: no get sees it again before it is set again. */
  lemma DeletedIsInvisible(c: Config, states: seq<State>, events: seq<Event>, i: nat, k: nat, j: nat, x: Slot)
    requires IsRun(c, states, events) && i < k < j < |states|
    requires events[i].DelShadow? && events[i].slot == x && !Committing(states[i], x)
    requires Unindexes(states[k], events[k], x) && NoSet(events, i, j, x)
    ensures View(states[j], x) == None
  {
    ShadowStaysAway(c, states, events, i, j, x);
    IndexStaysAway(c, states, events, i, k, j, x);
  }
}
