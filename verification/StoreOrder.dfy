/**
 Object first, index second on a write; index first, object second on a delete: no index entry is
 left pointing at a missing object, at any half-step, unless a commit overlaps a delete of the same
 entry.
 */
module StoreOrder {
  import opened Shadow
  import opened WriteBehind

  /** Some worker has put the object of `x` and not yet indexed it. */
  ghost predicate MidCommit(s: State, x: Slot) {
    exists w: nat :: Working(s.pool, w) && s.pool.workers[w].stage.Stored?
      && s.pool.workers[w].token < |s.jobs| && s.jobs[s.pool.workers[w].token].slot == x
  }

  /** Some delete has unindexed `x` and not yet dropped its object. */
  ghost predicate MidDelete(s: State, x: Slot) {
    exists d: nat :: d in s.deleters && s.deleters[d] == Unindexed(x)
  }

  /** The event opens a commit window inside a delete window of the same entry, or the reverse. */
  ghost predicate Overlaps(c: Config, s: State, e: Event)
    requires Enabled(c, s, e)
  {
    || (e.Put? && e.ok && MidDelete(s, s.jobs[s.pool.workers[e.w].token].slot))
    || (e.DelVector? && e.ok && MidCommit(s, s.deleters[e.d].hit))
  }

  ghost predicate Ordered(s: State) {
    && (forall x | x in s.index :: x in s.objects)
    && (forall w: nat | Working(s.pool, w) && s.pool.workers[w].stage.Stored? ::
          s.pool.workers[w].token < |s.jobs| && s.jobs[s.pool.workers[w].token].slot in s.objects
          && !MidDelete(s, s.jobs[s.pool.workers[w].token].slot))
    && (forall d: nat | d in s.deleters && s.deleters[d].Unindexed? :: s.deleters[d].hit !in s.index)
  }

  lemma OrderedCommit(c: Config, s: State, e: Event, s': State)
    requires Ordered(s) && Next(c, s, e, s') && !Overlaps(c, s, e)
    requires e.Put? || e.Upsert?
    ensures Ordered(s')
  {
  }

  /** Every other event leaves the stores, the deletes and the stored workers alone. */
  lemma OrderedQuiet(c: Config, s: State, e: Event, s': State)
    requires Ordered(s) && Next(c, s, e, s') && !e.Put? && !e.Upsert?
    requires !e.DelShadow? && !e.DelMatch? && !e.DelVector? && !e.DelObject?
    ensures Ordered(s')
  {
    assert s'.deleters == s.deleters;
    forall w: nat | Working(s'.pool, w) && s'.pool.workers[w].stage.Stored?
      ensures Working(s.pool, w) && s'.pool.workers[w] == s.pool.workers[w]
    {
    }
  }

  lemma OrderedDelete(c: Config, s: State, e: Event, s': State)
    requires Ordered(s) && Next(c, s, e, s') && !Overlaps(c, s, e)
    requires e.DelShadow? || e.DelMatch? || e.DelVector? || e.DelObject?
    ensures Ordered(s')
  {
    forall w: nat | Working(s'.pool, w) && s'.pool.workers[w].stage.Stored?
      ensures s'.pool.workers[w].token < |s'.jobs| && s'.jobs[s'.pool.workers[w].token].slot in s'.objects
      ensures !MidDelete(s', s'.jobs[s'.pool.workers[w].token].slot)
    {
      assert Working(s.pool, w);
    }
  }

  /** Over every run in which no commit window overlaps a delete window of the same entry, whatever
      fails or stops in between, every indexed entry has its object. */
  lemma {:induction false} NoDanglingIndex(c: Config, states: seq<State>, events: seq<Event>, i: nat)
    requires IsRun(c, states, events) && i < |states|
    requires forall k | 0 <= k < i :: Enabled(c, states[k], events[k]) ==> !Overlaps(c, states[k], events[k])
    ensures Ordered(states[i])
    ensures states[i].index <= states[i].objects.Keys
  {
    if i > 0 {
      NoDanglingIndex(c, states, events, i - 1);
      var s, e, s' := states[i - 1], events[i - 1], states[i];
      assert StepAt(c, states, events, i - 1);
      if e.DelShadow? || e.DelMatch? || e.DelVector? || e.DelObject? {
        OrderedDelete(c, s, e, s');
      } else if e.Put? || e.Upsert? {
        OrderedCommit(c, s, e, s');
      } else {
        OrderedQuiet(c, s, e, s');
      }
    }
  }

  /** The condition cannot be dropped: every overlap of either kind can be completed to a state with
      an index entry whose object is gone. */
  lemma OverlapCanDangle(c: Config, states: seq<State>, events: seq<Event>, e: Event)
      returns (states': seq<State>, events': seq<Event>, x: Slot)
    requires IsRun(c, states, events)
    requires Enabled(c, states[|events|], e) && Overlaps(c, states[|events|], e)
    ensures IsRun(c, states', events') && events + [e] <= events'
    ensures x in states'[|events'|].index && x !in states'[|events'|].objects
  {
    var s := states[|events|];
    states', events' := Extend(c, states, events, e);
    if e.Put? {
      x := s.jobs[s.pool.workers[e.w].token].slot;
      var d: nat :| d in s.deleters && s.deleters[d] == Unindexed(x);
      states', events' := Extend(c, states', events', Upsert(e.w, true));
      states', events' := Extend(c, states', events', DelObject(d, true));
    } else {
      x := s.deleters[e.d].hit;
      var w: nat :| Working(s.pool, w) && s.pool.workers[w].stage.Stored?
        && s.pool.workers[w].token < |s.jobs| && s.jobs[s.pool.workers[w].token].slot == x;
      states', events' := Extend(c, states', events', DelObject(e.d, true));
      states', events' := Extend(c, states', events', Upsert(w, true));
    }
  }
}
