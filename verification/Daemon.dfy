/**
 The code of the daemon's handlers and of its worker loop, run without interruption: each keeps the
 history of the daemon a run of the step system, so every result about runs holds of its state.
 */
module Daemon {
  import opened Common
  import opened Identity
  import opened Shadow
  import opened WriteBehind
  import opened Phases
  import opened Ownership
  import Refinement

  class WriteQueue {
    const capacity: nat
    var queue: seq<Token>
    var inFlight: int

    constructor (capacity: nat)
      ensures this.capacity == capacity && queue == [] && inFlight == 0
    {
      this.capacity, queue, inFlight := capacity, [], 0;
    }

    method TryPush(t: Token) returns (accepted: bool)
      modifies this`queue
      ensures accepted <==> |old(queue)| < capacity
      ensures queue == if accepted then old(queue) + [t] else old(queue)
    {
      accepted := |queue| < capacity;
      if accepted {
        queue := queue + [t];
      }
    }

    method Receive() returns (t: Token)
      requires queue != []
      modifies this`queue
      ensures old(queue) == [t] + queue
    {
      t := queue[0];
      queue := queue[1..];
    }

    method IsDrained() returns (drained: bool)
      ensures drained <==> queue == [] && inFlight == 0
    {
      drained := queue == [] && inFlight == 0;
    }
  }

  /** How the backends answer one write. */
  datatype Answers = Answers(prepare: bool, put: bool, upsert: bool)

  /** How the lookup of a delete ends. */
  datatype Search = Failed | Missed | Matched(hit: Slot)

  function Match(search: Search): Option<Slot> {
    if search.Matched? then Some(search.hit) else None
  }

  class Server {
    const c: Config
    const pending: PendingWrites<Slot>
    const writer: WriteQueue
    var jobs: seq<Job>
    var objects: map<Slot, Bytes>
    var index: set<Slot>
    ghost var states: seq<State>
    ghost var events: seq<Event>

    ghost function Now(): State
      reads this
      requires |states| > |events|
    {
      states[|events|]
    }

    ghost predicate Valid()
      reads this, pending, writer
    {
      && IsRun(c, states, events) && writer.capacity == c.capacity
      && Now().jobs == jobs && Now().shadow == pending.entries && Now().objects == objects && Now().index == index
      && Now().pool.queue == writer.queue && Now().inFlight == writer.inFlight
    }

    constructor (c: Config)
      ensures Valid() && events == [] && this.c == c
      ensures fresh(pending) && fresh(writer)
    {
      this.c := c;
      pending := new PendingWrites();
      writer := new WriteQueue(c.capacity);
      jobs, objects, index := [], map[], {};
      events := [];
      states := [State([], map[], Pool(map[], {}, [], seq(c.workers, _ => Idle), map[]), 0, map[], {}, map[])];
    }

    ghost method Step(e: Event)
      requires IsRun(c, states, events) && Enabled(c, Now(), e)
      modifies this`states, this`events
      ensures IsRun(c, states, events) && events == old(events) + [e]
      ensures Now() == Apply(c, old(Now()), e)
    {
      var states', events' := Extend(c, states, events, e);
      states, events := states', events';
    }

    /** Shadow first, queue second; a refused write takes its own shadow back. */
    method HandleSet(slot: Slot, value: Bytes) returns (accepted: bool)
      requires Valid()
      modifies this, pending, writer
      ensures Valid() && accepted == (|old(writer.queue)| < c.capacity)
      ensures var t := |old(jobs)|;
              events == old(events) + [SetInsert(slot, value), Push(t)] + (if accepted then [] else [Rollback(t)])
      ensures accepted ==> Refinement.View(Now(), slot) == Some(value)
    {
      var t := |jobs|;
      jobs := jobs + [Job(slot, value)];
      pending.Insert(slot, t);
      Step(SetInsert(slot, value));
      accepted := writer.TryPush(t);
      Step(Push(t));
      if !accepted {
        var _ := pending.RemoveIfHeld(slot, t);
        Step(Rollback(t));
      }
    }

    /** The exact-match path of a get: the shadow, or the object of the entry if the index has it. */
    method HandleGet(slot: Slot) returns (value: Option<Bytes>)
      requires Valid()
      ensures value == Refinement.View(Now(), slot)
    {
      OwnedAlong(c, states, events, |events|);
      var t := pending.Get(slot);
      if t.Some? {
        return Some(jobs[t.value].value);
      }
      return if slot in index && slot in objects then Some(objects[slot]) else None;
    }

    /** One turn of the loop of the idle worker `w`. */
    method RunNext(w: nat, a: Answers) returns (outcome: Outcome)
      requires Valid() && writer.queue != []
      requires w < |Now().pool.workers| && Now().pool.workers[w].Idle?
      modifies this, pending, writer
      ensures Valid() && jobs == old(jobs) && old(writer.queue) == [old(writer.queue)[0]] + writer.queue
      ensures old(events) <= events && PhaseOf(Now().pool, old(writer.queue)[0]) == Done(outcome)
      ensures old(writer.queue)[0] < |jobs|
      ensures var t := old(writer.queue)[0];
              var slot, held := jobs[t].slot, HoldsToken(old(pending.entries), jobs[t].slot, t);
              && outcome == (if !a.prepare then PrepareFailed else if !held then Skipped
                             else if a.put && a.upsert then Committed else CommitFailed)
              && pending.entries == (if a.prepare && held then old(pending.entries) - {slot} else old(pending.entries))
              && objects == (if a.prepare && held && a.put then old(objects)[slot := jobs[t].value] else old(objects))
              && index == old(index) + (if outcome.Committed? then {slot} else {})
              && writer.inFlight == old(writer.inFlight)
    {
      var t := Take(w);
      outcome := RunJob(w, t, a);
      writer.inFlight := writer.inFlight - 1;
      Step(Exit(w));
      PlacedAlong(c, states, events, |events|);
    }

    /** From the queue to inside the in-flight guard. */
    method Take(w: nat) returns (t: Token)
      requires Valid() && writer.queue != []
      requires w < |Now().pool.workers| && Now().pool.workers[w].Idle?
      modifies this`states, this`events, writer
      ensures Valid() && old(writer.queue) == [t] + writer.queue && writer.inFlight == old(writer.inFlight) + 1
      ensures events == old(events) + [Recv(w), Enter(w)]
      ensures At(Now(), w, Entered) && Now().pool.workers[w].token == t
    {
      PlacedAlong(c, states, events, |events|);
      t := writer.Receive();
      assert t in Now().pool.queue;
      Step(Recv(w));
      writer.inFlight := writer.inFlight + 1;
      Step(Enter(w));
    }

    method RunJob(w: nat, t: Token, a: Answers) returns (outcome: Outcome)
      requires Valid() && At(Now(), w, Entered) && Now().pool.workers[w].token == t
      modifies this, pending
      ensures Valid() && jobs == old(jobs) && old(events) <= events
      ensures Now().pool == Move(old(Now()).pool, w, Leaving(outcome))
      ensures var slot, held := jobs[t].slot, HoldsToken(old(pending.entries), jobs[t].slot, t);
              && outcome == (if !a.prepare then PrepareFailed else if !held then Skipped
                             else if a.put && a.upsert then Committed else CommitFailed)
              && pending.entries == (if a.prepare && held then old(pending.entries) - {slot} else old(pending.entries))
              && objects == (if a.prepare && held && a.put then old(objects)[slot := jobs[t].value] else old(objects))
              && index == old(index) + (if outcome.Committed? then {slot} else {})
    {
      Step(Prepare(w, a.prepare));
      if !a.prepare {
        return PrepareFailed;
      }
      var job := jobs[t];
      var held := pending.Holds(job.slot, t);
      Step(Check(w));
      if !held {
        return Skipped;
      }
      outcome := CommitAndClean(w, t, a);
    }

    method CommitAndClean(w: nat, t: Token, a: Answers) returns (outcome: Outcome)
      requires Valid() && At(Now(), w, Checked) && Now().pool.workers[w].token == t
      modifies this, pending
      ensures Valid() && jobs == old(jobs) && old(events) <= events
      ensures outcome == if a.put && a.upsert then Committed else CommitFailed
      ensures Now().pool == Move(old(Now()).pool, w, Leaving(outcome))
      ensures pending.entries == RemoveIf(old(pending.entries), jobs[t].slot, t)
      ensures objects == if a.put then old(objects)[jobs[t].slot := jobs[t].value] else old(objects)
      ensures index == old(index) + (if outcome.Committed? then {jobs[t].slot} else {})
    {
      var durable := Commit(w, t, a);
      var _ := pending.RemoveIfHeld(jobs[t].slot, t);
      Step(Cleanup(w));
      return if durable then Committed else CommitFailed;
    }

    method Commit(w: nat, t: Token, a: Answers) returns (durable: bool)
      requires Valid() && At(Now(), w, Checked) && Now().pool.workers[w].token == t
      modifies this
      ensures Valid() && jobs == old(jobs) && old(events) <= events && durable == (a.put && a.upsert)
      ensures Now().pool == Move(old(Now()).pool, w, Cleaning(durable))
      ensures objects == if a.put then old(objects)[jobs[t].slot := jobs[t].value] else old(objects)
      ensures index == old(index) + (if durable then {jobs[t].slot} else {})
    {
      var job := jobs[t];
      if a.put {
        objects := objects[job.slot := job.value];
      }
      Step(Put(w, a.put));
      if !a.put {
        return false;
      }
      if a.upsert {
        index := index + {job.slot};
      }
      Step(Upsert(w, a.upsert));
      return a.upsert;
    }

    /** `search` is what the lookup answers once the shadow is gone; None as a result is an error reply. */
    method HandleDel(d: nat, slot: Slot, search: Search, unindexed: bool, dropped: bool)
        returns (deleted: Option<bool>)
      requires Valid() && d !in Now().deleters && (search.Matched? ==> search.hit in index)
      modifies this, pending
      ensures Valid() && old(events) + [DelShadow(d, slot), DelMatch(d, Match(search))] <= events
      ensures pending.entries == old(pending.entries) - {slot}
      ensures deleted == match search
                         case Failed => None
                         case Missed => Some(slot in old(pending.entries))
                         case Matched(_) => if unindexed && dropped then Some(true) else None
      ensures index == old(index) - (if search.Matched? && unindexed then {search.hit} else {})
      ensures objects == old(objects) - (if search.Matched? && unindexed && dropped then {search.hit} else {})
    {
      var removed := pending.Remove(slot);
      Step(DelShadow(d, slot));
      Step(DelMatch(d, Match(search)));
      match search {
        case Failed => return None;
        case Missed => return Some(removed);
        case Matched(hit) =>
          var gone := DropEntry(d, hit, unindexed, dropped);
          return if gone then Some(true) else None;
      }
    }

    method DropEntry(d: nat, hit: Slot, unindexed: bool, dropped: bool) returns (gone: bool)
      requires Valid() && d in Now().deleters && Now().deleters[d] == Found(hit)
      modifies this
      ensures Valid() && old(events) <= events && gone == (unindexed && dropped)
      ensures index == old(index) - (if unindexed then {hit} else {})
      ensures objects == old(objects) - (if gone then {hit} else {})
    {
      if unindexed {
        index := index - {hit};
      }
      Step(DelVector(d, unindexed));
      if !unindexed {
        return false;
      }
      if dropped {
        objects := objects - {hit};
      }
      Step(DelObject(d, dropped));
      return dropped;
    }
  }
}
