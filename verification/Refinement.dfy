/**
 Read-after-write: the shadow over the two stores behaves as one plain map, and a read that missed the
 shadow still returns a value the map had while the read was under way.

 The runs here have no deletes, no refused sets and no backend failures.  What is left is exactly
 one hazard: a write that passes its check while an older write of the same entry, already checked,
 has not put its object yet.
 */
module Refinement {
  import opened Common
  import opened Identity
  import opened Shadow
  import opened WriteBehind
  import opened Ownership

  /** A get that missed the shadow, and has found its entry in the index or not yet looked there; `seen`
      collects what the map held for the entry since the miss. */
  datatype Reader = Reader(slot: Slot, seen: set<Option<Bytes>>, found: bool)

  datatype Spec = Spec(sys: State, model: map<Slot, Bytes>, readers: map<nat, Reader>)

  datatype Op = Sys(e: Event) | ShadowMiss(r: nat, slot: Slot) | ReadIndex(r: nat) | ReadObject(r: nat)

  function Lookup(m: map<Slot, Bytes>, x: Slot): Option<Bytes> {
    if x in m then Some(m[x]) else None
  }

  /** What a get of the exact entry sees: the shadow, or the object the vector index leads to. */
  function View(s: State, x: Slot): Option<Bytes> {
    if x in s.shadow && s.shadow[x] < |s.jobs| then Some(s.jobs[s.shadow[x]].value)
    else if x in s.index then Lookup(s.objects, x) else None
  }

  /** The shadow or the object, indexed or not. */
  function Latest(s: State, x: Slot): Option<Bytes> {
    if x in s.shadow && s.shadow[x] < |s.jobs| then Some(s.jobs[s.shadow[x]].value) else Lookup(s.objects, x)
  }

  /** Neither a delete, nor a refusal, nor a backend failure. */
  predicate Smooth(c: Config, s: State, e: Event) {
    match e
    case Push(_) => |s.pool.queue| < c.capacity
    case Rollback(_) => false
    case Prepare(_, ok) => ok
    case Put(_, ok) => ok
    case Upsert(_, ok) => ok
    case DelShadow(_, _) => false
    case DelMatch(_, _) => false
    case DelVector(_, _) => false
    case DelObject(_, _) => false
    case _ => true
  }

  function SlotAt(s: State, w: nat): Slot
    requires Working(s.pool, w) && s.pool.workers[w].token < |s.jobs|
  {
    s.jobs[s.pool.workers[w].token].slot
  }

  function ValueAt(s: State, w: nat): Bytes
    requires Working(s.pool, w) && s.pool.workers[w].token < |s.jobs|
  {
    s.jobs[s.pool.workers[w].token].value
  }

  /** Worker `w` passes its check while `v` is checked for the same entry and has not put yet. */
  ghost predicate Rivals(s: State, w: nat, v: nat) {
    && v != w && At(s, w, Prepared) && At(s, v, Checked) && SlotAt(s, v) == SlotAt(s, w)
    && HoldsToken(s.shadow, SlotAt(s, w), s.pool.workers[w].token)
  }

  ghost predicate RivalCheck(s: State, op: Op) {
    op.Sys? && op.e.Check? && exists v: nat :: Rivals(s, op.e.w, v)
  }

  ghost function Observe(readers: map<nat, Reader>, model: map<Slot, Bytes>): map<nat, Reader> {
    map r | r in readers :: readers[r].(seen := readers[r].seen + {Lookup(model, readers[r].slot)})
  }

  ghost predicate NextOp(c: Config, a: Spec, op: Op, a': Spec) {
    match op
    case Sys(e) =>
      && Next(c, a.sys, e, a'.sys) && Smooth(c, a.sys, e)
      && a'.model == (if e.SetInsert? then a.model[e.slot := e.value] else a.model)
      && a'.readers == Observe(a.readers, a'.model)
    case ShadowMiss(r, x) =>
      && r !in a.readers && x !in a.sys.shadow
      && a' == a.(readers := a.readers[r := Reader(x, {Lookup(a.model, x)}, false)])
    case ReadIndex(r) =>
      && r in a.readers && !a.readers[r].found
      && a' == a.(readers := if a.readers[r].slot in a.sys.index then a.readers[r := a.readers[r].(found := true)]
                             else a.readers - {r})
    case ReadObject(r) =>
      r in a.readers && a.readers[r].found && a' == a.(readers := a.readers - {r})
  }

  /** The read of reader `r` ends: nothing in the index, or an object read. */
  predicate Returns(s: State, op: Op, r: nat, x: Slot) {
    op == ReadObject(r) || (op == ReadIndex(r) && x !in s.index)
  }

  function Answer(s: State, op: Op, x: Slot): Option<Bytes> {
    if op.ReadObject? then Lookup(s.objects, x) else None
  }

  ghost predicate OpAt(c: Config, specs: seq<Spec>, ops: seq<Op>, i: nat) {
    i < |ops| && i + 1 < |specs| && NextOp(c, specs[i], ops[i], specs[i + 1])
  }

  /** A run from a fresh daemon; the map starts as what the two stores, in agreement, already hold. */
  ghost predicate IsSpecRun(c: Config, specs: seq<Spec>, ops: seq<Op>) {
    && |specs| == |ops| + 1
    && Init(c, specs[0].sys) && specs[0].model == specs[0].sys.objects && specs[0].readers == map[]
    && specs[0].sys.index == specs[0].sys.objects.Keys
    && forall i | 0 <= i < |ops| :: OpAt(c, specs, ops, i)
  }

  // ------------------------------------------------------------------ the invariant

  /** Between its check and its cleanup. */
  predicate Window(s: State, w: nat) {
    && Working(s.pool, w) && s.pool.workers[w].token < |s.jobs|
    && (s.pool.workers[w].stage.Checked? || s.pool.workers[w].stage.Stored? || s.pool.workers[w].stage.Cleaning?)
  }

  predicate Current(s: State, w: nat)
    requires Window(s, w)
  {
    HoldsToken(s.shadow, SlotAt(s, w), s.pool.workers[w].token)
  }

  ghost predicate Faithful(s: State, model: map<Slot, Bytes>) {
    forall x :: Latest(s, x) == Lookup(model, x)
  }

  ghost predicate Windows(s: State) {
    && (forall w: nat | Window(s, w) && s.pool.workers[w].stage.Checked? :: SlotAt(s, w) in s.shadow)
    && (forall w: nat | Window(s, w) && !s.pool.workers[w].stage.Checked? && Current(s, w) ::
          Lookup(s.objects, SlotAt(s, w)) == Some(ValueAt(s, w)))
    && (forall w: nat, v: nat | Window(s, w) && Current(s, w) && At(s, v, Checked) && v != w ::
          SlotAt(s, v) != SlotAt(s, w))
  }

  /** The two stores agree, but for a write between its put and its upsert, which its shadow hides. */
  ghost predicate Indexed(s: State) {
    && s.index <= s.objects.Keys
    && (forall x | x in s.objects && x !in s.shadow :: x in s.index)
    && (forall w: nat | Window(s, w) && !s.pool.workers[w].stage.Checked? :: SlotAt(s, w) in s.objects)
    && (forall w: nat | Window(s, w) && s.pool.workers[w].stage.Cleaning? :: SlotAt(s, w) in s.index)
  }

  ghost predicate NoFailure(s: State) {
    && (forall t | t in s.pool.finished :: !s.pool.finished[t].PrepareFailed?)
    && (forall w: nat | Working(s.pool, w) :: s.pool.workers[w].stage != Leaving(PrepareFailed))
  }

  ghost predicate Fresh(s: State, reader: Reader) {
    && Lookup(s.objects, reader.slot) in reader.seen
    && (reader.slot in s.shadow ==> Latest(s, reader.slot) in reader.seen)
    && (forall w: nat | At(s, w, Checked) && SlotAt(s, w) == reader.slot :: Some(ValueAt(s, w)) in reader.seen)
    && (if reader.found then reader.slot in s.objects else reader.slot in s.index || None in reader.seen)
  }

  ghost predicate Inv(c: Config, a: Spec) {
    && Placed(c, a.sys) && Owned(a.sys) && NoFailure(a.sys)
    && Faithful(a.sys, a.model) && Windows(a.sys) && Indexed(a.sys)
    && forall r | r in a.readers :: Fresh(a.sys, a.readers[r])
  }

  // ------------------------------------------------------------------ one step keeps it

  predicate Quiet(e: Event) {
    e.Push? || e.Recv? || e.Enter? || e.Prepare? || e.Exit?
  }

  /** A quiet event changes neither the shadow, nor the objects, nor who is between check and cleanup. */
  lemma QuietFrame(c: Config, s: State, e: Event, s': State)
    requires Next(c, s, e, s') && Smooth(c, s, e) && Quiet(e)
    ensures s'.shadow == s.shadow && s'.objects == s.objects && s'.jobs == s.jobs && s'.index == s.index
    ensures forall w: nat | Window(s', w) :: Window(s, w) && s'.pool.workers[w] == s.pool.workers[w]
  {
  }

  lemma QuietStep(c: Config, s: State, e: Event, s': State, model: map<Slot, Bytes>)
    requires Faithful(s, model) && Windows(s) && Next(c, s, e, s') && Smooth(c, s, e) && Quiet(e)
    ensures Faithful(s', model) && Windows(s')
  {
    QuietFrame(c, s, e, s');
    forall x ensures Latest(s', x) == Lookup(model, x) {
      assert Latest(s, x) == Lookup(model, x);
    }
    assert forall w: nat | At(s', w, Checked) :: Window(s', w);
  }

  lemma InsertStep(c: Config, s: State, e: Event, s': State, model: map<Slot, Bytes>)
    requires Placed(c, s) && Owned(s) && Faithful(s, model) && Windows(s) && Next(c, s, e, s') && e.SetInsert?
    ensures Faithful(s', model[e.slot := e.value]) && Windows(s')
  {
    forall x ensures Latest(s', x) == Lookup(model[e.slot := e.value], x) {
      assert Latest(s, x) == Lookup(model, x);
      assert x in s.shadow ==> s.shadow[x] < |s.jobs|;
    }
    assert s'.pool.workers == s.pool.workers;
    forall w: nat | Window(s', w)
      ensures Window(s, w) && SlotAt(s', w) == SlotAt(s, w) && ValueAt(s', w) == ValueAt(s, w)
      ensures Current(s', w) ==> Current(s, w)
    {
      assert Working(s.pool, w);
    }
    assert forall w: nat | At(s', w, Checked) :: Window(s', w);
  }

  lemma CheckStep(c: Config, s: State, e: Event, s': State, model: map<Slot, Bytes>)
    requires Placed(c, s) && Faithful(s, model) && Windows(s) && Next(c, s, e, s') && e.Check? && !RivalCheck(s, Sys(e))
    ensures Faithful(s', model) && Windows(s')
  {
    forall x ensures Latest(s', x) == Lookup(model, x) {
      assert Latest(s, x) == Lookup(model, x);
    }
    assert forall w: nat | Window(s', w) && w != e.w :: Window(s, w) && s'.pool.workers[w] == s.pool.workers[w];
    forall w: nat, v: nat | Window(s', w) && Current(s', w) && At(s', v, Checked) && v != w
      ensures SlotAt(s', v) != SlotAt(s', w)
    {
      if w == e.w {
        assert !Rivals(s, w, v);
      } else if v == e.w {
        assert s.pool.workers[w].token != s.pool.workers[v].token;
      } else {
        assert Window(s, w) && Current(s, w) && At(s, v, Checked);
      }
    }
  }

  lemma PutView(c: Config, s: State, e: Event, s': State, model: map<Slot, Bytes>)
    requires Owned(s) && Faithful(s, model) && Windows(s) && Next(c, s, e, s') && e.Put? && e.ok
    ensures Faithful(s', model)
  {
  }

  lemma PutWindows(c: Config, s: State, e: Event, s': State)
    requires Windows(s) && Next(c, s, e, s') && e.Put? && e.ok
    ensures Windows(s')
  {
  }

  lemma UpsertStep(c: Config, s: State, e: Event, s': State, model: map<Slot, Bytes>)
    requires Faithful(s, model) && Windows(s) && Next(c, s, e, s') && e.Upsert?
    ensures Faithful(s', model) && Windows(s')
  {
  }

  lemma CleanupView(c: Config, s: State, e: Event, s': State, model: map<Slot, Bytes>)
    requires Owned(s) && Faithful(s, model) && Windows(s) && Next(c, s, e, s') && e.Cleanup?
    ensures Faithful(s', model)
  {
  }

  lemma CleanupWindows(c: Config, s: State, e: Event, s': State)
    requires Windows(s) && Next(c, s, e, s') && e.Cleanup?
    ensures Windows(s')
  {
    assert Window(s, e.w);
    assert forall w: nat | Window(s', w) :: w != e.w && Window(s, w) && s'.pool.workers[w] == s.pool.workers[w];
    assert forall w: nat | At(s', w, Checked) :: At(s, w, Checked) && Window(s', w);
    forall w: nat | Window(s', w) && s'.pool.workers[w].stage.Checked? ensures SlotAt(s', w) in s'.shadow {
      assert At(s, w, Checked);
    }
  }

  lemma IndexedStep(c: Config, s: State, e: Event, s': State)
    requires Placed(c, s) && Windows(s) && Indexed(s) && Next(c, s, e, s') && Smooth(c, s, e)
    ensures Indexed(s')
  {
    if Quiet(e) {
      QuietFrame(c, s, e, s');
    } else if e.SetInsert? {
      IndexedInsert(c, s, e, s');
    } else {
      IndexedCommit(c, s, e, s');
    }
  }

  lemma IndexedInsert(c: Config, s: State, e: Event, s': State)
    requires Placed(c, s) && Indexed(s) && Next(c, s, e, s') && e.SetInsert?
    ensures Indexed(s')
  {
  }

  lemma IndexedCommit(c: Config, s: State, e: Event, s': State)
    requires Windows(s) && Indexed(s) && Next(c, s, e, s') && Smooth(c, s, e)
    requires e.Check? || e.Put? || e.Upsert? || e.Cleanup?
    ensures Indexed(s')
  {
    assert forall w: nat | Window(s', w) && w != e.w :: Window(s, w) && s'.pool.workers[w] == s.pool.workers[w];
    assert !e.Check? ==> Window(s, e.w);
  }

  lemma NoFailureStep(c: Config, s: State, e: Event, s': State)
    requires NoFailure(s) && Next(c, s, e, s') && Smooth(c, s, e)
    ensures NoFailure(s')
  {
  }

  /** What a pending read may still return is a value the map has had since the read began. */
  lemma FreshStep(c: Config, a: Spec, e: Event, a': Spec, r: nat)
    requires Placed(c, a.sys) && NextOp(c, a, Sys(e), a') && r in a.readers && Fresh(a.sys, a.readers[r])
    requires Faithful(a'.sys, a'.model)
    ensures Fresh(a'.sys, a'.readers[r])
  {
    var s, s', x := a.sys, a'.sys, a.readers[r].slot;
    assert Latest(s', x) == Lookup(a'.model, x);
    if e.Put? {
      assert At(s, e.w, Checked);
    }
    forall w: nat | At(s', w, Checked) && SlotAt(s', w) == x ensures Some(ValueAt(s', w)) in a'.readers[r].seen {
      assert Working(s.pool, w) ==> s.pool.workers[w].token < |s.jobs|;
      CheckedBefore(c, s, e, s', w);
    }
  }

  lemma CheckedBefore(c: Config, s: State, e: Event, s': State, w: nat)
    requires Working(s.pool, w) ==> s.pool.workers[w].token < |s.jobs|
    requires Next(c, s, e, s') && At(s', w, Checked)
    ensures At(s, w, Checked) || (e.Check? && e.w == w && At(s, w, Prepared)
              && HoldsToken(s.shadow, SlotAt(s, w), s.pool.workers[w].token))
    ensures SlotAt(s', w) == SlotAt(s, w) && ValueAt(s', w) == ValueAt(s, w)
    ensures s'.pool.workers[w].token == s.pool.workers[w].token
  {
    if !At(s, w, Checked) {
      assert e.Check? && e.w == w;
    }
  }

  lemma SysStep(c: Config, a: Spec, e: Event, a': Spec)
    requires Inv(c, a) && NextOp(c, a, Sys(e), a') && !RivalCheck(a.sys, Sys(e))
    ensures Faithful(a'.sys, a'.model) && Windows(a'.sys)
  {
    if e.SetInsert? {
      InsertStep(c, a.sys, e, a'.sys, a.model);
    } else if e.Check? {
      CheckStep(c, a.sys, e, a'.sys, a.model);
    } else if e.Put? {
      PutView(c, a.sys, e, a'.sys, a.model);
      PutWindows(c, a.sys, e, a'.sys);
    } else if e.Upsert? {
      UpsertStep(c, a.sys, e, a'.sys, a.model);
    } else if e.Cleanup? {
      CleanupView(c, a.sys, e, a'.sys, a.model);
      CleanupWindows(c, a.sys, e, a'.sys);
    } else {
      QuietStep(c, a.sys, e, a'.sys, a.model);
    }
  }

  lemma InvStep(c: Config, a: Spec, op: Op, a': Spec)
    requires Inv(c, a) && NextOp(c, a, op, a') && !RivalCheck(a.sys, op)
    ensures Inv(c, a')
  {
    match op
    case Sys(e) =>
      PlacedStep(c, a.sys, e, a'.sys);
      OwnedStep(c, a.sys, e, a'.sys);
      NoFailureStep(c, a.sys, e, a'.sys);
      SysStep(c, a, e, a');
      IndexedStep(c, a.sys, e, a'.sys);
      forall r | r in a'.readers ensures Fresh(a'.sys, a'.readers[r]) {
        FreshStep(c, a, e, a', r);
      }
    case ShadowMiss(r, x) =>
      assert Latest(a.sys, x) == Lookup(a.model, x);
      assert forall w: nat | At(a.sys, w, Checked) :: Window(a.sys, w) && SlotAt(a.sys, w) != x;
    case ReadIndex(_) =>
    case ReadObject(_) =>
  }

  lemma {:induction false} InvAlong(c: Config, specs: seq<Spec>, ops: seq<Op>, i: nat)
    requires IsSpecRun(c, specs, ops) && i < |specs|
    requires forall k | 0 <= k < i :: !RivalCheck(specs[k].sys, ops[k])
    ensures Inv(c, specs[i])
  {
    if i > 0 {
      InvAlong(c, specs, ops, i - 1);
      assert OpAt(c, specs, ops, i - 1);
      InvStep(c, specs[i - 1], ops[i - 1], specs[i]);
    }
  }

  // ------------------------------------------------------------------ main results

  lemma ViewIsLatest(s: State, x: Slot)
    requires Owned(s) && Indexed(s)
    ensures View(s, x) == Latest(s, x)
  {
  }

  /** Over every smooth run without a rival check, a get of the exact entry sees the map, and at rest
      both durable stores are the map. */
  lemma ViewRefinesMap(c: Config, specs: seq<Spec>, ops: seq<Op>, i: nat)
    requires IsSpecRun(c, specs, ops) && i < |specs|
    requires forall k | 0 <= k < i :: !RivalCheck(specs[k].sys, ops[k])
    ensures forall x :: View(specs[i].sys, x) == Lookup(specs[i].model, x)
    ensures Quiescent(specs[i].sys) ==>
              && specs[i].sys.shadow == map[] && specs[i].sys.objects == specs[i].model
              && specs[i].sys.index == specs[i].model.Keys
  {
    InvAlong(c, specs, ops, i);
    var s, m := specs[i].sys, specs[i].model;
    forall x ensures View(s, x) == Lookup(m, x) {
      ViewIsLatest(s, x);
      assert Latest(s, x) == Lookup(m, x);
    }
    if Quiescent(s) {
      forall x | x in s.shadow ensures false {
        assert forall w: nat :: !Holding(s.pool, w, s.shadow[x]);
      }
      assert s.shadow.Keys == {};
      forall x ensures x in s.objects <==> x in m ensures x in m ==> s.objects[x] == m[x] {
        assert Latest(s, x) == Lookup(m, x);
      }
    }
  }

  lemma {:induction false} SeenSince(c: Config, specs: seq<Spec>, ops: seq<Op>, j: nat, i: nat, v: Option<Bytes>)
      returns (k: nat)
    requires IsSpecRun(c, specs, ops) && j < i < |specs| && ops[j].ShadowMiss?
    requires forall k | j < k < i :: !Returns(specs[k].sys, ops[k], ops[j].r, ops[j].slot)
    ensures ops[j].r in specs[i].readers && specs[i].readers[ops[j].r].slot == ops[j].slot
    ensures v in specs[i].readers[ops[j].r].seen ==> j < k <= i && Lookup(specs[k].model, ops[j].slot) == v
  {
    assert OpAt(c, specs, ops, j) && OpAt(c, specs, ops, i - 1);
    k := i;
    if j + 1 < i {
      var k' := SeenSince(c, specs, ops, j, i - 1, v);
      if v in specs[i - 1].readers[ops[j].r].seen {
        k := k';
      }
    }
  }

  /** A get that missed the shadow at `j` and ends at `i`, in the index or at the object, answers with a
      value the map held for its entry at some moment `k` in between.  An entry found in the index always
      has its object. */
  lemma ReadIsLinearizable(c: Config, specs: seq<Spec>, ops: seq<Op>, j: nat, i: nat) returns (k: nat)
    requires IsSpecRun(c, specs, ops) && j < i < |ops| && ops[j].ShadowMiss?
    requires Returns(specs[i].sys, ops[i], ops[j].r, ops[j].slot)
    requires forall k | j < k < i :: !Returns(specs[k].sys, ops[k], ops[j].r, ops[j].slot)
    requires forall k | 0 <= k < i :: !RivalCheck(specs[k].sys, ops[k])
    ensures j < k <= i
    ensures Answer(specs[i].sys, ops[i], ops[j].slot) == Lookup(specs[k].model, ops[j].slot)
    ensures ops[i].ReadObject? ==> ops[j].slot in specs[i].sys.objects
  {
    InvAlong(c, specs, ops, i);
    k := SeenSince(c, specs, ops, j, i, Answer(specs[i].sys, ops[i], ops[j].slot));
    assert OpAt(c, specs, ops, i);
    assert Fresh(specs[i].sys, specs[i].readers[ops[j].r]);
  }

  /** With one worker no check is a rival check, so the two results above hold of every smooth run. */
  lemma OneWorkerHasNoRivals(c: Config, specs: seq<Spec>, ops: seq<Op>, i: nat)
    requires IsSpecRun(c, specs, ops) && i < |specs| && c.workers <= 1
    ensures forall k | 0 <= k < i :: !RivalCheck(specs[k].sys, ops[k])
    ensures forall x :: View(specs[i].sys, x) == Lookup(specs[i].model, x)
  {
    if i > 0 {
      OneWorkerHasNoRivals(c, specs, ops, i - 1);
      InvAlong(c, specs, ops, i - 1);
    }
    ViewRefinesMap(c, specs, ops, i);
  }

  // ------------------------------------------------------------------ the hazard is real

  lemma ExtendSpec(c: Config, specs: seq<Spec>, ops: seq<Op>, e: Event) returns (specs': seq<Spec>, ops': seq<Op>)
    requires IsSpecRun(c, specs, ops)
    requires Enabled(c, specs[|ops|].sys, e) && Smooth(c, specs[|ops|].sys, e)
    ensures IsSpecRun(c, specs', ops') && ops' == ops + [Sys(e)]
    ensures var a, a' := specs[|ops|], specs'[|ops'|];
            && a'.sys == Apply(c, a.sys, e)
            && a'.model == (if e.SetInsert? then a.model[e.slot := e.value] else a.model)
  {
    var a := specs[|ops|];
    var model := if e.SetInsert? then a.model[e.slot := e.value] else a.model;
    specs' := specs + [Spec(Apply(c, a.sys, e), model, Observe(a.readers, model))];
    ops' := ops + [Sys(e)];
    forall i | 0 <= i < |ops'| ensures OpAt(c, specs', ops', i) {
      assert i < |ops| ==> OpAt(c, specs, ops, i);
    }
  }

  /** Worker `w`, past its check, runs on to the end of its cleanup. */
  lemma RunCommit(c: Config, specs: seq<Spec>, ops: seq<Op>, w: nat) returns (specs': seq<Spec>, ops': seq<Op>)
    requires IsSpecRun(c, specs, ops) && At(specs[|ops|].sys, w, Checked)
    ensures IsSpecRun(c, specs', ops') && ops <= ops'
    ensures var a, a' := specs[|ops|], specs'[|ops'|];
            && a'.model == a.model && a'.sys.jobs == a.sys.jobs
            && a'.sys.shadow == RemoveIf(a.sys.shadow, SlotAt(a.sys, w), a.sys.pool.workers[w].token)
            && a'.sys.objects == a.sys.objects[SlotAt(a.sys, w) := ValueAt(a.sys, w)]
            && a'.sys.index == a.sys.index + {SlotAt(a.sys, w)}
            && a'.sys.pool == Move(a.sys.pool, w, Leaving(Committed))
  {
    specs', ops' := ExtendSpec(c, specs, ops, Put(w, true));
    specs', ops' := ExtendSpec(c, specs', ops', Upsert(w, true));
    specs', ops' := ExtendSpec(c, specs', ops', Cleanup(w));
    var p := specs[|ops|].sys.pool;
    assert Move(Move(Move(p, w, Stored), w, Cleaning(true)), w, Leaving(Committed)) == Move(p, w, Leaving(Committed));
  }

  /** A set of `x` is accepted and taken by the idle worker `w` up to its check. */
  lemma RunToCheck(c: Config, specs: seq<Spec>, ops: seq<Op>, w: nat, x: Slot, value: Bytes)
      returns (specs': seq<Spec>, ops': seq<Op>)
    requires IsSpecRun(c, specs, ops) && c.capacity >= 1 && specs[|ops|].sys.pool.queue == []
    requires w < |specs[|ops|].sys.pool.workers| && specs[|ops|].sys.pool.workers[w].Idle?
    ensures IsSpecRun(c, specs', ops') && ops <= ops'
    ensures var s, s' := specs[|ops|].sys, specs'[|ops'|].sys;
            && s'.jobs == s.jobs + [Job(x, value)] && s'.shadow == s.shadow[x := |s.jobs|] && s'.pool.queue == []
            && s'.pool.workers == s.pool.workers[w := Busy(|s.jobs|, Prepared)]
    ensures specs'[|ops'|].model == specs[|ops|].model[x := value]
  {
    var s := specs[|ops|].sys;
    specs', ops' := ExtendSpec(c, specs, ops, SetInsert(x, value));
    specs', ops' := ExtendSpec(c, specs', ops', Push(|s.jobs|));
    specs', ops' := ExtendSpec(c, specs', ops', Recv(w));
    specs', ops' := ExtendSpec(c, specs', ops', Enter(w));
    specs', ops' := ExtendSpec(c, specs', ops', Prepare(w, true));
  }

  /** In every smooth run, rivals or not, a shadow is the latest set of its entry. */
  lemma {:induction false} ShadowIsLatest(c: Config, specs: seq<Spec>, ops: seq<Op>, i: nat)
    requires IsSpecRun(c, specs, ops) && i < |specs|
    ensures LatestSet(specs[i])
  {
    if i > 0 {
      ShadowIsLatest(c, specs, ops, i - 1);
      assert OpAt(c, specs, ops, i - 1);
      LatestStep(c, specs[i - 1], ops[i - 1], specs[i]);
    }
  }

  ghost predicate LatestSet(a: Spec) {
    forall x | x in a.sys.shadow ::
      a.sys.shadow[x] < |a.sys.jobs| && Lookup(a.model, x) == Some(a.sys.jobs[a.sys.shadow[x]].value)
  }

  lemma LatestStep(c: Config, a: Spec, op: Op, a': Spec)
    requires LatestSet(a) && NextOp(c, a, op, a')
    ensures LatestSet(a')
  {
    if op.Sys? {
      ShadowFrame(c, a.sys, op.e, a'.sys);
    }
  }

  lemma ShadowFrame(c: Config, s: State, e: Event, s': State)
    requires Next(c, s, e, s')
    ensures s'.jobs == if e.SetInsert? then s.jobs + [Job(e.slot, e.value)] else s.jobs
    ensures e.SetInsert? ==> s'.shadow == s.shadow[e.slot := |s.jobs|]
    ensures !e.SetInsert? ==> forall x | x in s'.shadow :: x in s.shadow && s'.shadow[x] == s.shadow[x]
  {
  }

  /** The condition cannot be dropped: every reachable rival check can be completed to a state where the
      newer value is gone from the shadow and a get sees the older one. */
  lemma RivalsLoseUpdate(c: Config, specs: seq<Spec>, ops: seq<Op>, w: nat, v: nat)
      returns (specs': seq<Spec>, ops': seq<Op>)
    requires IsSpecRun(c, specs, ops) && Rivals(specs[|ops|].sys, w, v)
    ensures IsSpecRun(c, specs', ops') && ops + [Sys(Check(w))] <= ops'
    ensures var a, a' := specs[|ops|], specs'[|ops'|];
            && SlotAt(a.sys, w) !in a'.sys.shadow
            && View(a'.sys, SlotAt(a.sys, w)) == Some(ValueAt(a.sys, v))
            && Lookup(a'.model, SlotAt(a.sys, w)) == Some(ValueAt(a.sys, w))
  {
    ShadowIsLatest(c, specs, ops, |ops|);
    specs', ops' := ExtendSpec(c, specs, ops, Check(w));
    assert At(specs'[|ops'|].sys, w, Checked);
    specs', ops' := RunCommit(c, specs', ops', w);
    assert At(specs'[|ops'|].sys, v, Checked);
    specs', ops' := RunCommit(c, specs', ops', v);
  }

  /** Two or more workers do lose an update, for every bound and any two values: the newer accepted set
      committed, yet a get sees the older value. */
  lemma TwoWorkersLoseUpdate(c: Config, x: Slot, older: Bytes, newer: Bytes) returns (specs: seq<Spec>, ops: seq<Op>)
    requires c.workers >= 2 && c.capacity >= 1
    ensures IsSpecRun(c, specs, ops)
    ensures var a := specs[|ops|]; View(a.sys, x) == Some(older) && Lookup(a.model, x) == Some(newer)
  {
    var s0 := State([], map[], Pool(map[], {}, [], seq(c.workers, _ => Idle), map[]), 0, map[], {}, map[]);
    specs, ops := [Spec(s0, map[], map[])], [];
    specs, ops := RunToCheck(c, specs, ops, 0, x, older);
    specs, ops := ExtendSpec(c, specs, ops, Check(0));
    specs, ops := RunToCheck(c, specs, ops, 1, x, newer);
    specs, ops := RivalsLoseUpdate(c, specs, ops, 1, 0);
  }
}
