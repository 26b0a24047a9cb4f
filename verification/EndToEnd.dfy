/**
 The write-behind protocol over the semantic cache: what the vector store of a namespace holds, and what a
 get answers.

 The step system knows an entry as a slot; here each write carries the parts it was made from, every
 upsert of the step system is an upsert of the prepared entry into the vector store of its namespace, and
 every unindexing a deletion from it.
 */
module EndToEnd {
  import opened Common
  import opened Identity
  import opened Shadow
  import opened VectorStore
  import opened Scoring
  import opened Cache
  import opened SelfRetrieval
  import Protocol = WriteBehind
  import Rest = Ownership
  import Order = StoreOrder
  import Spec = Refinement

  /** One namespace of a daemon: its backends, the parts behind each write token, all parts in use, the
      dimension of its vectors, and what its vector store held at startup. */
  datatype Setup = Setup(
    b: Backends, an: Analyzer, namespace: string, parts: seq<Parts>, known: set<Parts>, dim: nat,
    initial: Option<Contents>)

  ghost function IdOf(u: Setup, p: Parts): EntryId {
    u.b.uuid5(Encode(p))
  }

  function SlotOf(u: Setup, id: EntryId): Slot {
    Slot(u.namespace, id)
  }

  /** Every write has parts that name its slot. */
  ghost predicate Labelled(u: Setup, jobs: seq<Protocol.Job>) {
    && |jobs| <= |u.parts| && (forall t: nat | t < |u.parts| :: u.parts[t] in u.known)
    && (forall t: nat | t < |jobs| :: jobs[t].slot.id == IdOf(u, u.parts[t]))
  }

  /** The parts prepare into a vector of the one dimension. */
  ghost predicate Prepares(u: Setup, p: Parts) {
    Prepared(u.b, p).Ok? && |Prepared(u.b, p).value.vector| == u.dim
  }

  /** Worker `w` is at `stage` with a write of this namespace. */
  predicate Here(u: Setup, s: Protocol.State, w: nat, stage: Protocol.Stage) {
    && Protocol.At(s, w, stage) && s.pool.workers[w].token < |u.parts|
    && Spec.SlotAt(s, w).namespace == u.namespace
  }

  ghost function PartsAt(u: Setup, s: Protocol.State, w: nat): Parts
    requires Protocol.Working(s.pool, w) && s.pool.workers[w].token < |u.parts|
  {
    u.parts[s.pool.workers[w].token]
  }

  /** A prepare that succeeds in the step system is one the backends answer. */
  ghost predicate Honest(u: Setup, s: Protocol.State, e: Protocol.Event) {
    e.Prepare? && e.ok && Here(u, s, e.w, Protocol.Entered) ==> Prepares(u, PartsAt(u, s, e.w))
  }

  /** The vector store of the namespace after one event. */
  ghost function NextStore(u: Setup, s: Protocol.State, e: Protocol.Event, before: Option<Contents>): Option<Contents> {
    if e.Upsert? && e.ok && Here(u, s, e.w, Protocol.Stored) && Prepared(u.b, PartsAt(u, s, e.w)).Ok? then
      match Upserted(u.an.tokenize, before, Prepared(u.b, PartsAt(u, s, e.w)).value)
      case Err(_) => before
      case Ok(after) => Some(after)
    else if e.DelVector? && e.ok && e.d in s.deleters && s.deleters[e.d].Found?
            && s.deleters[e.d].hit.namespace == u.namespace then
      Deleted(before, s.deleters[e.d].hit.id)
    else before
  }

  ghost function StoreAt(u: Setup, states: seq<Protocol.State>, events: seq<Protocol.Event>, i: nat): Option<Contents>
    requires i <= |events| < |states|
  {
    if i == 0 then u.initial else NextStore(u, states[i - 1], events[i - 1], StoreAt(u, states, events, i - 1))
  }

  // ------------------------------------------------------------------ the store follows the index

  ghost predicate IsEntryOf(u: Setup, e: VectorEntry) {
    exists p :: p in u.known && Prepared(u.b, p) == Ok(e)
  }

  /** The store holds the indexed slots of the namespace, each as the entry of some parts. */
  ghost predicate Mirrors(u: Setup, s: Protocol.State, store: Option<Contents>) {
    match store
    case None => forall id :: SlotOf(u, id) !in s.index
    case Some(c) =>
      && c.dim == u.dim && SameDim(c)
      && (forall id :: id in c.entries <==> SlotOf(u, id) in s.index)
      && (forall id | id in c.entries :: c.entries[id].id == id && IsEntryOf(u, c.entries[id]))
  }

  predicate PastPrepare(stage: Protocol.Stage) {
    stage.Prepared? || stage.Checked? || stage.Stored?
  }

  /** Whatever a worker is about to index has been prepared. */
  ghost predicate Ready(u: Setup, s: Protocol.State) {
    forall w: nat | Protocol.Working(s.pool, w) && PastPrepare(s.pool.workers[w].stage)
                    && Here(u, s, w, s.pool.workers[w].stage) :: Prepares(u, PartsAt(u, s, w))
  }

  lemma ReadyStep(u: Setup, c: Protocol.Config, s: Protocol.State, e: Protocol.Event, s': Protocol.State)
    requires Ready(u, s) && Honest(u, s, e) && Protocol.Placed(c, s) && Protocol.Next(c, s, e, s')
    ensures Ready(u, s')
  {
    forall w: nat | Protocol.Working(s'.pool, w) && PastPrepare(s'.pool.workers[w].stage)
                    && Here(u, s', w, s'.pool.workers[w].stage)
      ensures Prepares(u, PartsAt(u, s', w))
    {
      ReadyWorker(u, c, s, e, s', w);
    }
  }

  lemma ReadyWorker(u: Setup, c: Protocol.Config, s: Protocol.State, e: Protocol.Event, s': Protocol.State, w: nat)
    requires Ready(u, s) && Honest(u, s, e) && Protocol.Placed(c, s) && Protocol.Next(c, s, e, s')
    requires Protocol.Working(s'.pool, w) && PastPrepare(s'.pool.workers[w].stage)
    requires Here(u, s', w, s'.pool.workers[w].stage)
    ensures Prepares(u, PartsAt(u, s', w))
  {
    assert Protocol.Working(s.pool, w) ==> s.pool.workers[w].token < |s.jobs|;
    WorkerBefore(c, s, e, s', w);
  }

  lemma WorkerBefore(c: Protocol.Config, s: Protocol.State, e: Protocol.Event, s': Protocol.State, w: nat)
    requires Protocol.Working(s.pool, w) ==> s.pool.workers[w].token < |s.jobs|
    requires Protocol.Next(c, s, e, s') && Protocol.Working(s'.pool, w) && PastPrepare(s'.pool.workers[w].stage)
    ensures Protocol.Working(s.pool, w) && s.pool.workers[w].token == s'.pool.workers[w].token < |s.jobs|
    ensures s'.jobs[s'.pool.workers[w].token] == s.jobs[s.pool.workers[w].token]
    ensures PastPrepare(s.pool.workers[w].stage)
            || (e.Prepare? && e.ok && e.w == w && s.pool.workers[w].stage == Protocol.Entered)
  {
  }

  lemma MirrorsUpsert(u: Setup, s: Protocol.State, store: Option<Contents>, p: Parts, e: VectorEntry, s': Protocol.State)
    requires Mirrors(u, s, store) && p in u.known && Prepares(u, p) && Prepared(u.b, p) == Ok(e)
    requires s'.index == s.index + {SlotOf(u, e.id)}
    ensures Upserted(u.an.tokenize, store, e).Ok? && Mirrors(u, s', Some(Upserted(u.an.tokenize, store, e).value))
  {
    assert IsEntryOf(u, e);
  }

  lemma MirrorsDelete(u: Setup, s: Protocol.State, store: Option<Contents>, id: EntryId, s': Protocol.State)
    requires Mirrors(u, s, store) && s'.index == s.index - {SlotOf(u, id)}
    ensures Mirrors(u, s', Deleted(store, id))
  {
  }

  /** Which slots of the namespace are indexed changes by its own upserts and unindexings alone. */
  lemma IndexFrame(u: Setup, c: Protocol.Config, s: Protocol.State, e: Protocol.Event, s': Protocol.State)
    requires Protocol.Next(c, s, e, s') && Labelled(u, s.jobs)
    ensures if e.Upsert? && e.ok && Here(u, s, e.w, Protocol.Stored) then
              s'.index == s.index + {SlotOf(u, IdOf(u, PartsAt(u, s, e.w)))}
            else if e.DelVector? && e.ok && s.deleters[e.d].hit.namespace == u.namespace then
              s'.index == s.index - {SlotOf(u, s.deleters[e.d].hit.id)}
            else forall id :: SlotOf(u, id) in s'.index <==> SlotOf(u, id) in s.index
  {
  }

  lemma MirrorsStep(u: Setup, c: Protocol.Config, s: Protocol.State, e: Protocol.Event, s': Protocol.State,
                    store: Option<Contents>)
    requires Mirrors(u, s, store) && Ready(u, s) && Labelled(u, s.jobs) && Protocol.Next(c, s, e, s')
    ensures Mirrors(u, s', NextStore(u, s, e, store))
  {
    IndexFrame(u, c, s, e, s');
    if e.Upsert? && e.ok && Here(u, s, e.w, Protocol.Stored) {
      var p := PartsAt(u, s, e.w);
      MirrorsUpsert(u, s, store, p, Prepared(u.b, p).value, s');
    } else if e.DelVector? && e.ok && s.deleters[e.d].hit.namespace == u.namespace {
      MirrorsDelete(u, s, store, s.deleters[e.d].hit.id, s');
    }
  }

  /** A run of this setup: labelled writes, honest prepares, and a store that starts in agreement with the
      index. */
  ghost predicate IsSetupRun(u: Setup, c: Protocol.Config, states: seq<Protocol.State>, events: seq<Protocol.Event>) {
    && Protocol.IsRun(c, states, events) && Labelled(u, states[|events|].jobs) && Mirrors(u, states[0], u.initial)
    && forall k | 0 <= k < |events| :: Honest(u, states[k], events[k])
  }

  /** At every step of every run, with deletes, refusals and failures, the store mirrors the index. */
  lemma {:induction false} MirrorsAlong(u: Setup, c: Protocol.Config, states: seq<Protocol.State>,
                                        events: seq<Protocol.Event>, i: nat)
    requires IsSetupRun(u, c, states, events) && i <= |events|
    ensures Mirrors(u, states[i], StoreAt(u, states, events, i)) && Ready(u, states[i])
  {
    if i > 0 {
      MirrorsAlong(u, c, states, events, i - 1);
      assert Protocol.StepAt(c, states, events, i - 1);
      Rest.PlacedAlong(c, states, events, i - 1);
      Rest.JobsKept(c, states, events, i - 1, |events|);
      ReadyStep(u, c, states[i - 1], events[i - 1], states[i]);
      MirrorsStep(u, c, states[i - 1], events[i - 1], states[i], StoreAt(u, states, events, i - 1));
    }
  }

  // ------------------------------------------------------------------ at every step

  /** What a get answers for a hit: the object under the hit's id. */
  function ObjectOf(u: Setup, s: Protocol.State, hit: ScoredHit): Option<Bytes> {
    Spec.Lookup(s.objects, SlotOf(u, hit.id))
  }

  /** In every run in which no commit overlaps a delete of the same entry, every hit has its object. */
  lemma HitHasObject(u: Setup, wc: Protocol.Config, states: seq<Protocol.State>, events: seq<Protocol.Event>, i: nat,
                     c: Config, p: Parts, s: Contents, hit: ScoredHit)
    requires IsSetupRun(u, wc, states, events) && i <= |events|
    requires forall k | 0 <= k < i :: Protocol.StepAt(wc, states, events, k) ==> !Order.Overlaps(wc, states[k], events[k])
    requires StoreAt(u, states, events, i) == Some(s)
    requires SameDim(s) ==> IsFound(u.b, u.an, c, Some(s), p, Ok(Some(hit)))
    ensures ObjectOf(u, states[i], hit).Some?
  {
    MirrorsAlong(u, wc, states, events, i);
    HitIsStored(u, c, p, s, hit);
    Order.NoDanglingIndex(wc, states, events, i);
    assert SlotOf(u, hit.id) in states[i].index;
  }

  lemma HitIsStored(u: Setup, c: Config, p: Parts, s: Contents, hit: ScoredHit)
    requires SameDim(s) && IsFound(u.b, u.an, c, Some(s), p, Ok(Some(hit)))
    ensures hit.id in s.entries
  {
    var entities := Entities(u.b, p.query, p.context, true).value;
    Retrieval.WinnerIsOptimal(u.an, s, c, u.b.embed(p.query).value, p.keys, entities, p.context, Some(hit));
  }

  lemma IndexedIsStored(u: Setup, s: Protocol.State, store: Option<Contents>, p: Parts)
    requires Mirrors(u, s, store) && SlotOf(u, IdOf(u, p)) in s.index
    requires CollisionFree(u.b.uuid5, u.known) && p in u.known
    ensures && store.Some? && SameDim(store.value) && Prepared(u.b, p).Ok?
            && Prepared(u.b, p).value.id == IdOf(u, p) && IdOf(u, p) in store.value.entries
            && store.value.entries[IdOf(u, p)] == Prepared(u.b, p).value
  {
    var e := store.value.entries[IdOf(u, p)];
    var q :| q in u.known && Prepared(u.b, q) == Ok(e);
    DistinctIds(u.b.uuid5, u.known, p, q);
  }

  /** At every step of every run, parts whose slot is indexed are found with dense score 1, under the exact
      condition of `FoundIff`. */
  lemma IndexedIsFound(u: Setup, wc: Protocol.Config, states: seq<Protocol.State>, events: seq<Protocol.Event>, i: nat,
                       p: Parts, c: Config, s: Contents, e: VectorEntry, r: Result<Option<ScoredHit>, Failure>)
    requires IsSetupRun(u, wc, states, events) && i <= |events| && SlotOf(u, IdOf(u, p)) in states[i].index
    requires CollisionFree(u.b.uuid5, u.known) && p in u.known && Prepared(u.b, p) == Ok(e)
    requires StoreAt(u, states, events, i) == Some(s) && SameDim(s) && |e.vector| == s.dim
    requires Scoring.Valid(c) && FastFits(u.b, p) && Entities(u.b, p.query, p.context, true).Ok?
    requires ContextGate(u.an, s, c, e) && Unblocked(u.an, s, c, e, Entities(u.b, p.query, p.context, true).value)
    requires IsFound(u.b, u.an, c, Some(s), p, r)
    ensures IdOf(u, p) in s.entries && s.entries[IdOf(u, p)] == e && IsExact(r)
    ensures SlotOf(u, r.value.value.id) in states[i].index
    ensures r.value.value.id in s.entries && s.entries[r.value.value.id].vector == e.vector
  {
    MirrorsAlong(u, wc, states, events, i);
    IndexedIsStored(u, states[i], Some(s), p);
    CommittedIsFound(u.b, u.an, c, s, p, e, r);
  }

  // ------------------------------------------------------------------ at rest

  /** The events of the step system in a run against the map, */
  ghost function Events(ops: seq<Spec.Op>): seq<Protocol.Event> {
    if ops == [] then []
    else Events(ops[..|ops| - 1]) + (if ops[|ops| - 1].Sys? then [ops[|ops| - 1].e] else [])
  }

  /** and its states. */
  ghost function States(specs: seq<Spec.Spec>, ops: seq<Spec.Op>): seq<Protocol.State>
    requires |specs| == |ops| + 1
  {
    if ops == [] then [specs[0].sys]
    else
      States(specs[..|ops|], ops[..|ops| - 1]) + (if ops[|ops| - 1].Sys? then [specs[|ops|].sys] else [])
  }

  lemma {:induction false} SpecIsRun(c: Protocol.Config, specs: seq<Spec.Spec>, ops: seq<Spec.Op>)
    requires Spec.IsSpecRun(c, specs, ops)
    ensures Protocol.IsRun(c, States(specs, ops), Events(ops))
    ensures States(specs, ops)[|Events(ops)|] == specs[|ops|].sys
  {
    if ops != [] {
      var n := |ops| - 1;
      var front, before := specs[..n + 1], ops[..n];
      forall i | 0 <= i < n ensures Spec.OpAt(c, front, before, i) {
        assert Spec.OpAt(c, specs, ops, i);
      }
      SpecIsRun(c, front, before);
      assert Spec.OpAt(c, specs, ops, n);
      if ops[n].Sys? {
        var states, events := Protocol.Extend(c, States(front, before), Events(before), ops[n].e);
        assert states == States(specs, ops) && events == Events(ops);
      } else {
        assert States(specs, ops) == States(front, before) && Events(ops) == Events(before);
      }
    }
  }

  /** A daemon at rest, after any run without deletes, refusals, failures and rival checks, answers a get of
      set parts with the latest value set for a hit of dense score 1: for the very parts asked for, unless
      another stored entry has the same vector. */
  lemma AtRestFinds(u: Setup, wc: Protocol.Config, specs: seq<Spec.Spec>, ops: seq<Spec.Op>, p: Parts,
                    c: Config, s: Contents, e: VectorEntry, r: Result<Option<ScoredHit>, Failure>)
    requires Spec.IsSpecRun(wc, specs, ops) && IsSetupRun(u, wc, States(specs, ops), Events(ops))
    requires forall k | 0 <= k < |ops| :: !Spec.RivalCheck(specs[k].sys, ops[k])
    requires Rest.Quiescent(specs[|ops|].sys) && SlotOf(u, IdOf(u, p)) in specs[|ops|].model
    requires CollisionFree(u.b.uuid5, u.known) && p in u.known && Prepared(u.b, p) == Ok(e)
    requires StoreAt(u, States(specs, ops), Events(ops), |Events(ops)|) == Some(s) && SameDim(s) && |e.vector| == s.dim
    requires Scoring.Valid(c) && FastFits(u.b, p) && Entities(u.b, p.query, p.context, true).Ok?
    requires ContextGate(u.an, s, c, e) && Unblocked(u.an, s, c, e, Entities(u.b, p.query, p.context, true).value)
    requires IsFound(u.b, u.an, c, Some(s), p, r)
    ensures IsExact(r)
    ensures var hit, last := r.value.value, specs[|ops|];
            && SlotOf(u, hit.id) in last.model && ObjectOf(u, last.sys, hit) == Some(last.model[SlotOf(u, hit.id)])
            && ((forall id | id in s.entries :: s.entries[id].vector == e.vector ==> id == IdOf(u, p)) ==>
                  hit.id == IdOf(u, p))
  {
    SpecIsRun(wc, specs, ops);
    Spec.ViewRefinesMap(wc, specs, ops, |ops|);
    IndexedIsFound(u, wc, States(specs, ops), Events(ops), |Events(ops)|, p, c, s, e, r);
    MirrorsAlong(u, wc, States(specs, ops), Events(ops), |Events(ops)|);
  }
}
