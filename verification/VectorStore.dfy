/**
 The in-memory vector store of one namespace: filtered dense top-k retrieval, and the context index
 that follows the entries.
 */
module VectorStore {
  import opened Common
  import opened Identity
  import opened Embeddings
  import opened Bm25
  import opened Bm25Score

  datatype Filter = Filter(keysAll: set<Text>, entitiesAny: set<Text>)

  datatype VectorEntry = VectorEntry(
    id: EntryId, vector: Embedding, keys: set<Text>, entities: set<Text>, context: Option<Text>)

  datatype ScoredHit = ScoredHit(
    id: EntryId, dense: real, sparse: real, entities: set<Text>, context: Option<Text>)

  type Tokenizer = Text -> seq<Token>

  /** Everything one namespace holds: its dimension, its entries and the documents of its index. */
  datatype Contents = Contents(dim: nat, entries: map<EntryId, VectorEntry>, docs: Docs)

  function Keep(filter: Filter, e: VectorEntry): bool {
    filter.keysAll <= e.keys && (filter.entitiesAny == {} || filter.entitiesAny * e.entities != {})
  }

  // ------------------------------------------------------------------ the index follows the entries

  /** The documents a from-scratch pass over the entries indexes. */
  ghost function ContextDocs(tokenize: Tokenizer, entries: map<EntryId, VectorEntry>): Docs {
    map id | id in entries && entries[id].context.Some? :: tokenize(entries[id].context.value)
  }

  function IndexContext(tokenize: Tokenizer, docs: Docs, e: VectorEntry): Docs {
    if e.context.Some? then docs[e.id := tokenize(e.context.value)] else docs
  }

  /** The first upsert fixes the dimension of the namespace. */
  function Upserted(tokenize: Tokenizer, c: Option<Contents>, e: VectorEntry): Result<Contents, EmbeddingError> {
    match c
    case None => Ok(Contents(|e.vector|, map[e.id := e], IndexContext(tokenize, map[], e)))
    case Some(s) =>
      if |e.vector| != s.dim then Err(DimMismatch(|e.vector|, s.dim))
      else Ok(Contents(s.dim, s.entries[e.id := e], IndexContext(tokenize, s.docs, e)))
  }

  function Deleted(c: Option<Contents>, id: EntryId): Option<Contents> {
    match c
    case None => None
    case Some(s) => Some(Contents(s.dim, s.entries - {id}, s.docs - {id}))
  }

  ghost predicate IndexExact(tokenize: Tokenizer, c: Option<Contents>) {
    c.Some? ==> c.value.docs == ContextDocs(tokenize, c.value.entries)
  }

  /** One upsert leaves the index exact unless it stores a context-less entry over an indexed id, whose
      old statistics nothing clears. */
  lemma UpsertKeepsIndexIff(tokenize: Tokenizer, c: Option<Contents>, e: VectorEntry)
    requires IndexExact(tokenize, c) && Upserted(tokenize, c, e).Ok?
    ensures IndexExact(tokenize, Some(Upserted(tokenize, c, e).value)) <==>
            !(e.context.None? && c.Some? && e.id in c.value.docs)
  {
  }

  lemma DeleteKeepsIndex(tokenize: Tokenizer, c: Option<Contents>, id: EntryId)
    requires IndexExact(tokenize, c)
    ensures IndexExact(tokenize, Deleted(c, id))
  {
  }

  // ------------------------------------------------------------------ whole runs

  datatype Op = Upsert(parts: Parts, vector: Embedding, entities: set<Text>) | Delete(id: EntryId)

  /** The entry a write prepares: its id is derived, so it carries the parts the id was made of. */
  ghost function EntryOf(uuid5: Bytes -> EntryId, p: Parts, vector: Embedding, entities: set<Text>): VectorEntry {
    VectorEntry(uuid5(Encode(p)), vector, p.keys, entities, p.context)
  }

  ghost function Run(uuid5: Bytes -> EntryId, tokenize: Tokenizer, ops: seq<Op>): Option<Contents> {
    if ops == [] then None
    else
      var before := Run(uuid5, tokenize, ops[..|ops| - 1]);
      match ops[|ops| - 1]
      case Upsert(parts, vector, entities) =>
        (match Upserted(tokenize, before, EntryOf(uuid5, parts, vector, entities))
         case Ok(after) => Some(after)
         case Err(_) => before)
      case Delete(id) => Deleted(before, id)
  }

  ghost predicate UsesOnly(ops: seq<Op>, used: set<Parts>) {
    forall i | 0 <= i < |ops| && ops[i].Upsert? :: ops[i].parts in used
  }

  /** Every stored entry and every indexed document was derived from parts in use. */
  ghost predicate Derived(uuid5: Bytes -> EntryId, used: set<Parts>, c: Option<Contents>) {
    c.Some? ==>
      && (forall id | id in c.value.entries :: IsFrom(uuid5, used, id, c.value.entries[id].context))
      && (forall id | id in c.value.docs :: id in c.value.entries)
  }

  ghost predicate IsFrom(uuid5: Bytes -> EntryId, used: set<Parts>, id: EntryId, context: Option<Text>) {
    exists p :: p in used && uuid5(Encode(p)) == id && p.context == context
  }

  /** After any run of upserts and deletes, failed ones included, the indexed documents are exactly the
      contexts of the stored entries.  Context being part of the identity is what rules out the
      exception of `UpsertKeepsIndexIff`. */
  lemma {:induction false} RunKeepsIndex(uuid5: Bytes -> EntryId, tokenize: Tokenizer, ops: seq<Op>, used: set<Parts>)
    requires CollisionFree(uuid5, used) && UsesOnly(ops, used)
    ensures IndexExact(tokenize, Run(uuid5, tokenize, ops))
    ensures Derived(uuid5, used, Run(uuid5, tokenize, ops))
  {
    if ops != [] {
      var last := |ops| - 1;
      RunKeepsIndex(uuid5, tokenize, ops[..last], used);
      var before := Run(uuid5, tokenize, ops[..last]);
      match ops[last]
      case Upsert(parts, vector, entities) =>
        UpsertDerived(uuid5, tokenize, before, parts, vector, entities, used);
      case Delete(id) =>
        DeleteKeepsIndex(tokenize, before, id);
    }
  }

  lemma UpsertDerived(uuid5: Bytes -> EntryId, tokenize: Tokenizer, c: Option<Contents>, p: Parts,
                      vector: Embedding, entities: set<Text>, used: set<Parts>)
    requires CollisionFree(uuid5, used) && p in used
    requires IndexExact(tokenize, c) && Derived(uuid5, used, c)
    ensures var r := Upserted(tokenize, c, EntryOf(uuid5, p, vector, entities));
            r.Ok? ==> IndexExact(tokenize, Some(r.value)) && Derived(uuid5, used, Some(r.value))
  {
    var e := EntryOf(uuid5, p, vector, entities);
    if Upserted(tokenize, c, e).Ok? {
      if e.context.None? && c.Some? && e.id in c.value.docs {
        assert IsFrom(uuid5, used, e.id, c.value.entries[e.id].context);
        var q :| q in used && uuid5(Encode(q)) == e.id && q.context == c.value.entries[e.id].context;
        DistinctIds(uuid5, used, p, q);
        assert false;
      }
      UpsertKeepsIndexIff(tokenize, c, e);
      assert IsFrom(uuid5, used, e.id, e.context);
    }
  }

  // ------------------------------------------------------------------ retrieval

  /** The tokenizer and the logarithm, both foreign code. */
  datatype Analyzer = Analyzer(tokenize: Tokenizer, ln: real -> real)

  datatype Query = Query(vector: Embedding, context: Option<Text>, filter: Filter, topK: nat)

  ghost predicate SameDim(c: Contents) {
    forall id | id in c.entries :: |c.entries[id].vector| == c.dim
  }

  ghost function Matching(c: Contents, filter: Filter): set<EntryId> {
    set id | id in c.entries && Keep(filter, c.entries[id])
  }

  ghost function Sparse(an: Analyzer, c: Contents, context: Option<Text>, id: EntryId): real {
    match context
    case Some(text) => Score(an.ln, c.docs, id, Terms(an.tokenize(text)))
    case None => 0.0
  }

  /** The hit of a stored entry. */
  ghost function HitOf(an: Analyzer, c: Contents, vector: Embedding, context: Option<Text>, id: EntryId): ScoredHit
    requires SameDim(c) && id in c.entries && |vector| == c.dim
  {
    var e := c.entries[id];
    ScoredHit(id, Dot(vector, e.vector), Sparse(an, c, context, id), e.entities, e.context)
  }

  predicate Unrepeated(hits: seq<ScoredHit>) {
    forall i, j | 0 <= i < j < |hits| :: hits[i].id != hits[j].id
  }

  predicate Descending(hits: seq<ScoredHit>) {
    forall i, j | 0 <= i < j < |hits| :: hits[i].dense >= hits[j].dense
  }

  ghost predicate AllOf(an: Analyzer, c: Contents, q: Query, ids: set<EntryId>, hits: seq<ScoredHit>)
    requires SameDim(c) && |q.vector| == c.dim && ids <= c.entries.Keys
  {
    && Unrepeated(hits)
    && (forall h | h in hits :: h.id in ids && h == HitOf(an, c, q.vector, q.context, h.id))
    && (forall id | id in ids :: HitOf(an, c, q.vector, q.context, id) in hits)
  }

  /** A correct answer to a query: the best `topK` of the matching entries by dense score, best first.
      Ties may be broken either way, since hash maps are walked in no particular order. */
  ghost predicate IsAnswer(an: Analyzer, c: Contents, q: Query, hits: seq<ScoredHit>)
    requires SameDim(c) && |q.vector| == c.dim
  {
    var ids := Matching(c, q.filter);
    && Unrepeated(hits) && Descending(hits)
    && |hits| == (if q.topK < |ids| then q.topK else |ids|)
    && (forall h | h in hits :: h.id in ids && h == HitOf(an, c, q.vector, q.context, h.id))
    && (forall id, h | id in ids && h in hits && HitOf(an, c, q.vector, q.context, id) !in hits ::
          HitOf(an, c, q.vector, q.context, id).dense <= h.dense)
  }

  function InsertHit(hits: seq<ScoredHit>, h: ScoredHit): seq<ScoredHit> {
    if hits == [] || hits[|hits| - 1].dense >= h.dense then hits + [h]
    else InsertHit(hits[..|hits| - 1], h) + [hits[|hits| - 1]]
  }

  /** The stable sort by descending dense score. */
  function SortHits(hits: seq<ScoredHit>): seq<ScoredHit> {
    if hits == [] then [] else InsertHit(SortHits(hits[..|hits| - 1]), hits[|hits| - 1])
  }

  lemma {:induction false} InsertHitOrdered(hits: seq<ScoredHit>, h: ScoredHit)
    requires Descending(hits) && Unrepeated(hits) && forall g | g in hits :: g.id != h.id
    ensures Descending(InsertHit(hits, h)) && Unrepeated(InsertHit(hits, h))
    ensures forall g :: g in InsertHit(hits, h) <==> g in hits || g == h
  {
    if hits != [] {
      LastIsLowest(hits);
      var front, last := hits[..|hits| - 1], hits[|hits| - 1];
      if last.dense < h.dense {
        InsertHitOrdered(front, h);
        AppendOrdered(InsertHit(front, h), last);
      } else {
        AppendOrdered(hits, h);
      }
    }
  }

  lemma LastIsLowest(hits: seq<ScoredHit>)
    requires hits != [] && Descending(hits) && Unrepeated(hits)
    ensures var front, last := hits[..|hits| - 1], hits[|hits| - 1];
            && hits == front + [last] && Descending(front) && Unrepeated(front)
            && (forall g :: g in hits <==> g in front || g == last)
            && (forall g | g in front :: g.dense >= last.dense && g.id != last.id)
  {
    var front, last := hits[..|hits| - 1], hits[|hits| - 1];
    assert hits == front + [last];
  }

  lemma AppendOrdered(hits: seq<ScoredHit>, last: ScoredHit)
    requires Descending(hits) && Unrepeated(hits) && forall g | g in hits :: g.dense >= last.dense && g.id != last.id
    ensures Descending(hits + [last]) && Unrepeated(hits + [last])
  {
  }

  lemma {:induction false} SortHitsOrdered(hits: seq<ScoredHit>)
    requires Unrepeated(hits)
    ensures Descending(SortHits(hits)) && Unrepeated(SortHits(hits))
    ensures forall g :: g in SortHits(hits) <==> g in hits
  {
    if hits != [] {
      var front, last := hits[..|hits| - 1], hits[|hits| - 1];
      assert hits == front + [last];
      SortHitsOrdered(front);
      forall g | g in SortHits(front) ensures g.id != last.id {
        assert g in front;
      }
      InsertHitOrdered(SortHits(front), last);
    }
  }

  lemma {:induction false} CountIds(an: Analyzer, c: Contents, q: Query, ids: set<EntryId>, hits: seq<ScoredHit>)
    requires SameDim(c) && |q.vector| == c.dim && ids <= c.entries.Keys && AllOf(an, c, q, ids, hits)
    ensures |hits| == |ids|
  {
    if hits != [] {
      var front, last := hits[..|hits| - 1], hits[|hits| - 1];
      assert hits == front + [last];
      assert last in hits;
      forall id | id in ids - {last.id} ensures HitOf(an, c, q.vector, q.context, id) in front {
        assert HitOf(an, c, q.vector, q.context, id) in hits;
      }
      forall h | h in front ensures h.id in ids - {last.id} && h == HitOf(an, c, q.vector, q.context, h.id) {
        assert h in hits;
      }
      CountIds(an, c, q, ids - {last.id}, front);
    }
  }

  lemma SortKeepsAll(an: Analyzer, c: Contents, q: Query, ids: set<EntryId>, hits: seq<ScoredHit>)
    requires SameDim(c) && |q.vector| == c.dim && ids <= c.entries.Keys && AllOf(an, c, q, ids, hits)
    ensures AllOf(an, c, q, ids, SortHits(hits)) && Descending(SortHits(hits))
  {
    SortHitsOrdered(hits);
  }

  lemma Below(sorted: seq<ScoredHit>, k: nat, g: ScoredHit, h: ScoredHit)
    requires Descending(sorted) && k <= |sorted| && g in sorted && h in sorted[..k] && g !in sorted[..k]
    ensures g.dense <= h.dense
  {
  }

  lemma PrefixAnswers(an: Analyzer, c: Contents, q: Query, sorted: seq<ScoredHit>, k: nat)
    requires SameDim(c) && |q.vector| == c.dim && AllOf(an, c, q, Matching(c, q.filter), sorted) && Descending(sorted)
    requires k == (if q.topK < |sorted| then q.topK else |sorted|)
    ensures IsAnswer(an, c, q, sorted[..k])
  {
    var ids := Matching(c, q.filter);
    CountIds(an, c, q, ids, sorted);
    forall h | h in sorted[..k] ensures h.id in ids && h == HitOf(an, c, q.vector, q.context, h.id) {
      assert h in sorted;
    }
    forall id, h | id in ids && h in sorted[..k] && HitOf(an, c, q.vector, q.context, id) !in sorted[..k]
      ensures HitOf(an, c, q.vector, q.context, id).dense <= h.dense
    {
      Below(sorted, k, HitOf(an, c, q.vector, q.context, id), h);
    }
  }

  lemma {:induction false} Picked(all: set<EntryId>, k: nat) returns (ids: seq<EntryId>)
    requires k <= |all|
    ensures |ids| == k && (forall i, j | 0 <= i < j < k :: ids[i] != ids[j]) && forall id | id in ids :: id in all
    ensures k == |all| ==> forall id | id in all :: id in ids
    decreases k
  {
    ids := [];
    if k > 0 {
      var id :| id in all;
      var rest := Picked(all - {id}, k - 1);
      ids := [id] + rest;
    }
  }

  /** Every query has an answer. */
  lemma AnswerExists(an: Analyzer, c: Contents, q: Query) returns (hits: seq<ScoredHit>)
    requires SameDim(c) && |q.vector| == c.dim
    ensures IsAnswer(an, c, q, hits)
  {
    var all := Matching(c, q.filter);
    var ids := Picked(all, |all|);
    var unsorted := seq(|ids|, i requires 0 <= i < |ids| => assert ids[i] in ids; HitOf(an, c, q.vector, q.context, ids[i]));
    forall id | id in all ensures HitOf(an, c, q.vector, q.context, id) in unsorted {
      var i :| 0 <= i < |ids| && ids[i] == id;
      assert unsorted[i] == HitOf(an, c, q.vector, q.context, id);
    }
    forall h | h in unsorted ensures h.id in all && h == HitOf(an, c, q.vector, q.context, h.id) {
      var i :| 0 <= i < |unsorted| && unsorted[i] == h;
      assert ids[i] in ids;
    }
    SortKeepsAll(an, c, q, all, unsorted);
    var sorted := SortHits(unsorted);
    var k := if q.topK < |sorted| then q.topK else |sorted|;
    PrefixAnswers(an, c, q, sorted, k);
    hits := sorted[..k];
  }

  // ------------------------------------------------------------------ the store

  class Shard {
    const dim: nat
    var entries: map<EntryId, VectorEntry>
    const bm25: Index

    ghost function Holds(): Contents
      reads this, bm25
    {
      Contents(dim, entries, bm25.docs)
    }

    ghost predicate Valid()
      reads this, bm25
    {
      bm25.Valid() && SameDim(Holds())
    }

    constructor (dim: nat)
      ensures Valid() && this.dim == dim && entries == map[] && fresh(bm25) && bm25.docs == map[]
    {
      this.dim := dim;
      entries := map[];
      bm25 := new Index();
    }

    method Put(tokenize: Tokenizer, e: VectorEntry)
      requires Valid() && |e.vector| == dim
      modifies this, bm25
      ensures Valid()
      ensures Holds() == Contents(dim, old(entries)[e.id := e], IndexContext(tokenize, old(bm25.docs), e))
    {
      if e.context.Some? {
        bm25.Insert(e.id, tokenize(e.context.value));
      }
      entries := entries[e.id := e];
    }

    method Drop(id: EntryId)
      requires Valid()
      modifies this, bm25
      ensures Valid() && Holds() == Contents(dim, old(entries) - {id}, old(bm25.docs) - {id})
    {
      entries := entries - {id};
      bm25.Remove(id);
    }
  }

  /** One namespace of the store; the shard is created by its first upsert. */
  class NamespaceStore {
    var shard: Shard?
    const an: Analyzer

    ghost function Repr(): set<object>
      reads this
    {
      {this} + (if shard == null then {} else {shard, shard.bm25})
    }

    ghost function Holds(): Option<Contents>
      reads Repr()
    {
      if shard == null then None else Some(shard.Holds())
    }

    ghost predicate Valid()
      reads Repr()
    {
      shard != null ==> shard.Valid()
    }

    constructor (an: Analyzer)
      ensures Valid() && Holds() == None && this.an == an && fresh(Repr())
    {
      this.an := an;
      shard := null;
    }

    method Upsert(e: VectorEntry) returns (r: Option<EmbeddingError>)
      requires Valid()
      modifies Repr()
      ensures Valid() && fresh(Repr() - old(Repr()))
      ensures match Upserted(an.tokenize, old(Holds()), e)
              case Ok(after) => r == None && Holds() == Some(after)
              case Err(error) => r == Some(error) && Holds() == old(Holds())
    {
      if shard == null {
        shard := new Shard(|e.vector|);
      } else if |e.vector| != shard.dim {
        return Some(DimMismatch(|e.vector|, shard.dim));
      }
      shard.Put(an.tokenize, e);
      return None;
    }

    method Delete(id: EntryId)
      requires Valid()
      modifies Repr()
      ensures Valid() && Repr() == old(Repr()) && Holds() == Deleted(old(Holds()), id)
    {
      if shard != null {
        shard.Drop(id);
      }
    }

    method ComputeHit(q: Query, id: EntryId) returns (hit: ScoredHit)
      requires Valid() && shard != null && id in shard.entries && |q.vector| == shard.dim
      ensures hit == HitOf(an, Holds().value, q.vector, q.context, id)
    {
      var e := shard.entries[id];
      var dense := DotProduct(q.vector, e.vector);
      if dense.Err? {
        assert false;
      }
      var sparse := 0.0;
      if q.context.Some? {
        sparse := ComputeScore(shard.bm25, an.ln, id, TermSet(an.tokenize(q.context.value)));
      }
      return ScoredHit(id, dense.value, sparse, e.entities, e.context);
    }

    /** Every matching entry, scored. */
    method Collect(q: Query) returns (hits: seq<ScoredHit>)
      requires Valid() && shard != null && |q.vector| == shard.dim
      ensures AllOf(an, Holds().value, q, Matching(Holds().value, q.filter), hits)
    {
      ghost var c := Holds().value;
      ghost var all := Matching(c, q.filter);
      hits := [];
      var rest := shard.entries.Keys;
      while rest != {}
        invariant rest <= shard.entries.Keys
        invariant AllOf(an, c, q, all - rest, hits)
        decreases rest
      {
        var id :| id in rest;
        if Keep(q.filter, shard.entries[id]) {
          var hit := ComputeHit(q, id);
          AddHit(an, c, q, all - rest, hits, id, hits + [hit]);
          hits := hits + [hit];
          assert all - (rest - {id}) == all - rest + {id};
        } else {
          assert all - (rest - {id}) == all - rest;
        }
        rest := rest - {id};
      }
      assert all - rest == all;
    }

    method Search(q: Query) returns (r: Result<seq<ScoredHit>, EmbeddingError>)
      requires Valid()
      ensures match Holds()
              case None => r == Ok([])
              case Some(c) =>
                if |q.vector| != c.dim then r == Err(DimMismatch(|q.vector|, c.dim))
                else r.Ok? && IsAnswer(an, c, q, r.value)
    {
      if shard == null {
        return Ok([]);
      }
      if |q.vector| != shard.dim {
        return Err(DimMismatch(|q.vector|, shard.dim));
      }
      ghost var c := Holds().value;
      var hits := Collect(q);
      SortKeepsAll(an, c, q, Matching(c, q.filter), hits);
      hits := SortHits(hits);
      var k := if q.topK < |hits| then q.topK else |hits|;
      PrefixAnswers(an, c, q, hits, k);
      return Ok(hits[..k]);
    }
  }

  function TermSet(tokens: seq<Token>): (r: set<Token>)
    ensures r == Terms(tokens)
  {
    set t | t in tokens
  }

  lemma AddHit(an: Analyzer, c: Contents, q: Query, ids: set<EntryId>, before: seq<ScoredHit>, id: EntryId,
               hits: seq<ScoredHit>)
    requires SameDim(c) && |q.vector| == c.dim && ids <= c.entries.Keys && AllOf(an, c, q, ids, before)
    requires id in c.entries && id !in ids && hits == before + [HitOf(an, c, q.vector, q.context, id)]
    ensures AllOf(an, c, q, ids + {id}, hits)
  {
  }
}
