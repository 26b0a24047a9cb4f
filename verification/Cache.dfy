/**
 Looking up, preparing, committing and deleting entries; and the promise that a committed entry is
 found again by its own query.
 */
module Cache {
  import opened Common
  import opened Identity
  import opened Embeddings
  import opened Bm25Score
  import opened VectorStore
  import opened Scoring
  import opened Retrieval

  datatype Failure = Extraction | Embedder | Store(error: EmbeddingError) | VectorStorage | ObjectStorage

  /** The entity extractor, the embedding model and the id hash, as deterministic functions that may fail. */
  datatype Backends = Backends(
    extract: (Text, bool) -> Result<set<Text>, Failure>,
    embed: Text -> Result<Embedding, Failure>,
    uuid5: Bytes -> EntryId)

  // ------------------------------------------------------------------ the keyword extractor

  const FULL_N := 20
  const FAST_M := 5

  /** Entities of a ranked keyword list; `normalize` drops blank keywords. */
  function Keywords(ranked: seq<Text>, normalize: Text -> Option<Text>, fast: bool): set<Text> {
    var take := if fast then FAST_M else FULL_N;
    var used := if take < |ranked| then ranked[..take] else ranked;
    set k | k in used && normalize(k).Some? :: normalize(k).value
  }

  lemma {:induction false} ImageBound(ks: seq<Text>, normalize: Text -> Option<Text>)
    ensures |set k | k in ks && normalize(k).Some? :: normalize(k).value| <= |ks|
  {
    if ks != [] {
      var front, last := ks[..|ks| - 1], ks[|ks| - 1];
      ImageBound(front, normalize);
      assert ks == front + [last];
      var image := set k | k in front && normalize(k).Some? :: normalize(k).value;
      assert (set k | k in ks && normalize(k).Some? :: normalize(k).value) ==
             image + (if normalize(last).Some? then {normalize(last).value} else {});
    }
  }

  /** The fast extraction is part of the full one, has fewer than six entities, and is empty only when
      the full one is, as long as no ranked keyword is blank. */
  lemma KeywordsFast(ranked: seq<Text>, normalize: Text -> Option<Text>)
    ensures Keywords(ranked, normalize, true) <= Keywords(ranked, normalize, false)
    ensures |Keywords(ranked, normalize, true)| <= FAST_M
    ensures (forall k | k in ranked :: normalize(k).Some?) ==>
              (Keywords(ranked, normalize, true) == {} <==> Keywords(ranked, normalize, false) == {})
  {
    var used := if FAST_M < |ranked| then ranked[..FAST_M] else ranked;
    var full := if FULL_N < |ranked| then ranked[..FULL_N] else ranked;
    ImageBound(used, normalize);
    assert forall k | k in used :: k in full;
    if (forall k | k in ranked :: normalize(k).Some?) && ranked != [] {
      assert ranked[0] in used && normalize(ranked[0]).value in Keywords(ranked, normalize, true);
    }
  }

  /** Five of the ranked keywords in fast mode, twenty in full mode, normalized. */
  lemma KeywordsMean(ranked: seq<Text>, normalize: Text -> Option<Text>, fast: bool, t: Text)
    ensures t in Keywords(ranked, normalize, fast) <==>
            exists i :: 0 <= i < |ranked| && i < (if fast then 5 else 20) && normalize(ranked[i]) == Some(t)
  {
    var take := if fast then FAST_M else FULL_N;
    var used := if take < |ranked| then ranked[..take] else ranked;
    if i :| 0 <= i < |ranked| && i < take && normalize(ranked[i]) == Some(t) {
      assert used[i] == ranked[i];
    }
    if k :| k in used && normalize(k) == Some(t) {
      var i :| 0 <= i < |used| && used[i] == k;
      assert ranked[i] == k;
    }
  }

  // ------------------------------------------------------------------ what an operation computes

  /** Entities of the query, or of the context when the query has none. */
  function Entities(b: Backends, query: Text, context: Option<Text>, fast: bool): Result<set<Text>, Failure> {
    match b.extract(query, fast)
    case Err(error) => Err(error)
    case Ok(found) => if found == {} && context.Some? then b.extract(context.value, fast) else Ok(found)
  }

  ghost function Prepared(b: Backends, p: Parts): Result<VectorEntry, Failure> {
    match Entities(b, p.query, p.context, false)
    case Err(error) => Err(error)
    case Ok(entities) =>
      match b.embed(p.query)
      case Err(error) => Err(error)
      case Ok(vector) => Ok(VectorEntry(b.uuid5(Encode(p)), vector, p.keys, entities, p.context))
  }

  /** What a lookup may answer: an error of a backend or the store, a miss in an empty namespace, or a
      gated best match. */
  ghost predicate IsFound(b: Backends, an: Analyzer, c: Config, s: Option<Contents>, p: Parts,
                          r: Result<Option<ScoredHit>, Failure>)
    requires s.Some? ==> SameDim(s.value)
  {
    match (Entities(b, p.query, p.context, true), b.embed(p.query))
    case (Err(error), _) => r == Err(error)
    case (Ok(_), Err(error)) => r == Err(error)
    case (Ok(entities), Ok(vector)) =>
      if s.None? then r == Ok(None)
      else if |vector| != s.value.dim then r == Err(Store(DimMismatch(|vector|, s.value.dim)))
      else r.Ok? && IsMatch(an, s.value, c, Lookup(c, vector, p.keys, entities, p.context), entities, r.value)
  }

  // ------------------------------------------------------------------ what an outcome means

  /** The entities an operation works with: those of the query, or, when the query has none and there is a
      context, those of the context, in one mode throughout. */
  ghost predicate Extracted(b: Backends, p: Parts, fast: bool, entities: set<Text>) {
    || (b.extract(p.query, fast) == Ok(entities) && (entities != {} || p.context == None))
    || (b.extract(p.query, fast) == Ok({}) && p.context != None && b.extract(p.context.value, fast) == Ok(entities))
  }

  lemma EntitiesMean(b: Backends, p: Parts, fast: bool, entities: set<Text>)
    ensures Entities(b, p.query, p.context, fast) == Ok(entities) <==> Extracted(b, p, fast, entities)
  {
  }

  /** A prepared entry carries the parts, the embedding of the query and the entities of full extraction
      under the derived id. */
  lemma PreparedMeans(b: Backends, p: Parts, e: VectorEntry)
    ensures Prepared(b, p) == Ok(e) <==>
            && e.id == b.uuid5(Encode(p)) && e.keys == p.keys && e.context == p.context
            && b.embed(p.query) == Ok(e.vector) && Extracted(b, p, false, e.entities)
  {
    EntitiesMean(b, p, false, e.entities);
  }

  /** The hit a stored entry makes for these parts: cosine with the query, context score, and the entry's own
      entities and context. */
  ghost predicate IsHitFor(b: Backends, an: Analyzer, s: Contents, p: Parts, hit: ScoredHit)
    requires SameDim(s)
  {
    && hit.id in s.entries
    && hit.entities == s.entries[hit.id].entities && hit.context == s.entries[hit.id].context
    && b.embed(p.query).Ok? && |b.embed(p.query).value| == s.dim
    && hit.dense == Dot(b.embed(p.query).value, s.entries[hit.id].vector)
    && (p.context == None ==> hit.sparse == 0.0)
    && (p.context != None ==> hit.sparse == Score(an.ln, s.docs, hit.id, set w | w in an.tokenize(p.context.value)))
  }

  lemma HitMeans(b: Backends, an: Analyzer, s: Contents, p: Parts, id: EntryId)
    requires SameDim(s) && id in s.entries && b.embed(p.query).Ok? && |b.embed(p.query).value| == s.dim
    ensures var hit := HitOf(an, s, b.embed(p.query).value, p.context, id); hit.id == id && IsHitFor(b, an, s, p, hit)
  {
    if p.context.Some? {
      assert Terms(an.tokenize(p.context.value)) == set w | w in an.tokenize(p.context.value);
    }
  }

  /** A hit is the hit of a stored entry that has every key asked for and qualifies for the entities of fast
      extraction; no other such entry has a higher dense score. */
  lemma FoundMeans(b: Backends, an: Analyzer, c: Config, s: Contents, p: Parts, entities: set<Text>, hit: ScoredHit)
    requires SameDim(s) && Extracted(b, p, true, entities) && IsFound(b, an, c, Some(s), p, Ok(Some(hit)))
    ensures IsHitFor(b, an, s, p, hit) && p.keys <= s.entries[hit.id].keys && Qualifies(c, entities, p.context, hit)
    ensures forall other | IsHitFor(b, an, s, p, other) && p.keys <= s.entries[other.id].keys
                           && Qualifies(c, entities, p.context, other) :: other.dense <= hit.dense
  {
    EntitiesMean(b, p, true, entities);
    var vector := b.embed(p.query).value;
    WinnerIsOptimal(an, s, c, vector, p.keys, entities, p.context, Some(hit));
    AcceptMeans(c, entities, p.context, hit);
    HitMeans(b, an, s, p, hit.id);
    forall other | IsHitFor(b, an, s, p, other) && p.keys <= s.entries[other.id].keys
                   && Qualifies(c, entities, p.context, other)
      ensures other.dense <= hit.dense
    {
      AcceptMeans(c, entities, p.context, other);
      HitMeans(b, an, s, p, other.id);
      assert other == HitOf(an, s, vector, p.context, other.id);
    }
  }

  /** A miss in a namespace with room for every entry that has the keys asked for means that none of them
      qualifies. */
  lemma MissMeans(b: Backends, an: Analyzer, c: Config, s: Contents, p: Parts, entities: set<Text>, other: ScoredHit)
    requires SameDim(s) && Extracted(b, p, true, entities) && IsFound(b, an, c, Some(s), p, Ok(None))
    requires |set id | id in s.entries && p.keys <= s.entries[id].keys| <= c.topK
    requires IsHitFor(b, an, s, p, other) && p.keys <= s.entries[other.id].keys
    ensures !Qualifies(c, entities, p.context, other)
  {
    EntitiesMean(b, p, true, entities);
    var vector := b.embed(p.query).value;
    WinnerIsOptimal(an, s, c, vector, p.keys, entities, p.context, None);
    AcceptMeans(c, entities, p.context, other);
    HitMeans(b, an, s, p, other.id);
    assert other == HitOf(an, s, vector, p.context, other.id);
    assert other.id !in Acceptable(an, s, c, vector, p.keys, entities, p.context);
  }

  // ------------------------------------------------------------------ the cache of one namespace

  class NamespaceCache {
    const b: Backends
    const scoring: Config
    const store: NamespaceStore
    var objects: map<EntryId, Bytes>

    ghost predicate Valid()
      reads this, store, store.Repr()
    {
      this !in store.Repr() && store.Valid()
    }

    constructor (b: Backends, an: Analyzer, scoring: Config)
      ensures Valid() && store.Holds() == None && objects == map[]
      ensures this.b == b && this.scoring == scoring && store.an == an && fresh(store.Repr())
    {
      this.b, this.scoring, objects := b, scoring, map[];
      store := new NamespaceStore(an);
    }

    method ExtractEntities(query: Text, context: Option<Text>, fast: bool) returns (r: Result<set<Text>, Failure>)
      ensures r == Entities(b, query, context, fast)
    {
      r := b.extract(query, fast);
      if r.Ok? && r.value == {} && context.Some? {
        r := b.extract(context.value, fast);
      }
    }

    method FindMatch(p: Parts) returns (r: Result<Option<ScoredHit>, Failure>)
      requires Valid()
      ensures IsFound(b, store.an, scoring, store.Holds(), p, r)
    {
      var entities := ExtractEntities(p.query, p.context, true);
      if entities.Err? {
        return Err(entities.error);
      }
      var vector := b.embed(p.query);
      if vector.Err? {
        return Err(vector.error);
      }
      var hits := store.Search(Lookup(scoring, vector.value, p.keys, entities.value, p.context));
      if hits.Err? {
        return Err(Store(hits.error));
      }
      var best := Select(scoring, entities.value, p.context, hits.value);
      if store.shard == null {
        assert hits.value == [];
        if best.Some? {
          assert false;
        }
      }
      return Ok(best);
    }

    /** `readable` is whether the object store answers. */
    method Get(p: Parts, readable: bool) returns (r: Result<Option<Bytes>, Failure>)
      requires Valid()
      ensures exists found :: IsFound(b, store.an, scoring, store.Holds(), p, found)
                && r == match found
                        case Err(error) => Err(error)
                        case Ok(None) => Ok(None)
                        case Ok(Some(hit)) =>
                          if !readable then Err(ObjectStorage)
                          else Ok(if hit.id in objects then Some(objects[hit.id]) else None)
    {
      var found := FindMatch(p);
      match found {
        case Err(error) => return Err(error);
        case Ok(None) => return Ok(None);
        case Ok(Some(hit)) =>
          if !readable {
            return Err(ObjectStorage);
          }
          return Ok(if hit.id in objects then Some(objects[hit.id]) else None);
      }
    }

    method Prepare(p: Parts) returns (r: Result<VectorEntry, Failure>)
      ensures r == Prepared(b, p)
    {
      var entities := ExtractEntities(p.query, p.context, false);
      if entities.Err? {
        return Err(entities.error);
      }
      var vector := b.embed(p.query);
      if vector.Err? {
        return Err(vector.error);
      }
      var id := Derive(b.uuid5, p);
      return Ok(VectorEntry(id, vector.value, p.keys, entities.value, p.context));
    }

    /** The object is put before the entry is indexed: a failed put leaves both stores alone, a rejected
        entry leaves its object behind. */
    method Commit(e: VectorEntry, value: Bytes, writable: bool) returns (r: Option<Failure>)
      requires Valid()
      modifies this, store.Repr()
      ensures Valid() && objects == if writable then old(objects)[e.id := value] else old(objects)
      ensures if !writable then r == Some(ObjectStorage) && store.Holds() == old(store.Holds())
              else
                match Upserted(store.an.tokenize, old(store.Holds()), e)
                case Ok(after) => r == None && store.Holds() == Some(after)
                case Err(error) => r == Some(Store(error)) && store.Holds() == old(store.Holds())
    {
      if !writable {
        return Some(ObjectStorage);
      }
      objects := objects[e.id := value];
      var result := store.Upsert(e);
      return if result.Some? then Some(Store(result.value)) else None;
    }

    /** Unindexes, then drops the object; either store may fail. */
    method Evict(id: EntryId, unindexed: bool, dropped: bool) returns (r: Result<bool, Failure>)
      requires Valid()
      modifies this, store.Repr()
      ensures Valid() && r == Eviction(unindexed, dropped)
      ensures store.Holds() == if unindexed then Deleted(old(store.Holds()), id) else old(store.Holds())
      ensures objects == if unindexed && dropped then old(objects) - {id} else old(objects)
    {
      if !unindexed {
        return Err(VectorStorage);
      }
      store.Delete(id);
      if !dropped {
        return Err(ObjectStorage);
      }
      DropObject(id);
      return Ok(true);
    }

    method DropObject(id: EntryId)
      requires Valid()
      modifies this`objects
      ensures Valid() && objects == old(objects) - {id} && store.Holds() == old(store.Holds())
    {
      objects := objects - {id};
    }

    /** Deletes the entry the lookup finds, which need not be the one these parts would name. */
    method Delete(p: Parts, unindexed: bool, dropped: bool)
        returns (r: Result<bool, Failure>, ghost found: Result<Option<ScoredHit>, Failure>)
      requires Valid()
      modifies this, store.Repr()
      ensures Valid() && IsFound(b, store.an, scoring, old(store.Holds()), p, found)
      ensures match found
              case Err(error) => r == Err(error) && objects == old(objects) && store.Holds() == old(store.Holds())
              case Ok(None) => r == Ok(false) && objects == old(objects) && store.Holds() == old(store.Holds())
              case Ok(Some(hit)) =>
                && r == Eviction(unindexed, dropped)
                && store.Holds() == (if unindexed then Deleted(old(store.Holds()), hit.id) else old(store.Holds()))
                && objects == (if unindexed && dropped then old(objects) - {hit.id} else old(objects))
    {
      var hit := FindMatch(p);
      found := hit;
      match hit {
        case Err(error) => r := Err(error);
        case Ok(None) => r := Ok(false);
        case Ok(Some(h)) => r := Evict(h.id, unindexed, dropped);
      }
    }
  }

  function Eviction(unindexed: bool, dropped: bool): Result<bool, Failure> {
    if !unindexed then Err(VectorStorage) else if !dropped then Err(ObjectStorage) else Ok(true)
  }
}
