/**
 Top-k search followed by hard gates, against a brute-force search over every stored entry.
 */
module Retrieval {
  import opened Common
  import opened Identity
  import opened Embeddings
  import opened Bm25Score
  import opened VectorStore
  import opened Scoring

  /** The query a lookup sends to the store. */
  function Lookup(c: Config, vector: Embedding, keys: set<Text>, entities: set<Text>, context: Option<Text>): Query {
    Query(vector, context, Filter(keys, if c.entityFilter then entities else {}), c.topK)
  }

  /** Some answer of the store, in any tie order, is narrowed to `r`. */
  ghost predicate IsMatch(an: Analyzer, s: Contents, c: Config, q: Query, entities: set<Text>, r: Option<ScoredHit>)
    requires SameDim(s) && |q.vector| == s.dim
  {
    exists hits :: IsAnswer(an, s, q, hits) && IsSelection(c, entities, q.context, hits, r)
  }

  /** Every lookup ends in some match. */
  lemma MatchExists(an: Analyzer, s: Contents, c: Config, q: Query, entities: set<Text>) returns (r: Option<ScoredHit>)
    requires SameDim(s) && |q.vector| == s.dim
    ensures IsMatch(an, s, c, q, entities, r)
  {
    var hits := AnswerExists(an, s, q);
    r := SelectionExists(c, entities, q.context, hits);
  }

  /** The entries with the caller's keys that a search without entity filter or truncation would accept. */
  ghost function Acceptable(an: Analyzer, s: Contents, c: Config, vector: Embedding, keys: set<Text>,
                            entities: set<Text>, context: Option<Text>): set<EntryId>
    requires SameDim(s) && |vector| == s.dim
  {
    set id | id in s.entries && keys <= s.entries[id].keys && Accept(c, entities, context, HitOf(an, s, vector, context, id))
  }

  /** The filter lets every acceptable entry pass, and nothing without the caller's keys. */
  lemma FilterIsSound(an: Analyzer, s: Contents, c: Config, vector: Embedding, keys: set<Text>,
                      entities: set<Text>, context: Option<Text>)
    requires SameDim(s) && |vector| == s.dim
    ensures var matching := Matching(s, Lookup(c, vector, keys, entities, context).filter);
            && Acceptable(an, s, c, vector, keys, entities, context) <= matching
            && (forall id | id in matching :: id in s.entries && keys <= s.entries[id].keys)
  {
    forall id | id in Acceptable(an, s, c, vector, keys, entities, context)
      ensures entities == {} || entities * s.entries[id].entities != {}
    {
      if entities != {} {
        assert |entities * s.entries[id].entities| >= 1;
      }
    }
  }

  /** What a match says about the entries the filter passes. */
  lemma WinnerAmongMatches(an: Analyzer, s: Contents, c: Config, q: Query, entities: set<Text>, r: Option<ScoredHit>)
    requires SameDim(s) && |q.vector| == s.dim && IsMatch(an, s, c, q, entities, r)
    ensures r.Some? ==>
              && r.value.id in Matching(s, q.filter) && Accept(c, entities, q.context, r.value)
              && r.value == HitOf(an, s, q.vector, q.context, r.value.id)
              && forall id | id in Matching(s, q.filter)
                             && Accept(c, entities, q.context, HitOf(an, s, q.vector, q.context, id)) ::
                   HitOf(an, s, q.vector, q.context, id).dense <= r.value.dense
    ensures r.None? && |Matching(s, q.filter)| <= q.topK ==>
              forall id | id in Matching(s, q.filter) ::
                !Accept(c, entities, q.context, HitOf(an, s, q.vector, q.context, id))
  {
    var hits: seq<ScoredHit> :| IsAnswer(an, s, q, hits) && IsSelection(c, entities, q.context, hits, r);
    if r.None? && |Matching(s, q.filter)| <= q.topK {
      AllReturned(an, s, q, hits);
    } else if r.Some? {
      var i: nat :| IsBestAt(c, entities, q.context, hits, i, r.value);
      assert r.value in hits;
    }
  }

  /** A hit is globally optimal: it is acceptable, and no acceptable entry of the store has a higher dense
      score.  A miss is exact when the entries with the caller's keys fit into `topK`. */
  lemma WinnerIsOptimal(an: Analyzer, s: Contents, c: Config, vector: Embedding, keys: set<Text>,
                        entities: set<Text>, context: Option<Text>, r: Option<ScoredHit>)
    requires SameDim(s) && |vector| == s.dim
    requires IsMatch(an, s, c, Lookup(c, vector, keys, entities, context), entities, r)
    ensures r.Some? ==>
              && r.value.id in Acceptable(an, s, c, vector, keys, entities, context)
              && r.value == HitOf(an, s, vector, context, r.value.id)
              && forall id | id in Acceptable(an, s, c, vector, keys, entities, context) ::
                   HitOf(an, s, vector, context, id).dense <= r.value.dense
    ensures r.None? && |set id | id in s.entries && keys <= s.entries[id].keys| <= c.topK ==>
              Acceptable(an, s, c, vector, keys, entities, context) == {}
  {
    var q := Lookup(c, vector, keys, entities, context);
    FilterIsSound(an, s, c, vector, keys, entities, context);
    WinnerAmongMatches(an, s, c, q, entities, r);
    Subset(Matching(s, q.filter), set id | id in s.entries && keys <= s.entries[id].keys);
  }

  /** With room for all of them, every matching entry is returned. */
  lemma AllReturned(an: Analyzer, s: Contents, q: Query, hits: seq<ScoredHit>)
    requires SameDim(s) && |q.vector| == s.dim && IsAnswer(an, s, q, hits) && |Matching(s, q.filter)| <= q.topK
    ensures forall id | id in Matching(s, q.filter) :: HitOf(an, s, q.vector, q.context, id) in hits
  {
    var returned := set h | h in hits :: h.id;
    IdsCounted(hits);
    SameSize(returned, Matching(s, q.filter));
  }

  lemma {:induction false} IdsCounted(hits: seq<ScoredHit>)
    requires Unrepeated(hits)
    ensures |set h | h in hits :: h.id| == |hits|
  {
    if hits != [] {
      var front, last := hits[..|hits| - 1], hits[|hits| - 1];
      assert hits == front + [last];
      IdsCounted(front);
      assert (set h | h in hits :: h.id) == (set h | h in front :: h.id) + {last.id};
    }
  }

  lemma {:induction false} SameSize<T>(a: set<T>, b: set<T>)
    requires a <= b && |a| == |b|
    ensures a == b
  {
    if a != {} {
      var x :| x in a;
      SameSize(a - {x}, b - {x});
    }
  }

  /** The context gate does not apply. */
  predicate Ungated(c: Config, context: Option<Text>) {
    c.context.Ignore? || context.None?
  }

  /** The filter the store applies subsumes every gate but the dense floor. */
  predicate FilterDecides(c: Config, entities: set<Text>, context: Option<Text>) {
    (c.entityFilter || entities == {}) && |entities| < 6 && (Ungated(c, context) || c.contextGate == 0.0)
  }

  /** Then a matching entry is acceptable exactly when its dense score reaches the floor, and no other
      entry is acceptable. */
  lemma FilterIsGate(an: Analyzer, s: Contents, c: Config, vector: Embedding, keys: set<Text>, entities: set<Text>,
                     context: Option<Text>, id: EntryId)
    requires SameDim(s) && |vector| == s.dim && id in s.entries && (Ungated(c, context) || LogLike(an.ln))
    requires FilterDecides(c, entities, context)
    ensures id in Acceptable(an, s, c, vector, keys, entities, context) <==>
            id in Matching(s, Lookup(c, vector, keys, entities, context).filter)
            && HitOf(an, s, vector, context, id).dense >= Floor(c, context)
  {
    if !Ungated(c, context) {
      ScoreRange(an.ln, s.docs, id, Terms(an.tokenize(context.value)));
    }
  }

  /** `r` is what a search over every stored entry with the caller's keys, without entity filter or
      truncation, finds. */
  ghost predicate IsBruteForce(an: Analyzer, s: Contents, c: Config, vector: Embedding, keys: set<Text>,
                               entities: set<Text>, context: Option<Text>, r: Option<ScoredHit>)
    requires SameDim(s) && |vector| == s.dim
  {
    var accepted := Acceptable(an, s, c, vector, keys, entities, context);
    && (r.Some? <==> accepted != {})
    && (r.Some? ==>
          r.value.id in accepted && forall id | id in accepted :: HitOf(an, s, vector, context, id).dense <= r.value.dense)
  }

  /** Where the filter decides, truncation loses nothing: for every `topK` the hit or miss, and the
      winning score, are those of the brute-force search. */
  lemma TruncationIsLossless(an: Analyzer, s: Contents, c: Config, vector: Embedding, keys: set<Text>,
                             entities: set<Text>, context: Option<Text>, r: Option<ScoredHit>)
    requires SameDim(s) && |vector| == s.dim && c.topK >= 1 && (Ungated(c, context) || LogLike(an.ln))
    requires FilterDecides(c, entities, context)
    requires IsMatch(an, s, c, Lookup(c, vector, keys, entities, context), entities, r)
    ensures IsBruteForce(an, s, c, vector, keys, entities, context, r)
  {
    WinnerIsOptimal(an, s, c, vector, keys, entities, context, r);
    if id :| id in Acceptable(an, s, c, vector, keys, entities, context) {
      BestReturned(an, s, c, vector, keys, entities, context, r, id);
    }
  }

  /** If some entry is acceptable, the best returned hit is. */
  lemma BestReturned(an: Analyzer, s: Contents, c: Config, vector: Embedding, keys: set<Text>,
                     entities: set<Text>, context: Option<Text>, r: Option<ScoredHit>, id: EntryId)
    requires SameDim(s) && |vector| == s.dim && c.topK >= 1 && (Ungated(c, context) || LogLike(an.ln))
    requires FilterDecides(c, entities, context) && id in Acceptable(an, s, c, vector, keys, entities, context)
    requires IsMatch(an, s, c, Lookup(c, vector, keys, entities, context), entities, r)
    ensures r.Some?
  {
    var q := Lookup(c, vector, keys, entities, context);
    var hits: seq<ScoredHit> :| IsAnswer(an, s, q, hits) && IsSelection(c, entities, q.context, hits, r);
    FilterIsGate(an, s, c, vector, keys, entities, context, id);
    var best := hits[0];
    assert best in hits;
    FilterIsGate(an, s, c, vector, keys, entities, context, best.id);
    var h := HitOf(an, s, vector, context, id);
    if h in hits {
      var i :| 0 <= i < |hits| && hits[i] == h;
      assert best.dense >= h.dense;
    }
    assert Accept(c, entities, context, best);
  }
}
