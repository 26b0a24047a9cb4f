/**
 When top-k search followed by the gates is a brute-force search on every store, and the stores on
 which it is not.
 */
module Truncation {
  import opened Common
  import opened Identity
  import opened Embeddings
  import opened Bm25
  import opened Sums
  import opened Bm25Score
  import opened VectorStore
  import opened Scoring
  import opened Retrieval

  /** A store as the cache leaves it: entries under their own ids, one dimension, an exact index whose
      document count is a `usize`. */
  ghost predicate Sound(an: Analyzer, s: Contents) {
    && SameDim(s) && IndexExact(an.tokenize, Some(s)) && |s.docs| < SIZE_LIMIT
    && forall id | id in s.entries :: s.entries[id].id == id
  }

  /** Whatever the store holds, and whatever the order of ties, the lookup is a brute-force search. */
  ghost predicate Lossless(an: Analyzer, c: Config, keys: set<Text>, entities: set<Text>, context: Option<Text>) {
    forall s: Contents, vector: Embedding, r: Option<ScoredHit>
      | Sound(an, s) && |vector| == s.dim && IsMatch(an, s, c, Lookup(c, vector, keys, entities, context), entities, r) ::
      IsBruteForce(an, s, c, vector, keys, entities, context, r)
  }

  ghost function Tokenized(tokenize: Tokenizer, texts: map<EntryId, Text>): Docs {
    map id | id in texts :: tokenize(texts[id])
  }

  ghost predicate Clears(an: Analyzer, context: Text, gate: real, texts: map<EntryId, Text>, id: EntryId) {
    |texts| < SIZE_LIMIT && Score(an.ln, Tokenized(an.tokenize, texts), id, Terms(an.tokenize(context))) >= gate
  }

  /** Some stored contexts let an entry clear the gate for this query context. */
  ghost predicate Clearable(an: Analyzer, context: Text, gate: real) {
    exists texts: map<EntryId, Text>, id: EntryId :: Clears(an, context, gate, texts, id)
  }

  /** No context clears a gate of 1, and a context without words clears none. */
  lemma NotClearable(an: Analyzer, context: Text, gate: real)
    requires LogLike(an.ln) && gate > 0.0 && (gate >= 1.0 || an.tokenize(context) == [])
    ensures !Clearable(an, context, gate)
  {
    forall texts: map<EntryId, Text>, id: EntryId ensures !Clears(an, context, gate, texts, id) {
      ScoreRange(an.ln, Tokenized(an.tokenize, texts), id, Terms(an.tokenize(context)));
    }
  }

  /** What a term that occurs `k` times earns of its weight in a document stored alone. */
  function AloneShare(k: nat): real {
    k as real / (k as real + 1.2)
  }

  lemma NormAlone(id: EntryId, doc: seq<Token>)
    requires doc != []
    ensures |map[id := doc]| == 1 && TotalLength(map[id := doc]) == |doc| && Norm(|doc|, |doc|, 1) == 1.2
  {
    var docs := map[id := doc];
    LengthWithout(docs, id);
    assert docs - {id} == map[];
    NormNonNegative(|doc|, |doc|, 1);
    WholeRatio(|doc| as real);
  }

  lemma WholeRatio(x: real)
    requires x > 0.0
    ensures x / (x / 1.0) == 1.0
  {
    assert x / 1.0 == x;
  }

  /** `x / (x + 1.2)` grows with `x`. */
  lemma ShareGrows(k: real, x: real)
    requires 0.0 < k <= x
    ensures k / (k + 1.2) <= x / (x + 1.2)
  {
  }

  lemma SaturatedShare(idf: real, k: nat, tf: nat)
    requires idf > 0.0 && 0 < k <= tf
    ensures Saturated(idf, tf as real, 1.2) >= AloneShare(k) * (idf * (K1 + 1.0))
  {
    var w, x := idf * 2.2, tf as real;
    ShareGrows(k as real, x);
    assert idf * (x * 2.2) == w * x;
    MultiplyShare(w, x, AloneShare(k));
  }

  lemma MultiplyShare(w: real, x: real, share: real)
    requires w > 0.0 && x > 0.0 && share <= x / (x + 1.2)
    ensures w * x / (x + 1.2) >= share * w
  {
    var r := x / (x + 1.2);
    assert w * x / (x + 1.2) == w * r;
  }

  lemma RepeatedTerm(ln: real -> real, docs: Docs, id: EntryId, t: Token, k: nat)
    requires LogLike(ln) && id in docs && 0 < k <= multiset(docs[id])[t]
    requires |docs| > 0 && TotalLength(docs) > 0 && Norm(|docs[id]|, TotalLength(docs), |docs|) == 1.2
    ensures Match(ln, docs, id)(t) >= AloneShare(k) * Weight(ln, docs)(t)
  {
    assert t in docs[id];
    FrequencyBound(docs, t);
    IdfPositive(ln, |docs|, DocumentFrequency(docs, t));
    SaturatedShare(Idf(ln, |docs|, DocumentFrequency(docs, t)), k, multiset(docs[id])[t]);
  }

  lemma ScoreFromTerms(ln: real -> real, docs: Docs, id: EntryId, terms: set<Token>, q: real)
    requires LogLike(ln) && id in docs && terms != {}
    requires forall t | t in terms :: Match(ln, docs, id)(t) >= Compose(Times(q), Weight(ln, docs))(t)
    ensures Score(ln, docs, id, terms) >= q
  {
    ScoreIsRatio(ln, docs, id, terms);
    RatioAtLeast(terms, q, Match(ln, docs, id), Weight(ln, docs));
  }

  /** Stored alone, a document that repeats every query term at least `k` times scores at least
      k / (k + 1.2), */
  lemma AloneScore(ln: real -> real, id: EntryId, doc: seq<Token>, terms: set<Token>, k: nat)
    requires LogLike(ln) && k > 0 && terms != {} && forall t | t in terms :: multiset(doc)[t] >= k
    ensures Score(ln, map[id := doc], id, terms) >= AloneShare(k)
  {
    var some: Token :| some in terms;
    assert some in doc;
    NormAlone(id, doc);
    forall t | t in terms
      ensures Match(ln, map[id := doc], id)(t) >= Compose(Times(AloneShare(k)), Weight(ln, map[id := doc]))(t)
    {
      RepeatedTerm(ln, map[id := doc], id, t, k);
    }
    ScoreFromTerms(ln, map[id := doc], id, terms, AloneShare(k));
  }

  /** `text` has every word of the query context at least `k` times. */
  ghost predicate Repeats(an: Analyzer, context: Text, text: Text, k: nat) {
    forall t | t in an.tokenize(context) :: multiset(an.tokenize(text))[t] >= k
  }

  /** so it clears every gate up to there. */
  lemma RepeatsClear(an: Analyzer, context: Text, gate: real, text: Text, k: nat)
    requires LogLike(an.ln) && an.tokenize(context) != [] && k > 0 && Repeats(an, context, text, k)
    requires gate <= AloneShare(k)
    ensures Clearable(an, context, gate)
  {
    var id := Numbered(0);
    var texts := map[id := text];
    assert Tokenized(an.tokenize, texts) == map[id := an.tokenize(text)];
    assert an.tokenize(context)[0] in Terms(an.tokenize(context));
    AloneScore(an.ln, id, an.tokenize(text), Terms(an.tokenize(context)), k);
    assert Clears(an, context, gate, texts, id);
  }

  /** A context repeats its own words once, and clears every gate up to 5/11. */
  lemma OwnContextClears(an: Analyzer, context: Text, gate: real)
    requires LogLike(an.ln) && gate <= 5.0 / 11.0 && an.tokenize(context) != []
    ensures Clearable(an, context, gate)
  {
    RepeatsClear(an, context, gate, context, 1);
  }

  // ------------------------------------------------------------------ fresh ids

  function FirstIds(n: nat): set<EntryId> {
    set i: nat | i < n :: Numbered(i)
  }

  lemma {:induction false} FirstIdsCounted(n: nat)
    requires n <= Limit(ID_BYTES)
    ensures |FirstIds(n)| == n
  {
    if n > 0 {
      FirstIdsCounted(n - 1);
      NextIdIsNew(n - 1);
      assert FirstIds(n) == FirstIds(n - 1) + {Numbered(n - 1)};
    }
  }

  lemma NextIdIsNew(n: nat)
    requires n < Limit(ID_BYTES)
    ensures Numbered(n) !in FirstIds(n)
  {
    forall i: nat | i < n ensures Numbered(i) != Numbered(n) {
      NumberedDistinct(i, n);
    }
  }

  lemma FreshId(avoid: set<EntryId>) returns (id: EntryId)
    requires |avoid| < Limit(ID_BYTES)
    ensures id !in avoid
  {
    var first := FirstIds(|avoid| + 1);
    FirstIdsCounted(|avoid| + 1);
    if first <= avoid {
      Subset(first, avoid);
      assert false;
    }
    id :| id in first && id !in avoid;
  }

  lemma {:induction false} FreshIds(avoid: set<EntryId>, k: nat) returns (ids: seq<EntryId>)
    requires |avoid| + k <= Limit(ID_BYTES)
    ensures |ids| == k && (forall i, j | 0 <= i < j < k :: ids[i] != ids[j]) && forall id | id in ids :: id !in avoid
    decreases k
  {
    ids := [];
    if k > 0 {
      var id := FreshId(avoid);
      var rest := FreshIds(avoid + {id}, k - 1);
      ids := [id] + rest;
    }
  }

  // ------------------------------------------------------------------ three vectors

  const NEAR: seq<real> := [1.0, 0.0]
  const OPPOSITE: seq<real> := [-1.0, 0.0]

  /** A unit vector whose cosine with `NEAR` reaches the floor, and is below 1 unless the floor is 1. */
  function Far(floor: real): seq<real>
    requires 0.0 <= floor <= 1.0
  {
    var t := (1.0 - floor) / 2.0;
    [(1.0 - t * t) / (1.0 + t * t), 2.0 * t / (1.0 + t * t)]
  }

  lemma DotPair(a: real, b: real, x: real, y: real)
    ensures Dot([a, b], [x, y]) == a * x + b * y
  {
    assert [a, b][..1] == [a] && [x, y][..1] == [x];
    assert Dot([a], [x]) == a * x;
  }

  lemma Product(a: real, b: real, p: real)
    requires 0.0 < a && 0.0 < b && p == a * b
    ensures p > 0.0
  {
  }

  lemma SmallSquare(t: real, u: real)
    requires 0.0 <= t <= 0.5 && u == t * t
    ensures 0.0 <= u <= t && (t > 0.0 ==> u > 0.0)
  {
    if t > 0.0 {
      Product(t, t, u);
      Product(t, 1.0 - t, t - u);
    }
  }

  lemma OnCircle(t: real, d: real, x: real, y: real)
    requires d == 1.0 + t * t && d > 0.0 && x * d == 1.0 - t * t && y * d == 2.0 * t
    ensures x * x + y * y == 1.0
  {
  }

  lemma Cosine(u: real, d: real, x: real)
    requires 0.0 <= u && d == 1.0 + u && x * d == 1.0 - u
    ensures 1.0 - 2.0 * u <= x <= 1.0 && (u > 0.0 ==> x < 1.0)
  {
    var gap := 1.0 - x;
    assert gap * d == 2.0 * u;
    SameSign(gap, d);
    assert gap * u >= 0.0;
    assert gap == 2.0 * u - gap * u;
  }

  lemma SameSign(a: real, p: real)
    requires p > 0.0
    ensures a * p >= 0.0 ==> a >= 0.0
    ensures a * p > 0.0 ==> a > 0.0
  {
  }

  lemma CirclePoint(t: real)
    requires 0.0 <= t <= 0.5
    ensures 1.0 + t * t > 0.0
    ensures var x, y := (1.0 - t * t) / (1.0 + t * t), 2.0 * t / (1.0 + t * t);
            x * x + y * y == 1.0 && x >= 1.0 - 2.0 * t && (t > 0.0 ==> x < 1.0)
  {
    var u := t * t;
    SmallSquare(t, u);
    var d := 1.0 + u;
    var x, y := (1.0 - u) / d, 2.0 * t / d;
    OnCircle(t, d, x, y);
    Cosine(u, d, x);
  }

  lemma Vectors(floor: real)
    requires 0.0 <= floor <= 1.0
    ensures IsUnit(NEAR) && IsUnit(OPPOSITE) && IsUnit(Far(floor))
    ensures Dot(NEAR, NEAR) == 1.0 && Dot(NEAR, OPPOSITE) == -1.0
    ensures floor <= Dot(NEAR, Far(floor)) && (floor < 1.0 ==> Dot(NEAR, Far(floor)) < 1.0)
  {
    var t := (1.0 - floor) / 2.0;
    CirclePoint(t);
    var v := Far(floor);
    DotPair(v[0], v[1], v[0], v[1]);
    DotPair(1.0, 0.0, v[0], v[1]);
    DotPair(1.0, 0.0, 1.0, 0.0);
    DotPair(1.0, 0.0, -1.0, 0.0);
    DotPair(-1.0, 0.0, -1.0, 0.0);
  }

  // ------------------------------------------------------------------ losing stores

  /** One matching entry for every place, as near as can be, each failing a gate. */
  ghost predicate AreDecoys(an: Analyzer, s: Contents, c: Config, q: Query, entities: set<Text>, ids: seq<EntryId>)
    requires SameDim(s) && |q.vector| == s.dim
  {
    && |ids| == q.topK && (forall i, j | 0 <= i < j < |ids| :: ids[i] != ids[j])
    && forall id | id in ids ::
         && id in Matching(s, q.filter) && HitOf(an, s, q.vector, q.context, id).dense == 1.0
         && !Accept(c, entities, q.context, HitOf(an, s, q.vector, q.context, id))
  }

  ghost predicate OthersAreFarther(an: Analyzer, s: Contents, q: Query, ids: seq<EntryId>)
    requires SameDim(s) && |q.vector| == s.dim
  {
    forall id | id in s.entries && id !in ids :: HitOf(an, s, q.vector, q.context, id).dense < 1.0
  }

  /** Decoys as near as can be that fill every place and fail a gate: the lookup misses. */
  lemma DecoysWin(an: Analyzer, s: Contents, c: Config, q: Query, entities: set<Text>, ids: seq<EntryId>)
    requires SameDim(s) && |q.vector| == s.dim && AreDecoys(an, s, c, q, entities, ids)
    ensures IsMatch(an, s, c, q, entities, None)
  {
    var hits := seq(|ids|, i requires 0 <= i < |ids| => assert ids[i] in ids; HitOf(an, s, q.vector, q.context, ids[i]));
    forall i | 0 <= i < |ids| ensures ids[i] in ids && hits[i] == HitOf(an, s, q.vector, q.context, ids[i]) {
    }
    DistinctIn(ids, Matching(s, q.filter));
    forall id | id in Matching(s, q.filter) ensures HitOf(an, s, q.vector, q.context, id).dense <= 1.0 {
      UnitDot(q.vector, s.entries[id].vector);
    }
    assert IsAnswer(an, s, q, hits);
    assert IsSelection(c, entities, q.context, hits, None);
  }

  /** If every other entry is strictly farther, no order of ties helps. */
  lemma DecoysAlwaysWin(an: Analyzer, s: Contents, c: Config, q: Query, entities: set<Text>, ids: seq<EntryId>,
                        r: Option<ScoredHit>)
    requires SameDim(s) && |q.vector| == s.dim && AreDecoys(an, s, c, q, entities, ids)
    requires OthersAreFarther(an, s, q, ids) && IsMatch(an, s, c, q, entities, r)
    ensures r.None?
  {
    var hits: seq<ScoredHit> :| IsAnswer(an, s, q, hits) && IsSelection(c, entities, q.context, hits, r);
    forall h | h in hits ensures h.id in ids {
      OnlyDecoys(an, s, c, q, entities, ids, hits, h);
    }
  }

  lemma OnlyDecoys(an: Analyzer, s: Contents, c: Config, q: Query, entities: set<Text>, ids: seq<EntryId>,
                   hits: seq<ScoredHit>, h: ScoredHit)
    requires SameDim(s) && |q.vector| == s.dim && AreDecoys(an, s, c, q, entities, ids)
    requires OthersAreFarther(an, s, q, ids) && IsAnswer(an, s, q, hits) && h in hits
    ensures h.id in ids
  {
    if h.id !in ids {
      IdsCounted(hits);
      var returned := set g | g in hits :: g.id;
      forall id | id in ids ensures id in returned - {h.id} {
        assert HitOf(an, s, q.vector, q.context, id) in hits;
      }
      DistinctIn(ids, returned - {h.id});
      assert false;
    }
  }

  lemma {:induction false} DistinctIn(ids: seq<EntryId>, all: set<EntryId>)
    requires (forall i, j | 0 <= i < j < |ids| :: ids[i] != ids[j]) && forall id | id in ids :: id in all
    ensures |ids| <= |all|
  {
    if ids != [] {
      assert ids[0] in ids;
      forall id | id in ids[1..] ensures id in all - {ids[0]} {
        assert id in ids;
      }
      DistinctIn(ids[1..], all - {ids[0]});
    }
  }

  /** The entities of a decoy: enough to pass the filter, not enough for the gate, if there is such a set. */
  ghost function DecoyEntities(c: Config, entities: set<Text>): set<Text> {
    if !c.entityFilter && entities != {} then {}
    else if |entities| >= 6 then
      var one :| one in entities;
      {one}
    else entities
  }

  /** One acceptable entry `best`, the decoys, and an entry pointing away for every other context. */
  ghost function LosingEntry(c: Config, keys: set<Text>, entities: set<Text>, floor: real,
                             texts: map<EntryId, Text>, best: EntryId, id: EntryId): VectorEntry
    requires 0.0 <= floor <= 1.0
  {
    Vectors(floor);
    var context := if id in texts then Some(texts[id]) else None;
    if id == best then VectorEntry(id, Far(floor), keys, entities, context)
    else if id in texts then VectorEntry(id, OPPOSITE, {}, {}, context)
    else VectorEntry(id, NEAR, keys, DecoyEntities(c, entities), None)
  }

  ghost function LosingStore(an: Analyzer, c: Config, keys: set<Text>, entities: set<Text>, floor: real,
                             texts: map<EntryId, Text>, best: EntryId, decoys: set<EntryId>): Contents
    requires 0.0 <= floor <= 1.0
  {
    var ids := texts.Keys + {best} + decoys;
    Contents(2, map id | id in ids :: LosingEntry(c, keys, entities, floor, texts, best, id),
      Tokenized(an.tokenize, texts))
  }

  lemma LosingStoreSound(an: Analyzer, c: Config, keys: set<Text>, entities: set<Text>, floor: real,
                         texts: map<EntryId, Text>, best: EntryId, decoys: set<EntryId>)
    requires 0.0 <= floor <= 1.0 && |texts| < SIZE_LIMIT
    ensures Sound(an, LosingStore(an, c, keys, entities, floor, texts, best, decoys))
  {
    var s := LosingStore(an, c, keys, entities, floor, texts, best, decoys);
    assert s.docs.Keys == texts.Keys;
    forall id | id in s.entries
      ensures |s.entries[id].vector| == 2 && s.entries[id].id == id
      ensures s.entries[id].context == if id in texts then Some(texts[id]) else None
    {
      LosingEntryShape(c, keys, entities, floor, texts, best, id);
    }
    DocsAgree(an.tokenize, s.entries, texts);
  }

  lemma LosingEntryShape(c: Config, keys: set<Text>, entities: set<Text>, floor: real, texts: map<EntryId, Text>,
                         best: EntryId, id: EntryId)
    requires 0.0 <= floor <= 1.0
    ensures var e := LosingEntry(c, keys, entities, floor, texts, best, id);
            |e.vector| == 2 && e.id == id && e.context == if id in texts then Some(texts[id]) else None
  {
  }

  lemma DocsAgree(tokenize: Tokenizer, entries: map<EntryId, VectorEntry>, texts: map<EntryId, Text>)
    requires forall id | id in texts :: id in entries
    requires forall id | id in entries :: entries[id].context == if id in texts then Some(texts[id]) else None
    ensures ContextDocs(tokenize, entries) == Tokenized(tokenize, texts)
  {
  }

  lemma BestIsAcceptable(an: Analyzer, c: Config, keys: set<Text>, entities: set<Text>, context: Option<Text>,
                         texts: map<EntryId, Text>, best: EntryId, decoys: set<EntryId>)
    requires Scoring.Valid(c) && |texts| < SIZE_LIMIT
    requires !Ungated(c, context) ==> Clears(an, context.value, c.contextGate, texts, best)
    ensures var s := LosingStore(an, c, keys, entities, Floor(c, context), texts, best, decoys);
            && SameDim(s) && IsUnit(NEAR)
            && best in Acceptable(an, s, c, NEAR, keys, entities, context)
  {
    var floor := Floor(c, context);
    Vectors(floor);
    LosingStoreSound(an, c, keys, entities, floor, texts, best, decoys);
    assert entities * entities == entities;
    if entities != {} {
      assert |entities| > 0;
    }
  }

  lemma DecoyFails(an: Analyzer, c: Config, keys: set<Text>, entities: set<Text>, context: Option<Text>,
                   texts: map<EntryId, Text>, best: EntryId, decoys: set<EntryId>, id: EntryId)
    requires Scoring.Valid(c) && |texts| < SIZE_LIMIT && !FilterDecides(c, entities, context)
    requires id in decoys && id !in texts && id != best
    ensures var s := LosingStore(an, c, keys, entities, Floor(c, context), texts, best, decoys);
            && SameDim(s) && IsUnit(NEAR)
            && id in Matching(s, Lookup(c, NEAR, keys, entities, context).filter)
            && HitOf(an, s, NEAR, context, id).dense == 1.0
            && !Accept(c, entities, context, HitOf(an, s, NEAR, context, id))
  {
    var floor := Floor(c, context);
    Vectors(floor);
    LosingStoreSound(an, c, keys, entities, floor, texts, best, decoys);
    DecoyOverlap(c, entities);
  }

  /** Everything but the decoys is farther, unless the floor leaves no room. */
  lemma OthersFarther(an: Analyzer, c: Config, keys: set<Text>, entities: set<Text>, context: Option<Text>,
                      texts: map<EntryId, Text>, best: EntryId, decoys: set<EntryId>, id: EntryId)
    requires Scoring.Valid(c) && |texts| < SIZE_LIMIT && Floor(c, context) < 1.0
    requires id in texts || id == best
    ensures var s := LosingStore(an, c, keys, entities, Floor(c, context), texts, best, decoys);
            && SameDim(s) && IsUnit(NEAR) && id in s.entries && HitOf(an, s, NEAR, context, id).dense < 1.0
  {
    Vectors(Floor(c, context));
    LosingStoreSound(an, c, keys, entities, Floor(c, context), texts, best, decoys);
  }

  lemma DecoyOverlap(c: Config, entities: set<Text>)
    ensures var d := DecoyEntities(c, entities);
            && (c.entityFilter && entities != {} ==> entities * d != {})
            && ((!c.entityFilter && entities != {}) || |entities| >= 6 ==>
                  entities != {} && |entities * d| < Required(|entities|))
  {
    var d := DecoyEntities(c, entities);
    if !c.entityFilter && entities != {} {
      assert entities * d == {};
    } else if |entities| >= 6 {
      var one :| d == {one} && one in entities;
      assert entities * d == {one};
    } else {
      assert entities * d == entities;
    }
  }

  lemma LosingStoreFor(an: Analyzer, c: Config, keys: set<Text>, entities: set<Text>, context: Option<Text>,
                       texts: map<EntryId, Text>, best: EntryId) returns (s: Contents, ids: seq<EntryId>)
    requires Scoring.Valid(c) && !FilterDecides(c, entities, context) && |texts| < SIZE_LIMIT
    requires !Ungated(c, context) ==> Clears(an, context.value, c.contextGate, texts, best)
    ensures Sound(an, s) && s.dim == 2 && IsUnit(NEAR)
    ensures var q := Lookup(c, NEAR, keys, entities, context);
            && AreDecoys(an, s, c, q, entities, ids) && Acceptable(an, s, c, NEAR, keys, entities, context) != {}
            && (Floor(c, context) < 1.0 ==> OthersAreFarther(an, s, q, ids))
  {
    ManyIds();
    ids := FreshIds(texts.Keys + {best}, c.topK);
    var decoys := Elements(ids);
    s := LosingStore(an, c, keys, entities, Floor(c, context), texts, best, decoys);
    LosingStoreSound(an, c, keys, entities, Floor(c, context), texts, best, decoys);
    BestIsAcceptable(an, c, keys, entities, context, texts, best, decoys);
    var q := Lookup(c, NEAR, keys, entities, context);
    forall id | id in ids
      ensures id in Matching(s, q.filter)
      ensures HitOf(an, s, NEAR, context, id).dense == 1.0 && !Accept(c, entities, context, HitOf(an, s, NEAR, context, id))
    {
      DecoyFails(an, c, keys, entities, context, texts, best, decoys, id);
    }
    if Floor(c, context) < 1.0 {
      forall id | id in s.entries && id !in ids ensures HitOf(an, s, NEAR, context, id).dense < 1.0 {
        OthersFarther(an, c, keys, entities, context, texts, best, decoys, id);
      }
    }
  }

  /** Where the filter does not decide and the gate can be cleared, every `topK` has a store on which the
      lookup misses although an entry is acceptable; below a floor of 1, in every order of ties. */
  lemma TruncationLoses(an: Analyzer, c: Config, keys: set<Text>, entities: set<Text>, context: Option<Text>)
      returns (s: Contents, vector: Embedding)
    requires Scoring.Valid(c) && !FilterDecides(c, entities, context)
    requires !Ungated(c, context) ==> Clearable(an, context.value, c.contextGate)
    ensures Sound(an, s) && |vector| == s.dim
    ensures IsMatch(an, s, c, Lookup(c, vector, keys, entities, context), entities, None)
    ensures Acceptable(an, s, c, vector, keys, entities, context) != {}
    ensures Floor(c, context) < 1.0 ==>
              forall r | IsMatch(an, s, c, Lookup(c, vector, keys, entities, context), entities, r) :: r.None?
  {
    var texts: map<EntryId, Text>, best := map[], Numbered(0);
    if !Ungated(c, context) {
      texts, best :| Clears(an, context.value, c.contextGate, texts, best);
    }
    var ids;
    s, ids := LosingStoreFor(an, c, keys, entities, context, texts, best);
    vector := NEAR;
    var q := Lookup(c, vector, keys, entities, context);
    DecoysWin(an, s, c, q, entities, ids);
    if Floor(c, context) < 1.0 {
      forall r | IsMatch(an, s, c, q, entities, r) ensures r.None? {
        DecoysAlwaysWin(an, s, c, q, entities, ids, r);
      }
    }
  }

  // ------------------------------------------------------------------ the exact condition

  /** If no stored context can clear the gate, nothing is acceptable and every lookup misses. */
  lemma NothingToLose(an: Analyzer, s: Contents, c: Config, vector: Embedding, keys: set<Text>,
                      entities: set<Text>, context: Option<Text>, r: Option<ScoredHit>)
    requires Sound(an, s) && |vector| == s.dim
    requires IsMatch(an, s, c, Lookup(c, vector, keys, entities, context), entities, r)
    requires !Ungated(c, context) && !Clearable(an, context.value, c.contextGate)
    ensures IsBruteForce(an, s, c, vector, keys, entities, context, r)
  {
    var texts := map id | id in s.docs :: s.entries[id].context.value;
    assert texts.Keys == s.docs.Keys;
    assert Tokenized(an.tokenize, texts) == s.docs;
    forall id | id in s.entries ensures Sparse(an, s, context, id) < c.contextGate {
      assert !Clears(an, context.value, c.contextGate, texts, id);
    }
    WinnerIsOptimal(an, s, c, vector, keys, entities, context, r);
  }

  /** Top-k search followed by the gates is a brute-force search on every store exactly when the filter
      decides, or the context gate is out of reach of every stored context. */
  lemma LosslessIff(an: Analyzer, c: Config, keys: set<Text>, entities: set<Text>, context: Option<Text>)
    requires Scoring.Valid(c) && LogLike(an.ln)
    ensures Lossless(an, c, keys, entities, context) <==>
            || FilterDecides(c, entities, context)
            || (!Ungated(c, context) && !Clearable(an, context.value, c.contextGate))
  {
    if FilterDecides(c, entities, context) || (!Ungated(c, context) && !Clearable(an, context.value, c.contextGate)) {
      forall s: Contents, vector: Embedding, r: Option<ScoredHit>
        | Sound(an, s) && |vector| == s.dim && IsMatch(an, s, c, Lookup(c, vector, keys, entities, context), entities, r)
        ensures IsBruteForce(an, s, c, vector, keys, entities, context, r)
      {
        if FilterDecides(c, entities, context) {
          TruncationIsLossless(an, s, c, vector, keys, entities, context, r);
        } else {
          NothingToLose(an, s, c, vector, keys, entities, context, r);
        }
      }
    } else {
      var s, vector := TruncationLoses(an, c, keys, entities, context);
      assert !IsBruteForce(an, s, c, vector, keys, entities, context, None);
    }
  }

  /** For gates up to 5/11, the default 0.10 among them, only a query context without words puts the gate
      out of reach. */
  lemma LosslessIffLowGate(an: Analyzer, c: Config, keys: set<Text>, entities: set<Text>, context: Option<Text>)
    requires Scoring.Valid(c) && LogLike(an.ln) && c.contextGate <= 5.0 / 11.0
    ensures Lossless(an, c, keys, entities, context) <==>
            || FilterDecides(c, entities, context)
            || (!Ungated(c, context) && c.contextGate > 0.0 && an.tokenize(context.value) == [])
  {
    LosslessIff(an, c, keys, entities, context);
    if !Ungated(c, context) {
      if an.tokenize(context.value) != [] {
        OwnContextClears(an, context.value, c.contextGate);
      } else if c.contextGate > 0.0 {
        NotClearable(an, context.value, c.contextGate);
      } else {
        assert Clears(an, context.value, c.contextGate, map[], Numbered(0));
      }
    }
  }

  /** Above 5/11 a stored text that repeats the words of the query context decides: the gate is in reach,
      and the filter has to decide. */
  lemma LosslessIffRepeated(an: Analyzer, c: Config, keys: set<Text>, entities: set<Text>, context: Option<Text>,
                            text: Text, k: nat)
    requires Scoring.Valid(c) && LogLike(an.ln)
    requires !Ungated(c, context) ==>
               && an.tokenize(context.value) != [] && k > 0 && Repeats(an, context.value, text, k)
               && c.contextGate <= AloneShare(k)
    ensures Lossless(an, c, keys, entities, context) <==> FilterDecides(c, entities, context)
  {
    LosslessIff(an, c, keys, entities, context);
    if !Ungated(c, context) {
      RepeatsClear(an, context.value, c.contextGate, text, k);
    }
  }
}
