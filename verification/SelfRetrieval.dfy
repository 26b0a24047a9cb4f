/**
 A committed entry is found again by the query, keys and context it was written with: exactly when it
 clears the gates and fewer than top-k entries of the same vector fail them.
 */
module SelfRetrieval {
  import opened Common
  import opened Identity
  import opened Embeddings
  import opened Bm25
  import opened Bm25Score
  import opened VectorStore
  import opened Scoring
  import opened Retrieval
  import opened Truncation
  import opened Cache

  /** What the extractor promises: fast mode finds no entity that full mode does not. */
  ghost predicate FastWithin(b: Backends, text: Text) {
    b.extract(text, true).Ok? && b.extract(text, false).Ok? ==>
      b.extract(text, true).value <= b.extract(text, false).value
  }

  ghost predicate FastNeverAlone(b: Backends, p: Parts) {
    p.context.Some? && b.extract(p.query, true).Ok? && b.extract(p.query, true).value == {} ==>
      b.extract(p.query, false) == Ok({})
  }

  ghost predicate FastFits(b: Backends, p: Parts) {
    FastWithin(b, p.query) && (p.context.Some? ==> FastWithin(b, p.context.value)) && FastNeverAlone(b, p)
  }

  /** Then the entities of a lookup are among those stored by the write. */
  lemma LookupWithinStored(b: Backends, p: Parts)
    requires FastFits(b, p)
    requires Entities(b, p.query, p.context, true).Ok? && Entities(b, p.query, p.context, false).Ok?
    ensures Entities(b, p.query, p.context, true).value <= Entities(b, p.query, p.context, false).value
  {
  }

  /** The entity gate, for a lookup with entities `fast` of an entry that stores `full`. */
  predicate EntityGate(fast: set<Text>, full: set<Text>) {
    fast != {} ==> |fast * full| >= Required(|fast|)
  }

  /** The context gate, for a lookup with the entry's own context. */
  ghost predicate ContextGate(an: Analyzer, s: Contents, c: Config, e: VectorEntry) {
    c.context.Gate? && e.context.Some? ==> Sparse(an, s, e.context, e.id) >= c.contextGate
  }

  lemma WithinPassesGate(fast: set<Text>, full: set<Text>)
    requires fast <= full
    ensures EntityGate(fast, full)
  {
    assert fast * full == fast;
    if fast != {} {
      assert |fast| > 0;
    }
  }

  /** An entry is a candidate for its own lookup exactly when it clears both gates: its dense score is 1,
      which is above every floor. */
  lemma OwnCandidate(an: Analyzer, s: Contents, c: Config, e: VectorEntry, fast: set<Text>)
    requires SameDim(s) && Scoring.Valid(c) && e.id in s.entries && s.entries[e.id] == e
    ensures HitOf(an, s, e.vector, e.context, e.id).dense == 1.0
    ensures e.id in Acceptable(an, s, c, e.vector, e.keys, fast, e.context)
            <==> EntityGate(fast, e.entities) && ContextGate(an, s, c, e)
  {
  }

  /** The entries that can take the places of `e` in its own lookup and then fail a gate: as near as `e`
      itself, passed by the filter, and rejected. */
  ghost function Blocked(an: Analyzer, s: Contents, c: Config, e: VectorEntry, fast: set<Text>): set<EntryId>
    requires SameDim(s) && |e.vector| == s.dim
  {
    set id | id in Matching(s, Lookup(c, e.vector, e.keys, fast, e.context).filter) && s.entries[id].vector == e.vector
             && !Accept(c, fast, e.context, HitOf(an, s, e.vector, e.context, id))
  }

  ghost predicate Unblocked(an: Analyzer, s: Contents, c: Config, e: VectorEntry, fast: set<Text>)
    requires SameDim(s) && |e.vector| == s.dim
  {
    |Blocked(an, s, c, e, fast)| < c.topK
  }

  /** The entries as near as `e` itself that its own lookup accepts; `e` is one if it clears the gates. */
  ghost function Twins(an: Analyzer, s: Contents, c: Config, e: VectorEntry, fast: set<Text>): set<EntryId>
    requires SameDim(s) && |e.vector| == s.dim
  {
    set id | id in Matching(s, Lookup(c, e.vector, e.keys, fast, e.context).filter) && s.entries[id].vector == e.vector
             && Accept(c, fast, e.context, HitOf(an, s, e.vector, e.context, id))
  }

  /** Unless the blocked entries fill every place, some returned hit of dense score 1 is accepted. */
  lemma SomeAccepted(an: Analyzer, s: Contents, c: Config, e: VectorEntry, fast: set<Text>, hits: seq<ScoredHit>)
    requires SameDim(s) && |e.vector| == s.dim
    requires Twins(an, s, c, e, fast) != {} && Unblocked(an, s, c, e, fast)
    requires IsAnswer(an, s, Lookup(c, e.vector, e.keys, fast, e.context), hits)
    ensures exists h :: h in hits && h.dense == 1.0 && Accept(c, fast, e.context, h)
  {
    var q := Lookup(c, e.vector, e.keys, fast, e.context);
    var twin :| twin in Twins(an, s, c, e, fast);
    var own := HitOf(an, s, e.vector, e.context, twin);
    UnitDot(e.vector, e.vector);
    if own !in hits {
      if |Matching(s, q.filter)| <= q.topK {
        AllReturned(an, s, q, hits);
        assert false;
      }
      var returned := set h | h in hits :: h.id;
      IdsCounted(hits);
      if returned <= Blocked(an, s, c, e, fast) {
        Subset(returned, Blocked(an, s, c, e, fast));
        assert false;
      }
      var id :| id in returned && id !in Blocked(an, s, c, e, fast);
      var h :| h in hits && h.id == id;
      UnitDot(e.vector, s.entries[id].vector);
    }
  }

  lemma UnblockedWins(an: Analyzer, s: Contents, c: Config, e: VectorEntry, fast: set<Text>, r: Option<ScoredHit>)
    requires SameDim(s) && |e.vector| == s.dim
    requires Twins(an, s, c, e, fast) != {} && Unblocked(an, s, c, e, fast)
    requires IsMatch(an, s, c, Lookup(c, e.vector, e.keys, fast, e.context), fast, r)
    ensures r.Some? && r.value.dense == 1.0
    ensures r.value.id in s.entries && s.entries[r.value.id].vector == e.vector
  {
    var q := Lookup(c, e.vector, e.keys, fast, e.context);
    var hits: seq<ScoredHit> :| IsAnswer(an, s, q, hits) && IsSelection(c, fast, e.context, hits, r);
    SomeAccepted(an, s, c, e, fast, hits);
    WinnerAmongMatches(an, s, c, q, fast, r);
    UnitDot(e.vector, s.entries[r.value.id].vector);
  }

  /** If they do fill every place, some order of ties returns nothing else, and the lookup misses. */
  lemma BlockedMisses(an: Analyzer, s: Contents, c: Config, e: VectorEntry, fast: set<Text>)
    requires SameDim(s) && |e.vector| == s.dim && !Unblocked(an, s, c, e, fast)
    ensures IsMatch(an, s, c, Lookup(c, e.vector, e.keys, fast, e.context), fast, None)
  {
    var ids := Picked(Blocked(an, s, c, e, fast), c.topK);
    UnitDot(e.vector, e.vector);
    DecoysWin(an, s, c, Lookup(c, e.vector, e.keys, fast, e.context), fast, ids);
  }

  /** The lookup found a hit of dense score 1. */
  predicate IsExact(r: Result<Option<ScoredHit>, Failure>) {
    r.Ok? && r.value.Some? && r.value.value.dense == 1.0
  }

  /** Only a twin is an exact hit. */
  lemma ExactIsTwin(an: Analyzer, s: Contents, c: Config, e: VectorEntry, fast: set<Text>, r: Option<ScoredHit>)
    requires SameDim(s) && |e.vector| == s.dim && r.Some? && r.value.dense == 1.0
    requires IsMatch(an, s, c, Lookup(c, e.vector, e.keys, fast, e.context), fast, r)
    ensures r.value.id in Twins(an, s, c, e, fast)
  {
    WinnerAmongMatches(an, s, c, Lookup(c, e.vector, e.keys, fast, e.context), fast, r);
    UnitDot(e.vector, s.entries[r.value.id].vector);
  }

  /** Self-retrieval, exactly: looking parts up finds a hit of dense score 1, whatever the order of ties, if
      and only if some entry of that vector is acceptable and fewer than `topK` of them are blocked. */
  lemma FoundIff(b: Backends, an: Analyzer, c: Config, s: Contents, p: Parts, e: VectorEntry)
    requires SameDim(s) && Prepared(b, p) == Ok(e) && |e.vector| == s.dim && Entities(b, p.query, p.context, true).Ok?
    ensures var fast := Entities(b, p.query, p.context, true).value;
            (forall r | IsFound(b, an, c, Some(s), p, r) :: IsExact(r))
            <==> Twins(an, s, c, e, fast) != {} && Unblocked(an, s, c, e, fast)
  {
    var fast := Entities(b, p.query, p.context, true).value;
    var q := Lookup(c, e.vector, e.keys, fast, e.context);
    if !Unblocked(an, s, c, e, fast) {
      BlockedMisses(an, s, c, e, fast);
      assert IsFound(b, an, c, Some(s), p, Ok(None));
    } else if Twins(an, s, c, e, fast) == {} {
      var r := MatchExists(an, s, c, q, fast);
      assert IsFound(b, an, c, Some(s), p, Ok(r));
      if IsExact(Ok(r)) {
        ExactIsTwin(an, s, c, e, fast, r);
        assert false;
      }
    } else {
      forall r | IsFound(b, an, c, Some(s), p, r) ensures IsExact(r) {
        UnblockedWins(an, s, c, e, fast, r.value);
      }
    }
  }

  /** For an entry that clears both gates only the blocked entries matter. */
  lemma GatedFoundIff(b: Backends, an: Analyzer, c: Config, s: Contents, p: Parts, e: VectorEntry)
    requires SameDim(s) && Scoring.Valid(c)
    requires Prepared(b, p) == Ok(e) && e.id in s.entries && s.entries[e.id] == e
    requires Entities(b, p.query, p.context, true).Ok?
    requires EntityGate(Entities(b, p.query, p.context, true).value, e.entities) && ContextGate(an, s, c, e)
    ensures (forall r | IsFound(b, an, c, Some(s), p, r) :: IsExact(r))
            <==> Unblocked(an, s, c, e, Entities(b, p.query, p.context, true).value)
  {
    FoundIff(b, an, c, s, p, e);
    OwnTwin(an, s, c, e, Entities(b, p.query, p.context, true).value);
  }

  lemma OwnTwin(an: Analyzer, s: Contents, c: Config, e: VectorEntry, fast: set<Text>)
    requires SameDim(s) && Scoring.Valid(c) && e.id in s.entries && s.entries[e.id] == e
    requires EntityGate(fast, e.entities) && ContextGate(an, s, c, e)
    ensures e.id in Twins(an, s, c, e, fast)
  {
    OwnCandidate(an, s, c, e, fast);
  }

  /** With room for every matching entry nothing is blocked out, */
  lemma RoomUnblocks(an: Analyzer, s: Contents, c: Config, e: VectorEntry, fast: set<Text>)
    requires SameDim(s) && Scoring.Valid(c) && e.id in s.entries && s.entries[e.id] == e
    requires EntityGate(fast, e.entities) && ContextGate(an, s, c, e)
    requires |Matching(s, Lookup(c, e.vector, e.keys, fast, e.context).filter)| <= c.topK
    ensures Unblocked(an, s, c, e, fast)
  {
    var matching := Matching(s, Lookup(c, e.vector, e.keys, fast, e.context).filter);
    OwnCandidate(an, s, c, e, fast);
    Subset(Blocked(an, s, c, e, fast), matching - {e.id});
  }

  /** and where the filter decides nothing is blocked at all. */
  lemma FilterUnblocks(an: Analyzer, s: Contents, c: Config, e: VectorEntry, fast: set<Text>)
    requires SameDim(s) && Scoring.Valid(c) && |e.vector| == s.dim
    requires FilterDecides(c, fast, e.context) && (Ungated(c, e.context) || LogLike(an.ln))
    ensures Blocked(an, s, c, e, fast) == {} && Unblocked(an, s, c, e, fast)
  {
    var q := Lookup(c, e.vector, e.keys, fast, e.context);
    UnitDot(e.vector, e.vector);
    forall id | id in Matching(s, q.filter) && s.entries[id].vector == e.vector
      ensures Accept(c, fast, e.context, HitOf(an, s, e.vector, e.context, id))
    {
      FilterIsGate(an, s, c, e.vector, e.keys, fast, e.context, id);
    }
  }

  /** After a write is committed, looking the same parts up finds a hit of dense score 1. */
  lemma CommittedIsFound(b: Backends, an: Analyzer, c: Config, s: Contents, p: Parts, e: VectorEntry,
                         r: Result<Option<ScoredHit>, Failure>)
    requires SameDim(s) && Scoring.Valid(c)
    requires Prepared(b, p) == Ok(e) && e.id in s.entries && s.entries[e.id] == e
    requires FastFits(b, p) && Entities(b, p.query, p.context, true).Ok?
    requires ContextGate(an, s, c, e) && Unblocked(an, s, c, e, Entities(b, p.query, p.context, true).value)
    requires IsFound(b, an, c, Some(s), p, r)
    ensures IsExact(r)
    ensures r.value.value.id in s.entries && s.entries[r.value.value.id].vector == e.vector
  {
    var fast := Entities(b, p.query, p.context, true).value;
    LookupWithinStored(b, p);
    WithinPassesGate(fast, e.entities);
    OwnTwin(an, s, c, e, fast);
    UnblockedWins(an, s, c, e, fast, r.value);
  }

  /** The gates are also necessary: an entry failing one of them never answers its own lookup. */
  lemma GatesNecessary(b: Backends, an: Analyzer, c: Config, s: Contents, p: Parts, e: VectorEntry,
                       r: Result<Option<ScoredHit>, Failure>)
    requires SameDim(s) && Scoring.Valid(c)
    requires Prepared(b, p) == Ok(e) && e.id in s.entries && s.entries[e.id] == e
    requires Entities(b, p.query, p.context, true).Ok?
    requires IsFound(b, an, c, Some(s), p, r)
    requires r.Ok? && r.value.Some? && r.value.value.id == e.id
    ensures EntityGate(Entities(b, p.query, p.context, true).value, e.entities) && ContextGate(an, s, c, e)
  {
  }

  // ------------------------------------------------------------------ the context gate

  /** A context of at most 29/3 of the average length clears every gate up to the default 0.10, and in a
      namespace of at most nine contexts there is no longer one. */
  lemma ShortContextClears(an: Analyzer, s: Contents, c: Config, e: VectorEntry)
    requires LogLike(an.ln) && c.contextGate <= 0.1
    requires e.context.Some? ==>
               && an.tokenize(e.context.value) != []
               && e.id in s.docs && s.docs[e.id] == an.tokenize(e.context.value)
               && (3 * |s.docs[e.id]| * |s.docs| <= 29 * TotalLength(s.docs) || |s.docs| <= 9)
    ensures ContextGate(an, s, c, e)
  {
    if e.context.Some? {
      SelfClearsGate(an.ln, s.docs, e.id);
    }
  }

  // ------------------------------------------------------------------ after any run

  lemma {:induction false} RunShape(uuid5: Bytes -> EntryId, tokenize: Tokenizer, ops: seq<Op>)
    ensures var c := Run(uuid5, tokenize, ops);
            c.Some? ==> SameDim(c.value) && forall id | id in c.value.docs :: id in c.value.entries
  {
    if ops != [] {
      RunShape(uuid5, tokenize, ops[..|ops| - 1]);
    }
  }

  /** The parts `p` were written, as entry `e`, after the upserts and deletes `ops`, and left the store `s`. */
  ghost predicate Written(b: Backends, an: Analyzer, ops: seq<Op>, p: Parts, e: VectorEntry, s: Contents) {
    Prepared(b, p) == Ok(e) && Upserted(an.tokenize, Run(b.uuid5, an.tokenize, ops), e) == Ok(s)
  }

  lemma WrittenShape(b: Backends, an: Analyzer, ops: seq<Op>, p: Parts, e: VectorEntry, s: Contents)
    requires Written(b, an, ops, p, e, s)
    ensures SameDim(s) && e.id in s.entries && s.entries[e.id] == e && (forall id | id in s.docs :: id in s.entries)
    ensures e.context.Some? ==> e.id in s.docs && s.docs[e.id] == an.tokenize(e.context.value)
  {
    RunShape(b.uuid5, an.tokenize, ops);
  }

  /** Whatever upserts and deletes came before, and under every valid configuration, the write that has
      just been committed is found, if its context gate is cleared and fewer than `topK` entries are blocked. */
  lemma WriteThenFind(b: Backends, an: Analyzer, c: Config, ops: seq<Op>, p: Parts, e: VectorEntry, s: Contents,
                      r: Result<Option<ScoredHit>, Failure>)
    requires Scoring.Valid(c) && Written(b, an, ops, p, e, s) && FastFits(b, p)
    requires Entities(b, p.query, p.context, true).Ok?
    requires ContextGate(an, s, c, e)
    requires SameDim(s) && |e.vector| == s.dim ==> Unblocked(an, s, c, e, Entities(b, p.query, p.context, true).value)
    requires SameDim(s) ==> IsFound(b, an, c, Some(s), p, r)
    ensures IsExact(r)
    ensures r.value.value.id in s.entries && s.entries[r.value.value.id].vector == e.vector
  {
    WrittenShape(b, an, ops, p, e, s);
    CommittedIsFound(b, an, c, s, p, e, r);
  }

  /** The context gate, discharged by the length of the context. */
  lemma WriteThenFindShort(b: Backends, an: Analyzer, c: Config, ops: seq<Op>, p: Parts, e: VectorEntry, s: Contents,
                           r: Result<Option<ScoredHit>, Failure>)
    requires Scoring.Valid(c) && Written(b, an, ops, p, e, s) && FastFits(b, p)
    requires Entities(b, p.query, p.context, true).Ok?
    requires SameDim(s) && |e.vector| == s.dim ==> Unblocked(an, s, c, e, Entities(b, p.query, p.context, true).value)
    requires LogLike(an.ln) && c.contextGate <= 0.1
    requires p.context.Some? ==>
               && an.tokenize(p.context.value) != []
               && 3 * |an.tokenize(p.context.value)| * |s.docs| <= 29 * TotalLength(s.docs)
    requires SameDim(s) ==> IsFound(b, an, c, Some(s), p, r)
    ensures IsExact(r)
  {
    WrittenShape(b, an, ops, p, e, s);
    ShortContextClears(an, s, c, e);
    CommittedIsFound(b, an, c, s, p, e, r);
  }

  /** Under the default configuration a namespace of at most nine entries needs neither gate nor room as
      an assumption. */
  lemma SmallNamespaceFinds(b: Backends, an: Analyzer, ops: seq<Op>, p: Parts, e: VectorEntry, s: Contents,
                            r: Result<Option<ScoredHit>, Failure>)
    requires Written(b, an, ops, p, e, s) && FastFits(b, p) && Entities(b, p.query, p.context, true).Ok?
    requires LogLike(an.ln) && |s.entries| <= 9 && (p.context.Some? ==> an.tokenize(p.context.value) != [])
    requires SameDim(s) ==> IsFound(b, an, DEFAULT, Some(s), p, r)
    ensures IsExact(r)
  {
    WrittenShape(b, an, ops, p, e, s);
    var fast := Entities(b, p.query, p.context, true).value;
    Subset(Matching(s, Filter(p.keys, fast)), s.entries.Keys);
    Subset(s.docs.Keys, s.entries.Keys);
    ShortContextClears(an, s, DEFAULT, e);
    LookupWithinStored(b, p);
    WithinPassesGate(fast, e.entities);
    RoomUnblocks(an, s, DEFAULT, e, fast);
    CommittedIsFound(b, an, DEFAULT, s, p, e, r);
  }

  // ------------------------------------------------------------------ the keyword backend

  ghost function KeywordBackends(rank: Text -> seq<Text>, normalize: Text -> Option<Text>,
                                 embed: Text -> Result<Embedding, Failure>, uuid5: Bytes -> EntryId): Backends {
    Backends((t, fast) => Ok(Keywords(rank(t), normalize, fast)), embed, uuid5)
  }

  /** No ranked keyword of the text is blank. */
  ghost predicate NoBlank(rank: Text -> seq<Text>, normalize: Text -> Option<Text>, text: Text) {
    forall k | k in rank(text) :: normalize(k).Some?
  }

  /** What the results above ask of an extractor, the keyword backend provides. */
  lemma KeywordFits(rank: Text -> seq<Text>, normalize: Text -> Option<Text>,
                    embed: Text -> Result<Embedding, Failure>, uuid5: Bytes -> EntryId, p: Parts)
    requires p.context.Some? ==> NoBlank(rank, normalize, p.query)
    ensures var b := KeywordBackends(rank, normalize, embed, uuid5);
            && FastFits(b, p) && Entities(b, p.query, p.context, true).Ok?
            && |Entities(b, p.query, p.context, true).value| < 6
  {
    KeywordsFast(rank(p.query), normalize);
    if p.context.Some? {
      KeywordsFast(rank(p.context.value), normalize);
    }
  }

  /** With the keyword backend a lookup without context gate is a brute-force search, for every `topK`. */
  lemma KeywordLookupIsBruteForce(rank: Text -> seq<Text>, normalize: Text -> Option<Text>, fast: set<Text>,
                                  an: Analyzer, s: Contents, c: Config, vector: Embedding, p: Parts, r: Option<ScoredHit>)
    requires fast == Keywords(rank(p.query), normalize, true)
             || (p.context.Some? && fast == Keywords(rank(p.context.value), normalize, true))
    requires SameDim(s) && |vector| == s.dim && Scoring.Valid(c) && c.entityFilter && Ungated(c, p.context)
    requires IsMatch(an, s, c, Lookup(c, vector, p.keys, fast, p.context), fast, r)
    ensures IsBruteForce(an, s, c, vector, p.keys, fast, p.context, r)
  {
    KeywordsFast(rank(p.query), normalize);
    if p.context.Some? {
      KeywordsFast(rank(p.context.value), normalize);
    }
    TruncationIsLossless(an, s, c, vector, p.keys, fast, p.context, r);
  }

  /** With the keyword backend a committed entry is found: always without a context gate, with one if it
      is cleared and fewer than `topK` entries are blocked. */
  lemma KeywordCommittedIsFound(rank: Text -> seq<Text>, normalize: Text -> Option<Text>,
                                embed: Text -> Result<Embedding, Failure>, uuid5: Bytes -> EntryId,
                                an: Analyzer, c: Config, s: Contents, p: Parts, e: VectorEntry,
                                r: Result<Option<ScoredHit>, Failure>)
    requires SameDim(s) && Scoring.Valid(c) && (p.context.Some? ==> NoBlank(rank, normalize, p.query))
    requires Prepared(KeywordBackends(rank, normalize, embed, uuid5), p) == Ok(e) && e.id in s.entries && s.entries[e.id] == e
    requires var fast := Entities(KeywordBackends(rank, normalize, embed, uuid5), p.query, p.context, true);
             || (c.entityFilter && Ungated(c, p.context))
             || (ContextGate(an, s, c, e) && (fast.Ok? ==> Unblocked(an, s, c, e, fast.value)))
    requires IsFound(KeywordBackends(rank, normalize, embed, uuid5), an, c, Some(s), p, r)
    ensures IsExact(r)
    ensures r.value.value.id in s.entries && s.entries[r.value.value.id].vector == e.vector
  {
    var b := KeywordBackends(rank, normalize, embed, uuid5);
    KeywordFits(rank, normalize, embed, uuid5, p);
    var fast := Entities(b, p.query, p.context, true).value;
    if c.entityFilter && Ungated(c, p.context) {
      FilterUnblocks(an, s, c, e, fast);
    }
    CommittedIsFound(b, an, c, s, p, e, r);
  }

  // ------------------------------------------------------------------ an extractor that breaks it

  /** `FastNeverAlone` is needed: when fast mode finds nothing in the query but full mode does, the write
      stores the entities of the query, the lookup asks for those of the context, and misses. */
  lemma EmptyFastMisses(an: Analyzer, query: Text, context: Text, x: Text, y: Text)
      returns (b: Backends, p: Parts, e: VectorEntry, s: Contents)
    requires query != context && x != y
    ensures p == Parts(query, Some(context), {}) && FastWithin(b, query) && FastWithin(b, context)
    ensures Prepared(b, p) == Ok(e) && Upserted(an.tokenize, None, e) == Ok(s) && SameDim(s)
    ensures IsFound(b, an, DEFAULT, Some(s), p, Ok(None))
  {
    var extract: (Text, bool) -> Result<set<Text>, Failure> :=
      (t, fast) => Ok(if t == query then (if fast then {} else {x}) else {y});
    assert Dot([1.0], [1.0]) == Dot([], []) + 1.0 * 1.0;
    var one: Embedding := [1.0];
    b := Backends(extract, t => Ok(one), bytes => Numbered(0));
    p := Parts(query, Some(context), {});
    e := Prepared(b, p).value;
    s := Upserted(an.tokenize, None, e).value;
    var q := Lookup(DEFAULT, one, {}, {y}, p.context);
    assert Matching(s, q.filter) == {};
    assert IsAnswer(an, s, q, []);
    assert IsSelection(DEFAULT, {y}, p.context, [], None);
  }
}
