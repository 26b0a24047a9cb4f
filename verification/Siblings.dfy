/**
 Context variants: entries of one query that differ in their context alone.  From eleven on they can hide
 each other from their own lookups under the default configuration.
 */
module Siblings {
  import opened Common
  import opened Identity
  import opened Bm25
  import opened Bm25Score
  import opened VectorStore
  import opened Scoring
  import opened Truncation
  import opened Cache
  import opened SelfRetrieval

  function Variant(query: Text, texts: seq<Text>, i: nat): Parts
    requires i < |texts|
  {
    Parts(query, Some(texts[i]), {})
  }

  /** Contexts of one word each, no two alike. */
  ghost predicate OneWordEach(an: Analyzer, texts: seq<Text>) {
    && (forall i | 0 <= i < |texts| :: |an.tokenize(texts[i])| == 1)
    && (forall i, j | 0 <= i < j < |texts| :: an.tokenize(texts[i])[0] != an.tokenize(texts[j])[0])
  }

  /** No entity anywhere, and a query that embeds. */
  ghost predicate Plain(b: Backends, query: Text, texts: seq<Text>) {
    && b.embed(query).Ok?
    && (forall fast :: b.extract(query, fast) == Ok({}))
    && (forall i, fast | 0 <= i < |texts| :: b.extract(texts[i], fast) == Ok({}))
  }

  ghost function EntryAt(b: Backends, query: Text, texts: seq<Text>, i: nat): VectorEntry
    requires Plain(b, query, texts) && i < |texts|
  {
    EntryOf(b.uuid5, Variant(query, texts, i), b.embed(query).value, {})
  }

  ghost function Writes(b: Backends, query: Text, texts: seq<Text>, k: nat): seq<Op>
    requires Plain(b, query, texts) && k <= |texts|
  {
    seq(k, i requires 0 <= i < k => Upsert(Variant(query, texts, i), b.embed(query).value, {}))
  }

  ghost predicate AllUsed(query: Text, texts: seq<Text>, used: set<Parts>) {
    forall i | 0 <= i < |texts| :: Variant(query, texts, i) in used
  }

  /** The store after the first `k` writes. */
  ghost predicate HoldsVariants(b: Backends, query: Text, texts: seq<Text>, k: nat, s: Contents)
    requires Plain(b, query, texts) && k <= |texts|
  {
    && s.dim == |b.embed(query).value|
    && (forall i | 0 <= i < k :: EntryAt(b, query, texts, i).id in s.entries)
    && (forall i | 0 <= i < k :: s.entries[EntryAt(b, query, texts, i).id] == EntryAt(b, query, texts, i))
    && (forall id | id in s.entries :: exists i :: 0 <= i < k && EntryAt(b, query, texts, i).id == id)
  }

  lemma VariantIds(b: Backends, an: Analyzer, query: Text, texts: seq<Text>, used: set<Parts>, i: nat, j: nat)
    requires Plain(b, query, texts) && OneWordEach(an, texts) && CollisionFree(b.uuid5, used) && AllUsed(query, texts, used)
    requires i < |texts| && j < |texts|
    ensures EntryAt(b, query, texts, i).id == EntryAt(b, query, texts, j).id <==> i == j
  {
    assert i < j ==> texts[i] != texts[j];
    assert j < i ==> texts[i] != texts[j];
    DistinctIds(b.uuid5, used, Variant(query, texts, i), Variant(query, texts, j));
  }

  lemma OneMore(tokenize: Tokenizer, b: Backends, query: Text, texts: seq<Text>, k: nat, s: Contents)
    requires Plain(b, query, texts) && k < |texts| && HoldsVariants(b, query, texts, k, s)
    requires forall i | 0 <= i < k :: EntryAt(b, query, texts, i).id != EntryAt(b, query, texts, k).id
    ensures var r := Upserted(tokenize, Some(s), EntryAt(b, query, texts, k));
            r.Ok? && HoldsVariants(b, query, texts, k + 1, r.value)
  {
    assert EntryAt(b, query, texts, k).id == EntryAt(b, query, texts, k).id;
  }

  lemma FirstOne(tokenize: Tokenizer, b: Backends, query: Text, texts: seq<Text>)
    requires Plain(b, query, texts) && 0 < |texts|
    ensures var r := Upserted(tokenize, None, EntryAt(b, query, texts, 0));
            r.Ok? && HoldsVariants(b, query, texts, 1, r.value)
  {
    assert EntryAt(b, query, texts, 0).id == EntryAt(b, query, texts, 0).id;
  }

  lemma LastWrite(b: Backends, tokenize: Tokenizer, query: Text, texts: seq<Text>, k: nat)
    requires Plain(b, query, texts) && 0 < k <= |texts|
    ensures var before := Run(b.uuid5, tokenize, Writes(b, query, texts, k - 1));
            var r := Upserted(tokenize, before, EntryAt(b, query, texts, k - 1));
            Run(b.uuid5, tokenize, Writes(b, query, texts, k)) == if r.Ok? then Some(r.value) else before
  {
    var ops := Writes(b, query, texts, k);
    assert ops[..k - 1] == Writes(b, query, texts, k - 1);
  }

  lemma {:induction false} VariantsWritten(b: Backends, an: Analyzer, query: Text, texts: seq<Text>, k: nat, used: set<Parts>)
    requires Plain(b, query, texts) && 0 < k <= |texts| && OneWordEach(an, texts)
    requires CollisionFree(b.uuid5, used) && AllUsed(query, texts, used)
    ensures var r := Run(b.uuid5, an.tokenize, Writes(b, query, texts, k));
            r.Some? && HoldsVariants(b, query, texts, k, r.value)
  {
    LastWrite(b, an.tokenize, query, texts, k);
    if k > 1 {
      VariantsWritten(b, an, query, texts, k - 1, used);
      forall i | 0 <= i < k - 1 ensures EntryAt(b, query, texts, i).id != EntryAt(b, query, texts, k - 1).id {
        VariantIds(b, an, query, texts, used, i, k - 1);
      }
      OneMore(an.tokenize, b, query, texts, k - 1, Run(b.uuid5, an.tokenize, Writes(b, query, texts, k - 1)).value);
    } else {
      FirstOne(an.tokenize, b, query, texts);
    }
  }

  lemma {:induction false} NoneEmpty(docs: Docs)
    requires forall id | id in docs :: docs[id] != []
    ensures TotalLength(docs) >= |docs|
    decreases |docs|
  {
    if docs != map[] {
      var id :| id in docs;
      LengthWithout(docs, id);
      var rest := docs - {id};
      assert docs.Keys == rest.Keys + {id};
      NoneEmpty(rest);
    }
  }

  lemma VariantDocs(b: Backends, an: Analyzer, query: Text, texts: seq<Text>, s: Contents)
    requires Plain(b, query, texts) && OneWordEach(an, texts)
    requires HoldsVariants(b, query, texts, |texts|, s) && IndexExact(an.tokenize, Some(s))
    ensures forall i | 0 <= i < |texts| ::
              EntryAt(b, query, texts, i).id in s.docs && s.docs[EntryAt(b, query, texts, i).id] == an.tokenize(texts[i])
    ensures forall d | d in s.docs :: s.docs[d] != []
  {
    forall d | d in s.docs ensures s.docs[d] != [] {
      var n :| 0 <= n < |texts| && EntryAt(b, query, texts, n).id == d;
      assert s.docs[d] == an.tokenize(texts[n]);
    }
  }

  /** A one-word context clears the default gate against itself where no context is empty, */
  lemma OwnWord(ln: real -> real, docs: Docs, id: EntryId)
    requires LogLike(ln) && id in docs && |docs[id]| == 1 && forall d | d in docs :: docs[d] != []
    ensures Score(ln, docs, id, Terms(docs[id])) >= 0.1
  {
    NoneEmpty(docs);
    SelfClearsGate(ln, docs, id);
  }

  /** and scores 0 against another word. */
  lemma OtherWord(ln: real -> real, docs: Docs, id: EntryId, doc: seq<Token>)
    requires LogLike(ln) && id in docs && |docs[id]| == 1 && |doc| == 1 && docs[id][0] != doc[0]
    ensures Score(ln, docs, id, Terms(doc)) == 0.0
  {
    ScoreRange(ln, docs, id, Terms(doc));
  }

  /** Each variant clears the default gate against its own context, and no other variant does. */
  lemma VariantScores(b: Backends, an: Analyzer, query: Text, texts: seq<Text>, s: Contents, i: nat, j: nat)
    requires Plain(b, query, texts) && OneWordEach(an, texts) && LogLike(an.ln) && i < |texts| && j < |texts|
    requires HoldsVariants(b, query, texts, |texts|, s) && IndexExact(an.tokenize, Some(s))
    ensures Sparse(an, s, Some(texts[i]), EntryAt(b, query, texts, j).id) >= 0.1 <==> i == j
  {
    VariantDocs(b, an, query, texts, s);
    if i == j {
      OwnWord(an.ln, s.docs, EntryAt(b, query, texts, j).id);
    } else {
      assert an.tokenize(texts[if i < j then i else j])[0] != an.tokenize(texts[if i < j then j else i])[0];
      OtherWord(an.ln, s.docs, EntryAt(b, query, texts, j).id, an.tokenize(texts[i]));
    }
  }

  lemma OtherBlocks(b: Backends, an: Analyzer, query: Text, texts: seq<Text>, s: Contents, j: nat, n: nat)
    requires Plain(b, query, texts) && OneWordEach(an, texts) && LogLike(an.ln) && j < |texts| && n < |texts| && n != j
    requires HoldsVariants(b, query, texts, |texts|, s) && IndexExact(an.tokenize, Some(s)) && SameDim(s)
    ensures EntryAt(b, query, texts, n).id in Blocked(an, s, DEFAULT, EntryAt(b, query, texts, j), {})
  {
    VariantScores(b, an, query, texts, s, j, n);
  }

  /** The `k`-th variant other than the `j`-th. */
  function Skip(j: nat, k: nat): nat {
    if k < j then k else k + 1
  }

  lemma OthersBlock(b: Backends, an: Analyzer, query: Text, texts: seq<Text>, s: Contents, j: nat, used: set<Parts>)
    requires Plain(b, query, texts) && OneWordEach(an, texts) && LogLike(an.ln) && j < |texts| && |texts| > 10
    requires CollisionFree(b.uuid5, used) && AllUsed(query, texts, used)
    requires HoldsVariants(b, query, texts, |texts|, s) && IndexExact(an.tokenize, Some(s)) && SameDim(s)
    ensures !Unblocked(an, s, DEFAULT, EntryAt(b, query, texts, j), {})
  {
    var blocked := Blocked(an, s, DEFAULT, EntryAt(b, query, texts, j), {});
    var others := seq(|texts| - 1, k requires 0 <= k < |texts| - 1 => EntryAt(b, query, texts, Skip(j, k)).id);
    forall k, l | 0 <= k < l < |others| ensures others[k] != others[l] {
      VariantIds(b, an, query, texts, used, Skip(j, k), Skip(j, l));
    }
    forall k | 0 <= k < |others| ensures others[k] in blocked {
      OtherBlocks(b, an, query, texts, s, j, Skip(j, k));
    }
    DistinctIn(others, blocked);
  }

  /** After eleven or more variants with different one-word contexts have been written, each of them clears
      both gates of its own lookup, and each lookup can miss. */
  lemma VariantsHideEachOther(b: Backends, an: Analyzer, query: Text, texts: seq<Text>, used: set<Parts>)
      returns (s: Contents)
    requires Plain(b, query, texts) && OneWordEach(an, texts) && LogLike(an.ln) && |texts| > 10
    requires CollisionFree(b.uuid5, used) && AllUsed(query, texts, used)
    ensures Run(b.uuid5, an.tokenize, Writes(b, query, texts, |texts|)) == Some(s) && SameDim(s)
    ensures forall i | 0 <= i < |texts| ::
              var p, e := Variant(query, texts, i), EntryAt(b, query, texts, i);
              && Prepared(b, p) == Ok(e) && e.id in s.entries && s.entries[e.id] == e
              && e.id in Twins(an, s, DEFAULT, e, {}) && FastFits(b, p)
              && IsFound(b, an, DEFAULT, Some(s), p, Ok(None))
  {
    VariantsWritten(b, an, query, texts, |texts|, used);
    var ops := Writes(b, query, texts, |texts|);
    s := Run(b.uuid5, an.tokenize, ops).value;
    RunShape(b.uuid5, an.tokenize, ops);
    RunKeepsIndex(b.uuid5, an.tokenize, ops, used);
    forall i | 0 <= i < |texts|
      ensures var p, e := Variant(query, texts, i), EntryAt(b, query, texts, i);
              && Prepared(b, p) == Ok(e) && e.id in s.entries && s.entries[e.id] == e
              && e.id in Twins(an, s, DEFAULT, e, {}) && FastFits(b, p)
              && IsFound(b, an, DEFAULT, Some(s), p, Ok(None))
    {
      var e := EntryAt(b, query, texts, i);
      VariantScores(b, an, query, texts, s, i, i);
      OwnTwin(an, s, DEFAULT, e, {});
      OthersBlock(b, an, query, texts, s, i, used);
      BlockedMisses(an, s, DEFAULT, e, {});
    }
  }
}
