/**
 The incremental BM25 index over stored contexts, kept equal to a from-scratch computation.
 */
module Bm25 {
  import opened Identity
  import opened Sums

  type Token = Text
  type Docs = map<EntryId, seq<Token>>

  // ------------------------------------------------------------------ from-scratch statistics

  /** How often each term occurs in a document. */
  function TermCounts(doc: seq<Token>): map<Token, nat> {
    map t | t in doc :: multiset(doc)[t]
  }

  ghost function Containing(docs: Docs, t: Token): set<EntryId> {
    set id | id in docs && t in docs[id]
  }

  ghost function DocumentFrequency(docs: Docs, t: Token): nat {
    |Containing(docs, t)|
  }

  ghost function Length(docs: Docs): EntryId -> nat {
    id => if id in docs then |docs[id]| else 0
  }

  ghost function TotalLength(docs: Docs): nat {
    Count(docs.Keys, Length(docs))
  }

  function Get(m: map<Token, nat>, t: Token): nat {
    if t in m then m[t] else 0
  }

  lemma FrequencyWithout(docs: Docs, id: EntryId, t: Token)
    requires id in docs
    ensures DocumentFrequency(docs, t) == DocumentFrequency(docs - {id}, t) + (if t in docs[id] then 1 else 0)
  {
    var rest := Containing(docs - {id}, t);
    if t in docs[id] {
      assert Containing(docs, t) == rest + {id};
    } else {
      assert Containing(docs, t) == rest;
    }
  }

  lemma LengthWithout(docs: Docs, id: EntryId)
    requires id in docs
    ensures TotalLength(docs) == TotalLength(docs - {id}) + |docs[id]|
  {
    CountPick(docs.Keys, id, Length(docs));
    assert (docs - {id}).Keys == docs.Keys - {id};
    CountSame(docs.Keys - {id}, Length(docs), Length(docs - {id}));
  }

  lemma LengthWith(docs: Docs, id: EntryId, doc: seq<Token>)
    requires id !in docs
    ensures TotalLength(docs[id := doc]) == TotalLength(docs) + |doc|
  {
    LengthWithout(docs[id := doc], id);
    assert docs[id := doc] - {id} == docs;
  }

  /** The five statistics the index maintains. */
  datatype Stats = Stats(
    documentFrequency: map<Token, nat>,
    termFrequency: map<EntryId, map<Token, nat>>,
    documentLength: map<EntryId, nat>,
    totalLength: nat,
    documentCount: nat)

  ghost predicate FrequenciesExact(documentFrequency: map<Token, nat>, docs: Docs) {
    && (forall t {:trigger Get(documentFrequency, t)} :: Get(documentFrequency, t) == DocumentFrequency(docs, t))
    && (forall t | t in documentFrequency :: documentFrequency[t] > 0)
  }

  ghost predicate DocumentsExact(s: Stats, docs: Docs) {
    && s.termFrequency.Keys == docs.Keys && (forall id | id in docs :: s.termFrequency[id] == TermCounts(docs[id]))
    && s.documentLength.Keys == docs.Keys && (forall id | id in docs :: s.documentLength[id] == |docs[id]|)
  }

  /** Every statistic is what a from-scratch pass over the documents computes. */
  ghost predicate Exact(s: Stats, docs: Docs) {
    && FrequenciesExact(s.documentFrequency, docs) && DocumentsExact(s, docs)
    && s.totalLength == TotalLength(docs) && s.documentCount == |docs|
  }

  lemma FrequenciesForget(df: map<Token, nat>, docs: Docs, id: EntryId, df': map<Token, nat>)
    requires id in docs && FrequenciesExact(df, docs)
    requires forall t :: Get(df', t) == Get(df, t) - (if t in docs[id] then 1 else 0)
    requires forall t | t in df' :: df'[t] > 0
    ensures FrequenciesExact(df', docs - {id})
  {
    forall t ensures Get(df', t) == DocumentFrequency(docs - {id}, t) {
      FrequencyWithout(docs, id, t);
      assert Get(df, t) == DocumentFrequency(docs, t);
    }
  }

  lemma FrequenciesLearn(df: map<Token, nat>, docs: Docs, id: EntryId, doc: seq<Token>, df': map<Token, nat>)
    requires id !in docs && FrequenciesExact(df, docs)
    requires forall t :: Get(df', t) == Get(df, t) + (if t in doc then 1 else 0)
    requires forall t | t in df' :: df'[t] > 0
    ensures FrequenciesExact(df', docs[id := doc])
  {
    var docs' := docs[id := doc];
    assert docs' - {id} == docs;
    forall t ensures Get(df', t) == DocumentFrequency(docs', t) {
      FrequencyWithout(docs', id, t);
      assert Get(df, t) == DocumentFrequency(docs, t);
    }
  }

  lemma DocumentsLearn(s: Stats, docs: Docs, id: EntryId, doc: seq<Token>, s': Stats)
    requires DocumentsExact(s, docs)
    requires s'.termFrequency == s.termFrequency[id := TermCounts(doc)]
    requires s'.documentLength == s.documentLength[id := |doc|]
    ensures DocumentsExact(s', docs[id := doc])
  {
  }

  /** Dropping a document, on the statistics. */
  lemma ExactWithout(s: Stats, docs: Docs, id: EntryId, s': Stats)
    requires Exact(s, docs) && id in docs
    requires forall t :: Get(s'.documentFrequency, t) == Get(s.documentFrequency, t) - (if t in docs[id] then 1 else 0)
    requires forall t | t in s'.documentFrequency :: s'.documentFrequency[t] > 0
    requires s'.termFrequency == s.termFrequency - {id} && s'.documentLength == s.documentLength - {id}
    requires s'.totalLength == s.totalLength - |docs[id]| && s'.documentCount == s.documentCount - 1
    ensures Exact(s', docs - {id})
  {
    FrequenciesForget(s.documentFrequency, docs, id, s'.documentFrequency);
    LengthWithout(docs, id);
    assert (docs - {id}).Keys == docs.Keys - {id};
  }

  /** Adding a document, on the statistics. */
  lemma ExactWith(s: Stats, docs: Docs, id: EntryId, doc: seq<Token>, s': Stats)
    requires Exact(s, docs) && id !in docs
    requires forall t :: Get(s'.documentFrequency, t) == Get(s.documentFrequency, t) + (if t in doc then 1 else 0)
    requires forall t | t in s'.documentFrequency :: s'.documentFrequency[t] > 0
    requires s'.termFrequency == s.termFrequency[id := TermCounts(doc)]
    requires s'.documentLength == s.documentLength[id := |doc|]
    requires s'.totalLength == s.totalLength + |doc| && s'.documentCount == s.documentCount + 1
    ensures Exact(s', docs[id := doc])
  {
    FrequenciesLearn(s.documentFrequency, docs, id, doc, s'.documentFrequency);
    DocumentsLearn(s, docs, id, doc, s');
    LengthWith(docs, id, doc);
  }

  // ------------------------------------------------------------------ the index

  class Index {
    var documentFrequency: map<Token, nat>
    var termFrequency: map<EntryId, map<Token, nat>>
    var documentLength: map<EntryId, nat>
    var totalLength: nat
    var documentCount: nat
    ghost var docs: Docs

    function Statistics(): Stats
      reads this
    {
      Stats(documentFrequency, termFrequency, documentLength, totalLength, documentCount)
    }

    ghost predicate Valid()
      reads this
    {
      Exact(Statistics(), docs)
    }

    constructor ()
      ensures Valid() && docs == map[]
    {
      documentFrequency, termFrequency, documentLength := map[], map[], map[];
      totalLength, documentCount := 0, 0;
      docs := map[];
    }

    /** Counts a document with these terms out of the document frequencies. */
    method Forget(terms: set<Token>)
      requires forall t | t in terms :: Get(documentFrequency, t) > 0
      requires forall t | t in documentFrequency :: documentFrequency[t] > 0
      modifies `documentFrequency
      ensures forall t :: Get(documentFrequency, t) == Get(old(documentFrequency), t) - (if t in terms then 1 else 0)
      ensures forall t | t in documentFrequency :: documentFrequency[t] > 0
    {
      var rest := terms;
      while rest != {}
        invariant rest <= terms
        invariant forall t ::
                    Get(documentFrequency, t) == Get(old(documentFrequency), t) - (if t in terms - rest then 1 else 0)
        invariant forall t | t in documentFrequency :: documentFrequency[t] > 0
        decreases rest
      {
        var term :| term in rest;
        assert Get(documentFrequency, term) > 0;
        var count := documentFrequency[term] - 1;
        if count == 0 {
          documentFrequency := documentFrequency - {term};
        } else {
          documentFrequency := documentFrequency[term := count];
        }
        rest := rest - {term};
      }
    }

    /** Counts a document with these terms into the document frequencies. */
    method Learn(terms: set<Token>)
      requires forall t | t in documentFrequency :: documentFrequency[t] > 0
      modifies `documentFrequency
      ensures forall t :: Get(documentFrequency, t) == Get(old(documentFrequency), t) + (if t in terms then 1 else 0)
      ensures forall t | t in documentFrequency :: documentFrequency[t] > 0
    {
      var rest := terms;
      while rest != {}
        invariant rest <= terms
        invariant forall t ::
                    Get(documentFrequency, t) == Get(old(documentFrequency), t) + (if t in terms - rest then 1 else 0)
        invariant forall t | t in documentFrequency :: documentFrequency[t] > 0
        decreases rest
      {
        var term :| term in rest;
        documentFrequency := documentFrequency[term := Get(documentFrequency, term) + 1];
        rest := rest - {term};
      }
    }

    method Remove(id: EntryId)
      requires Valid()
      modifies this
      ensures Valid() && docs == old(docs) - {id}
    {
      if id !in termFrequency {
        RemoveAbsent(docs, id);
        return;
      }
      ghost var was := Statistics();
      TermPositive(was, docs, id);
      Drop(id);
      ExactWithout(was, docs, id, Statistics());
      docs := docs - {id};
    }

    /** Takes the document's share out of every statistic. */
    method Drop(id: EntryId)
      requires id in termFrequency && id in documentLength && documentLength[id] <= totalLength && documentCount > 0
      requires forall t | t in termFrequency[id] :: Get(documentFrequency, t) > 0
      requires forall t | t in documentFrequency :: documentFrequency[t] > 0
      modifies `documentFrequency, `termFrequency, `documentLength, `totalLength, `documentCount
      ensures forall t :: Get(documentFrequency, t) ==
                          Get(old(documentFrequency), t) - (if t in old(termFrequency)[id] then 1 else 0)
      ensures forall t | t in documentFrequency :: documentFrequency[t] > 0
      ensures termFrequency == old(termFrequency) - {id} && documentLength == old(documentLength) - {id}
      ensures totalLength == old(totalLength) - old(documentLength)[id] && documentCount == old(documentCount) - 1
    {
      var terms := termFrequency[id];
      termFrequency := termFrequency - {id};
      Forget(terms.Keys);
      totalLength := totalLength - documentLength[id];
      documentLength := documentLength - {id};
      documentCount := documentCount - 1;
    }

    method Insert(id: EntryId, tokens: seq<Token>)
      requires Valid()
      modifies this
      ensures Valid() && docs == old(docs)[id := tokens]
    {
      Remove(id);
      Reinsert(old(docs), id, tokens);
      Add(id, tokens);
    }

    method Add(id: EntryId, tokens: seq<Token>)
      requires Valid() && id !in docs
      modifies this
      ensures Valid() && docs == old(docs)[id := tokens]
    {
      ghost var was := Statistics();
      var counts, length := CountTerms(tokens);
      Learn(counts.Keys);
      totalLength := totalLength + length;
      documentLength := documentLength[id := length];
      termFrequency := termFrequency[id := counts];
      documentCount := documentCount + 1;
      ExactWith(was, docs, id, tokens, Statistics());
      docs := docs[id := tokens];
    }
  }

  lemma RemoveAbsent(docs: Docs, id: EntryId)
    requires id !in docs
    ensures docs - {id} == docs
  {
  }

  lemma Reinsert(docs: Docs, id: EntryId, doc: seq<Token>)
    ensures (docs - {id})[id := doc] == docs[id := doc]
  {
  }

  /** Every term and token of an indexed document is counted, so no decrement underflows. */
  lemma TermPositive(s: Stats, docs: Docs, id: EntryId)
    requires Exact(s, docs) && id in docs
    ensures s.termFrequency[id].Keys == (set t | t in docs[id])
    ensures forall t | t in s.termFrequency[id].Keys :: Get(s.documentFrequency, t) > 0
    ensures s.documentLength[id] == |docs[id]| <= s.totalLength && s.documentCount > 0
  {
    LengthWithout(docs, id);
    forall t | t in docs[id] ensures Get(s.documentFrequency, t) > 0 {
      FrequencyWithout(docs, id, t);
    }
  }

  /** One pass over the tokens of a context. */
  method CountTerms(tokens: seq<Token>) returns (counts: map<Token, nat>, length: nat)
    ensures counts == TermCounts(tokens) && length == |tokens|
  {
    counts, length := map[], 0;
    while length < |tokens|
      invariant length <= |tokens|
      invariant counts == TermCounts(tokens[..length])
    {
      var token := tokens[length];
      assert tokens[..length + 1] == tokens[..length] + [token];
      counts := counts[token := Get(counts, token) + 1];
      length := length + 1;
    }
    assert tokens[..length] == tokens;
  }
}
