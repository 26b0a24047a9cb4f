/**
 The normalized BM25 score of a query context against a stored one, in exact arithmetic.
 */
module Bm25Score {
  import opened Identity
  import opened Sums
  import opened Bm25

  const K1 := 1.2
  const B := 0.75

  /** What the proofs use of the natural logarithm. */
  ghost predicate LogLike(ln: real -> real) {
    ln(1.0) == 0.0 && forall x, y | 0.0 < x < y :: ln(x) < ln(y)
  }

  /** The Lucene-style inverse document frequency of a term found in `df` of `n` documents. */
  function Idf(ln: real -> real, n: nat, df: nat): real {
    ln(1.0 + (n as real - df as real + 0.5) / (df as real + 0.5))
  }

  /** The length-dependent part of a term's denominator. */
  function Norm(length: nat, total: nat, n: nat): real
    requires total > 0 && n > 0
  {
    K1 * (1.0 - B + B * length as real / (total as real / n as real))
  }

  function Saturated(idf: real, tf: real, norm: real): real
    requires tf + norm != 0.0
  {
    idf * (tf * (K1 + 1.0)) / (tf + norm)
  }

  lemma NormNonNegative(length: nat, total: nat, n: nat)
    requires total > 0 && n > 0
    ensures Norm(length, total, n) == 0.3 + 0.9 * (length as real / (total as real / n as real))
    ensures Norm(length, total, n) >= 0.3
  {
    var avg := total as real / n as real;
    assert avg > 0.0;
    assert B * length as real / avg == B * (length as real / avg);
    assert length as real / avg >= 0.0;
  }

  lemma LengthPositive(docs: Docs, id: EntryId)
    requires id in docs
    ensures |docs| > 0 && TotalLength(docs) >= |docs[id]|
  {
    LengthWithout(docs, id);
  }

  ghost function Weight(ln: real -> real, docs: Docs): Token -> real {
    (t: Token) => Idf(ln, |docs|, DocumentFrequency(docs, t)) * (K1 + 1.0)
  }

  ghost function Match(ln: real -> real, docs: Docs, id: EntryId): Token -> real {
    (t: Token) => if id in docs && t in docs[id] then MatchOf(ln, docs, id, t) else 0.0
  }

  ghost function MatchOf(ln: real -> real, docs: Docs, id: EntryId, t: Token): real
    requires id in docs && t in docs[id]
  {
    LengthPositive(docs, id);
    NormNonNegative(|docs[id]|, TotalLength(docs), |docs|);
    Saturated(Idf(ln, |docs|, DocumentFrequency(docs, t)), multiset(docs[id])[t] as real,
      Norm(|docs[id]|, TotalLength(docs), |docs|))
  }

  function Clamp(x: real): real {
    if x < 0.0 then 0.0 else if x > 1.0 then 1.0 else x
  }

  /** The score, written over sums in no particular order. */
  ghost function Score(ln: real -> real, docs: Docs, id: EntryId, terms: set<Token>): real {
    if docs == map[] || terms == {} || id !in docs then 0.0
    else
      var upper := Sum(terms, Weight(ln, docs));
      if upper <= 0.0 then 0.0 else Clamp(Sum(terms, Match(ln, docs, id)) / upper)
  }

  /** The scan over the query terms, in the arbitrary order of a hash set. */
  method ComputeScore(index: Index, ln: real -> real, id: EntryId, terms: set<Token>) returns (r: real)
    requires index.Valid()
    ensures r == Score(ln, index.docs, id, terms)
  {
    ghost var docs := index.docs;
    if index.documentCount == 0 || terms == {} {
      return 0.0;
    }
    if id !in index.termFrequency {
      return 0.0;
    }
    LengthPositive(docs, id);
    var counts, length := index.termFrequency[id], index.documentLength[id];
    var numerator, upper := 0.0, 0.0;
    var rest := terms;
    while rest != {}
      invariant rest <= terms
      invariant numerator + Sum(rest, Match(ln, docs, id)) == Sum(terms, Match(ln, docs, id))
      invariant upper + Sum(rest, Weight(ln, docs)) == Sum(terms, Weight(ln, docs))
      decreases rest
    {
      var term :| term in rest;
      SumPick(rest, term, Match(ln, docs, id));
      SumPick(rest, term, Weight(ln, docs));
      var idf := Idf(ln, index.documentCount, Get(index.documentFrequency, term));
      upper := upper + idf * (K1 + 1.0);
      var tf := Get(counts, term) as real;
      if tf > 0.0 {
        NormNonNegative(length, index.totalLength, index.documentCount);
        numerator := numerator + Saturated(idf, tf, Norm(length, index.totalLength, index.documentCount));
      }
      rest := rest - {term};
    }
    if upper <= 0.0 {
      return 0.0;
    }
    return Clamp(numerator / upper);
  }

  // ------------------------------------------------------------------ single terms

  lemma FrequencyBound(docs: Docs, t: Token)
    ensures DocumentFrequency(docs, t) <= |docs|
  {
    Subset(Containing(docs, t), docs.Keys);
  }

  lemma {:induction false} Subset<T>(a: set<T>, b: set<T>)
    requires a <= b
    ensures |a| <= |b|
  {
    if a != {} {
      var x :| x in a;
      Subset(a - {x}, b - {x});
    }
  }

  lemma IdfPositive(ln: real -> real, n: nat, df: nat)
    requires LogLike(ln) && df <= n
    ensures Idf(ln, n, df) > 0.0
  {
  }

  /** The rarer of two terms weighs more. */
  lemma IdfRarer(ln: real -> real, n: nat, rare: nat, common: nat)
    requires LogLike(ln) && rare < common <= n
    ensures Idf(ln, n, rare) > Idf(ln, n, common)
  {
    var a, b := rare as real, common as real;
    OddsFall(n as real, a, b);
    assert 0.0 < 1.0 + (n as real - b + 0.5) / (b + 0.5) < 1.0 + (n as real - a + 0.5) / (a + 0.5);
  }

  lemma OddsFall(n: real, a: real, b: real)
    requires 0.0 <= a < b <= n
    ensures 0.0 < (n - b + 0.5) / (b + 0.5) < (n - a + 0.5) / (a + 0.5)
  {
  }

  /** A saturated term earns less than its weight, at least its weight over `1 + norm` once it occurs,
      and exactly that when it occurs once. */
  lemma SaturatedBounds(idf: real, tf: nat, norm: real)
    requires idf > 0.0 && tf > 0 && norm > 0.0
    ensures 0.0 < Saturated(idf, tf as real, norm) < idf * (K1 + 1.0)
    ensures Saturated(idf, tf as real, norm) >= 1.0 / (1.0 + norm) * (idf * (K1 + 1.0))
    ensures tf == 1 ==> Saturated(idf, tf as real, norm) == 1.0 / (1.0 + norm) * (idf * (K1 + 1.0))
  {
    var w, x := idf * 2.2, tf as real;
    var top := idf * (x * 2.2);
    assert top == w * x;
    assert w * x > 0.0;
    UpperBound(w, x, norm);
    LowerBound(w, x, norm);
  }

  lemma UpperBound(w: real, x: real, norm: real)
    requires w > 0.0 && x >= 1.0 && norm > 0.0
    ensures 0.0 < w * x / (x + norm) < w
  {
  }

  lemma LowerBound(w: real, x: real, norm: real)
    requires w > 0.0 && x >= 1.0 && norm >= 0.0
    ensures w * x / (x + norm) >= 1.0 / (1.0 + norm) * w
  {
  }

  // ------------------------------------------------------------------ main results

  lemma MatchBounds(ln: real -> real, docs: Docs, id: EntryId, t: Token)
    requires LogLike(ln) && id in docs
    ensures Weight(ln, docs)(t) > 0.0
    ensures 0.0 <= Match(ln, docs, id)(t) < Weight(ln, docs)(t)
    ensures Match(ln, docs, id)(t) > 0.0 <==> t in docs[id]
  {
    FrequencyBound(docs, t);
    IdfPositive(ln, |docs|, DocumentFrequency(docs, t));
    if t in docs[id] {
      LengthPositive(docs, id);
      NormNonNegative(|docs[id]|, TotalLength(docs), |docs|);
      SaturatedBounds(Idf(ln, |docs|, DocumentFrequency(docs, t)), multiset(docs[id])[t],
        Norm(|docs[id]|, TotalLength(docs), |docs|));
    }
  }

  /** Neither early return nor clamp nor division by zero: the score of an indexed document is the
      plain ratio of its sums, from 0 up to but not including 1. */
  lemma ScoreIsRatio(ln: real -> real, docs: Docs, id: EntryId, terms: set<Token>)
    requires LogLike(ln) && id in docs && terms != {}
    ensures Sum(terms, Weight(ln, docs)) > 0.0
    ensures 0.0 <= Sum(terms, Match(ln, docs, id)) < Sum(terms, Weight(ln, docs))
    ensures Score(ln, docs, id, terms) == Sum(terms, Match(ln, docs, id)) / Sum(terms, Weight(ln, docs))
  {
    forall t { MatchBounds(ln, docs, id, t); }
    var t :| t in terms;
    SumNonNegative(terms, Weight(ln, docs));
    SumNonNegative(terms, Match(ln, docs, id));
    assert Weight(ln, docs)(t) > 0.0;
    SumLess(terms, Match(ln, docs, id), Weight(ln, docs));
    Fraction(Sum(terms, Match(ln, docs, id)), Sum(terms, Weight(ln, docs)));
  }

  lemma Fraction(a: real, b: real)
    requires 0.0 <= a < b
    ensures 0.0 <= a / b < 1.0
    ensures a / b > 0.0 <==> a > 0.0
  {
  }

  /** The score lies in [0, 1) and is positive exactly when the document shares a term with the query. */
  lemma ScoreRange(ln: real -> real, docs: Docs, id: EntryId, terms: set<Token>)
    requires LogLike(ln)
    ensures 0.0 <= Score(ln, docs, id, terms) < 1.0
    ensures Score(ln, docs, id, terms) > 0.0 <==> id in docs && exists t :: t in terms && t in docs[id]
  {
    if id in docs && terms != {} {
      ScoreIsRatio(ln, docs, id, terms);
      forall t { MatchBounds(ln, docs, id, t); }
      SumNonNegative(terms, Match(ln, docs, id));
      Fraction(Sum(terms, Match(ln, docs, id)), Sum(terms, Weight(ln, docs)));
      if t :| t in terms && t in docs[id] {
        assert Match(ln, docs, id)(t) > 0.0;
      }
      if x :| x in terms && Match(ln, docs, id)(x) > 0.0 {
        assert x in docs[id];
      }
    }
  }

  // ------------------------------------------------------------------ the closed form

  /** The weight of a term found in `df` of `n` documents, ln((n + 1) / (df + 0.5)). */
  ghost function TermWeight(ln: real -> real, docs: Docs): Token -> real {
    (t: Token) => ln((|docs| as real + 1.0) / (|set id | id in docs && t in docs[id]| as real + 0.5))
  }

  /** What the term earns of it in a document: tf / (tf + 0.3 + 0.9 * length / average). */
  ghost function TermShare(docs: Docs, id: EntryId, t: Token): real
    requires id in docs && t in docs[id]
  {
    LengthPositive(docs, id);
    var tf, average := multiset(docs[id])[t] as real, TotalLength(docs) as real / |docs| as real;
    LengthRatio(|docs[id]| as real, TotalLength(docs) as real, |docs| as real);
    tf / (tf + 0.3 + 0.9 * (|docs[id]| as real / average))
  }

  lemma LengthRatio(length: real, total: real, n: real)
    requires length >= 0.0 && total > 0.0 && n > 0.0
    ensures total / n > 0.0 && length / (total / n) >= 0.0
  {
  }

  function Part(weight: real, share: real): real {
    weight * share
  }

  ghost function TermMatch(ln: real -> real, docs: Docs, id: EntryId): Token -> real
    requires id in docs
  {
    (t: Token) => if t in docs[id] then Part(TermWeight(ln, docs)(t), TermShare(docs, id, t)) else 0.0
  }

  lemma OddsForm(n: real, df: real)
    requires 0.0 <= df <= n
    ensures 1.0 + (n - df + 0.5) / (df + 0.5) == (n + 1.0) / (df + 0.5)
  {
    var d := df + 0.5;
    var x := (n - df + 0.5) / d;
    assert x * d == n - df + 0.5;
    Exact(n + 1.0, 1.0 + x, d);
  }

  lemma IdfForm(ln: real -> real, docs: Docs, t: Token)
    ensures Idf(ln, |docs|, DocumentFrequency(docs, t)) == TermWeight(ln, docs)(t)
  {
    FrequencyBound(docs, t);
    assert Containing(docs, t) == set id | id in docs && t in docs[id];
    OddsForm(|docs| as real, DocumentFrequency(docs, t) as real);
  }

  lemma WeightForm(ln: real -> real, docs: Docs, t: Token)
    ensures Weight(ln, docs)(t) == Compose(Times(2.2), TermWeight(ln, docs))(t)
  {
    IdfForm(ln, docs, t);
    assert Weight(ln, docs)(t) == TermWeight(ln, docs)(t) * 2.2;
  }

  lemma SaturatedForm(w: real, tf: real, norm: real)
    requires tf > 0.0 && norm > 0.0
    ensures Saturated(w, tf, norm) == 2.2 * (w * (tf / (tf + norm)))
  {
    var d := tf + norm;
    var share := tf / d;
    assert share * d == tf;
    assert w * (tf * (K1 + 1.0)) == (2.2 * (w * share)) * d;
    Exact(w * (tf * (K1 + 1.0)), 2.2 * (w * share), d);
  }

  lemma Exact(a: real, b: real, d: real)
    requires d > 0.0 && a == b * d
    ensures a / d == b
  {
  }

  lemma ShareForm(docs: Docs, id: EntryId, t: Token, norm: real)
    requires id in docs && t in docs[id] && TotalLength(docs) > 0 && |docs| > 0
    requires norm == Norm(|docs[id]|, TotalLength(docs), |docs|) && norm > 0.0
    ensures TermShare(docs, id, t) == multiset(docs[id])[t] as real / (multiset(docs[id])[t] as real + norm)
  {
    NormNonNegative(|docs[id]|, TotalLength(docs), |docs|);
  }

  lemma MatchOfForm(ln: real -> real, docs: Docs, id: EntryId, t: Token, w: real, norm: real)
    requires id in docs && t in docs[id] && TotalLength(docs) > 0 && |docs| > 0
    requires norm == Norm(|docs[id]|, TotalLength(docs), |docs|) && norm > 0.0
    requires w == Idf(ln, |docs|, DocumentFrequency(docs, t))
    ensures MatchOf(ln, docs, id, t) == Saturated(w, multiset(docs[id])[t] as real, norm)
  {
  }

  lemma Earned(match': real, w: real, share: real, tf: real, norm: real)
    requires tf > 0.0 && norm > 0.0 && match' == Saturated(w, tf, norm) && share == tf / (tf + norm)
    ensures match' == Times(2.2)(Part(w, share))
  {
    SaturatedForm(w, tf, norm);
  }

  lemma EarnedMatch(ln: real -> real, docs: Docs, id: EntryId, t: Token, w: real, norm: real)
    requires id in docs && t in docs[id] && TotalLength(docs) > 0 && |docs| > 0
    requires norm == Norm(|docs[id]|, TotalLength(docs), |docs|) && norm > 0.0
    requires w == Idf(ln, |docs|, DocumentFrequency(docs, t))
    ensures MatchOf(ln, docs, id, t) == Times(2.2)(Part(w, TermShare(docs, id, t)))
  {
    ShareForm(docs, id, t, norm);
    MatchOfForm(ln, docs, id, t, w, norm);
    Earned(MatchOf(ln, docs, id, t), w, TermShare(docs, id, t), multiset(docs[id])[t] as real, norm);
  }

  lemma Applied(ln: real -> real, docs: Docs, id: EntryId, t: Token)
    requires id in docs && t in docs[id]
    ensures TermMatch(ln, docs, id)(t) == Part(TermWeight(ln, docs)(t), TermShare(docs, id, t))
  {
  }

  lemma AppliedMatch(ln: real -> real, docs: Docs, id: EntryId, t: Token)
    requires id in docs && t in docs[id]
    ensures Match(ln, docs, id)(t) == MatchOf(ln, docs, id, t)
  {
  }

  lemma Glue(f: Token -> real, g: Token -> real, t: Token, p: real)
    requires g(t) == p && f(t) == Times(2.2)(p)
    ensures f(t) == Compose(Times(2.2), g)(t)
  {
  }

  lemma MatchForm(ln: real -> real, docs: Docs, id: EntryId, t: Token)
    requires id in docs
    ensures Match(ln, docs, id)(t) == Compose(Times(2.2), TermMatch(ln, docs, id))(t)
  {
    if t in docs[id] {
      LengthPositive(docs, id);
      NormNonNegative(|docs[id]|, TotalLength(docs), |docs|);
      IdfForm(ln, docs, t);
      EarnedMatch(ln, docs, id, t, TermWeight(ln, docs)(t), Norm(|docs[id]|, TotalLength(docs), |docs|));
      Applied(ln, docs, id, t);
      AppliedMatch(ln, docs, id, t);
      Glue(Match(ln, docs, id), TermMatch(ln, docs, id), t,
        Part(TermWeight(ln, docs)(t), TermShare(docs, id, t)));
    }
  }

  /** The score in closed form: the share of the query's weight that the document earns. */
  lemma ScoreClosedForm(ln: real -> real, docs: Docs, id: EntryId, terms: set<Token>)
    requires LogLike(ln) && id in docs && terms != {}
    ensures Sum(terms, TermWeight(ln, docs)) > 0.0
    ensures Score(ln, docs, id, terms) == Sum(terms, TermMatch(ln, docs, id)) / Sum(terms, TermWeight(ln, docs))
  {
    ScoreIsRatio(ln, docs, id, terms);
    SumForms(ln, docs, id, terms);
    CancelFactor(Sum(terms, Match(ln, docs, id)), Sum(terms, Weight(ln, docs)),
      Sum(terms, TermMatch(ln, docs, id)), Sum(terms, TermWeight(ln, docs)));
  }

  /** A document that is not indexed, or a query without terms, scores 0. */
  lemma ScoreOfNothing(ln: real -> real, docs: Docs, id: EntryId, terms: set<Token>)
    requires id !in docs || terms == {}
    ensures Score(ln, docs, id, terms) == 0.0
  {
  }

  lemma SumForms(ln: real -> real, docs: Docs, id: EntryId, terms: set<Token>)
    requires id in docs
    ensures Sum(terms, Weight(ln, docs)) == 2.2 * Sum(terms, TermWeight(ln, docs))
    ensures Sum(terms, Match(ln, docs, id)) == 2.2 * Sum(terms, TermMatch(ln, docs, id))
  {
    forall t { WeightForm(ln, docs, t); }
    SumShare(terms, 2.2, Weight(ln, docs), TermWeight(ln, docs));
    forall t { MatchForm(ln, docs, id, t); }
    SumShare(terms, 2.2, Match(ln, docs, id), TermMatch(ln, docs, id));
  }

  lemma CancelFactor(m: real, w: real, m': real, w': real)
    requires w > 0.0 && m == 2.2 * m' && w == 2.2 * w'
    ensures w' > 0.0 && m / w == m' / w'
  {
    var r := m' / w';
    assert r * w' == m';
    assert m == r * w;
    Exact(m, r, w);
  }

  ghost function Terms(doc: seq<Token>): set<Token> {
    set t | t in doc
  }

  /** The share of its weight that a term occurring once earns: 1 / (1.3 + 0.9 * length / average). */
  ghost function SelfShare(docs: Docs, id: EntryId): (q: real)
    requires id in docs && docs[id] != []
    ensures q > 0.0
  {
    LengthPositive(docs, id);
    NormNonNegative(|docs[id]|, TotalLength(docs), |docs|);
    1.0 / (1.0 + Norm(|docs[id]|, TotalLength(docs), |docs|))
  }

  ghost predicate Distinct(doc: seq<Token>) {
    forall t | t in doc :: multiset(doc)[t] == 1
  }

  lemma SelfTerm(ln: real -> real, docs: Docs, id: EntryId, t: Token)
    requires LogLike(ln) && id in docs && t in docs[id]
    ensures Match(ln, docs, id)(t) >= SelfShare(docs, id) * Weight(ln, docs)(t)
    ensures multiset(docs[id])[t] == 1 ==> Match(ln, docs, id)(t) == SelfShare(docs, id) * Weight(ln, docs)(t)
  {
    FrequencyBound(docs, t);
    IdfPositive(ln, |docs|, DocumentFrequency(docs, t));
    LengthPositive(docs, id);
    NormNonNegative(|docs[id]|, TotalLength(docs), |docs|);
    SaturatedBounds(Idf(ln, |docs|, DocumentFrequency(docs, t)), multiset(docs[id])[t],
      Norm(|docs[id]|, TotalLength(docs), |docs|));
  }

  lemma RatioAtLeast(terms: set<Token>, q: real, matches: Token -> real, weights: Token -> real)
    requires Sum(terms, weights) > 0.0
    requires forall t | t in terms :: matches(t) >= Compose(Times(q), weights)(t)
    ensures Sum(terms, matches) / Sum(terms, weights) >= q
    ensures (forall t | t in terms :: matches(t) == Compose(Times(q), weights)(t)) ==>
              Sum(terms, matches) / Sum(terms, weights) == q
  {
    SumShare(terms, q, matches, weights);
    DivideOut(q, Sum(terms, weights), Sum(terms, matches));
  }

  /** A document scored against its own context earns at least its self share, and exactly that when
      no term repeats. */
  lemma SelfScore(ln: real -> real, docs: Docs, id: EntryId)
    requires LogLike(ln) && id in docs && docs[id] != []
    ensures Score(ln, docs, id, Terms(docs[id])) >= SelfShare(docs, id)
    ensures Distinct(docs[id]) ==> Score(ln, docs, id, Terms(docs[id])) == SelfShare(docs, id)
  {
    var terms, q := Terms(docs[id]), SelfShare(docs, id);
    var matches, weights := Match(ln, docs, id), Weight(ln, docs);
    assert docs[id][0] in terms;
    ScoreIsRatio(ln, docs, id, terms);
    forall t | t in terms
      ensures matches(t) >= Compose(Times(q), weights)(t)
      ensures Distinct(docs[id]) ==> matches(t) == Compose(Times(q), weights)(t)
    {
      SelfTerm(ln, docs, id, t);
    }
    RatioAtLeast(terms, q, matches, weights);
  }

  lemma DivideOut(q: real, w: real, m: real)
    requires w > 0.0 && m >= q * w
    ensures m / w >= q && (m == q * w ==> m / w == q)
  {
  }

  /** `1 / (1 + norm)` reaches one tenth exactly when the document is at most 29/3 of the average
      length. */
  lemma TenthBound(length: nat, total: nat, n: nat)
    requires total > 0 && n > 0
    ensures 1.0 / (1.0 + Norm(length, total, n)) >= 0.1 <==> 3 * length * n <= 29 * total
  {
    NormNonNegative(length, total, n);
    var avg := total as real / n as real;
    var r := length as real / avg;
    Ratio(length, total, n);
    var d := 1.3 + 0.9 * r;
    assert 1.0 + Norm(length, total, n) == d;
    assert 1.0 / d >= 0.1 <==> d <= 10.0;
    assert d <= 10.0 <==> 3.0 * r <= 29.0;
    assert 3.0 * (r * total as real) <= 29.0 * total as real <==> 3.0 * r <= 29.0;
    assert 3.0 * (length as real * n as real) == (3 * length * n) as real;
  }

  lemma Ratio(length: nat, total: nat, n: nat)
    requires total > 0 && n > 0
    ensures length as real / (total as real / n as real) * total as real == length as real * n as real
  {
  }

  /** The default context gate 0.10: a stored context always clears it against itself when it is at
      most 29/3 of the average length, and with no repeated term only then. */
  lemma SelfClearsGate(ln: real -> real, docs: Docs, id: EntryId)
    requires LogLike(ln) && id in docs && docs[id] != []
    ensures 3 * |docs[id]| * |docs| <= 29 * TotalLength(docs) ==> Score(ln, docs, id, Terms(docs[id])) >= 0.1
    ensures Distinct(docs[id]) ==>
              (Score(ln, docs, id, Terms(docs[id])) >= 0.1 <==> 3 * |docs[id]| * |docs| <= 29 * TotalLength(docs))
    ensures |docs| <= 9 ==> Score(ln, docs, id, Terms(docs[id])) >= 0.1
  {
    LengthPositive(docs, id);
    SelfScore(ln, docs, id);
    NormNonNegative(|docs[id]|, TotalLength(docs), |docs|);
    TenthBound(|docs[id]|, TotalLength(docs), |docs|);
    SmallNamespace(|docs[id]|, TotalLength(docs), |docs|);
  }

  lemma SmallNamespace(length: nat, total: nat, n: nat)
    requires length <= total
    ensures n <= 9 ==> 3 * length * n <= 29 * total
  {
  }

  // ------------------------------------------------------------------ the gate can reject an exact context

  /** A document of `n` different one-byte tokens. */
  function Counting(n: nat): seq<Token>
    requires n <= 256
  {
    if n == 0 then [] else Counting(n - 1) + [[(n - 1) as byte]]
  }

  /** `n` documents of one token each. */
  function Short(n: nat): Docs
    requires n < 256
  {
    if n == 0 then map[] else Short(n - 1)[Numbered(n) := Counting(1)]
  }

  lemma {:induction false} CountingDistinct(n: nat)
    requires n <= 256
    ensures |Counting(n)| == n && Distinct(Counting(n))
    ensures forall t | t in Counting(n) :: |t| == 1 && t[0] as int < n
  {
    if n > 0 {
      CountingDistinct(n - 1);
      var doc, t := Counting(n - 1), [(n - 1) as byte];
      assert multiset(Counting(n)) == multiset(doc) + multiset{t};
      assert t !in doc;
    }
  }

  lemma {:induction false} ShortTotals(n: nat)
    requires n < 256
    ensures |Short(n)| == n && TotalLength(Short(n)) == n
    ensures forall m | n < m < 256 :: Numbered(m) !in Short(n)
    ensures Numbered(0) !in Short(n)
  {
    if n > 0 {
      ShortTotals(n - 1);
      CountingDistinct(1);
      ManyIds();
      forall m: nat | m < 256 && m != n ensures Numbered(m) != Numbered(n) {
        NumberedDistinct(m, n);
      }
      LengthWith(Short(n - 1), Numbered(n), Counting(1));
    }
  }

  /** Among `n` one-word contexts a context of `k` different words does not clear the default gate even
      against itself, once it is long enough: 15 words among 29 contexts already are. */
  lemma LongContextMissesGate(ln: real -> real, n: nat, k: nat) returns (docs: Docs, id: EntryId)
    requires LogLike(ln) && 0 < k <= 256 && n < 256 && 3 * k * (n + 1) > 29 * (n + k)
    ensures |docs| == n + 1 && id in docs && |docs[id]| == k
    ensures Score(ln, docs, id, Terms(docs[id])) < 0.1
  {
    id := Numbered(0);
    docs := Short(n)[id := Counting(k)];
    LongAmongShort(n, k);
    SelfClearsGate(ln, docs, id);
  }

  lemma LongAmongShort(n: nat, k: nat)
    requires 0 < k <= 256 && n < 256
    ensures var docs := Short(n)[Numbered(0) := Counting(k)];
            |docs| == n + 1 && TotalLength(docs) == n + k && |Counting(k)| == k && Distinct(Counting(k))
  {
    ShortTotals(n);
    CountingDistinct(k);
    LengthWith(Short(n), Numbered(0), Counting(k));
  }
}
