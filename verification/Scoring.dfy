/**
 The precision-first decision: hard gates on each candidate, then the best accepted one.
 */
module Scoring {
  import opened Common
  import opened Identity
  import opened VectorStore

  datatype ContextMode = Ignore | Gate

  datatype Config = Config(
    threshold: real, entityFilter: bool, context: ContextMode, contextGate: real, contextThreshold: real, topK: Size)

  const DEFAULT := Config(0.92, true, Gate, 0.10, 0.88, 10)

  // ------------------------------------------------------------------ configuration

  datatype Dto = Dto(
    threshold: real, entityFilter: bool, context: string, contextGate: real, contextThreshold: real, topK: Size)

  datatype ConfigError =
    | ThresholdRange | ContextGateRange | ContextThresholdRange | ContextAboveThreshold | ZeroTopK | UnknownMode

  predicate InUnit(x: real) {
    0.0 <= x <= 1.0
  }

  function ToConfig(d: Dto): Result<Config, ConfigError> {
    if !InUnit(d.threshold) then Err(ThresholdRange)
    else if !InUnit(d.contextGate) then Err(ContextGateRange)
    else if !InUnit(d.contextThreshold) then Err(ContextThresholdRange)
    else if d.contextThreshold > d.threshold then Err(ContextAboveThreshold)
    else if d.topK == 0 then Err(ZeroTopK)
    else if d.context == "ignore" then
      Ok(Config(d.threshold, d.entityFilter, Ignore, d.contextGate, d.contextThreshold, d.topK))
    else if d.context == "gate" then
      Ok(Config(d.threshold, d.entityFilter, Gate, d.contextGate, d.contextThreshold, d.topK))
    else Err(UnknownMode)
  }

  /** What every running configuration satisfies. */
  predicate Valid(c: Config) {
    InUnit(c.threshold) && InUnit(c.contextGate) && 0.0 <= c.contextThreshold <= c.threshold && c.topK > 0
  }

  function ToDto(c: Config): Dto {
    Dto(c.threshold, c.entityFilter, if c.context.Gate? then "gate" else "ignore", c.contextGate, c.contextThreshold,
      c.topK)
  }

  /** The checks let through exactly the descriptions of valid configurations, and change nothing in them. */
  lemma ToConfigInverts(d: Dto, c: Config)
    ensures ToConfig(d) == Ok(c) <==> Valid(c) && d == ToDto(c)
  {
  }

  /** Which checks a description fails, in the order in which they are reported. */
  function Failures(d: Dto): seq<(bool, ConfigError)> {
    [(d.threshold < 0.0 || d.threshold > 1.0, ThresholdRange),
     (d.contextGate < 0.0 || d.contextGate > 1.0, ContextGateRange),
     (d.contextThreshold < 0.0 || d.contextThreshold > 1.0, ContextThresholdRange),
     (d.contextThreshold > d.threshold, ContextAboveThreshold),
     (d.topK == 0, ZeroTopK),
     (d.context != "ignore" && d.context != "gate", UnknownMode)]
  }

  /** A rejected description gets the error of the first check it fails. */
  lemma FirstFailureWins(d: Dto, error: ConfigError)
    ensures ToConfig(d) == Err(error) <==>
            exists i :: 0 <= i < 6 && Failures(d)[i] == (true, error) && forall j | 0 <= j < i :: !Failures(d)[j].0
  {
    var f := Failures(d);
    if ToConfig(d).Err? {
      var i :=
        if f[0].0 then 0 else if f[1].0 then 1 else if f[2].0 then 2
        else if f[3].0 then 3 else if f[4].0 then 4 else 5;
      assert f[i] == (true, ToConfig(d).error) && forall j | 0 <= j < i :: !f[j].0;
    }
  }

  // ------------------------------------------------------------------ accept and select

  function Required(n: nat): nat {
    if n / 3 > 1 then n / 3 else 1
  }

  function Floor(c: Config, context: Option<Text>): real {
    if c.context.Gate? && context.Some? then c.contextThreshold else c.threshold
  }

  predicate Accept(c: Config, entities: set<Text>, context: Option<Text>, hit: ScoredHit) {
    && (entities != {} ==> |entities * hit.entities| >= Required(|entities|))
    && (c.context.Gate? && context.Some? ==> hit.sparse >= c.contextGate)
    && hit.dense >= Floor(c, context)
  }

  /** The first of the accepted hits with the highest dense score, if any is accepted. */
  ghost predicate IsSelection(c: Config, entities: set<Text>, context: Option<Text>, hits: seq<ScoredHit>,
                              r: Option<ScoredHit>) {
    match r
    case None => forall h | h in hits :: !Accept(c, entities, context, h)
    case Some(best) => exists i: nat :: IsBestAt(c, entities, context, hits, i, best)
  }

  ghost predicate IsBestAt(c: Config, entities: set<Text>, context: Option<Text>, hits: seq<ScoredHit>, i: nat,
                           best: ScoredHit) {
    && i < |hits| && hits[i] == best && Accept(c, entities, context, best)
    && (forall h | h in hits && Accept(c, entities, context, h) :: h.dense <= best.dense)
    && (forall j | 0 <= j < i && Accept(c, entities, context, hits[j]) :: hits[j].dense < best.dense)
  }

  lemma SelectNext(c: Config, entities: set<Text>, context: Option<Text>, hits: seq<ScoredHit>, best: Option<ScoredHit>,
                   hit: ScoredHit)
    requires IsSelection(c, entities, context, hits, best)
    ensures var wins := Accept(c, entities, context, hit) && (best.None? || hit.dense > best.value.dense);
            IsSelection(c, entities, context, hits + [hit], if wins then Some(hit) else best)
  {
    var more := hits + [hit];
    assert forall h :: h in more <==> h in hits || h == hit;
    if best.Some? {
      var i: nat :| IsBestAt(c, entities, context, hits, i, best.value);
      if Accept(c, entities, context, hit) && hit.dense > best.value.dense {
        assert forall j | 0 <= j < |hits| :: hits[j] in hits && more[j] == hits[j];
        assert IsBestAt(c, entities, context, more, |hits|, hit);
      } else {
        assert IsBestAt(c, entities, context, more, i, best.value);
      }
    } else if Accept(c, entities, context, hit) {
      assert forall j | 0 <= j < |hits| :: hits[j] in hits && more[j] == hits[j];
      assert IsBestAt(c, entities, context, more, |hits|, hit);
    }
  }

  method Select(c: Config, entities: set<Text>, context: Option<Text>, hits: seq<ScoredHit>)
      returns (best: Option<ScoredHit>)
    ensures IsSelection(c, entities, context, hits, best)
  {
    best := None;
    var i := 0;
    while i < |hits|
      invariant 0 <= i <= |hits| && IsSelection(c, entities, context, hits[..i], best)
    {
      var hit := hits[i];
      assert hits[..i + 1] == hits[..i] + [hit];
      SelectNext(c, entities, context, hits[..i], best, hit);
      if Accept(c, entities, context, hit) {
        if best.None? || hit.dense > best.value.dense {
          best := Some(hit);
        }
      }
      i := i + 1;
    }
    assert hits[..i] == hits;
  }

  lemma {:induction false} SelectionExists(c: Config, entities: set<Text>, context: Option<Text>, hits: seq<ScoredHit>)
      returns (r: Option<ScoredHit>)
    ensures IsSelection(c, entities, context, hits, r)
  {
    r := None;
    if hits != [] {
      var front, last := hits[..|hits| - 1], hits[|hits| - 1];
      assert hits == front + [last];
      r := SelectionExists(c, entities, context, front);
      SelectNext(c, entities, context, front, r, last);
      if Accept(c, entities, context, last) && (r.None? || last.dense > r.value.dense) {
        r := Some(last);
      }
    }
  }

  // ------------------------------------------------------------------ what a selection means

  /** The gates in the caller's terms: at least one and a third of the query's entities, rounded down, are
      shared; a context that applies is matched and then asks for the lower dense score, anything else for
      the full one. */
  predicate Qualifies(c: Config, entities: set<Text>, context: Option<Text>, hit: ScoredHit) {
    && (|entities| > 0 ==> |entities * hit.entities| >= 1 && |entities| < 3 * (|entities * hit.entities| + 1))
    && (c.context == Gate && context != None ==> hit.sparse >= c.contextGate && hit.dense >= c.contextThreshold)
    && (c.context == Ignore || context == None ==> hit.dense >= c.threshold)
  }

  lemma AcceptMeans(c: Config, entities: set<Text>, context: Option<Text>, hit: ScoredHit)
    ensures Accept(c, entities, context, hit) <==> Qualifies(c, entities, context, hit)
  {
    if entities != {} {
      assert |entities| > 0;
    }
  }

  /** Exactly the first of the qualified hits with the highest dense score is selected, and none exactly
      when no hit qualifies. */
  lemma SelectionMeans(c: Config, entities: set<Text>, context: Option<Text>, hits: seq<ScoredHit>, r: Option<ScoredHit>)
    ensures IsSelection(c, entities, context, hits, r) <==>
            match r
            case None => forall h | h in hits :: !Qualifies(c, entities, context, h)
            case Some(best) => exists i: nat :: IsFirstBest(c, entities, context, hits, i, best)
  {
    forall h ensures Accept(c, entities, context, h) <==> Qualifies(c, entities, context, h) {
      AcceptMeans(c, entities, context, h);
    }
    if r.Some? {
      forall i: nat
        ensures IsBestAt(c, entities, context, hits, i, r.value) <==> IsFirstBest(c, entities, context, hits, i, r.value)
      {
        FirstBest(c, entities, context, hits, i, r.value);
      }
    }
  }

  ghost predicate IsFirstBest(c: Config, entities: set<Text>, context: Option<Text>, hits: seq<ScoredHit>, i: nat,
                              best: ScoredHit) {
    && i < |hits| && hits[i] == best && Qualifies(c, entities, context, best)
    && forall j | 0 <= j < |hits| && Qualifies(c, entities, context, hits[j]) ::
         hits[j].dense <= best.dense && (j < i ==> hits[j].dense < best.dense)
  }

  lemma FirstBest(c: Config, entities: set<Text>, context: Option<Text>, hits: seq<ScoredHit>, i: nat, best: ScoredHit)
    requires forall h :: Accept(c, entities, context, h) <==> Qualifies(c, entities, context, h)
    ensures IsBestAt(c, entities, context, hits, i, best) <==> IsFirstBest(c, entities, context, hits, i, best)
  {
    if IsFirstBest(c, entities, context, hits, i, best) {
      forall h | h in hits && Accept(c, entities, context, h) ensures h.dense <= best.dense {
        var j :| 0 <= j < |hits| && hits[j] == h;
      }
    }
  }

  /** The calibrated defaults: 0.92 without a context, 0.10 of context match and then 0.88 with one, ten
      places, entity filter on. */
  lemma DefaultMeans(entities: set<Text>, context: Option<Text>, hit: ScoredHit)
    ensures Valid(DEFAULT) && DEFAULT.entityFilter && DEFAULT.topK == 10
    ensures Accept(DEFAULT, {}, None, hit) <==> hit.dense >= 0.92
    ensures context.Some? ==> (Accept(DEFAULT, {}, context, hit) <==> hit.sparse >= 0.10 && hit.dense >= 0.88)
  {
  }

  /** A hit list and a query have one selection. */
  lemma SelectionUnique(c: Config, entities: set<Text>, context: Option<Text>, hits: seq<ScoredHit>,
                        a: Option<ScoredHit>, b: Option<ScoredHit>)
    requires IsSelection(c, entities, context, hits, a) && IsSelection(c, entities, context, hits, b)
    ensures a == b
  {
  }
}
