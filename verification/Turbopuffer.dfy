/**
 The remote vector store: translating the filter, and fusing the two legs of a hybrid query.
 */
module Turbopuffer {
  import opened Common
  import opened Identity
  import opened Hex
  import opened VectorStore
  import opened Scoring

  // ------------------------------------------------------------------ the filter tree

  datatype Attribute = Keys | Entities

  datatype Cond = Contains(attribute: Attribute, value: Text) | And(conds: seq<Cond>) | Or(conds: seq<Cond>)

  function Attributes(e: VectorEntry, a: Attribute): set<Text> {
    match a
    case Keys => e.keys
    case Entities => e.entities
  }

  /** What the remote store means by a filter. */
  predicate Eval(c: Cond, e: VectorEntry) {
    match c
    case Contains(a, value) => value in Attributes(e, a)
    case And(conds) => forall i | 0 <= i < |conds| :: Eval(conds[i], e)
    case Or(conds) => exists i :: 0 <= i < |conds| && Eval(conds[i], e)
  }

  predicate Passes(filter: Option<Cond>, e: VectorEntry) {
    filter.Some? ==> Eval(filter.value, e)
  }

  predicate Atoms(conds: seq<Cond>, a: Attribute, values: set<Text>) {
    && (forall c | c in conds :: c.Contains? && c.attribute == a && c.value in values)
    && (forall v | v in values :: Contains(a, v) in conds)
  }

  method Clauses(a: Attribute, values: set<Text>) returns (conds: seq<Cond>)
    ensures Atoms(conds, a, values)
  {
    conds := [];
    var rest := values;
    while rest != {}
      invariant rest <= values && Atoms(conds, a, values - rest)
      decreases rest
    {
      var v: Text :| v in rest;
      conds := conds + [Contains(a, v)];
      rest := rest - {v};
    }
    assert values - rest == values;
  }

  lemma AllAtoms(conds: seq<Cond>, a: Attribute, values: set<Text>, e: VectorEntry)
    requires Atoms(conds, a, values)
    ensures Eval(And(conds), e) <==> values <= Attributes(e, a)
    ensures Eval(Or(conds), e) <==> values * Attributes(e, a) != {}
  {
    if values <= Attributes(e, a) {
      forall i | 0 <= i < |conds| ensures Eval(conds[i], e) {
        assert conds[i] in conds;
      }
    }
    forall v | v in values ensures exists i :: 0 <= i < |conds| && conds[i] == Contains(a, v) {
      assert Contains(a, v) in conds;
    }
    if v :| v in values * Attributes(e, a) {
      var i :| 0 <= i < |conds| && conds[i] == Contains(a, v);
      assert Eval(conds[i], e);
    }
    if i :| 0 <= i < |conds| && Eval(conds[i], e) {
      assert conds[i] in conds && conds[i].value in values * Attributes(e, a);
    }
    if Eval(And(conds), e) {
      forall v | v in values ensures v in Attributes(e, a) {
        var i :| 0 <= i < |conds| && conds[i] == Contains(a, v);
        assert Eval(conds[i], e);
      }
    }
  }

  /** The translated filter keeps exactly the entries the in-memory filter keeps. */
  method FilterToTp(filter: Filter) returns (r: Option<Cond>)
    ensures forall e :: Passes(r, e) <==> Keep(filter, e)
  {
    var clauses: seq<Cond> := [];
    if filter.keysAll != {} {
      var conds := Clauses(Keys, filter.keysAll);
      clauses := clauses + [And(conds)];
      forall e ensures Eval(And(conds), e) <==> filter.keysAll <= e.keys {
        AllAtoms(conds, Keys, filter.keysAll, e);
      }
    }
    if filter.entitiesAny != {} {
      var conds := Clauses(Entities, filter.entitiesAny);
      clauses := clauses + [Or(conds)];
      forall e ensures Eval(Or(conds), e) <==> filter.entitiesAny * e.entities != {} {
        AllAtoms(conds, Entities, filter.entitiesAny, e);
      }
    }
    if clauses == [] {
      r := None;
    } else if |clauses| == 1 {
      r := Some(clauses[0]);
    } else {
      r := Some(And(clauses));
      assert |clauses| == 2;
      forall e ensures Eval(r.value, e) <==> Eval(clauses[0], e) && Eval(clauses[1], e) {
      }
    }
  }

  // ------------------------------------------------------------------ rows

  const SATURATION := 5.0

  /** A distance or a score; the one value whose squashing divides by zero is left out. */
  type Dist = d: real | d != -SATURATION

  function Squash(score: Dist): real {
    score / (score + SATURATION)
  }

  datatype QueryRow = QueryRow(id: Bytes, dist: Dist, entities: seq<Text>, context: Option<Text>)

  datatype ParsedRow = ParsedRow(id: EntryId, dist: Dist, entities: set<Text>, context: Option<Text>)

  datatype RowError = BadId(hex: Bytes) | EmptyContext

  /** Normalization of an entity and trimming of a context; None for a blank one. */
  datatype Cleaner = Cleaner(normalize: Text -> Option<Text>, trim: Text -> Option<Text>)

  function Cleaned(cl: Cleaner, entities: seq<Text>): set<Text> {
    set e | e in entities && cl.normalize(e).Some? :: cl.normalize(e).value
  }

  function Row(cl: Cleaner, row: QueryRow): Result<ParsedRow, RowError> {
    match Parsed(row.id)
    case None => Err(BadId(row.id))
    case Some(id) =>
      match row.context
      case None => Ok(ParsedRow(id, row.dist, Cleaned(cl, row.entities), None))
      case Some(text) =>
        if cl.trim(text).None? then Err(EmptyContext)
        else Ok(ParsedRow(id, row.dist, Cleaned(cl, row.entities), cl.trim(text)))
  }

  method ParseRow(cl: Cleaner, row: QueryRow) returns (r: Result<ParsedRow, RowError>)
    ensures r == Row(cl, row)
  {
    var id := FromHex(row.id);
    if id.None? {
      return Err(BadId(row.id));
    }
    var context := None;
    if row.context.Some? {
      context := cl.trim(row.context.value);
      if context.None? {
        return Err(EmptyContext);
      }
    }
    return Ok(ParsedRow(id.value, row.dist, Cleaned(cl, row.entities), context));
  }

  /** All rows of a leg, or the error of the first bad one. */
  function Rows(cl: Cleaner, rows: seq<QueryRow>): Result<seq<ParsedRow>, RowError> {
    if rows == [] then Ok([])
    else
      match Rows(cl, rows[..|rows| - 1])
      case Err(error) => Err(error)
      case Ok(front) =>
        match Row(cl, rows[|rows| - 1])
        case Err(error) => Err(error)
        case Ok(last) => Ok(front + [last])
  }

  lemma {:induction false} FirstErrorWins(cl: Cleaner, rows: seq<QueryRow>, i: nat)
    requires i <= |rows| && Rows(cl, rows[..i]).Err?
    ensures Rows(cl, rows) == Rows(cl, rows[..i])
  {
    if i < |rows| {
      assert rows[..|rows| - 1][..i] == rows[..i];
      FirstErrorWins(cl, rows[..|rows| - 1], i);
    } else {
      assert rows[..i] == rows;
    }
  }

  lemma NextRow(cl: Cleaner, rows: seq<QueryRow>, i: nat)
    requires i < |rows| && Rows(cl, rows[..i]).Ok?
    ensures match Row(cl, rows[i])
            case Err(error) => Rows(cl, rows) == Err(error)
            case Ok(row) => Rows(cl, rows[..i + 1]) == Ok(Rows(cl, rows[..i]).value + [row])
  {
    assert rows[..i + 1][..i] == rows[..i];
    if Row(cl, rows[i]).Err? {
      FirstErrorWins(cl, rows, i + 1);
    }
  }

  // ------------------------------------------------------------------ what fusion computes

  /** Ids in order of first occurrence. */
  function Order(rows: seq<ParsedRow>): seq<EntryId> {
    if rows == [] then []
    else
      var front, id := Order(rows[..|rows| - 1]), rows[|rows| - 1].id;
      if id in front then front else front + [id]
  }

  function Last(rows: seq<ParsedRow>, id: EntryId): Option<ParsedRow> {
    if rows == [] then None
    else if rows[|rows| - 1].id == id then Some(rows[|rows| - 1])
    else Last(rows[..|rows| - 1], id)
  }

  function First(rows: seq<ParsedRow>, id: EntryId): Option<ParsedRow> {
    if rows == [] then None
    else if rows[0].id == id then Some(rows[0])
    else First(rows[1..], id)
  }

  function SparseIn(bm25: seq<ParsedRow>, id: EntryId): real {
    match Last(bm25, id)
    case Some(row) => Squash(row.dist)
    case None => 0.0
  }

  predicate Mentions(rows: seq<ParsedRow>, id: EntryId) {
    exists i :: 0 <= i < |rows| && rows[i].id == id
  }

  lemma {:induction false} Occurrences(rows: seq<ParsedRow>, id: EntryId)
    ensures Last(rows, id).Some? <==> Mentions(rows, id)
    ensures First(rows, id).Some? <==> Mentions(rows, id)
    ensures id in Order(rows) <==> Mentions(rows, id)
    ensures Last(rows, id).Some? ==> Last(rows, id).value.id == id
  {
    if rows != [] {
      var front, rest := rows[..|rows| - 1], rows[1..];
      Occurrences(front, id);
      Occurrences(rest, id);
      assert rows == front + [rows[|rows| - 1]] == [rows[0]] + rest;
    }
  }

  /** The hit of an id: everything but the sparse score comes from its last dense row, or, when there is
      none, from its first BM25 row with a dense score of 0. */
  function Fused(ann: seq<ParsedRow>, bm25: seq<ParsedRow>, id: EntryId): ScoredHit {
    match (Last(ann, id), First(bm25, id))
    case (Some(row), _) => ScoredHit(id, 1.0 - row.dist, SparseIn(bm25, id), row.entities, row.context)
    case (None, Some(row)) => ScoredHit(id, 0.0, SparseIn(bm25, id), row.entities, row.context)
    case (None, None) => ScoredHit(id, 0.0, 0.0, {}, None)
  }

  function FusedHits(ann: seq<ParsedRow>, bm25: seq<ParsedRow>, ids: seq<EntryId>): seq<ScoredHit> {
    seq(|ids|, k requires 0 <= k < |ids| => Fused(ann, bm25, ids[k]))
  }

  function Leg(results: seq<seq<QueryRow>>, k: nat): seq<QueryRow> {
    if k < |results| then results[k] else []
  }

  function Fusion(ann: seq<ParsedRow>, bm25: seq<ParsedRow>): seq<ScoredHit> {
    FusedHits(ann, bm25, Order(ann + bm25))
  }

  /** The dense leg alone, with sparse scores looked up in the BM25 leg. */
  function DenseLeg(ann: seq<ParsedRow>, bm25: seq<ParsedRow>): seq<ScoredHit> {
    FusedHits(ann, bm25, Order(ann))
  }

  // ------------------------------------------------------------------ fusing the legs

  ghost predicate Indexes(ann: seq<ParsedRow>, bm25: seq<ParsedRow>, order: seq<EntryId>, hits: map<EntryId, ScoredHit>) {
    && order == Order(ann + bm25)
    && (forall id :: id in hits <==> id in order)
    && (forall id | id in hits :: hits[id] == Fused(ann, bm25, id))
  }

  lemma OrderStep(rows: seq<ParsedRow>, row: ParsedRow)
    ensures Order(rows + [row]) == if row.id in Order(rows) then Order(rows) else Order(rows) + [row.id]
  {
  }

  lemma LastStep(rows: seq<ParsedRow>, row: ParsedRow, id: EntryId)
    ensures Last(rows + [row], id) == if row.id == id then Some(row) else Last(rows, id)
  {
  }

  lemma {:induction false} FirstStep(rows: seq<ParsedRow>, row: ParsedRow, id: EntryId)
    ensures First(rows + [row], id) ==
            if First(rows, id).Some? then First(rows, id) else if row.id == id then Some(row) else None
  {
    if rows != [] {
      FirstStep(rows[1..], row, id);
      assert (rows + [row])[1..] == rows[1..] + [row];
    }
  }

  lemma AnnStep(ann: seq<ParsedRow>, row: ParsedRow, order: seq<EntryId>, hits: map<EntryId, ScoredHit>)
    requires Indexes(ann, [], order, hits)
    ensures Indexes(ann + [row], [], if row.id in hits then order else order + [row.id],
              hits[row.id := ScoredHit(row.id, 1.0 - row.dist, 0.0, row.entities, row.context)])
  {
    assert ann + [] == ann && ann + [row] + [] == ann + [row];
    OrderStep(ann, row);
    forall id ensures Last(ann + [row], id) == if row.id == id then Some(row) else Last(ann, id) {
      LastStep(ann, row, id);
    }
  }

  lemma Bm25Step(ann: seq<ParsedRow>, bm25: seq<ParsedRow>, row: ParsedRow, order: seq<EntryId>,
                 hits: map<EntryId, ScoredHit>)
    requires Indexes(ann, bm25, order, hits)
    ensures Indexes(ann, bm25 + [row], if row.id in hits then order else order + [row.id],
              hits[row.id := if row.id in hits then hits[row.id].(sparse := Squash(row.dist))
                             else ScoredHit(row.id, 0.0, Squash(row.dist), row.entities, row.context)])
  {
    assert ann + (bm25 + [row]) == ann + bm25 + [row];
    OrderStep(ann + bm25, row);
    forall id ensures Fused(ann, bm25 + [row], id) ==
                      if id != row.id then Fused(ann, bm25, id)
                      else if id in hits then Fused(ann, bm25, id).(sparse := Squash(row.dist))
                      else ScoredHit(id, 0.0, Squash(row.dist), row.entities, row.context)
    {
      LastStep(bm25, row, id);
      FirstStep(bm25, row, id);
      Occurrences(ann + bm25, id);
      Occurrences(ann, id);
      Occurrences(bm25, id);
      MentionsConcat(ann, bm25, id);
    }
  }

  lemma MentionsConcat(a: seq<ParsedRow>, b: seq<ParsedRow>, id: EntryId)
    ensures Mentions(a + b, id) <==> Mentions(a, id) || Mentions(b, id)
  {
    if i :| 0 <= i < |a| && a[i].id == id {
      assert (a + b)[i].id == id;
    }
    if i :| 0 <= i < |b| && b[i].id == id {
      assert (a + b)[|a| + i].id == id;
    }
  }

  /** Both legs or the error of the first bad row, dense rows first. */
  function Both(cl: Cleaner, results: seq<seq<QueryRow>>): Result<(seq<ParsedRow>, seq<ParsedRow>), RowError> {
    match Rows(cl, Leg(results, 0))
    case Err(error) => Err(error)
    case Ok(ann) =>
      match Rows(cl, Leg(results, 1))
      case Err(error) => Err(error)
      case Ok(bm25) => Ok((ann, bm25))
  }

  method FuseMultiQuery(cl: Cleaner, results: seq<seq<QueryRow>>) returns (r: Result<seq<ScoredHit>, RowError>)
    ensures match Both(cl, results)
            case Err(error) => r == Err(error)
            case Ok((ann, bm25)) => r == Ok(Fusion(ann, bm25))
  {
    var annRows, bm25Rows := Leg(results, 0), Leg(results, 1);
    var hits: map<EntryId, ScoredHit> := map[];
    var order: seq<EntryId> := [];
    ghost var ann: seq<ParsedRow> := [];
    var i := 0;
    while i < |annRows|
      invariant 0 <= i <= |annRows|
      invariant Rows(cl, annRows[..i]) == Ok(ann) && Indexes(ann, [], order, hits)
    {
      NextRow(cl, annRows, i);
      var parsed := ParseRow(cl, annRows[i]);
      if parsed.Err? {
        return Err(parsed.error);
      }
      var row := parsed.value;
      AnnStep(ann, row, order, hits);
      if row.id !in hits {
        order := order + [row.id];
      }
      hits := hits[row.id := ScoredHit(row.id, 1.0 - row.dist, 0.0, row.entities, row.context)];
      ann, i := ann + [row], i + 1;
    }
    assert annRows[..i] == annRows;
    ghost var bm25: seq<ParsedRow> := [];
    i := 0;
    while i < |bm25Rows|
      invariant 0 <= i <= |bm25Rows|
      invariant Rows(cl, bm25Rows[..i]) == Ok(bm25) && Indexes(ann, bm25, order, hits)
    {
      NextRow(cl, bm25Rows, i);
      var parsed := ParseRow(cl, bm25Rows[i]);
      if parsed.Err? {
        return Err(parsed.error);
      }
      var row := parsed.value;
      Bm25Step(ann, bm25, row, order, hits);
      if row.id in hits {
        hits := hits[row.id := hits[row.id].(sparse := Squash(row.dist))];
      } else {
        order := order + [row.id];
        hits := hits[row.id := ScoredHit(row.id, 0.0, Squash(row.dist), row.entities, row.context)];
      }
      bm25, i := bm25 + [row], i + 1;
    }
    assert bm25Rows[..i] == bm25Rows;
    var fused := Drain(ann, bm25, order, hits);
    return Ok(fused);
  }

  lemma {:induction false} OrderDistinct(rows: seq<ParsedRow>, i: nat, j: nat)
    requires i < j < |Order(rows)|
    ensures Order(rows)[i] != Order(rows)[j]
  {
    var front := Order(rows[..|rows| - 1]);
    if j < |front| {
      OrderDistinct(rows[..|rows| - 1], i, j);
    }
  }

  /** Takes the hits out of the map in order. */
  method Drain(ghost ann: seq<ParsedRow>, ghost bm25: seq<ParsedRow>, order: seq<EntryId>, hits: map<EntryId, ScoredHit>)
      returns (fused: seq<ScoredHit>)
    requires Indexes(ann, bm25, order, hits)
    ensures fused == Fusion(ann, bm25)
  {
    fused := [];
    var rest := hits;
    var i := 0;
    while i < |order|
      invariant 0 <= i <= |order| && fused == Fusion(ann, bm25)[..i]
      invariant forall k | i <= k < |order| :: order[k] in rest && rest[order[k]] == hits[order[k]]
    {
      var id := order[i];
      if id in rest {
        fused := fused + [rest[id]];
        rest := rest - {id};
      }
      forall k | i < k < |order| ensures order[k] != id {
        OrderDistinct(ann + bm25, i, k);
      }
      i := i + 1;
    }
  }

  // ------------------------------------------------------------------ from raw rows to hits

  /** Row `i` is the last row of the leg with this id. */
  predicate LastWith(rows: seq<QueryRow>, i: nat, id: EntryId) {
    && i < |rows| && Parsed(rows[i].id) == Some(id)
    && forall j | i < j < |rows| :: Parsed(rows[j].id) != Some(id)
  }

  predicate FirstWith(rows: seq<QueryRow>, i: nat, id: EntryId) {
    && i < |rows| && Parsed(rows[i].id) == Some(id)
    && forall j | 0 <= j < i :: Parsed(rows[j].id) != Some(id)
  }

  predicate NoneWith(rows: seq<QueryRow>, id: EntryId) {
    forall j | 0 <= j < |rows| :: Parsed(rows[j].id) != Some(id)
  }

  /** The entities of the hit are the normalized ones of the row, its context the trimmed one. */
  ghost predicate Carries(cl: Cleaner, row: QueryRow, hit: ScoredHit) {
    && (forall t :: t in hit.entities <==> exists e :: e in row.entities && cl.normalize(e) == Some(t))
    && (row.context == None ==> hit.context == None)
    && (row.context != None ==> hit.context == cl.trim(row.context.value) && hit.context != None)
  }

  lemma CleanedMeans(cl: Cleaner, entities: seq<Text>, t: Text)
    ensures t in Cleaned(cl, entities) <==> exists e :: e in entities && cl.normalize(e) == Some(t)
  {
  }

  lemma {:induction false} RowsParsed(cl: Cleaner, raw: seq<QueryRow>, rows: seq<ParsedRow>)
    requires Rows(cl, raw) == Ok(rows)
    ensures |rows| == |raw| && forall i | 0 <= i < |raw| :: Row(cl, raw[i]) == Ok(rows[i])
  {
    if raw != [] {
      RowsParsed(cl, raw[..|raw| - 1], rows[..|rows| - 1]);
    }
  }

  lemma RowIds(cl: Cleaner, raw: seq<QueryRow>, rows: seq<ParsedRow>)
    requires Rows(cl, raw) == Ok(rows)
    ensures |rows| == |raw| && forall i | 0 <= i < |raw| :: Parsed(raw[i].id) == Some(rows[i].id)
  {
    RowsParsed(cl, raw, rows);
    forall i | 0 <= i < |raw| ensures Parsed(raw[i].id) == Some(rows[i].id) {
      assert Row(cl, raw[i]) == Ok(rows[i]);
    }
  }

  lemma {:induction false} LastIs(rows: seq<ParsedRow>, id: EntryId) returns (i: nat)
    requires Mentions(rows, id)
    ensures i < |rows| && rows[i].id == id && Last(rows, id) == Some(rows[i])
    ensures forall j | i < j < |rows| :: rows[j].id != id
  {
    i := |rows| - 1;
    if rows[i].id != id {
      assert Mentions(rows[..|rows| - 1], id) by {
        var k :| 0 <= k < |rows| && rows[k].id == id;
        assert rows[..|rows| - 1][k].id == id;
      }
      i := LastIs(rows[..|rows| - 1], id);
    }
  }

  lemma {:induction false} FirstIs(rows: seq<ParsedRow>, id: EntryId) returns (i: nat)
    requires Mentions(rows, id)
    ensures i < |rows| && rows[i].id == id && First(rows, id) == Some(rows[i])
    ensures forall j | 0 <= j < i :: rows[j].id != id
  {
    i := 0;
    if rows[0].id != id {
      assert Mentions(rows[1..], id) by {
        var k :| 0 <= k < |rows| && rows[k].id == id;
        assert rows[1..][k - 1].id == id;
      }
      var j := FirstIs(rows[1..], id);
      i := j + 1;
    }
  }

  lemma LastRaw(cl: Cleaner, raw: seq<QueryRow>, rows: seq<ParsedRow>, id: EntryId) returns (i: nat)
    requires Rows(cl, raw) == Ok(rows) && Mentions(rows, id)
    ensures LastWith(raw, i, id) && Row(cl, raw[i]).Ok? && Last(rows, id) == Some(Row(cl, raw[i]).value)
  {
    RowsParsed(cl, raw, rows);
    RowIds(cl, raw, rows);
    i := LastIs(rows, id);
  }

  lemma FirstRaw(cl: Cleaner, raw: seq<QueryRow>, rows: seq<ParsedRow>, id: EntryId) returns (i: nat)
    requires Rows(cl, raw) == Ok(rows) && Mentions(rows, id)
    ensures FirstWith(raw, i, id) && Row(cl, raw[i]).Ok? && First(rows, id) == Some(Row(cl, raw[i]).value)
  {
    RowsParsed(cl, raw, rows);
    RowIds(cl, raw, rows);
    i := FirstIs(rows, id);
  }

  lemma NoneRaw(cl: Cleaner, raw: seq<QueryRow>, rows: seq<ParsedRow>, id: EntryId)
    requires Rows(cl, raw) == Ok(rows)
    ensures NoneWith(raw, id) <==> !Mentions(rows, id)
  {
    RowIds(cl, raw, rows);
  }

  lemma RowCarries(cl: Cleaner, row: QueryRow, parsed: ParsedRow, hit: ScoredHit)
    requires Row(cl, row) == Ok(parsed) && hit.entities == parsed.entities && hit.context == parsed.context
    ensures Carries(cl, row, hit) && parsed.dist == row.dist
  {
    forall t ensures t in hit.entities <==> exists e :: e in row.entities && cl.normalize(e) == Some(t) {
      CleanedMeans(cl, row.entities, t);
    }
  }

  /** `sparse` is score / (score + 5). */
  predicate IsSquashed(sparse: real, score: real) {
    sparse * (score + 5.0) == score
  }

  lemma SquashMeans(score: Dist)
    ensures IsSquashed(Squash(score), score)
  {
  }

  lemma LastRawIs(cl: Cleaner, raw: seq<QueryRow>, rows: seq<ParsedRow>, id: EntryId, j: nat)
    requires Rows(cl, raw) == Ok(rows) && LastWith(raw, j, id)
    ensures Row(cl, raw[j]).Ok? && Last(rows, id) == Some(Row(cl, raw[j]).value)
  {
    NoneRaw(cl, raw, rows, id);
    var i := LastRaw(cl, raw, rows, id);
    assert i == j;
  }

  /** The sparse score is 0 for an id the BM25 leg does not have, and the squashed score of its last row
      there. */
  ghost predicate SparseFrom(raw: seq<QueryRow>, hit: ScoredHit) {
    && (NoneWith(raw, hit.id) ==> hit.sparse == 0.0)
    && (forall j: nat :: LastWith(raw, j, hit.id) ==> IsSquashed(hit.sparse, raw[j].dist))
  }

  lemma SquashedAt(cl: Cleaner, raw: seq<QueryRow>, bm25: seq<ParsedRow>, id: EntryId, j: nat)
    requires Rows(cl, raw) == Ok(bm25) && LastWith(raw, j, id)
    ensures IsSquashed(SparseIn(bm25, id), raw[j].dist)
  {
    LastRawIs(cl, raw, bm25, id, j);
    SquashMeans(raw[j].dist);
  }

  lemma SparseFromRows(cl: Cleaner, raw: seq<QueryRow>, bm25: seq<ParsedRow>, hit: ScoredHit)
    requires Rows(cl, raw) == Ok(bm25) && hit.sparse == SparseIn(bm25, hit.id)
    ensures SparseFrom(raw, hit)
  {
    NoneRaw(cl, raw, bm25, hit.id);
    Occurrences(bm25, hit.id);
    forall j: nat | LastWith(raw, j, hit.id) ensures IsSquashed(hit.sparse, raw[j].dist) {
      SquashedAt(cl, raw, bm25, hit.id, j);
    }
  }

  /** A hit of the dense leg: from the last row of its id, with one minus its distance. */
  ghost predicate DenseFrom(cl: Cleaner, raw: seq<QueryRow>, hit: ScoredHit) {
    exists i: nat :: LastWith(raw, i, hit.id) && Carries(cl, raw[i], hit) && hit.dense == 1.0 - raw[i].dist
  }

  /** A hit of the BM25 leg alone: from the first row of its id, with a dense score of 0. */
  ghost predicate TailFrom(cl: Cleaner, raw: seq<QueryRow>, hit: ScoredHit) {
    hit.dense == 0.0 && exists i: nat :: FirstWith(raw, i, hit.id) && Carries(cl, raw[i], hit)
  }

  lemma DenseFromRows(cl: Cleaner, raw: seq<QueryRow>, ann: seq<ParsedRow>, bm25: seq<ParsedRow>, hit: ScoredHit)
    requires Rows(cl, raw) == Ok(ann) && Mentions(ann, hit.id) && hit == Fused(ann, bm25, hit.id)
    ensures DenseFrom(cl, raw, hit)
  {
    var i := LastRaw(cl, raw, ann, hit.id);
    RowCarries(cl, raw[i], Row(cl, raw[i]).value, hit);
  }

  lemma TailFromRows(cl: Cleaner, raw: seq<QueryRow>, ann: seq<ParsedRow>, bm25: seq<ParsedRow>, hit: ScoredHit)
    requires Rows(cl, raw) == Ok(bm25) && !Mentions(ann, hit.id) && Mentions(bm25, hit.id) && hit == Fused(ann, bm25, hit.id)
    ensures TailFrom(cl, raw, hit)
  {
    Occurrences(ann, hit.id);
    var i := FirstRaw(cl, raw, bm25, hit.id);
    RowCarries(cl, raw[i], Row(cl, raw[i]).value, hit);
  }

  lemma HitIsFused(ann: seq<ParsedRow>, bm25: seq<ParsedRow>, hit: ScoredHit)
    requires hit in Fusion(ann, bm25)
    ensures hit == Fused(ann, bm25, hit.id) && hit.sparse == SparseIn(bm25, hit.id)
    ensures Mentions(ann, hit.id) || Mentions(bm25, hit.id)
  {
    FusionIds(ann, bm25, hit.id);
    Occurrences(ann, hit.id);
    Occurrences(bm25, hit.id);
  }

  /** Every hit from the rows the store sent: entities, context and dense score from the last dense row of
      its id, or else from the first BM25 row with a dense score of 0; the sparse score from the last BM25
      row. */
  lemma FusionFromRows(cl: Cleaner, results: seq<seq<QueryRow>>, ann: seq<ParsedRow>, bm25: seq<ParsedRow>, hit: ScoredHit)
    requires Both(cl, results) == Ok((ann, bm25)) && hit in Fusion(ann, bm25)
    ensures var dense := if |results| > 0 then results[0] else [];
            var sparse := if |results| > 1 then results[1] else [];
            && (if NoneWith(dense, hit.id) then TailFrom(cl, sparse, hit) else DenseFrom(cl, dense, hit))
            && SparseFrom(sparse, hit)
  {
    HitIsFused(ann, bm25, hit);
    NoneRaw(cl, Leg(results, 0), ann, hit.id);
    SparseFromRows(cl, Leg(results, 1), bm25, hit);
    if Mentions(ann, hit.id) {
      DenseFromRows(cl, Leg(results, 0), ann, bm25, hit);
    } else {
      TailFromRows(cl, Leg(results, 1), ann, bm25, hit);
    }
  }

  /** A row is refused for an unreadable id first, for a blank context second. */
  lemma RowFails(cl: Cleaner, row: QueryRow, error: RowError)
    ensures Row(cl, row) == Err(error) <==>
            || (!Readable(row.id) && error == BadId(row.id))
            || (Readable(row.id) && row.context.Some? && cl.trim(row.context.value) == None && error == EmptyContext)
  {
  }

  ghost predicate FirstBad(cl: Cleaner, raw: seq<QueryRow>, i: nat, error: RowError) {
    i < |raw| && Row(cl, raw[i]) == Err(error) && forall j | 0 <= j < i :: Row(cl, raw[j]).Ok?
  }

  lemma {:induction false} RowsFail(cl: Cleaner, raw: seq<QueryRow>, error: RowError)
    ensures Rows(cl, raw) == Err(error) <==> exists i: nat :: FirstBad(cl, raw, i, error)
  {
    if raw != [] {
      var front, n := raw[..|raw| - 1], |raw| - 1;
      RowsFail(cl, front, error);
      forall i: nat | i < n ensures FirstBad(cl, raw, i, error) <==> FirstBad(cl, front, i, error) {
      }
      if Rows(cl, front).Ok? {
        RowsParsed(cl, front, Rows(cl, front).value);
        assert Row(cl, raw[n]) == Err(error) ==> FirstBad(cl, raw, n, error);
      } else {
        RowsFail(cl, front, Rows(cl, front).error);
        var k: nat :| FirstBad(cl, front, k, Rows(cl, front).error);
        assert front[k] == raw[k];
      }
    }
  }

  /** Fusion fails exactly with the error of the first bad row, the dense leg read first. */
  lemma FusionFails(cl: Cleaner, results: seq<seq<QueryRow>>, error: RowError)
    ensures var dense := if |results| > 0 then results[0] else [];
            var sparse := if |results| > 1 then results[1] else [];
            Both(cl, results) == Err(error) <==>
              || (exists i: nat :: FirstBad(cl, dense, i, error))
              || ((forall j | 0 <= j < |dense| :: Row(cl, dense[j]).Ok?) && exists i: nat :: FirstBad(cl, sparse, i, error))
  {
    var dense := Leg(results, 0);
    RowsFail(cl, dense, error);
    RowsFail(cl, Leg(results, 1), error);
    if Rows(cl, dense).Ok? {
      RowsParsed(cl, dense, Rows(cl, dense).value);
    } else {
      RowsFail(cl, dense, Rows(cl, dense).error);
      var k: nat :| FirstBad(cl, dense, k, Rows(cl, dense).error);
    }
  }

  // ------------------------------------------------------------------ fusion agrees with the dense leg

  /** The fused list has no id twice; it is the dense leg in order of first occurrence, then hits that
      only the BM25 leg returned, with a dense score of 0. */
  lemma FusionShape(ann: seq<ParsedRow>, bm25: seq<ParsedRow>)
    ensures Unrepeated(Fusion(ann, bm25))
    ensures |Order(ann)| <= |Order(ann + bm25)| && Fusion(ann, bm25)[..|Order(ann)|] == DenseLeg(ann, bm25)
    ensures forall h | h in Fusion(ann, bm25)[|Order(ann)|..] :: InTail(ann, bm25, h)
  {
    OrderPrefix(ann, bm25);
    FusionUnrepeated(ann, bm25);
    FusionTail(ann, bm25);
  }

  lemma FusionUnrepeated(ann: seq<ParsedRow>, bm25: seq<ParsedRow>)
    ensures Unrepeated(Fusion(ann, bm25))
  {
    var order := Order(ann + bm25);
    forall i, j | 0 <= i < j < |order| ensures order[i] != order[j] {
      OrderDistinct(ann + bm25, i, j);
    }
  }

  lemma FusionTail(ann: seq<ParsedRow>, bm25: seq<ParsedRow>)
    requires |Order(ann)| <= |Order(ann + bm25)|
    ensures forall h | h in Fusion(ann, bm25)[|Order(ann)|..] :: InTail(ann, bm25, h)
  {
    var fused, k := Fusion(ann, bm25), |Order(ann)|;
    forall i | 0 <= i < |fused| - k ensures InTail(ann, bm25, fused[k..][i]) {
      TailIsNew(ann, bm25, k + i);
    }
  }

  predicate InTail(ann: seq<ParsedRow>, bm25: seq<ParsedRow>, h: ScoredHit) {
    h.dense == 0.0 && h.sparse == SparseIn(bm25, h.id) && !Mentions(ann, h.id) && Mentions(bm25, h.id)
  }

  /** No id of either leg is lost and none is made up. */
  lemma FusionIds(ann: seq<ParsedRow>, bm25: seq<ParsedRow>, id: EntryId)
    ensures (exists h :: h in Fusion(ann, bm25) && h.id == id) <==> Mentions(ann, id) || Mentions(bm25, id)
  {
    var order := Order(ann + bm25);
    Occurrences(ann + bm25, id);
    MentionsConcat(ann, bm25, id);
    if id in order {
      var k :| 0 <= k < |order| && order[k] == id;
      assert Fusion(ann, bm25)[k].id == id;
    }
  }

  lemma {:induction false} OrderPrefix(ann: seq<ParsedRow>, bm25: seq<ParsedRow>)
    ensures |Order(ann)| <= |Order(ann + bm25)| && Order(ann + bm25)[..|Order(ann)|] == Order(ann)
  {
    if bm25 == [] {
      assert ann + bm25 == ann;
    } else {
      var front := bm25[..|bm25| - 1];
      OrderPrefix(ann, front);
      assert ann + bm25 == ann + front + [bm25[|bm25| - 1]];
      OrderStep(ann + front, bm25[|bm25| - 1]);
    }
  }

  lemma TailIsNew(ann: seq<ParsedRow>, bm25: seq<ParsedRow>, k: nat)
    requires |Order(ann)| <= k < |Order(ann + bm25)|
    ensures InTail(ann, bm25, Fusion(ann, bm25)[k])
  {
    var id := Order(ann + bm25)[k];
    Occurrences(ann, id);
    Occurrences(bm25, id);
    Occurrences(ann + bm25, id);
    MentionsConcat(ann, bm25, id);
    OrderPrefix(ann, bm25);
    if id in Order(ann) {
      var i :| 0 <= i < |Order(ann)| && Order(ann)[i] == id;
      OrderDistinct(ann + bm25, i, k);
    }
  }

  predicate NonNegative(rows: seq<ParsedRow>) {
    forall row | row in rows :: row.dist >= 0.0
  }

  /** Selecting from the fused list is selecting from the dense leg alone. */
  ghost predicate Agrees(c: Config, context: Option<Text>) {
    forall ann, bm25, entities, r | NonNegative(bm25) ::
      IsSelection(c, entities, context, Fusion(ann, bm25), r) <==>
      IsSelection(c, entities, context, DenseLeg(ann, bm25), r)
  }

  /** A hit with a dense score of 0 can be accepted. */
  predicate AcceptsZero(c: Config, context: Option<Text>) {
    Floor(c, context) == 0.0 && (c.context.Gate? && context.Some? ==> c.contextGate < 1.0)
  }

  lemma RejectedTail(c: Config, entities: set<Text>, context: Option<Text>, hits: seq<ScoredHit>, tail: seq<ScoredHit>,
                     r: Option<ScoredHit>)
    requires forall h | h in tail :: !Accept(c, entities, context, h)
    ensures IsSelection(c, entities, context, hits + tail, r) <==> IsSelection(c, entities, context, hits, r)
  {
    if r.Some? && IsSelection(c, entities, context, hits, r) {
      var i: nat :| IsBestAt(c, entities, context, hits, i, r.value);
      assert IsBestAt(c, entities, context, hits + tail, i, r.value);
    }
    if r.Some? && IsSelection(c, entities, context, hits + tail, r) {
      var i: nat :| IsBestAt(c, entities, context, hits + tail, i, r.value);
      if i >= |hits| {
        assert false;
      }
      assert forall j | 0 <= j < |hits| :: (hits + tail)[j] == hits[j];
      assert IsBestAt(c, entities, context, hits, i, r.value);
    }
  }

  lemma SquashRange(score: Dist)
    requires score >= 0.0
    ensures 0.0 <= Squash(score) < 1.0
  {
    ProperFraction(score, score + SATURATION);
  }

  lemma ProperFraction(a: real, b: real)
    requires 0.0 <= a < b
    ensures 0.0 <= a / b < 1.0
  {
  }

  /** The BM25-only tail never wins unless a dense score of 0 can be accepted. */
  lemma FusionAgrees(c: Config, entities: set<Text>, context: Option<Text>, ann: seq<ParsedRow>, bm25: seq<ParsedRow>,
                     r: Option<ScoredHit>)
    requires Scoring.Valid(c) && NonNegative(bm25) && !AcceptsZero(c, context)
    ensures IsSelection(c, entities, context, Fusion(ann, bm25), r) <==>
            IsSelection(c, entities, context, DenseLeg(ann, bm25), r)
  {
    var tail := TailRejected(c, entities, context, ann, bm25);
    RejectedTail(c, entities, context, DenseLeg(ann, bm25), tail, r);
  }

  lemma TailRejected(c: Config, entities: set<Text>, context: Option<Text>, ann: seq<ParsedRow>, bm25: seq<ParsedRow>)
      returns (tail: seq<ScoredHit>)
    requires Scoring.Valid(c) && NonNegative(bm25) && !AcceptsZero(c, context)
    ensures Fusion(ann, bm25) == DenseLeg(ann, bm25) + tail
    ensures forall h | h in tail :: !Accept(c, entities, context, h)
  {
    FusionShape(ann, bm25);
    tail := Fusion(ann, bm25)[|Order(ann)|..];
    forall h | h in tail ensures !Accept(c, entities, context, h) {
      SparseBelowOne(bm25, h.id);
    }
  }

  lemma {:induction false} SparseBelowOne(bm25: seq<ParsedRow>, id: EntryId)
    requires NonNegative(bm25)
    ensures 0.0 <= SparseIn(bm25, id) < 1.0
  {
    if bm25 != [] {
      var last := bm25[|bm25| - 1];
      SquashRange(last.dist);
      SparseBelowOne(bm25[..|bm25| - 1], id);
    }
  }

  /** Fusion agrees with the dense leg on all inputs exactly when the dense floor that applies is positive,
      or the context gate applies and is 1. */
  lemma FusionAgreesIff(c: Config, context: Option<Text>)
    requires Scoring.Valid(c)
    ensures Agrees(c, context) <==> !AcceptsZero(c, context)
  {
    if !AcceptsZero(c, context) {
      forall ann, bm25, entities, r | NonNegative(bm25)
        ensures IsSelection(c, entities, context, Fusion(ann, bm25), r) <==>
                IsSelection(c, entities, context, DenseLeg(ann, bm25), r)
      {
        FusionAgrees(c, entities, context, ann, bm25, r);
      }
    } else {
      TailWins(c, context);
    }
  }

  /** With a floor of 0 a hit of the BM25 leg alone is selected where the dense leg has none. */
  lemma TailWins(c: Config, context: Option<Text>)
    requires Scoring.Valid(c) && AcceptsZero(c, context)
    ensures !Agrees(c, context)
  {
    var score := if c.contextGate < 1.0 then SATURATION * c.contextGate / (1.0 - c.contextGate) else 0.0;
    assert score >= 0.0 && (c.contextGate < 1.0 ==> Squash(score) >= c.contextGate) by {
      if c.contextGate < 1.0 {
        SquashInverse(c.contextGate);
      }
    }
    var row := ParsedRow(Numbered(0), score, {}, None);
    var hit := ScoredHit(row.id, 0.0, Squash(score), {}, None);
    assert Order([] + [row]) == [row.id];
    assert Fusion([], [row]) == [hit] && DenseLeg([], [row]) == [];
    assert Accept(c, {}, context, hit);
    assert hit in [hit];
    assert IsSelection(c, {}, context, [], None);
    assert !IsSelection(c, {}, context, [hit], None);
    assert NonNegative([row]);
  }

  lemma SquashInverse(gate: real)
    requires 0.0 <= gate < 1.0
    ensures SATURATION * gate / (1.0 - gate) >= 0.0
    ensures Squash(SATURATION * gate / (1.0 - gate)) == gate
  {
    var rest := 1.0 - gate;
    var score := SATURATION * gate / rest;
    assert score * rest == SATURATION * gate;
    assert (score + SATURATION) * gate == score;
  }
}
