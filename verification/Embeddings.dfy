/**
 Unit-length embeddings and their dot product, in exact arithmetic.
 */
module Embeddings {
  import opened Common

  function Dot(u: seq<real>, v: seq<real>): real
    requires |u| == |v|
  {
    if u == [] then 0.0 else Dot(u[..|u| - 1], v[..|u| - 1]) + u[|u| - 1] * v[|u| - 1]
  }

  ghost predicate IsUnit(v: seq<real>) {
    v != [] && Dot(v, v) == 1.0
  }

  /** What `Embedding::new` lets through. */
  type Embedding = v: seq<real> | IsUnit(v) ghost witness UnitWitness()

  ghost function UnitWitness(): (v: seq<real>)
    ensures IsUnit(v)
  {
    assert Dot([1.0], [1.0]) == Dot([], []) + 1.0 * 1.0;
    [1.0]
  }

  datatype EmbeddingError = EmptyEmbedding | NonFiniteEmbedding | ZeroEmbedding | DimMismatch(got: nat, want: nat)

  /** A raw component: a number, or an infinity or NaN. */
  datatype Float = Finite(value: real) | NonFinite

  /** The largest finite `f32`; a larger sum of squares overflows to infinity. */
  const F32_MAX := 340282346638528859811704183484516925440.0

  predicate AllFinite(raw: seq<Float>) {
    forall i | 0 <= i < |raw| :: raw[i].Finite?
  }

  function Values(raw: seq<Float>): seq<real>
    requires AllFinite(raw)
  {
    seq(|raw|, i requires 0 <= i < |raw| => raw[i].value)
  }

  function Rejection(raw: seq<Float>): Option<EmbeddingError> {
    if raw == [] then Some(EmptyEmbedding)
    else if !AllFinite(raw) || Dot(Values(raw), Values(raw)) > F32_MAX then Some(NonFiniteEmbedding)
    else if Dot(Values(raw), Values(raw)) == 0.0 then Some(ZeroEmbedding)
    else None
  }

  /** Which raw vectors become embeddings, and which error the others get. */
  lemma RejectionMeans(raw: seq<Float>)
    ensures Rejection(raw) == Some(EmptyEmbedding) <==> |raw| == 0
    ensures (exists i :: 0 <= i < |raw| && raw[i] == NonFinite) ==> Rejection(raw) == Some(NonFiniteEmbedding)
    ensures raw != [] && AllFinite(raw) ==>
              var total := Dot(Values(raw), Values(raw));
              && (Rejection(raw) == None <==> 0.0 < total <= 16777215.0 * 20282409603651670423947251286016.0)
              && (Rejection(raw) == Some(ZeroEmbedding) <==> total == 0.0)
  {
    if AllFinite(raw) {
      DotNonNegative(Values(raw));
    }
  }

  function Scaled(v: seq<real>, norm: real): seq<real>
    requires norm != 0.0
  {
    seq(|v|, i requires 0 <= i < |v| => v[i] / norm)
  }

  lemma {:induction false} DotScaled(v: seq<real>, norm: real)
    requires norm != 0.0
    ensures norm * norm != 0.0
    ensures Dot(Scaled(v, norm), Scaled(v, norm)) == Dot(v, v) / (norm * norm)
  {
    SquareZero(norm);
    if v != [] {
      var last := |v| - 1;
      DotScaled(v[..last], norm);
      assert Scaled(v, norm)[..last] == Scaled(v[..last], norm);
      assert Scaled(v, norm)[last] == v[last] / norm;
      QuotientSum(Dot(v[..last], v[..last]), v[last], norm);
    }
  }

  lemma Quotient(a: real, b: real, n: real)
    requires n != 0.0 && a * n == b
    ensures a == b / n
  {
  }

  lemma SquareZero(x: real)
    ensures x * x >= 0.0
    ensures x * x == 0.0 <==> x == 0.0
  {
    if x != 0.0 {
      assert x * x / x == x;
    }
  }

  lemma QuotientSum(a: real, x: real, norm: real)
    requires norm != 0.0
    ensures norm * norm != 0.0
    ensures a / (norm * norm) + (x / norm) * (x / norm) == (a + x * x) / (norm * norm)
  {
    SquareZero(norm);
    var y, n := x / norm, norm * norm;
    assert y * norm == x;
    assert y * y * n == (y * norm) * (y * norm);
    var b := a / n;
    assert b * n == a;
    assert (b + y * y) * n == b * n + y * y * n;
    Quotient(b + y * y, a + x * x, n);
  }

  lemma {:induction false} DotNonNegative(v: seq<real>)
    ensures Dot(v, v) >= 0.0
  {
    if v != [] {
      SquareZero(v[|v| - 1]);
      DotNonNegative(v[..|v| - 1]);
    }
  }

  lemma Normalized(v: seq<real>, norm: real)
    requires v != [] && norm != 0.0 && norm * norm == Dot(v, v)
    ensures IsUnit(Scaled(v, norm))
  {
    DotScaled(v, norm);
    SquareZero(norm);
    Quotient(1.0, Dot(v, v), norm * norm);
  }

  ghost predicate SqrtLike(sqrt: real -> real) {
    forall x | x >= 0.0 :: sqrt(x) >= 0.0 && sqrt(x) * sqrt(x) == x
  }

  /** Normalizes a raw vector in place, or says why it cannot be one. */
  method New(values: array<Float>, sqrt: real -> real) returns (r: Option<EmbeddingError>)
    requires SqrtLike(sqrt)
    modifies values
    ensures r == Rejection(old(values[..]))
    ensures r.Some? ==> values[..] == old(values[..])
    ensures r.None? ==> AllFinite(values[..]) && IsUnit(Values(values[..]))
    ensures r.None? ==> exists norm: real :: norm > 0.0 && Values(values[..]) == Scaled(Values(old(values[..])), norm)
  {
    if values.Length == 0 {
      return Some(EmptyEmbedding);
    }
    var i := 0;
    while i < values.Length
      invariant 0 <= i <= values.Length && forall k | 0 <= k < i :: values[k].Finite?
    {
      if values[i].NonFinite? {
        assert !AllFinite(values[..]);
        return Some(NonFiniteEmbedding);
      }
      i := i + 1;
    }
    ghost var raw := Values(values[..]);
    var total := SumOfSquares(values);
    if total > F32_MAX {
      return Some(NonFiniteEmbedding);
    }
    DotNonNegative(raw);
    var norm := sqrt(total);
    assert norm >= 0.0 && norm * norm == Dot(raw, raw);
    SquareZero(norm);
    if norm == 0.0 {
      return Some(ZeroEmbedding);
    }
    Normalized(raw, norm);
    Divide(values, norm);
    return None;
  }

  method SumOfSquares(values: array<Float>) returns (total: real)
    requires AllFinite(values[..])
    ensures total == Dot(Values(values[..]), Values(values[..]))
  {
    ghost var raw := Values(values[..]);
    total := 0.0;
    var i := 0;
    while i < values.Length
      invariant 0 <= i <= values.Length && total == Dot(raw[..i], raw[..i])
    {
      assert raw[..i + 1][..i] == raw[..i];
      assert values[i] == values[..][i];
      total := total + values[i].value * values[i].value;
      i := i + 1;
    }
    assert raw[..i] == raw;
  }

  method Divide(values: array<Float>, norm: real)
    requires AllFinite(values[..]) && norm != 0.0
    modifies values
    ensures AllFinite(values[..]) && Values(values[..]) == Scaled(Values(old(values[..])), norm)
  {
    ghost var was := values[..];
    var i := 0;
    while i < values.Length
      invariant 0 <= i <= values.Length
      invariant forall k | 0 <= k < i :: values[k] == Finite(was[k].value / norm)
      invariant forall k | i <= k < values.Length :: values[k] == was[k]
    {
      assert was[i].Finite?;
      values[i] := Finite(values[i].value / norm);
      i := i + 1;
    }
    assert Values(values[..]) == Scaled(Values(was), norm);
  }

  method DotProduct(u: Embedding, v: Embedding) returns (r: Result<real, EmbeddingError>)
    ensures r == if |u| == |v| then Ok(Dot(u, v)) else Err(DimMismatch(|v|, |u|))
  {
    if |u| != |v| {
      return Err(DimMismatch(|v|, |u|));
    }
    var total, i := 0.0, 0;
    while i < |u|
      invariant 0 <= i <= |u| && total == Dot(u[..i], v[..i])
    {
      assert u[..i + 1][..i] == u[..i] && v[..i + 1][..i] == v[..i];
      total := total + u[i] * v[i];
      i := i + 1;
    }
    assert u[..i] == u && v[..i] == v;
    return Ok(total);
  }

  function Difference(u: seq<real>, v: seq<real>): seq<real>
    requires |u| == |v|
  {
    seq(|u|, i requires 0 <= i < |u| => u[i] - v[i])
  }

  lemma {:induction false} DotDifference(u: seq<real>, v: seq<real>)
    requires |u| == |v|
    ensures Dot(Difference(u, v), Difference(u, v)) == Dot(u, u) - 2.0 * Dot(u, v) + Dot(v, v)
  {
    if u != [] {
      var last := |u| - 1;
      DotDifference(u[..last], v[..last]);
      assert Difference(u, v)[..last] == Difference(u[..last], v[..last]);
      Square(u[last], v[last]);
    }
  }

  lemma Square(a: real, b: real)
    ensures (a - b) * (a - b) == a * a - 2.0 * (a * b) + b * b
  {
  }

  lemma {:induction false} ZeroDot(v: seq<real>, i: nat)
    requires Dot(v, v) == 0.0 && i < |v|
    ensures v[i] == 0.0
  {
    var last := |v| - 1;
    DotNonNegative(v[..last]);
    SquareZero(v[last]);
    if i < last {
      ZeroDot(v[..last], i);
    }
  }

  /** Cosine of unit vectors is at most 1, and is 1 exactly for equal vectors. */
  lemma UnitDot(u: Embedding, v: Embedding)
    requires |u| == |v|
    ensures Dot(u, v) <= 1.0
    ensures Dot(u, v) == 1.0 <==> u == v
  {
    DotDifference(u, v);
    DotNonNegative(Difference(u, v));
    if Dot(u, v) == 1.0 {
      forall i | 0 <= i < |u| ensures u[i] == v[i] {
        ZeroDot(Difference(u, v), i);
      }
    }
  }
}
