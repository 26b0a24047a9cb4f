/**
 Sums over finite sets, independent of the order in which a hash map or hash set is walked.
 */
module Sums {
  ghost function Sum<T(!new)>(s: set<T>, f: T -> real): real
    decreases |s|
  {
    if s == {} then 0.0
    else
      var x :| x in s;
      f(x) + Sum(s - {x}, f)
  }

  lemma {:induction false} SumPick<T(!new)>(s: set<T>, x: T, f: T -> real)
    requires x in s
    ensures Sum(s, f) == f(x) + Sum(s - {x}, f)
    decreases |s|
  {
    var y :| y in s && Sum(s, f) == f(y) + Sum(s - {y}, f);
    if y != x {
      SumPick(s - {y}, x, f);
      SumPick(s - {x}, y, f);
      assert s - {y} - {x} == s - {x} - {y};
    }
  }

  lemma {:induction false} SumLess<T(!new)>(s: set<T>, f: T -> real, g: T -> real)
    requires forall x | x in s :: f(x) < g(x)
    ensures if s == {} then Sum(s, f) == Sum(s, g) else Sum(s, f) < Sum(s, g)
    decreases |s|
  {
    if s != {} {
      var x :| x in s;
      SumPick(s, x, f);
      SumPick(s, x, g);
      SumLess(s - {x}, f, g);
    }
  }

  ghost function Compose<T(!new)>(g: real -> real, f: T -> real): T -> real {
    x => g(f(x))
  }

  ghost function Times(k: real): real -> real {
    a => k * a
  }

  lemma {:induction false} SumNonNegative<T(!new)>(s: set<T>, f: T -> real)
    requires forall x | x in s :: f(x) >= 0.0
    ensures Sum(s, f) >= 0.0
    ensures Sum(s, f) > 0.0 <==> exists x :: x in s && f(x) > 0.0
    decreases |s|
  {
    if s != {} {
      var x :| x in s;
      SumPick(s, x, f);
      SumNonNegative(s - {x}, f);
      if y :| y in s && f(y) > 0.0 {
        assert y == x || y in s - {x};
      }
    }
  }

  ghost function Count<T(!new)>(s: set<T>, f: T -> nat): nat
    decreases |s|
  {
    if s == {} then 0
    else
      var x :| x in s;
      f(x) + Count(s - {x}, f)
  }

  lemma {:induction false} CountPick<T(!new)>(s: set<T>, x: T, f: T -> nat)
    requires x in s
    ensures Count(s, f) == f(x) + Count(s - {x}, f)
    decreases |s|
  {
    var y :| y in s && Count(s, f) == f(y) + Count(s - {y}, f);
    if y != x {
      CountPick(s - {y}, x, f);
      CountPick(s - {x}, y, f);
      assert s - {y} - {x} == s - {x} - {y};
    }
  }

  lemma {:induction false} CountSame<T(!new)>(s: set<T>, f: T -> nat, g: T -> nat)
    requires forall x | x in s :: f(x) == g(x)
    ensures Count(s, f) == Count(s, g)
    decreases |s|
  {
    if s != {} {
      var x :| x in s;
      CountPick(s, x, f);
      CountPick(s, x, g);
      CountSame(s - {x}, f, g);
    }
  }

  /** If every `f(x)` is at least the share `q` of `g(x)`, so is the sum. */
  lemma SumShare<T(!new)>(s: set<T>, q: real, f: T -> real, g: T -> real)
    requires forall x | x in s :: f(x) >= Compose(Times(q), g)(x)
    ensures Sum(s, f) >= q * Sum(s, g)
    ensures (forall x | x in s :: f(x) == Compose(Times(q), g)(x)) ==> Sum(s, f) == q * Sum(s, g)
  {
  }
}
