/** Sums and products over finite sets, with the comparisons the scores need.
    The order in which Go ranges over a map is arbitrary, so a total accumulated
    that way is specified as a sum over a *set*: `SumRemove` says any element may
    be taken next. */
module Sums {

  ghost function Sum<T>(s: set<T>, f: T -> real): real {
    if s == {} then 0.0 else
    var x :| x in s;
    f(x) + Sum(s - {x}, f)
  }

  /** Any element can be the one taken first. */
  lemma {:induction false} SumRemove<T>(s: set<T>, f: T -> real, x: T)
    requires x in s
    ensures Sum(s, f) == f(x) + Sum(s - {x}, f)
    decreases s
  {
    var y :| y in s && Sum(s, f) == f(y) + Sum(s - {y}, f);
    if y != x {
      SumRemove(s - {y}, f, x);
      SumRemove(s - {x}, f, y);
      assert s - {y} - {x} == s - {x} - {y};
    }
  }

  /** Growing the set or any non-negative term never lowers the sum. */
  lemma {:induction false} SumGrows<T>(s: set<T>, f: T -> real, t: set<T>, g: T -> real)
    requires s <= t
    requires forall x :: x in s ==> f(x) <= g(x)
    requires forall x :: x in t ==> 0.0 <= g(x)
    ensures Sum(s, f) <= Sum(t, g)
    decreases t
  {
    if t != {} {
      var x :| x in t;
      SumRemove(t, g, x);
      if x in s {
        SumRemove(s, f, x);
        SumGrows(s - {x}, f, t - {x}, g);
      } else {
        SumGrows(s, f, t - {x}, g);
      }
    }
  }

  /** A sum over a set is that over a part of it and that over the rest. */
  lemma {:induction false} SumSplits<T>(part: set<T>, all: set<T>, f: T -> real)
    requires part <= all
    ensures Sum(all, f) == Sum(part, f) + Sum(all - part, f)
    decreases part
  {
    if part == {} {
      assert all - part == all;
    } else {
      var x :| x in part;
      SumRemove(all, f, x);
      SumRemove(part, f, x);
      SumSplits(part - {x}, all - {x}, f);
      assert all - {x} - (part - {x}) == all - part;
    }
  }

  lemma SumSame<T>(s: set<T>, f: T -> real, g: T -> real)
    requires forall x :: x in s ==> f(x) == g(x)
    ensures Sum(s, f) == Sum(s, g)
    decreases s
  {
    if s != {} {
      var x :| x in s;
      SumRemove(s, f, x);
      SumRemove(s, g, x);
      SumSame(s - {x}, f, g);
    }
  }

  lemma {:induction false} SumNonNegative<T>(s: set<T>, f: T -> real)
    requires forall x :: x in s ==> 0.0 <= f(x)
    ensures 0.0 <= Sum(s, f)
    decreases s
  {
    if s != {} {
      var x :| x in s;
      SumRemove(s, f, x);
      SumNonNegative(s - {x}, f);
    }
  }

  // -------------------------------------------------------------------------
  // Products. The multiplication is a parameter of the fold, which keeps
  // non-linear arithmetic out of the inductions.
  // -------------------------------------------------------------------------

  ghost function Fold<T>(s: set<T>, f: T -> real, op: (real, real) -> real): real {
    if s == {} then 1.0 else
    var x :| x in s;
    op(f(x), Fold(s - {x}, f, op))
  }

  ghost predicate Swaps(op: (real, real) -> real) {
    forall a, b, c :: op(a, op(b, c)) == op(b, op(a, c))
  }

  lemma SwapAt(op: (real, real) -> real, a: real, b: real, c: real)
    requires Swaps(op)
    ensures op(a, op(b, c)) == op(b, op(a, c))
  {
  }

  predicate Unit(a: real) {
    0.0 <= a <= 1.0
  }

  /** Within [0, 1] the operation is monotone and never exceeds its right operand. */
  ghost predicate Contracts(op: (real, real) -> real) {
    && (forall a, b :: Unit(a) && Unit(b) ==> Unit(op(a, b)) && op(a, b) <= b)
    && (forall a, b, c, d :: Unit(a) && Unit(b) && Unit(c) && Unit(d) && a <= c && b <= d ==> op(a, b) <= op(c, d))
  }

  lemma {:induction false} FoldRemove<T>(s: set<T>, f: T -> real, op: (real, real) -> real, x: T)
    requires x in s && Swaps(op)
    ensures Fold(s, f, op) == op(f(x), Fold(s - {x}, f, op))
    decreases s
  {
    var y :| y in s && Fold(s, f, op) == op(f(y), Fold(s - {y}, f, op));
    if y != x {
      FoldRemove(s - {y}, f, op, x);
      FoldRemove(s - {x}, f, op, y);
      var rest := Fold(s - {x} - {y}, f, op);
      assert s - {y} - {x} == s - {x} - {y};
      SwapAt(op, f(x), f(y), rest);
    }
  }

  lemma {:induction false} FoldShrinks<T>(s: set<T>, f: T -> real, t: set<T>, g: T -> real, op: (real, real) -> real)
    requires s <= t && Swaps(op) && Contracts(op)
    requires forall x :: x in s ==> g(x) <= f(x) && Unit(f(x))
    requires forall x :: x in t ==> Unit(g(x))
    ensures Unit(Fold(t, g, op)) && Unit(Fold(s, f, op)) && Fold(t, g, op) <= Fold(s, f, op)
    decreases t
  {
    if t != {} {
      var x :| x in t;
      FoldRemove(t, g, op, x);
      if x in s {
        FoldRemove(s, f, op, x);
        FoldShrinks(s - {x}, f, t - {x}, g, op);
      } else {
        FoldShrinks(s, f, t - {x}, g, op);
      }
    }
  }

  function Times(a: real, b: real): real {
    a * b
  }

  ghost function Product<T>(s: set<T>, f: T -> real): real {
    Fold(s, f, Times)
  }

  lemma TimesBelow(a: real, b: real)
    requires Unit(a) && Unit(b)
    ensures Unit(Times(a, b)) && Times(a, b) <= b
  {
    var product := Times(a, b);
    MulMonotone(a, b, 1.0, b);
    assert product <= b;
  }

  lemma TimesContracts()
    ensures Contracts(Times)
  {
    hide Times;
    forall a, b | Unit(a) && Unit(b) ensures Unit(Times(a, b)) && Times(a, b) <= b {
      TimesBelow(a, b);
    }
    forall a, b, c, d | Unit(a) && Unit(b) && Unit(c) && Unit(d) && a <= c && b <= d
      ensures Times(a, b) <= Times(c, d)
    {
      TimesMonotone(a, b, c, d);
    }
  }

  lemma TimesMonotone(a: real, b: real, c: real, d: real)
    requires 0.0 <= a <= c && 0.0 <= b <= d
    ensures Times(a, b) <= Times(c, d)
  {
    MulMonotone(a, b, c, d);
  }

  lemma TimesSwaps()
    ensures Swaps(Times)
  {
    hide Times;
    forall a: real, b: real, c: real ensures Times(a, Times(b, c)) == Times(b, Times(a, c)) {
      TimesSwap(a, b, c);
    }
  }

  lemma TimesSwap(a: real, b: real, c: real)
    ensures Times(a, Times(b, c)) == Times(b, Times(a, c))
  {
  }

  /** Any factor can be the one taken first. */
  lemma ProductRemove<T>(s: set<T>, f: T -> real, x: T)
    requires x in s
    ensures Product(s, f) == Times(f(x), Product(s - {x}, f))
  {
    TimesSwaps();
    FoldRemove(s, f, Times, x);
  }

  /** A product of factors within [0, 1] only falls as factors shrink or appear. */
  lemma ProductShrinks<T>(s: set<T>, f: T -> real, t: set<T>, g: T -> real)
    requires s <= t
    requires forall x :: x in s ==> g(x) <= f(x) && Unit(f(x))
    requires forall x :: x in t ==> Unit(g(x))
    ensures Unit(Product(t, g)) && Unit(Product(s, f)) && Product(t, g) <= Product(s, f)
  {
    TimesSwaps();
    TimesContracts();
    FoldShrinks(s, f, t, g, Times);
  }

  lemma MulMonotone(a: real, b: real, c: real, d: real)
    requires 0.0 <= a <= c && 0.0 <= b <= d
    ensures 0.0 <= a * b <= c * d
  {
    assert 0.0 <= a * (d - b);
    assert 0.0 <= (c - a) * d;
    assert a * b <= a * d <= c * d;
  }
}
