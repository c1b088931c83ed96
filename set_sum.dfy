/**
 * Sums over finite sets. Python iterates a `set` in an order it does not
 * promise, so a running total accumulated over a set is specified here by a
 * sum that does not depend on the order: `SetSumPick` shows that any element
 * may be taken out first.
 */
module SetSums {

  /** The sum of `f(x)` over every `x` in `s`. */
  ghost function SetSum<T>(s: set<T>, f: T -> real): real
    decreases |s|
  {
    if s == {} then 0.0 else var x :| x in s; f(x) + SetSum(s - {x}, f)
  }

  /** Any element may be the one summed first. */
  lemma {:induction false} SetSumPick<T>(s: set<T>, f: T -> real, y: T)
    requires y in s
    ensures SetSum(s, f) == f(y) + SetSum(s - {y}, f)
    decreases |s|
  {
    var x :| x in s && SetSum(s, f) == f(x) + SetSum(s - {x}, f);
    if x != y {
      SetSumPick(s - {x}, f, y);
      SetSumPick(s - {y}, f, x);
      assert s - {x} - {y} == s - {y} - {x};
    }
  }

  /** A sum of non-negative terms is non-negative. */
  lemma {:induction false} SetSumNonNegative<T>(s: set<T>, f: T -> real)
    requires forall x :: x in s ==> f(x) >= 0.0
    ensures SetSum(s, f) >= 0.0
    decreases |s|
  {
    if s != {} {
      var x :| x in s && SetSum(s, f) == f(x) + SetSum(s - {x}, f);
      SetSumNonNegative(s - {x}, f);
    }
  }

  /** A sum of zero terms is zero. */
  lemma {:induction false} SetSumZero<T>(s: set<T>, f: T -> real)
    requires forall x :: x in s ==> f(x) == 0.0
    ensures SetSum(s, f) == 0.0
    decreases |s|
  {
    if s != {} {
      var x :| x in s && SetSum(s, f) == f(x) + SetSum(s - {x}, f);
      SetSumZero(s - {x}, f);
    }
  }

  /** Sums over the same set of two functions that agree on it are equal. */
  lemma {:induction false} SetSumCongruent<T>(s: set<T>, f: T -> real, g: T -> real)
    requires forall x :: x in s ==> f(x) == g(x)
    ensures SetSum(s, f) == SetSum(s, g)
    decreases |s|
  {
    if s != {} {
      var x :| x in s && SetSum(s, f) == f(x) + SetSum(s - {x}, f);
      SetSumPick(s, g, x);
      SetSumCongruent(s - {x}, f, g);
    }
  }

  /** The sum of a pointwise sum is the sum of the two sums. */
  lemma {:induction false} SetSumAdd<T>(s: set<T>, f: T -> real, g: T -> real, h: T -> real)
    requires forall x :: x in s ==> h(x) == f(x) + g(x)
    ensures SetSum(s, h) == SetSum(s, f) + SetSum(s, g)
    decreases |s|
  {
    if s != {} {
      var x :| x in s && SetSum(s, h) == h(x) + SetSum(s - {x}, h);
      SetSumPick(s, f, x);
      SetSumPick(s, g, x);
      SetSumAdd(s - {x}, f, g, h);
    }
  }

  /** `f` with its first argument fixed to `a`. */
  function RowOf<A, B>(f: (A, B) -> real, a: A): B -> real {
    b => f(a, b)
  }

  /** `f` with its second argument fixed to `b`. */
  function ColumnOf<A, B>(f: (A, B) -> real, b: B): A -> real {
    a => f(a, b)
  }

  /** For each `a`, the sum of `f(a, b)` over `b` in `t`. */
  ghost function RowSums<A, B>(t: set<B>, f: (A, B) -> real): A -> real {
    a => SetSum(t, RowOf(f, a))
  }

  /** For each `b`, the sum of `f(a, b)` over `a` in `s`. */
  ghost function ColumnSums<A, B>(s: set<A>, f: (A, B) -> real): B -> real {
    b => SetSum(s, ColumnOf(f, b))
  }

  /** A double sum over a product of finite sets may be taken in either order. */
  lemma {:induction false} SetSumSwap<A, B>(s: set<A>, t: set<B>, f: (A, B) -> real)
    ensures SetSum(s, RowSums(t, f)) == SetSum(t, ColumnSums(s, f))
    decreases |s|
  {
    if s == {} {
      SetSumZero(t, ColumnSums(s, f));
    } else {
      var a :| a in s;
      SetSumPick(s, RowSums(t, f), a);
      SetSumSwap(s - {a}, t, f);
      forall b | b in t
        ensures ColumnSums(s, f)(b) == RowOf(f, a)(b) + ColumnSums(s - {a}, f)(b)
      {
        SetSumPick(s, ColumnOf(f, b), a);
      }
      SetSumAdd(t, RowOf(f, a), ColumnSums(s - {a}, f), ColumnSums(s, f));
    }
  }
}
