/**
 Finite sums over sets, shared by every conservation and recount argument in the project.
 */
module Sums {

  /** The sum of `f` over the elements of `s`. */
  ghost function Sum<T(!new)>(s: set<T>, f: T -> int): int
  {
    if s == {} then 0 else
      var x :| x in s;
      f(x) + Sum(s - {x}, f)
  }

  /** Any element may be taken out first. */
  lemma {:induction false} SumRemove<T(!new)>(s: set<T>, x: T, f: T -> int)
    requires x in s
    ensures Sum(s, f) == f(x) + Sum(s - {x}, f)
    decreases |s|
  {
    var y :| y in s && Sum(s, f) == f(y) + Sum(s - {y}, f);
    if y != x {
      SumRemove(s - {y}, x, f);
      SumRemove(s - {x}, y, f);
      assert s - {y} - {x} == s - {x} - {y};
    }
  }

  lemma SumInsert<T(!new)>(s: set<T>, x: T, f: T -> int)
    requires x !in s
    ensures Sum(s + {x}, f) == f(x) + Sum(s, f)
  {
    SumRemove(s + {x}, x, f);
    assert s + {x} - {x} == s;
  }

  lemma {:induction false} SumExt<T(!new)>(s: set<T>, f: T -> int, g: T -> int)
    requires forall x :: x in s ==> f(x) == g(x)
    ensures Sum(s, f) == Sum(s, g)
    decreases |s|
  {
    if s != {} {
      var x :| x in s;
      SumRemove(s, x, f);
      SumRemove(s, x, g);
      SumExt(s - {x}, f, g);
    }
  }

  lemma {:induction false} SumAdd<T(!new)>(s: set<T>, f: T -> int, g: T -> int, h: T -> int)
    requires forall x :: x in s ==> h(x) == f(x) + g(x)
    ensures Sum(s, h) == Sum(s, f) + Sum(s, g)
    decreases |s|
  {
    if s != {} {
      var x :| x in s;
      SumRemove(s, x, f);
      SumRemove(s, x, g);
      SumRemove(s, x, h);
      SumAdd(s - {x}, f, g, h);
    }
  }

  lemma {:induction false} SumZero<T(!new)>(s: set<T>, f: T -> int)
    requires forall x :: x in s ==> f(x) == 0
    ensures Sum(s, f) == 0
    decreases |s|
  {
    if s != {} {
      var x :| x in s;
      SumRemove(s, x, f);
      SumZero(s - {x}, f);
    }
  }

  /** Two functions that agree everywhere except at `x`. */
  lemma SumUpdate<T(!new)>(s: set<T>, x: T, f: T -> int, g: T -> int)
    requires x in s
    requires forall y :: y in s && y != x ==> f(y) == g(y)
    ensures Sum(s, g) == Sum(s, f) + g(x) - f(x)
  {
    SumRemove(s, x, f);
    SumRemove(s, x, g);
    SumExt(s - {x}, f, g);
  }

  lemma {:induction false} SumMonotone<T(!new)>(s: set<T>, t: set<T>, f: T -> int, g: T -> int)
    requires s <= t
    requires forall x :: x in s ==> f(x) <= g(x)
    requires forall x :: x in t ==> 0 <= g(x)
    ensures Sum(s, f) <= Sum(t, g)
    decreases |t|
  {
    if t != {} {
      var x :| x in t;
      SumRemove(t, x, g);
      if x in s {
        SumRemove(s, x, f);
        SumMonotone(s - {x}, t - {x}, f, g);
      } else {
        SumMonotone(s, t - {x}, f, g);
      }
    }
  }

  lemma SumAtLeast<T(!new)>(s: set<T>, x: T, f: T -> int)
    requires x in s
    requires forall y :: y in s ==> 0 <= f(y)
    ensures f(x) <= Sum(s, f)
  {
    SumRemove(s, x, f);
    SumMonotone({}, s - {x}, f, f);
  }

  /** Exchanging the order of summation over a table given by its rows and by its columns. */
  lemma {:induction false} SumSwap<T(!new), U(!new)>(s: set<T>, t: set<U>, row: T -> U -> int, col: U -> T -> int,
                                                    rows: T -> int, cols: U -> int)
    requires forall x, y :: x in s && y in t ==> row(x)(y) == col(y)(x)
    requires forall x :: x in s ==> rows(x) == Sum(t, row(x))
    requires forall y :: y in t ==> cols(y) == Sum(s, col(y))
    ensures Sum(s, rows) == Sum(t, cols)
    decreases |s|
  {
    if s == {} {
      SumZero(t, cols);
    } else {
      var x :| x in s;
      var s' := s - {x};
      var cols' := y => Sum(s', col(y));
      SumRemove(s, x, rows);
      SumSwap(s', t, row, col, rows, cols');
      forall y | y in t ensures cols(y) == row(x)(y) + cols'(y) {
        SumRemove(s, x, col(y));
      }
      SumAdd(t, row(x), cols', cols);
    }
  }
}
