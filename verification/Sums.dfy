/** Sums over the rows of a table, and how one changed row changes them. */
module Sums {

  function Sum(xs: seq<int>): int {
    if xs == [] then 0 else xs[0] + Sum(xs[1..])
  }

  function SumBy<T>(rows: seq<T>, f: T -> int): int {
    if rows == [] then 0 else f(rows[0]) + SumBy(rows[1..], f)
  }

  function Count<T(==)>(rows: seq<T>, x: T): nat {
    if rows == [] then 0 else (if rows[0] == x then 1 else 0) + Count(rows[1..], x)
  }

  lemma {:induction false} SumUpdate(xs: seq<int>, i: nat, x: int)
    requires i < |xs|
    ensures Sum(xs[i := x]) == Sum(xs) - xs[i] + x
  {
    if i > 0 {
      SumUpdate(xs[1..], i - 1, x);
      assert xs[i := x][1..] == xs[1..][i - 1 := x];
    } else {
      assert xs[i := x][1..] == xs[1..];
    }
  }

  lemma {:induction false} SumAppend(xs: seq<int>, x: int)
    ensures Sum(xs + [x]) == Sum(xs) + x
  {
    if xs == [] {
      assert [] + [x] == [x];
    } else {
      SumAppend(xs[1..], x);
      assert (xs + [x])[1..] == xs[1..] + [x];
    }
  }

  lemma {:induction false} SumByUpdate<T>(rows: seq<T>, f: T -> int, i: nat, row: T)
    requires i < |rows|
    ensures SumBy(rows[i := row], f) == SumBy(rows, f) - f(rows[i]) + f(row)
  {
    if i > 0 {
      SumByUpdate(rows[1..], f, i - 1, row);
      assert rows[i := row][1..] == rows[1..][i - 1 := row];
    } else {
      assert rows[i := row][1..] == rows[1..];
    }
  }

  lemma {:induction false} SumByAppend<T>(rows: seq<T>, f: T -> int, row: T)
    ensures SumBy(rows + [row], f) == SumBy(rows, f) + f(row)
  {
    if rows == [] {
      assert [] + [row] == [row];
    } else {
      SumByAppend(rows[1..], f, row);
      assert (rows + [row])[1..] == rows[1..] + [row];
    }
  }

  lemma {:induction false} SumByZero<T>(rows: seq<T>, f: T -> int)
    requires forall i :: 0 <= i < |rows| ==> f(rows[i]) == 0
    ensures SumBy(rows, f) == 0
  {
    if rows != [] { SumByZero(rows[1..], f); }
  }

  lemma {:induction false} SumByAgrees<T>(rows: seq<T>, others: seq<T>, f: T -> int)
    requires |rows| == |others|
    requires forall i :: 0 <= i < |rows| ==> f(rows[i]) == f(others[i])
    ensures SumBy(rows, f) == SumBy(others, f)
  {
    if rows != [] { SumByAgrees(rows[1..], others[1..], f); }
  }

  lemma {:induction false} SumByAtMost<T>(rows: seq<T>, others: seq<T>, f: T -> int, k: nat)
    requires |rows| == |others| && k < |rows|
    requires forall i :: 0 <= i < |rows| ==> f(others[i]) <= f(rows[i])
    ensures SumBy(others, f) <= SumBy(rows, f) - f(rows[k]) + f(others[k])
  {
    if k > 0 {
      SumByAtMost(rows[1..], others[1..], f, k - 1);
    } else if |rows| > 1 {
      SumByAtMost(rows[1..], others[1..], f, 0);
    }
  }

  lemma {:induction false} SumByNonNegative<T>(rows: seq<T>, f: T -> int)
    requires forall i :: 0 <= i < |rows| ==> f(rows[i]) >= 0
    ensures SumBy(rows, f) >= 0
  {
    if rows != [] { SumByNonNegative(rows[1..], f); }
  }

  lemma {:induction false} CountConcat<T>(xs: seq<T>, ys: seq<T>, x: T)
    ensures Count(xs + ys, x) == Count(xs, x) + Count(ys, x)
  {
    if xs == [] {
      assert [] + ys == ys;
    } else {
      CountConcat(xs[1..], ys, x);
      assert (xs + ys)[1..] == xs[1..] + ys;
    }
  }
}
