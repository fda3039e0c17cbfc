/** Sums over the rows of a table. */
module Sums {
  function Sum<T>(rows: seq<T>, f: T -> int): int {
    if rows == [] then 0 else Sum(rows[..|rows| - 1], f) + f(rows[|rows| - 1])
  }

  lemma {:induction false} SumAppend<T>(rows: seq<T>, more: seq<T>, f: T -> int)
    ensures Sum(rows + more, f) == Sum(rows, f) + Sum(more, f)
  {
    if more == [] {
      assert rows + more == rows;
    } else {
      assert (rows + more)[..|rows + more| - 1] == rows + more[..|more| - 1];
      SumAppend(rows, more[..|more| - 1], f);
    }
  }

  lemma {:induction false} SumNone<T>(rows: seq<T>, f: T -> int)
    requires forall k | 0 <= k < |rows| :: f(rows[k]) == 0
    ensures Sum(rows, f) == 0
  {
    if rows != [] {
      SumNone(rows[..|rows| - 1], f);
    }
  }

  lemma {:induction false} SumCons<T>(x: T, rows: seq<T>, f: T -> int)
    ensures Sum([x] + rows, f) == f(x) + Sum(rows, f)
  {
    SumAppend([x], rows, f);
    assert [x][..0] == [];
  }
}
