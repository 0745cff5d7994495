// What several modules share.

module Wrappers {
  datatype Option<+T> = None | Some(value: T)

  // A list without its j-th element.
  function Without<T>(xs: seq<T>, j: nat): (rest: seq<T>)
    requires j < |xs|
    ensures forall x <- rest :: x in xs
  {
    xs[..j] + xs[j + 1..]
  }

  // ---------- Positions in a list of rows ----------

  // A row and a column.
  type Cell = (nat, nat)

  predicate Before(a: Cell, b: Cell) {
    a.0 < b.0 || (a.0 == b.0 && a.1 < b.1)
  }

  // Row by row, and in each row from left to right.
  ghost predicate Rising(at: seq<Cell>) {
    forall i, j :: 0 <= i < j < |at| ==> Before(at[i], at[j])
  }

  // The cells of one row, in the given columns.
  function RowCells(row: nat, columns: seq<nat>): (at: seq<Cell>)
    ensures |at| == |columns| && forall k :: 0 <= k < |at| ==> at[k] == (row, columns[k])
  {
    seq(|columns|, k requires 0 <= k < |columns| => (row, columns[k]))
  }

  lemma RisingOn(at: seq<Cell>, row: nat, columns: seq<nat>)
    requires Rising(at) && forall c <- at :: c.0 < row
    requires forall i, j :: 0 <= i < j < |columns| ==> columns[i] < columns[j]
    ensures Rising(at + RowCells(row, columns))
  {
    var all := at + RowCells(row, columns);
    forall i, j | 0 <= i < j < |all| ensures Before(all[i], all[j]) {
      if i < |at| {
        assert all[i] in at;
      }
    }
  }
}
