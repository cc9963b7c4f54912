/**
 The caller's DataFrame, as far as the analysis functions change it:
 `basic_stats` and `get_top_revenue_countries` both assign its TotalValue
 column in place before aggregating.
 */
module Frames {

  import opened Wrappers
  import opened Transactions

  /** The TotalValue column of a table, row by row. */
  function TotalValues(rows: seq<Row>): (column: seq<real>)
    ensures |column| == |rows|
    ensures forall i :: 0 <= i < |rows| ==> column[i] == rows[i].quantity as real * rows[i].price
  {
    seq(|rows|, i requires 0 <= i < |rows| => TotalValue(rows[i]))
  }

  /** `groupby(key)[column].sum()` for one group: the column's entries on the rows
      `inGroup` selects, added up. */
  function GroupSum(rows: seq<Row>, column: seq<real>, inGroup: Row -> bool): real
    requires |column| == |rows|
  {
    if rows == [] then 0.0
    else (if inGroup(rows[0]) then column[0] else 0.0) + GroupSum(rows[1..], column[1..], inGroup)
  }

  /** The written column, past its first row, is the column of the other rows. */
  lemma TotalValuesTail(rows: seq<Row>)
    requires rows != []
    ensures TotalValues(rows)[0] == TotalValue(rows[0])
    ensures TotalValues(rows)[1..] == TotalValues(rows[1..])
  {
  }

  class Frame {
    var rows: seq<Row>
    /** The TotalValue column, once it has been assigned. */
    var totalValue: Option<seq<real>>

    constructor (rows: seq<Row>)
      ensures this.rows == rows && totalValue == None
    {
      this.rows := rows;
      totalValue := None;
    }

    /** `df["TotalValue"] = df["Quantity"] * df["Price"]`. */
    method AssignTotalValue()
      modifies this
      ensures rows == old(rows)
      ensures totalValue == Some(TotalValues(rows))
    {
      totalValue := Some(TotalValues(rows));
    }
  }
}
