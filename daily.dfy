/**
 The daily aggregation of `basic_stats`: one record per calendar date of the
 table, in increasing date order (the order `groupby` gives its keys), holding
 the number of distinct invoices of that date, the summed quantity and the
 summed TotalValue.
 */
module DailyStats {

  import opened Transactions
  import opened Frames

  datatype DailyRow = DailyRow(date: Date, transactions: nat, quantity: int, revenue: real)

  function DateOf(r: Row): Date {
    r.timestamp.date
  }

  function DateSet(rows: seq<Row>): set<Date> {
    set r | r in rows :: DateOf(r)
  }

  function InvoiceSet(rows: seq<Row>): set<Invoice> {
    set r | r in rows :: r.invoice
  }

  predicate StrictlyIncreasing(ds: seq<Date>) {
    forall i, j :: 0 <= i < j < |ds| ==> ds[i] < ds[j]
  }

  function InsertDate(d: Date, ds: seq<Date>): (r: seq<Date>)
    requires StrictlyIncreasing(ds)
    ensures StrictlyIncreasing(r)
    ensures forall x :: x in r <==> x in ds || x == d
  {
    if ds == [] then [d]
    else if d < ds[0] then [d] + ds
    else if d == ds[0] then ds
    else
      var rest := InsertDate(d, ds[1..]);
      PrependIncreasing(ds[0], rest);
      [ds[0]] + rest
  }

  lemma PrependIncreasing(d: Date, ds: seq<Date>)
    requires StrictlyIncreasing(ds) && forall x :: x in ds ==> d < x
    ensures StrictlyIncreasing([d] + ds)
  {
    var r := [d] + ds;
    forall i, j | 0 <= i < j < |r| ensures r[i] < r[j] {
      assert r[j] == ds[j - 1] && ds[j - 1] in ds;
      if i > 0 {
        assert r[i] == ds[i - 1];
      }
    }
  }

  /** The group keys of `groupby(date)`: each date of the table once, increasing. */
  function Dates(rows: seq<Row>): (ds: seq<Date>)
    ensures StrictlyIncreasing(ds)
    ensures forall d :: d in ds <==> d in DateSet(rows)
  {
    if rows == [] then []
    else
      assert forall d :: d in DateSet(rows) <==> d == DateOf(rows[0]) || d in DateSet(rows[1..]);
      InsertDate(DateOf(rows[0]), Dates(rows[1..]))
  }

  /** The `nunique` of Invoice within one date's group. */
  function InvoicesOn(rows: seq<Row>, d: Date): set<Invoice> {
    set r | r in rows && DateOf(r) == d :: r.invoice
  }

  function QuantityOn(rows: seq<Row>, d: Date): int {
    if rows == [] then 0
    else (if DateOf(rows[0]) == d then rows[0].quantity else 0) + QuantityOn(rows[1..], d)
  }

  function RevenueOn(rows: seq<Row>, d: Date): real {
    if rows == [] then 0.0
    else (if DateOf(rows[0]) == d then TotalValue(rows[0]) else 0.0) + RevenueOn(rows[1..], d)
  }

  /** Summing the TotalValue column the caller's frame holds over one date's rows
      gives that date's revenue. */
  lemma {:induction false} ColumnRevenueOn(rows: seq<Row>, d: Date)
    ensures GroupSum(rows, TotalValues(rows), (r: Row) => DateOf(r) == d) == RevenueOn(rows, d)
  {
    if rows != [] {
      TotalValuesTail(rows);
      ColumnRevenueOn(rows[1..], d);
    }
  }

  function DayRows(rows: seq<Row>, ds: seq<Date>): (daily: seq<DailyRow>)
    ensures |daily| == |ds|
    ensures forall k :: 0 <= k < |ds| ==> daily[k].date == ds[k]
  {
    if ds == [] then []
    else
      [DailyRow(ds[0], |InvoicesOn(rows, ds[0])|, QuantityOn(rows, ds[0]), RevenueOn(rows, ds[0]))]
      + DayRows(rows, ds[1..])
  }

  /** The `daily` table of `basic_stats`. */
  function Daily(rows: seq<Row>): (daily: seq<DailyRow>)
    ensures forall i, j :: 0 <= i < j < |daily| ==> daily[i].date < daily[j].date
    ensures forall d :: (exists k :: 0 <= k < |daily| && daily[k].date == d) <==> d in DateSet(rows)
    ensures forall k :: 0 <= k < |daily| ==>
              daily[k].transactions == |InvoicesOn(rows, daily[k].date)|
              && daily[k].quantity == QuantityOn(rows, daily[k].date)
              && daily[k].revenue == RevenueOn(rows, daily[k].date)
  {
    var ds := Dates(rows);
    var daily := DayRows(rows, ds);
    DayRowsFields(rows, ds);
    assert forall d :: d in ds <==> exists k :: 0 <= k < |daily| && daily[k].date == d by {
      forall d ensures d in ds <==> exists k :: 0 <= k < |daily| && daily[k].date == d {
        if d in ds {
          var k :| 0 <= k < |ds| && ds[k] == d;
          assert daily[k].date == d;
        }
      }
    }
    daily
  }

  lemma {:induction false} DayRowsFields(rows: seq<Row>, ds: seq<Date>)
    ensures forall k :: 0 <= k < |ds| ==>
              DayRows(rows, ds)[k] == DailyRow(ds[k], |InvoicesOn(rows, ds[k])|,
                                               QuantityOn(rows, ds[k]), RevenueOn(rows, ds[k]))
  {
    if ds != [] {
      DayRowsFields(rows, ds[1..]);
    }
  }

  function TotalQuantity(rows: seq<Row>): int {
    if rows == [] then 0 else rows[0].quantity + TotalQuantity(rows[1..])
  }

  function SumQuantity(daily: seq<DailyRow>): int {
    if daily == [] then 0 else daily[0].quantity + SumQuantity(daily[1..])
  }

  function SumTransactions(daily: seq<DailyRow>): int {
    if daily == [] then 0 else daily[0].transactions + SumTransactions(daily[1..])
  }

  /** With no rows, every day's quantity is zero. */
  lemma {:induction false} NoRowsNoQuantity(ds: seq<Date>)
    ensures SumQuantity(DayRows([], ds)) == 0
  {
    if ds != [] {
      NoRowsNoQuantity(ds[1..]);
    }
  }

  /** The first row contributes its quantity to exactly the day that carries its date. */
  lemma {:induction false} FirstRowQuantity(rows: seq<Row>, ds: seq<Date>)
    requires rows != [] && StrictlyIncreasing(ds)
    ensures SumQuantity(DayRows(rows, ds))
            == (if DateOf(rows[0]) in ds then rows[0].quantity else 0) + SumQuantity(DayRows(rows[1..], ds))
  {
    if ds != [] {
      FirstRowQuantity(rows, ds[1..]);
      assert DateOf(rows[0]) == ds[0] ==> DateOf(rows[0]) !in ds[1..];
      assert DateOf(rows[0]) in ds <==> DateOf(rows[0]) == ds[0] || DateOf(rows[0]) in ds[1..];
    }
  }

  lemma {:induction false} DayRowsQuantity(rows: seq<Row>, ds: seq<Date>)
    requires StrictlyIncreasing(ds)
    requires forall r :: r in rows ==> DateOf(r) in ds
    ensures SumQuantity(DayRows(rows, ds)) == TotalQuantity(rows)
  {
    if rows == [] {
      NoRowsNoQuantity(ds);
    } else {
      FirstRowQuantity(rows, ds);
      DayRowsQuantity(rows[1..], ds);
    }
  }

  /** The daily quantities add up to the quantity of the whole table. */
  lemma DailyQuantityTotal(rows: seq<Row>)
    ensures SumQuantity(Daily(rows)) == TotalQuantity(rows)
  {
    DayRowsQuantity(rows, Dates(rows));
  }

  function TotalRevenue(rows: seq<Row>): real {
    if rows == [] then 0.0 else TotalValue(rows[0]) + TotalRevenue(rows[1..])
  }

  function SumRevenue(daily: seq<DailyRow>): real {
    if daily == [] then 0.0 else daily[0].revenue + SumRevenue(daily[1..])
  }

  lemma {:induction false} NoRowsNoRevenue(ds: seq<Date>)
    ensures SumRevenue(DayRows([], ds)) == 0.0
  {
    if ds != [] {
      NoRowsNoRevenue(ds[1..]);
    }
  }

  lemma {:induction false} FirstRowRevenue(rows: seq<Row>, ds: seq<Date>)
    requires rows != [] && StrictlyIncreasing(ds)
    ensures SumRevenue(DayRows(rows, ds))
            == (if DateOf(rows[0]) in ds then TotalValue(rows[0]) else 0.0) + SumRevenue(DayRows(rows[1..], ds))
  {
    if ds != [] {
      FirstRowRevenue(rows, ds[1..]);
      assert DateOf(rows[0]) == ds[0] ==> DateOf(rows[0]) !in ds[1..];
      assert DateOf(rows[0]) in ds <==> DateOf(rows[0]) == ds[0] || DateOf(rows[0]) in ds[1..];
    }
  }

  lemma {:induction false} DayRowsRevenue(rows: seq<Row>, ds: seq<Date>)
    requires StrictlyIncreasing(ds)
    requires forall r :: r in rows ==> DateOf(r) in ds
    ensures SumRevenue(DayRows(rows, ds)) == TotalRevenue(rows)
  {
    if rows == [] {
      NoRowsNoRevenue(ds);
    } else {
      FirstRowRevenue(rows, ds);
      DayRowsRevenue(rows[1..], ds);
    }
  }

  /** The daily revenues add up to the TotalValue of the whole table. */
  lemma DailyRevenueTotal(rows: seq<Row>)
    ensures SumRevenue(Daily(rows)) == TotalRevenue(rows)
  {
    DayRowsRevenue(rows, Dates(rows));
  }

  /** The hypothesis under which the daily counts add up exactly: no invoice has
      rows on two different dates. */
  predicate OneDatePerInvoice(rows: seq<Row>) {
    forall r1, r2 :: r1 in rows && r2 in rows && r1.invoice == r2.invoice ==> DateOf(r1) == DateOf(r2)
  }

  function InvoicesWithin(rows: seq<Row>, ds: seq<Date>): set<Invoice> {
    set r | r in rows && DateOf(r) in ds :: r.invoice
  }

  lemma {:induction false} DayRowsTransactions(rows: seq<Row>, ds: seq<Date>)
    requires StrictlyIncreasing(ds) && OneDatePerInvoice(rows)
    ensures SumTransactions(DayRows(rows, ds)) == |InvoicesWithin(rows, ds)|
  {
    if ds == [] {
      assert InvoicesWithin(rows, ds) == {};
    } else {
      DayRowsTransactions(rows, ds[1..]);
      FirstDaySplit(rows, ds);
    }
  }

  lemma {:induction false} DayRowsTransactionsBound(rows: seq<Row>, ds: seq<Date>)
    ensures SumTransactions(DayRows(rows, ds)) >= |InvoicesWithin(rows, ds)|
  {
    if ds == [] {
      assert InvoicesWithin(rows, ds) == {};
    } else {
      DayRowsTransactionsBound(rows, ds[1..]);
      var first, rest := InvoicesOn(rows, ds[0]), InvoicesWithin(rows, ds[1..]);
      assert InvoicesWithin(rows, ds) == first + rest;
    }
  }

  /** The invoices within the dates are those of the first date and, apart from
      them, those of the later dates. */
  lemma FirstDaySplit(rows: seq<Row>, ds: seq<Date>)
    requires ds != [] && StrictlyIncreasing(ds) && OneDatePerInvoice(rows)
    ensures InvoicesWithin(rows, ds) == InvoicesOn(rows, ds[0]) + InvoicesWithin(rows, ds[1..])
    ensures InvoicesOn(rows, ds[0]) * InvoicesWithin(rows, ds[1..]) == {}
  {
    var first, rest := InvoicesOn(rows, ds[0]), InvoicesWithin(rows, ds[1..]);
    forall i | i in first ensures i !in rest {
      var r1 :| r1 in rows && DateOf(r1) == ds[0] && r1.invoice == i;
      forall r2 | r2 in rows && DateOf(r2) in ds[1..] ensures r2.invoice != i {
        assert DateOf(r2) != DateOf(r1);
      }
    }
  }

  /** When every invoice falls on one date, the daily transaction counts add up to
      the number of distinct invoices of the table. */
  lemma DailyTransactionsTotal(rows: seq<Row>)
    requires OneDatePerInvoice(rows)
    ensures SumTransactions(Daily(rows)) == |InvoiceSet(rows)|
  {
    var ds := Dates(rows);
    DayRowsTransactions(rows, ds);
    assert InvoicesWithin(rows, ds) == InvoiceSet(rows);
  }

  /** Whatever the dates of an invoice's rows, the daily counts add up to at least
      the number of distinct invoices: an invoice spread over several dates is
      counted on each of them. */
  lemma DailyTransactionsAtLeast(rows: seq<Row>)
    ensures SumTransactions(Daily(rows)) >= |InvoiceSet(rows)|
  {
    var ds := Dates(rows);
    DayRowsTransactionsBound(rows, ds);
    assert InvoicesWithin(rows, ds) == InvoiceSet(rows);
  }

  /** `basic_stats`: assigns the caller's TotalValue column, then aggregates per date. */
  method BasicStats(df: Frame) returns (daily: seq<DailyRow>)
    modifies df
    ensures df.rows == old(df.rows)
    ensures df.totalValue.Some? && df.totalValue.value == TotalValues(df.rows)
    ensures daily == Daily(df.rows)
    ensures forall k :: 0 <= k < |daily| ==>
              daily[k].revenue == GroupSum(df.rows, df.totalValue.value, (r: Row) => DateOf(r) == daily[k].date)
  {
    df.AssignTotalValue();
    daily := Daily(df.rows);
    forall k | 0 <= k < |daily|
      ensures daily[k].revenue == GroupSum(df.rows, df.totalValue.value, (r: Row) => DateOf(r) == daily[k].date)
    {
      ColumnRevenueOn(df.rows, daily[k].date);
    }
  }
}
