/**
 The transaction table shared by every stage of the pipeline: one record per
 row of the spreadsheet, and the boolean-mask row selection `df[mask]` that
 every filter of the pipeline is built from.
 */
module Transactions {

  import opened Wrappers

  type Invoice = string
  type Item = string
  type Country = string

  /** A calendar date, counted in days. */
  type Date = int

  /** A parsed InvoiceDate: its calendar date and the time of day. */
  datatype Timestamp = Timestamp(date: Date, secondOfDay: nat)

  /** One row of the table. Prices are exact; a missing Customer ID is None. */
  datatype Row = Row(
    invoice: Invoice,        // the string form of the Invoice column
    description: Item,
    quantity: int,
    timestamp: Timestamp,
    price: real,
    customer: Option<int>,
    country: Country)

  /** The TotalValue column: Quantity * Price. */
  function TotalValue(r: Row): real {
    r.quantity as real * r.price
  }

  /** `df[mask]`: the rows for which `keep` holds, in their original order. */
  function Where<T>(s: seq<T>, keep: T -> bool): (r: seq<T>)
    ensures |r| <= |s|
    ensures forall x :: x in r ==> x in s && keep(x)
    ensures forall x | x in s :: multiset(r)[x] == if keep(x) then multiset(s)[x] else 0
  {
    if s == [] then []
    else
      assert s == [s[0]] + s[1..];
      if keep(s[0]) then [s[0]] + Where(s[1..], keep) else Where(s[1..], keep)
  }

  /** `a` is obtained from `b` by deleting elements, without reordering or changing any. */
  predicate IsSubsequence<T(==)>(a: seq<T>, b: seq<T>) {
    if a == [] then true
    else if b == [] then false
    else (a[0] == b[0] && IsSubsequence(a[1..], b[1..])) || IsSubsequence(a, b[1..])
  }

  lemma {:induction false} WhereIsSubsequence<T>(s: seq<T>, keep: T -> bool)
    ensures IsSubsequence(Where(s, keep), s)
  {
    if s != [] {
      WhereIsSubsequence(s[1..], keep);
    }
  }

  /** A selection whose mask holds everywhere keeps the whole table. */
  lemma {:induction false} WhereAll<T>(s: seq<T>, keep: T -> bool)
    requires forall x :: x in s ==> keep(x)
    ensures Where(s, keep) == s
  {
    if s != [] {
      WhereAll(s[1..], keep);
    }
  }
}
