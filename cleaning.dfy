/**
 The Cleaner: `clean_transactions` keeps the rows with a positive quantity,
 an invoice that is not a credit note (its string form does not start with
 "C") and a Customer ID. It selects from a copy, so the caller's table is not
 touched; here tables are values, so that holds by construction.
 */
module Cleaning {

  import opened Transactions
  import Strings

  predicate PositiveQuantity(r: Row) {
    r.quantity > 0
  }

  /** Credit notes (returns and cancellations) have invoices starting with "C". */
  predicate IsCreditNote(r: Row) {
    Strings.StartsWith(r.invoice, "C")
  }

  predicate NotCreditNote(r: Row) {
    !IsCreditNote(r)
  }

  predicate HasCustomer(r: Row) {
    r.customer.Some?
  }

  /** The row invariant after cleaning, as one condition. */
  predicate IsClean(r: Row) {
    PositiveQuantity(r) && NotCreditNote(r) && HasCustomer(r)
  }

  /** The three selections, applied one after the other as the source does. */
  function CleanTransactions(rows: seq<Row>): (clean: seq<Row>)
    ensures clean == Where(rows, IsClean)
    ensures forall r :: r in clean ==>
              r.quantity > 0 && !(|r.invoice| > 0 && r.invoice[0] == 'C') && r.customer.Some?
    ensures forall r :: r in rows && IsClean(r) ==> r in clean
    ensures forall r | r in rows && IsClean(r) :: multiset(clean)[r] == multiset(rows)[r]
  {
    ChainedSelections(rows);
    CleanRows(rows);
    Where(Where(Where(rows, PositiveQuantity), NotCreditNote), HasCustomer)
  }

  /** The rows of the selection by `IsClean`, with the credit-note test spelled out. */
  lemma CleanRows(rows: seq<Row>)
    ensures forall r :: r in Where(rows, IsClean) <==> r in rows && IsClean(r)
    ensures forall r :: IsClean(r) <==>
              r.quantity > 0 && !(|r.invoice| > 0 && r.invoice[0] == 'C') && r.customer.Some?
  {
    var clean := Where(rows, IsClean);
    forall r | r in rows && IsClean(r) ensures r in clean {
      assert multiset(clean)[r] == multiset(rows)[r];
    }
    forall r ensures IsCreditNote(r) <==> |r.invoice| > 0 && r.invoice[0] == 'C' {
      if |r.invoice| > 0 {
        assert r.invoice[..1] == [r.invoice[0]];
      }
    }
  }

  lemma {:induction false} ChainedSelections(rows: seq<Row>)
    ensures Where(Where(Where(rows, PositiveQuantity), NotCreditNote), HasCustomer)
            == Where(rows, IsClean)
  {
    if rows != [] {
      ChainedSelections(rows[1..]);
    }
  }

  /** The cleaned table is the input with rows deleted, none reordered or altered. */
  lemma CleanIsSubsequence(rows: seq<Row>)
    ensures IsSubsequence(CleanTransactions(rows), rows)
  {
    WhereIsSubsequence(rows, IsClean);
  }

  /** Cleaning a cleaned table changes nothing. */
  lemma CleanIdempotent(rows: seq<Row>)
    ensures CleanTransactions(CleanTransactions(rows)) == CleanTransactions(rows)
  {
    WhereAll(CleanTransactions(rows), IsClean);
  }
}
