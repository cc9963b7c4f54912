/**
 Basket construction: the allowed-item rule of `run_apriori_analysis` (the
 products whose occurrence count reaches a threshold) and `prepare_basket`,
 the boolean invoice x product presence matrix restricted to those products.
 The same construction is written out inline for the global basket and for
 each country's basket; all three are `PrepareBasket` here.
 */
module Baskets {

  import opened Transactions

  function DescriptionSet(rows: seq<Row>): set<Item> {
    set r | r in rows :: r.description
  }

  /** The number of rows carrying description `d`. */
  function Occurrences(rows: seq<Row>, d: Item): nat {
    if rows == [] then 0
    else (if rows[0].description == d then 1 else 0) + Occurrences(rows[1..], d)
  }

  /** A product no row carries occurs nowhere. */
  lemma {:induction false} NoOccurrences(rows: seq<Row>, d: Item)
    requires d !in DescriptionSet(rows)
    ensures Occurrences(rows, d) == 0
  {
    if rows != [] {
      DescriptionSetOfFirst(rows);
      NoOccurrences(rows[1..], d);
    }
  }

  lemma DescriptionSetOfFirst(rows: seq<Row>)
    requires rows != []
    ensures DescriptionSet(rows) == {rows[0].description} + DescriptionSet(rows[1..])
  {
    assert rows == [rows[0]] + rows[1..];
  }

  /** `df["Description"].value_counts()`. */
  function ProductCounts(rows: seq<Row>): (counts: map<Item, nat>)
    ensures counts.Keys == DescriptionSet(rows)
    ensures forall d :: d in counts ==> counts[d] == Occurrences(rows, d)
  {
    if rows == [] then map[]
    else
      var rest := ProductCounts(rows[1..]);
      var d0 := rows[0].description;
      CountFirst(rows, rest);
      rest[d0 := if d0 in rest then rest[d0] + 1 else 1]
  }

  /** Counting the first row on top of the counts of the others. */
  lemma CountFirst(rows: seq<Row>, rest: map<Item, nat>)
    requires rows != []
    requires rest.Keys == DescriptionSet(rows[1..])
    requires forall d :: d in rest ==> rest[d] == Occurrences(rows[1..], d)
    ensures var d0 := rows[0].description;
            var counts := rest[d0 := if d0 in rest then rest[d0] + 1 else 1];
            counts.Keys == DescriptionSet(rows)
            && forall d :: d in counts ==> counts[d] == Occurrences(rows, d)
  {
    DescriptionSetOfFirst(rows);
    if rows[0].description !in rest {
      NoOccurrences(rows[1..], rows[0].description);
    }
  }

  /** `product_counts[product_counts >= support_threshold].index`: the products
      seen at least `threshold` times. The threshold is the source's 80th
      percentile of the counts, passed in here. */
  function AllowedItems(rows: seq<Row>, threshold: real): (allowed: set<Item>)
    ensures forall d :: d in allowed <==>
              d in DescriptionSet(rows) && Occurrences(rows, d) as real >= threshold
  {
    var counts := ProductCounts(rows);
    set d | d in counts && counts[d] as real >= threshold
  }

  /** The summed Quantity of one (invoice, product) pair. */
  function PairQuantity(rows: seq<Row>, i: Invoice, d: Item): int {
    if rows == [] then 0
    else (if rows[0].invoice == i && rows[0].description == d then rows[0].quantity else 0)
         + PairQuantity(rows[1..], i, d)
  }

  /** A boolean DataFrame: one row per invoice, one column per product. */
  datatype Basket = Basket(invoices: set<Invoice>, items: set<Item>, cells: map<Invoice, map<Item, bool>>) {
    /** `basket.empty`: no rows or no columns. */
    predicate IsEmpty() {
      invoices == {} || items == {}
    }

    /** `basket.shape[1]`. */
    function Columns(): nat {
      |items|
    }
  }

  function Allowed(allowed: set<Item>): Row -> bool {
    (r: Row) => r.description in allowed
  }

  /** The basket of rows that all carry allowed products: invoices as rows,
      products as columns, a cell set where the pair's summed quantity is positive. */
  function BasketOf(kept: seq<Row>): Basket {
    var invoices := set r | r in kept :: r.invoice;
    var items := set r | r in kept :: r.description;
    Basket(invoices, items, map i | i in invoices :: map d | d in items :: PairQuantity(kept, i, d) > 0)
  }

  lemma BasketOfShape(kept: seq<Row>)
    ensures var b := BasketOf(kept);
            && (forall d :: d in b.items <==> exists r :: r in kept && r.description == d)
            && (forall i :: i in b.invoices <==> exists r :: r in kept && r.invoice == i)
            && b.cells.Keys == b.invoices
            && (forall i :: i in b.invoices ==> b.cells[i].Keys == b.items)
            && (forall i, d :: i in b.invoices && d in b.items ==>
                  (b.cells[i][d] <==> PairQuantity(kept, i, d) > 0))
  {
  }

  /** `prepare_basket`: select the allowed products, sum Quantity per
      (invoice, product), unstack, fill the missing pairs with 0, compare with 0. */
  function PrepareBasket(rows: seq<Row>, allowed: set<Item>): Basket {
    BasketOf(Where(rows, Allowed(allowed)))
  }

  /** The basket's columns are the allowed products the rows carry, its rows the
      invoices with such a product, and a cell is set exactly when the pair's summed
      quantity is positive. */
  lemma PrepareBasketShape(rows: seq<Row>, allowed: set<Item>)
    ensures var b := PrepareBasket(rows, allowed);
            && b.items <= allowed
            && (forall d :: d in b.items <==> d in allowed && d in DescriptionSet(rows))
            && (forall i :: i in b.invoices <==>
                  exists r :: r in rows && r.invoice == i && r.description in allowed)
            && b.cells.Keys == b.invoices
            && (forall i :: i in b.invoices ==> b.cells[i].Keys == b.items)
            && (forall i, d :: i in b.invoices && d in b.items ==>
                  (b.cells[i][d] <==> PairQuantity(rows, i, d) > 0))
  {
    KeptRows(rows, allowed);
    PairQuantityOfAllowed(rows, allowed);
    BasketOfShape(Where(rows, Allowed(allowed)));
  }

  lemma KeptRows(rows: seq<Row>, allowed: set<Item>)
    ensures forall r :: r in Where(rows, Allowed(allowed)) <==> r in rows && r.description in allowed
  {
    var kept := Where(rows, Allowed(allowed));
    forall r | r in rows && r.description in allowed ensures r in kept {
      assert Allowed(allowed)(r);
      assert multiset(kept)[r] == multiset(rows)[r];
    }
  }

  /** Selecting the allowed products leaves the sums of allowed pairs alone. */
  lemma {:induction false} PairQuantityOfAllowed(rows: seq<Row>, allowed: set<Item>)
    ensures forall i, d :: d in allowed ==>
              PairQuantity(Where(rows, Allowed(allowed)), i, d) == PairQuantity(rows, i, d)
  {
    if rows != [] {
      PairQuantityOfAllowed(rows[1..], allowed);
    }
  }

  /** A pair with a non-zero sum has a row. */
  lemma {:induction false} PairQuantityWitness(rows: seq<Row>, i: Invoice, d: Item)
    requires PairQuantity(rows, i, d) != 0
    ensures exists r :: r in rows && r.invoice == i && r.description == d
  {
    if rows[0].invoice != i || rows[0].description != d {
      PairQuantityWitness(rows[1..], i, d);
    }
  }

  /** The cell of (invoice, product) is set exactly when the product is allowed and
      its summed quantity on that invoice is positive. */
  lemma BasketCell(rows: seq<Row>, allowed: set<Item>, i: Invoice, d: Item)
    ensures var b := PrepareBasket(rows, allowed);
            (i in b.invoices && d in b.items && b.cells[i][d])
            <==> (d in allowed && PairQuantity(rows, i, d) > 0)
  {
    PrepareBasketShape(rows, allowed);
    if d in allowed && PairQuantity(rows, i, d) > 0 {
      PairQuantityWitness(rows, i, d);
    }
  }

  /** The basket is empty exactly when no row carries an allowed product. */
  lemma BasketEmpty(rows: seq<Row>, allowed: set<Item>)
    ensures PrepareBasket(rows, allowed).IsEmpty() <==> forall r :: r in rows ==> r.description !in allowed
  {
    var b := PrepareBasket(rows, allowed);
    PrepareBasketShape(rows, allowed);
    forall r | r in rows && r.description in allowed ensures !b.IsEmpty() {
      assert r.description in DescriptionSet(rows);
      assert r.invoice in b.invoices && r.description in b.items;
    }
    if !b.IsEmpty() {
      var d :| d in b.items;
      var r :| r in rows && r.description == d;
      assert r.description in allowed;
    }
  }
}
