/**
 The Country Ranker, `get_top_revenue_countries`: group the rows by country,
 sum TotalValue per group, sort the groups by that sum, largest first, and
 keep the first `top_n` (pandas `head`, which for a negative argument drops
 that many from the end instead).
 */
module Ranking {

  import opened Transactions
  import opened Frames

  function CountrySet(rows: seq<Row>): set<Country> {
    set r | r in rows :: r.country
  }

  predicate Distinct(s: seq<Country>) {
    forall i, j :: 0 <= i < j < |s| ==> s[i] != s[j]
  }

  /** The groups of `groupby("Country")`: each country of the table once. */
  function Countries(rows: seq<Row>): (cs: seq<Country>)
    ensures Distinct(cs)
    ensures forall c :: c in cs <==> c in CountrySet(rows)
  {
    if rows == [] then []
    else
      var front, last := rows[..|rows| - 1], rows[|rows| - 1];
      assert rows == front + [last];
      assert CountrySet(rows) == CountrySet(front) + {last.country};
      var rest := Countries(front);
      if last.country in rest then rest else rest + [last.country]
  }

  /** `groupby("Country")["TotalValue"].sum()` for one country. */
  function Revenue(rows: seq<Row>, c: Country): real {
    if rows == [] then 0.0
    else (if rows[0].country == c then TotalValue(rows[0]) else 0.0) + Revenue(rows[1..], c)
  }

  /** Summing the TotalValue column the caller's frame holds over one country's
      rows gives that country's revenue. */
  lemma {:induction false} ColumnRevenue(rows: seq<Row>, c: Country)
    ensures GroupSum(rows, TotalValues(rows), (r: Row) => r.country == c) == Revenue(rows, c)
  {
    if rows != [] {
      TotalValuesTail(rows);
      ColumnRevenue(rows[1..], c);
    }
  }

  predicate ByRevenueDescending(rows: seq<Row>, cs: seq<Country>) {
    forall i, j :: 0 <= i < j < |cs| ==> Revenue(rows, cs[i]) >= Revenue(rows, cs[j])
  }

  function InsertByRevenue(rows: seq<Row>, c: Country, cs: seq<Country>): (r: seq<Country>)
    ensures multiset(r) == multiset(cs) + multiset{c}
  {
    if cs == [] then [c]
    else if Revenue(rows, c) >= Revenue(rows, cs[0]) then [c] + cs
    else
      assert cs == [cs[0]] + cs[1..];
      [cs[0]] + InsertByRevenue(rows, c, cs[1..])
  }

  /** Inserting a country below a revenue bound of the list keeps the bound. */
  lemma InsertKeepsRevenueBound(rows: seq<Row>, bound: real, c: Country, cs: seq<Country>)
    requires bound >= Revenue(rows, c) && forall j :: 0 <= j < |cs| ==> bound >= Revenue(rows, cs[j])
    ensures forall k :: 0 <= k < |InsertByRevenue(rows, c, cs)| ==> bound >= Revenue(rows, InsertByRevenue(rows, c, cs)[k])
  {
    var r := InsertByRevenue(rows, c, cs);
    forall k | 0 <= k < |r| ensures bound >= Revenue(rows, r[k]) {
      assert r[k] in multiset(r);
      if r[k] != c {
        assert r[k] in multiset(cs);
        var j :| 0 <= j < |cs| && cs[j] == r[k];
      }
    }
  }

  lemma {:induction false} InsertByRevenueSorted(rows: seq<Row>, c: Country, cs: seq<Country>)
    requires ByRevenueDescending(rows, cs)
    ensures ByRevenueDescending(rows, InsertByRevenue(rows, c, cs))
  {
    if cs != [] && Revenue(rows, c) < Revenue(rows, cs[0]) {
      InsertByRevenueSorted(rows, c, cs[1..]);
      InsertKeepsRevenueBound(rows, Revenue(rows, cs[0]), c, cs[1..]);
      var rest := InsertByRevenue(rows, c, cs[1..]);
      var r := [cs[0]] + rest;
      forall i, j | 0 <= i < j < |r| ensures Revenue(rows, r[i]) >= Revenue(rows, r[j]) {
        if i == 0 {
          assert r[j] == rest[j - 1];
        } else {
          assert r[i] == rest[i - 1] && r[j] == rest[j - 1];
        }
      }
    }
  }

  /** `sort_values(ascending=False)` of the per-country sums. */
  function SortByRevenue(rows: seq<Row>, cs: seq<Country>): (r: seq<Country>)
    ensures ByRevenueDescending(rows, r)
    ensures multiset(r) == multiset(cs)
  {
    if cs == [] then []
    else
      assert cs == [cs[0]] + cs[1..];
      InsertByRevenueSorted(rows, cs[0], SortByRevenue(rows, cs[1..]));
      InsertByRevenue(rows, cs[0], SortByRevenue(rows, cs[1..]))
  }

  function Min(a: int, b: int): int { if a <= b then a else b }
  function Max(a: int, b: int): int { if a >= b then a else b }

  /** pandas `head(n)`: the first n elements; for negative n, all but the last -n. */
  function Head(s: seq<Country>, n: int): (r: seq<Country>)
    ensures |r| == if n >= 0 then Min(n, |s|) else Max(0, |s| + n)
    ensures r == s[..|r|]
  {
    if n >= 0 then (if n <= |s| then s[..n] else s)
    else if |s| + n >= 0 then s[..|s| + n]
    else []
  }

  function TopRevenueCountries(rows: seq<Row>, topN: int): (top: seq<Country>)
    ensures |top| == if topN >= 0 then Min(topN, |CountrySet(rows)|) else Max(0, |CountrySet(rows)| + topN)
    ensures Distinct(top)
    ensures forall c :: c in top ==> c in CountrySet(rows)
    ensures ByRevenueDescending(rows, top)
    ensures forall c :: c in CountrySet(rows) && c !in top && top != [] ==>
              Revenue(rows, c) <= Revenue(rows, top[|top| - 1])
  {
    TopFacts(rows, topN);
    Head(SortByRevenue(rows, Countries(rows)), topN)
  }

  lemma TopFacts(rows: seq<Row>, topN: int)
    ensures var top := Head(SortByRevenue(rows, Countries(rows)), topN);
            && |top| == (if topN >= 0 then Min(topN, |CountrySet(rows)|) else Max(0, |CountrySet(rows)| + topN))
            && Distinct(top)
            && (forall c :: c in top ==> c in CountrySet(rows))
            && ByRevenueDescending(rows, top)
            && (forall c :: c in CountrySet(rows) && c !in top && top != [] ==>
                  Revenue(rows, c) <= Revenue(rows, top[|top| - 1]))
  {
    var sorted := SortByRevenue(rows, Countries(rows));
    SortedCountries(rows);
    NotReturnedBound(rows, sorted, topN);
    var top := Head(sorted, topN);
    PrefixKeepsOrder(rows, sorted, |top|);
  }

  /** A prefix of a ranking is a ranking, without repetitions if the whole is. */
  lemma PrefixKeepsOrder(rows: seq<Row>, s: seq<Country>, n: nat)
    requires n <= |s| && Distinct(s) && ByRevenueDescending(rows, s)
    ensures Distinct(s[..n]) && ByRevenueDescending(rows, s[..n])
    ensures forall c :: c in s[..n] ==> c in s
  {
  }

  /** The sorted groups are the table's countries, each once. */
  lemma SortedCountries(rows: seq<Row>)
    ensures var sorted := SortByRevenue(rows, Countries(rows));
            && Distinct(sorted)
            && |sorted| == |CountrySet(rows)|
            && forall c :: c in sorted <==> c in CountrySet(rows)
  {
    var groups := Countries(rows);
    var sorted := SortByRevenue(rows, groups);
    DistinctCardinality(groups);
    assert (set c | c in groups) == CountrySet(rows);
    DistinctByMultiset(groups, sorted);
    assert |sorted| == |multiset(sorted)| == |multiset(groups)| == |groups|;
    forall c ensures c in sorted <==> c in groups {
      assert c in sorted <==> c in multiset(sorted);
    }
  }

  /** Whatever `head` leaves out ranks no higher than the last one it keeps. */
  lemma NotReturnedBound(rows: seq<Row>, sorted: seq<Country>, n: int)
    requires ByRevenueDescending(rows, sorted)
    ensures var top := Head(sorted, n);
            forall c :: c in sorted && c !in top && top != [] ==>
              Revenue(rows, c) <= Revenue(rows, top[|top| - 1])
  {
    var top := Head(sorted, n);
    forall c | c in sorted && c !in top && top != []
      ensures Revenue(rows, c) <= Revenue(rows, top[|top| - 1])
    {
      var j :| 0 <= j < |sorted| && sorted[j] == c;
      assert |top| <= j;
      assert sorted[|top| - 1] == top[|top| - 1];
    }
  }

  lemma {:induction false} DistinctCardinality(s: seq<Country>)
    requires Distinct(s)
    ensures |set c | c in s| == |s|
  {
    if s != [] {
      var front := s[..|s| - 1];
      assert s == front + [s[|s| - 1]];
      DistinctCardinality(front);
      assert (set c | c in s) == (set c | c in front) + {s[|s| - 1]};
    }
  }

  lemma {:induction false} DistinctCountsOnce(s: seq<Country>)
    requires Distinct(s)
    ensures forall c :: multiset(s)[c] <= 1
  {
    if s != [] {
      assert s == [s[0]] + s[1..];
      DistinctCountsOnce(s[1..]);
      assert s[0] !in s[1..];
    }
  }

  /** A rearrangement of a list without repetitions has none either. */
  lemma DistinctByMultiset(s: seq<Country>, t: seq<Country>)
    requires Distinct(s) && multiset(s) == multiset(t)
    ensures Distinct(t)
  {
    DistinctCountsOnce(s);
    forall i, j | 0 <= i < j < |t| ensures t[i] != t[j] {
      assert t == t[..j] + t[j..];
      assert t[i] in t[..j];
      assert t[j] in t[j..];
      assert multiset(t)[t[j]] == multiset(t[..j])[t[j]] + multiset(t[j..])[t[j]];
    }
  }

  /** `get_top_revenue_countries`: assigns the caller's TotalValue column, then ranks. */
  method GetTopRevenueCountries(df: Frame, topN: int) returns (top: seq<Country>)
    modifies df
    ensures df.rows == old(df.rows)
    ensures df.totalValue.Some? && df.totalValue.value == TotalValues(df.rows)
    ensures top == TopRevenueCountries(df.rows, topN)
    ensures forall i, j :: 0 <= i < j < |top| ==>
              GroupSum(df.rows, df.totalValue.value, (r: Row) => r.country == top[i])
              >= GroupSum(df.rows, df.totalValue.value, (r: Row) => r.country == top[j])
  {
    df.AssignTotalValue();
    top := TopRevenueCountries(df.rows, topN);
    forall c ensures GroupSum(df.rows, df.totalValue.value, (r: Row) => r.country == c) == Revenue(df.rows, c) {
      ColumnRevenue(df.rows, c);
    }
  }
}
