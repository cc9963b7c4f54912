/**
 The basket section of `generate_word_report`: list the result directory,
 keep the itemset tables, sort their names, read each one's country off its
 name, count its itemsets and the rules of the country's rules table (0 when
 there is none), and write one line per country; the paragraph is the
 stripped text, or a fixed notice when there is nothing to say.
 */
module Report {

  import opened Wrappers
  import opened Transactions
  import opened Mining
  import Strings

  /** `f.split("_frequent_itemsets.csv")[0]`. */
  function ParseCountry(f: string): Country {
    Strings.SplitHead(f, ItemsetsSuffix)
  }

  /** Inside `c + "_frequent_itemsets.csv"` the suffix cannot start before `c`
      ends unless `c` itself contains it: its last character, 'v', occurs in it
      nowhere else. */
  lemma NoEarlierSuffix(c: Country)
    requires !Strings.Contains(c, ItemsetsSuffix)
    ensures forall i: nat :: i < |c| ==> !Strings.OccursAt(ItemsetsFileName(c), ItemsetsSuffix, i)
  {
    var s, n := ItemsetsFileName(c), |ItemsetsSuffix|;
    forall i: nat | i < |c| ensures !Strings.OccursAt(s, ItemsetsSuffix, i) {
      if i + n <= |c| {
        assert s[i..i + n] == c[i..i + n];
        assert !Strings.OccursAt(c, ItemsetsSuffix, i);
      } else if i + n <= |s| {
        var j := i + n - 1 - |c|;
        assert 0 <= j < n - 1;
        assert s[i + n - 1] == ItemsetsSuffix[j];
        assert ItemsetsSuffix[j] != 'v';
        assert s[i..i + n][n - 1] == s[i + n - 1];
      }
    }
  }

  /** The country written into an itemsets file name is read back from it,
      provided the country's own name does not contain the suffix. */
  lemma ParseCountryRoundTrip(c: Country)
    requires !Strings.Contains(c, ItemsetsSuffix)
    ensures ParseCountry(ItemsetsFileName(c)) == c
  {
    var s := ItemsetsFileName(c);
    assert Strings.OccursAt(s, ItemsetsSuffix, |c|);
    var r := ParseCountry(s);
    NoEarlierSuffix(c);
    assert |r| == |c|;
    assert r == s[..|c|];
  }

  predicate IsItemsetsFile(f: string) {
    Strings.EndsWith(f, ItemsetsSuffix)
  }

  /** `sorted(f for f in os.listdir(dir) if f.endswith("_frequent_itemsets.csv"))`. */
  function ItemsetsListing(listing: seq<string>): (names: seq<string>)
    ensures Strings.Sorted(names)
    ensures forall f :: f in names <==> f in listing && IsItemsetsFile(f)
    ensures forall f :: f in names ==> multiset(names)[f] == multiset(listing)[f]
  {
    var kept := Where(listing, IsItemsetsFile);
    var names := Strings.Sort(kept);
    assert forall f :: f in names <==> f in multiset(kept);
    names
  }

  /** The order `os.listdir` happens to return does not change the listing. */
  lemma ListingOrderIrrelevant(l1: seq<string>, l2: seq<string>)
    requires multiset(l1) == multiset(l2)
    ensures ItemsetsListing(l1) == ItemsetsListing(l2)
  {
    var k1, k2 := Where(l1, IsItemsetsFile), Where(l2, IsItemsetsFile);
    forall f ensures multiset(k1)[f] == multiset(k2)[f] {
      if f !in l1 {
        assert f !in l2 by { assert f !in multiset(l2); }
        assert f !in k1 && f !in k2;
      }
    }
    assert multiset(k1) == multiset(k2);
    Strings.SortIgnoresOrder(k1, k2);
  }

  /** One line of the report. */
  datatype Entry = Entry(country: Country, itemsets: nat, rules: nat)

  /** The row count of the country's rules table, 0 when there is none. */
  function RulesCount(files: map<string, ResultFile>, country: Country): nat {
    match Lookup(files, RulesFileName(country))
    case Some(table) => RowCount(table)
    case None => 0
  }

  function EntryOf(files: map<string, ResultFile>, f: string): Entry
    requires f in files
  {
    var country := ParseCountry(f);
    Entry(country, RowCount(files[f]), RulesCount(files, country))
  }

  /** The entries of the listed itemsets files, in listing order. */
  function Entries(files: map<string, ResultFile>, names: seq<string>): (entries: seq<Entry>)
    requires forall f :: f in names ==> f in files
    ensures |entries| == |names|
    ensures forall k :: 0 <= k < |names| ==> entries[k] == EntryOf(files, names[k])
  {
    if names == [] then []
    else
      var n := |names| - 1;
      Entries(files, names[..n]) + [EntryOf(files, names[n])]
  }

  /** `f"{country}: {len(freq_df)} zbiorów częstych, {rules_count} reguł\n"`. */
  function Line(e: Entry): (line: string)
    ensures |line| > 0 && line[|line| - 1] == '\n'
  {
    e.country + ": " + Strings.NatToString(e.itemsets) + " zbiorów częstych, "
    + Strings.NatToString(e.rules) + " reguł\n"
  }

  /** The text `koszyk_info` accumulates. */
  function Info(entries: seq<Entry>): string {
    if entries == [] then ""
    else
      var n := |entries| - 1;
      Info(entries[..n]) + Line(entries[n])
  }

  const NoBasketData: string := "Brak danych koszykowych."

  /** The paragraph of the basket section. */
  function Summary(present: bool, files: map<string, ResultFile>, listing: seq<string>): string
    requires present ==> forall f :: f in listing <==> f in files
  {
    var info := if present then Info(Entries(files, ItemsetsListing(listing))) else "";
    if info != "" then Strings.Strip(info) else NoBasketData
  }

  /** The text is empty exactly when there are no entries, and otherwise ends with
      the last entry's line. */
  lemma {:induction false} InfoEmpty(entries: seq<Entry>)
    ensures Info(entries) == [] <==> entries == []
    ensures entries != [] ==> Strings.EndsWith(Info(entries), Line(entries[|entries| - 1]))
  {
    if entries != [] {
      var n := |entries| - 1;
      var front, last := Info(entries[..n]), Line(entries[n]);
      assert (front + last)[|front + last| - |last|..] == last;
    }
  }

  /** The fixed notice appears exactly when the directory is absent or holds no
      itemsets table. */
  lemma NoticeWhenNoTables(present: bool, files: map<string, ResultFile>, listing: seq<string>)
    requires present ==> forall f :: f in listing <==> f in files
    ensures (!present || ItemsetsListing(listing) == []) ==> Summary(present, files, listing) == NoBasketData
    ensures present && ItemsetsListing(listing) != [] ==>
              Summary(present, files, listing) == Strings.Strip(Info(Entries(files, ItemsetsListing(listing))))
    ensures present ==> (ItemsetsListing(listing) == [] <==> forall f :: f in files ==> !IsItemsetsFile(f))
  {
    if present {
      InfoEmpty(Entries(files, ItemsetsListing(listing)));
      var names := ItemsetsListing(listing);
      if names != [] {
        assert names[0] in names;
      }
    }
  }

  /** Each line counts its table's itemsets and the rules of the country read off
      its name, or 0 rules when that country has no rules table. */
  lemma EntryCounts(files: map<string, ResultFile>, names: seq<string>)
    requires forall f :: f in names ==> f in files
    ensures forall k :: 0 <= k < |names| ==>
              var e := Entries(files, names)[k];
              && e.country == ParseCountry(names[k])
              && e.itemsets == RowCount(files[names[k]])
              && (RulesFileName(e.country) !in files ==> e.rules == 0)
              && (RulesFileName(e.country) in files ==> e.rules == RowCount(files[RulesFileName(e.country)]))
  {
  }

  lemma EntryListed(files: map<string, ResultFile>, names: seq<string>, f: string)
    requires forall g :: g in names ==> g in files
    requires f in names
    ensures EntryOf(files, f) in Entries(files, names)
  {
    var k :| 0 <= k < |names| && names[k] == f;
    assert Entries(files, names)[k] == EntryOf(files, f);
  }

  /** A country whose two tables are in the directory gets the line with its
      itemset and rule counts. */
  lemma SavedCountryReported(files: map<string, ResultFile>, listing: seq<string>, country: Country,
                             itemsets: seq<Itemset>, rules: seq<Rule>)
    requires forall f :: f in listing <==> f in files
    requires !Strings.Contains(country, ItemsetsSuffix)
    requires Lookup(files, ItemsetsFileName(country)) == Some(ItemsetTable(itemsets))
    requires Lookup(files, RulesFileName(country)) == Some(RuleTable(rules))
    ensures Entry(country, |itemsets|, |rules|) in Entries(files, ItemsetsListing(listing))
  {
    var f := ItemsetsFileName(country);
    assert Strings.EndsWith(f, ItemsetsSuffix) by {
      assert f[|f| - |ItemsetsSuffix|..] == ItemsetsSuffix;
    }
    ParseCountryRoundTrip(country);
    EntryListed(files, ItemsetsListing(listing), f);
  }

  /** End to end: every country the analysis saves is reported with the number
      of itemsets and rules mining found for it. */
  lemma AnalysisThenReport(files: map<string, ResultFile>, rows: seq<Row>, allowed: set<Item>,
                           countries: seq<Country>, miner: Miner, country: Country, listing: seq<string>)
    requires country in countries
    requires CountryOutcome(rows, allowed, country, miner).Saved?
    requires !Strings.Contains(country, ItemsetsSuffix)
    requires forall f :: f in listing <==> f in AfterCountries(files, rows, allowed, countries, miner)
    ensures var outcome := CountryOutcome(rows, allowed, country, miner);
            Entry(country, |outcome.itemsets|, |outcome.rules|)
              in Entries(AfterCountries(files, rows, allowed, countries, miner), ItemsetsListing(listing))
  {
    var outcome := CountryOutcome(rows, allowed, country, miner);
    SavedCountryFiles(files, rows, allowed, countries, miner, country);
    SavedCountryReported(AfterCountries(files, rows, allowed, countries, miner), listing, country,
                         outcome.itemsets, outcome.rules);
  }

  /** One more listed file adds its entry's line to the text. */
  lemma NextEntry(files: map<string, ResultFile>, names: seq<string>, k: nat)
    requires k < |names| && forall f :: f in names ==> f in files
    ensures Info(Entries(files, names[..k + 1])) == Info(Entries(files, names[..k])) + Line(EntryOf(files, names[k]))
  {
    assert names[..k + 1][..k] == names[..k];
  }

  /** The basket section of `generate_word_report`, reading the directory. */
  method BasketSummary(dir: ResultDirectory, listing: seq<string>) returns (text: string)
    requires dir.present ==> forall f :: f in listing <==> f in dir.files
    ensures text == Summary(dir.present, dir.files, listing)
  {
    var info := "";
    if dir.present {
      var files := dir.files;
      var names := ItemsetsListing(listing);
      for k := 0 to |names|
        invariant info == Info(Entries(files, names[..k]))
      {
        NextEntry(files, names, k);
        var f := names[k];
        var country := Strings.SplitHead(f, ItemsetsSuffix);
        var rulesCount := 0;
        if RulesFileName(country) in files {
          rulesCount := RowCount(files[RulesFileName(country)]);
        }
        var itemsetsCount := RowCount(files[f]);
        info := info + Line(Entry(country, itemsetsCount, rulesCount));
      }
      assert names[..|names|] == names;
    }
    text := if info != "" then Strings.Strip(info) else NoBasketData;
  }
}
