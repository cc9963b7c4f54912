/**
 The Basket Miner, `run_apriori_analysis`: build the global basket over the
 allowed products and give up at once if it is empty; otherwise, for each
 listed country in turn, build its basket and skip it (and go on with the
 next) when the basket is empty or has fewer than two columns, when mining
 raises, when it finds no itemsets, or when deriving rules raises; a country
 that passes all of that gets its itemsets and its rules written to
 "{country}_frequent_itemsets.csv" and "{country}_association_rules.csv".

 The mining library is not modelled: its two calls are the fields of a
 `Miner`, any functions at all, each of which may raise.
 */
module Mining {

  import opened Wrappers
  import opened Transactions
  import opened Baskets

  /** `min_support` passed to `apriori`. */
  const MinSupport: real := 0.2
  /** `min_threshold` passed to `association_rules` with the confidence metric. */
  const MinConfidence: real := 0.8

  datatype Itemset = Itemset(items: set<Item>, support: real)
  datatype Rule = Rule(antecedents: set<Item>, consequents: set<Item>,
                       support: real, confidence: real, lift: real)

  /** What a library call gives back: a value, or an exception. */
  datatype Mined<T> = Mined(value: T) | Raised

  datatype Miner = Miner(
    apriori: (Basket, real) -> Mined<seq<Itemset>>,
    associationRules: (seq<Itemset>, real) -> Mined<seq<Rule>>)

  /** What happened to one country; every case but `Saved` is a skip. */
  datatype Outcome =
    | TooLittleData
    | AprioriRaised
    | NoItemsets
    | RulesRaised
    | Saved(itemsets: seq<Itemset>, rules: seq<Rule>)

  /** A written result table; reading it back gives its rows. */
  datatype ResultFile = ItemsetTable(itemsets: seq<Itemset>) | RuleTable(rules: seq<Rule>)

  function RowCount(f: ResultFile): nat {
    match f
    case ItemsetTable(s) => |s|
    case RuleTable(s) => |s|
  }

  const ItemsetsSuffix: string := "_frequent_itemsets.csv"
  const RulesSuffix: string := "_association_rules.csv"

  function ItemsetsFileName(country: Country): string {
    country + ItemsetsSuffix
  }

  function RulesFileName(country: Country): string {
    country + RulesSuffix
  }

  /** No two countries share a result file, and no itemsets file is a rules file. */
  lemma FileNamesDistinct(c1: Country, c2: Country)
    ensures ItemsetsFileName(c1) != RulesFileName(c2)
    ensures ItemsetsFileName(c1) == ItemsetsFileName(c2) ==> c1 == c2
    ensures RulesFileName(c1) == RulesFileName(c2) ==> c1 == c2
  {
    var a, b := ItemsetsFileName(c1), RulesFileName(c2);
    if |a| == |b| {
      assert a[|a| - 6] == 't' && b[|b| - 6] == 'e';
    }
    if ItemsetsFileName(c1) == ItemsetsFileName(c2) {
      assert c1 == ItemsetsFileName(c1)[..|c1|] && c2 == ItemsetsFileName(c2)[..|c2|];
    }
    if RulesFileName(c1) == RulesFileName(c2) {
      assert c1 == RulesFileName(c1)[..|c1|] && c2 == RulesFileName(c2)[..|c2|];
    }
  }

  function CountryRows(rows: seq<Row>, country: Country): seq<Row> {
    Where(rows, (r: Row) => r.country == country)
  }

  /** The decision the loop body takes for one country. */
  function CountryOutcome(rows: seq<Row>, allowed: set<Item>, country: Country, miner: Miner): Outcome {
    Decide(PrepareBasket(CountryRows(rows, country), allowed), miner)
  }

  /** Skip a basket that is empty or has fewer than two products, or whose mining
      raises, finds nothing, or whose rule derivation raises. */
  function Decide(basket: Basket, miner: Miner): Outcome {
    if basket.IsEmpty() || basket.Columns() < 2 then TooLittleData
    else match miner.apriori(basket, MinSupport)
      case Raised => AprioriRaised
      case Mined(itemsets) =>
        if |itemsets| == 0 then NoItemsets
        else match miner.associationRules(itemsets, MinConfidence)
          case Raised => RulesRaised
          case Mined(rules) => Saved(itemsets, rules)
  }

  /** The files after one country: its two tables written (or overwritten) if it was saved. */
  function Record(files: map<string, ResultFile>, country: Country, outcome: Outcome): map<string, ResultFile> {
    match outcome
    case Saved(itemsets, rules) =>
      files[ItemsetsFileName(country) := ItemsetTable(itemsets)][RulesFileName(country) := RuleTable(rules)]
    case _ => files
  }

  /** The files after writing, country by country, what each outcome calls for. */
  function Written(files: map<string, ResultFile>, countries: seq<Country>, outcomes: seq<Outcome>): map<string, ResultFile>
    requires |outcomes| == |countries|
  {
    if countries == [] then files
    else
      var n := |countries| - 1;
      Record(Written(files, countries[..n], outcomes[..n]), countries[n], outcomes[n])
  }

  /** The per-country decisions of the loop, in order. */
  function Outcomes(rows: seq<Row>, allowed: set<Item>, countries: seq<Country>, miner: Miner): (outcomes: seq<Outcome>)
    ensures |outcomes| == |countries|
    ensures forall k :: 0 <= k < |countries| ==> outcomes[k] == CountryOutcome(rows, allowed, countries[k], miner)
  {
    seq(|countries|, k requires 0 <= k < |countries| => CountryOutcome(rows, allowed, countries[k], miner))
  }

  /** The files after the loop has gone through `countries`. */
  function AfterCountries(files: map<string, ResultFile>, rows: seq<Row>, allowed: set<Item>,
                          countries: seq<Country>, miner: Miner): map<string, ResultFile>
  {
    Written(files, countries, Outcomes(rows, allowed, countries, miner))
  }

  function Lookup(files: map<string, ResultFile>, name: string): Option<ResultFile> {
    if name in files then Some(files[name]) else None
  }

  /** A file no listed country names is left as it was. */
  lemma {:induction false} WrittenElsewhere(files: map<string, ResultFile>, countries: seq<Country>,
                                            outcomes: seq<Outcome>, name: string)
    requires |outcomes| == |countries|
    requires forall c :: c in countries ==> name != ItemsetsFileName(c) && name != RulesFileName(c)
    ensures Lookup(Written(files, countries, outcomes), name) == Lookup(files, name)
  {
    if countries != [] {
      var n := |countries| - 1;
      assert countries[n] in countries;
      assert forall c :: c in countries[..n] ==> c in countries;
      WrittenElsewhere(files, countries[..n], outcomes[..n], name);
    }
  }

  /** A country that is skipped wherever it is listed writes no file. */
  lemma {:induction false} WrittenSkipped(files: map<string, ResultFile>, countries: seq<Country>,
                                          outcomes: seq<Outcome>, country: Country)
    requires |outcomes| == |countries|
    requires forall k :: 0 <= k < |countries| && countries[k] == country ==> !outcomes[k].Saved?
    ensures var after := Written(files, countries, outcomes);
            Lookup(after, ItemsetsFileName(country)) == Lookup(files, ItemsetsFileName(country))
            && Lookup(after, RulesFileName(country)) == Lookup(files, RulesFileName(country))
  {
    if countries != [] {
      var n := |countries| - 1;
      WrittenSkipped(files, countries[..n], outcomes[..n], country);
      FileNamesDistinct(country, countries[n]);
      FileNamesDistinct(countries[n], country);
    }
  }

  /** A country saved wherever it is listed has its two tables afterwards. */
  lemma {:induction false} WrittenSaved(files: map<string, ResultFile>, countries: seq<Country>,
                                        outcomes: seq<Outcome>, country: Country, outcome: Outcome)
    requires |outcomes| == |countries|
    requires country in countries && outcome.Saved?
    requires forall k :: 0 <= k < |countries| && countries[k] == country ==> outcomes[k] == outcome
    ensures var after := Written(files, countries, outcomes);
            Lookup(after, ItemsetsFileName(country)) == Some(ItemsetTable(outcome.itemsets))
            && Lookup(after, RulesFileName(country)) == Some(RuleTable(outcome.rules))
  {
    var n := |countries| - 1;
    if countries[n] != country {
      assert country in countries[..n] by {
        var k :| 0 <= k < |countries| && countries[k] == country;
        assert countries[..n][k] == country;
      }
      WrittenSaved(files, countries[..n], outcomes[..n], country, outcome);
      FileNamesDistinct(country, countries[n]);
      FileNamesDistinct(countries[n], country);
    } else {
      FileNamesDistinct(country, country);
    }
  }

  /** After the loop, a file no listed country names is left as it was. */
  lemma OtherFilesUntouched(files: map<string, ResultFile>, rows: seq<Row>, allowed: set<Item>,
                            countries: seq<Country>, miner: Miner, name: string)
    requires forall c :: c in countries ==> name != ItemsetsFileName(c) && name != RulesFileName(c)
    ensures Lookup(AfterCountries(files, rows, allowed, countries, miner), name) == Lookup(files, name)
  {
    WrittenElsewhere(files, countries, Outcomes(rows, allowed, countries, miner), name);
  }

  /** After the loop, a skipped country's two result names keep what they held. */
  lemma SkippedCountryWritesNothing(files: map<string, ResultFile>, rows: seq<Row>,
                                    allowed: set<Item>, countries: seq<Country>,
                                    miner: Miner, country: Country)
    requires !CountryOutcome(rows, allowed, country, miner).Saved?
    ensures var after := AfterCountries(files, rows, allowed, countries, miner);
            Lookup(after, ItemsetsFileName(country)) == Lookup(files, ItemsetsFileName(country))
            && Lookup(after, RulesFileName(country)) == Lookup(files, RulesFileName(country))
  {
    WrittenSkipped(files, countries, Outcomes(rows, allowed, countries, miner), country);
  }

  /** After the loop, every saved country has its tables on disk, whatever the
      countries around it did. */
  lemma SavedCountryFiles(files: map<string, ResultFile>, rows: seq<Row>,
                          allowed: set<Item>, countries: seq<Country>,
                          miner: Miner, country: Country)
    requires country in countries
    requires CountryOutcome(rows, allowed, country, miner).Saved?
    ensures var after := AfterCountries(files, rows, allowed, countries, miner);
            var outcome := CountryOutcome(rows, allowed, country, miner);
            Lookup(after, ItemsetsFileName(country)) == Some(ItemsetTable(outcome.itemsets))
            && Lookup(after, RulesFileName(country)) == Some(RuleTable(outcome.rules))
  {
    WrittenSaved(files, countries, Outcomes(rows, allowed, countries, miner), country,
                 CountryOutcome(rows, allowed, country, miner));
  }

  /** Nothing is written for countries that are all skipped. */
  lemma {:induction false} AllSkipped(files: map<string, ResultFile>, countries: seq<Country>, outcomes: seq<Outcome>)
    requires |outcomes| == |countries|
    requires forall k :: 0 <= k < |outcomes| ==> !outcomes[k].Saved?
    ensures Written(files, countries, outcomes) == files
  {
    if countries != [] {
      var n := |countries| - 1;
      AllSkipped(files, countries[..n], outcomes[..n]);
    }
  }

  /** An empty global basket leaves every country's basket empty, so returning
      early writes exactly what running the loop would. */
  lemma EarlyReturnLosesNothing(files: map<string, ResultFile>, rows: seq<Row>,
                                allowed: set<Item>, countries: seq<Country>, miner: Miner)
    requires PrepareBasket(rows, allowed).IsEmpty()
    ensures forall c :: CountryOutcome(rows, allowed, c, miner) == TooLittleData
    ensures AfterCountries(files, rows, allowed, countries, miner) == files
  {
    BasketEmpty(rows, allowed);
    forall c ensures CountryOutcome(rows, allowed, c, miner) == TooLittleData {
      BasketEmpty(CountryRows(rows, c), allowed);
    }
    AllSkipped(files, countries, Outcomes(rows, allowed, countries, miner));
  }

  /** The output directory: whether it exists, and the tables it holds by name. */
  class ResultDirectory {
    var present: bool
    var files: map<string, ResultFile>

    constructor (present: bool, files: map<string, ResultFile>)
      ensures this.present == present && this.files == files
    {
      this.present := present;
      this.files := files;
    }
  }

  /** `run_apriori_analysis`. */
  method RunAprioriAnalysis(rows: seq<Row>, countries: seq<Country>, supportThreshold: real,
                            miner: Miner, dir: ResultDirectory)
    modifies dir
    ensures dir.present
    ensures var allowed := AllowedItems(rows, supportThreshold);
            dir.files == if PrepareBasket(rows, allowed).IsEmpty() then old(dir.files)
                         else AfterCountries(old(dir.files), rows, allowed, countries, miner)
  {
    dir.present := true;
    var allowed := AllowedItems(rows, supportThreshold);
    var globalBasket := PrepareBasket(rows, allowed);
    if globalBasket.IsEmpty() {
      return;
    }
    AnalyseCountries(rows, allowed, countries, miner, dir);
  }

  /** The loop of `run_apriori_analysis` over the listed countries. */
  method AnalyseCountries(rows: seq<Row>, allowed: set<Item>, countries: seq<Country>,
                          miner: Miner, dir: ResultDirectory)
    modifies dir
    ensures dir.present == old(dir.present)
    ensures dir.files == AfterCountries(old(dir.files), rows, allowed, countries, miner)
  {
    for k := 0 to |countries|
      invariant dir.present == old(dir.present)
      invariant dir.files == AfterCountries(old(dir.files), rows, allowed, countries[..k], miner)
    {
      var country := countries[k];
      var outcome := MineCountry(rows, allowed, country, miner);
      NextCountry(old(dir.files), rows, allowed, countries, k, miner);
      if outcome.Saved? {
        dir.files := dir.files[ItemsetsFileName(country) := ItemsetTable(outcome.itemsets)];
        dir.files := dir.files[RulesFileName(country) := RuleTable(outcome.rules)];
      }
    }
    assert countries[..|countries|] == countries;
  }

  /** One more country extends the files by its outcome. */
  lemma NextCountry(files: map<string, ResultFile>, rows: seq<Row>, allowed: set<Item>,
                    countries: seq<Country>, k: nat, miner: Miner)
    requires k < |countries|
    ensures AfterCountries(files, rows, allowed, countries[..k + 1], miner)
            == Record(AfterCountries(files, rows, allowed, countries[..k], miner), countries[k],
                      CountryOutcome(rows, allowed, countries[k], miner))
  {
    var front := countries[..k + 1];
    assert front[..k] == countries[..k];
    var log := Outcomes(rows, allowed, front, miner);
    assert log[..k] == Outcomes(rows, allowed, countries[..k], miner);
  }

  /** The body of the loop for one country, up to writing its files. */
  method MineCountry(rows: seq<Row>, allowed: set<Item>, country: Country, miner: Miner)
    returns (outcome: Outcome)
    ensures outcome == CountryOutcome(rows, allowed, country, miner)
  {
    var basket := PrepareBasket(CountryRows(rows, country), allowed);
    outcome := MineBasket(basket, miner);
  }

  /** The steps of the loop body between building a country's basket and writing
      its files, each of which may end the iteration early. */
  method MineBasket(basket: Basket, miner: Miner) returns (outcome: Outcome)
    ensures outcome == Decide(basket, miner)
    ensures outcome == TooLittleData <==> basket.IsEmpty() || basket.Columns() < 2
    ensures outcome == AprioriRaised <==>
              !basket.IsEmpty() && basket.Columns() >= 2 && miner.apriori(basket, MinSupport).Raised?
    ensures outcome == NoItemsets <==>
              !basket.IsEmpty() && basket.Columns() >= 2 && miner.apriori(basket, MinSupport) == Mined([])
    ensures outcome.Saved? <==>
              && !basket.IsEmpty() && basket.Columns() >= 2
              && miner.apriori(basket, MinSupport).Mined? && miner.apriori(basket, MinSupport).value != []
              && miner.associationRules(miner.apriori(basket, MinSupport).value, MinConfidence).Mined?
    ensures outcome.Saved? ==>
              && Mined(outcome.itemsets) == miner.apriori(basket, MinSupport)
              && Mined(outcome.rules) == miner.associationRules(outcome.itemsets, MinConfidence)
  {
    if basket.IsEmpty() || basket.Columns() < 2 {
      return TooLittleData;
    }
    var freqItems := miner.apriori(basket, MinSupport);
    if freqItems.Raised? {
      return AprioriRaised;
    }
    if |freqItems.value| == 0 {
      return NoItemsets;
    }
    var rules := miner.associationRules(freqItems.value, MinConfidence);
    if rules.Raised? {
      return RulesRaised;
    }
    return Saved(freqItems.value, rules.value);
  }
}
