# Online-retail analysis pipeline: a verified model of its relational core

The pipeline reads a spreadsheet of retail transactions, cleans it and then
analyses it. It computes daily statistics, ranks countries by revenue and mines
per-country association rules with Apriori. Finally it writes a Word report.
This project models the logic under those steps in Dafny.

- **Transactions** (`transactions.dfy`): the row record and `df[mask]` row selection (`Where`).
- **Cleaning** (`cleaning.dfy`): `clean_transactions`, three row filters applied in turn.
- **Frames** (`frames.dfy`): the caller's DataFrame as a class. `basic_stats` and
  `get_top_revenue_countries` write its TotalValue column in place.
- **DailyStats** (`daily.dfy`): the per-date aggregation of `basic_stats`. For each
  date it gives the distinct invoices, the summed quantity and the summed TotalValue.
- **Ranking** (`ranking.dfy`): `get_top_revenue_countries`. It groups by country,
  sums revenue, sorts in descending order and applies pandas `head`.
- **Baskets** (`baskets.dfy`): the allowed-item rule and `prepare_basket`, which
  builds the boolean invoice x product matrix.
- **Mining** (`mining.dfy`): the control flow of `run_apriori_analysis`. It covers
  the early return, the four per-country skips and the two result files a saved
  country writes. The output directory is a class whose file map the loop updates.
  The mining library is a pair of arbitrary functions, each of which may raise.
- **Report** (`report.dfy`): the basket section of `generate_word_report`. It
  lists the itemsets tables, reads each country off its file name, counts
  itemsets and rules, and concatenates the lines.
- **Strings** (`strings.dfy`): the Python string operations these steps use:
  `startswith`, `endswith`, `split(...)[0]`, sorting, `str(int)` and `strip`.

## Model

| member | source | states |
|---|---|---|
| Transactions.Where | data_utils.py:8-10 | the mask keeps only rows satisfying the condition, at most as many as the input, and every satisfying row with its full multiplicity |
| Transactions.WhereIsSubsequence | data_utils.py:8-10 | a mask selection is an order-preserving subsequence of its input |
| Cleaning.CleanTransactions | data_utils.py:6-11 | the result is the selection by the three conditions; every kept row has quantity > 0, an invoice not starting with 'C' and a customer; every input row meeting the three is kept, as often as it occurs |
| Cleaning.CleanRows | data_utils.py:8-10 | a row is in the cleaned table iff it is an input row meeting the three conditions; the credit-note test is "first character is 'C'" |
| Cleaning.ChainedSelections | data_utils.py:8-10 | the three successive selections equal one selection by their conjunction |
| Cleaning.CleanIsSubsequence | data_utils.py:7-11 | the cleaned table is the input with rows deleted, none reordered or altered |
| Cleaning.CleanIdempotent | data_utils.py:6-11 | cleaning a cleaned table returns it unchanged |
| Frames.GroupSum | analysis_utils.py:24-27 | a group's sum of the written TotalValue column; see `DailyStats.ColumnRevenueOn` and `Ranking.ColumnRevenue` |
| Frames.Frame.AssignTotalValue | analysis_utils.py:15 | writes the TotalValue column in place and leaves the rows alone |
| DailyStats.Dates | analysis_utils.py:24 | the group keys are strictly increasing and are exactly the dates of the table |
| DailyStats.InvoicesOn | analysis_utils.py:25 | the distinct invoices of one date's rows; see `DailyStats.Daily` and `DailyStats.DailyTransactionsTotal` |
| DailyStats.QuantityOn | analysis_utils.py:26 | the summed quantity of one date's rows; see `DailyStats.DailyQuantityTotal` |
| DailyStats.RevenueOn | analysis_utils.py:27 | the summed TotalValue of one date's rows; see `DailyStats.ColumnRevenueOn` and `DailyStats.DailyRevenueTotal` |
| DailyStats.ColumnRevenueOn | analysis_utils.py:15-27 | summing the TotalValue column written into the frame over one date's rows gives that date's revenue |
| DailyStats.Daily | analysis_utils.py:24-32 | one record per date of the table, in increasing date order; each holds that date's number of distinct invoices, summed quantity and summed TotalValue |
| DailyStats.DailyQuantityTotal | analysis_utils.py:24-27 | the daily quantities add up to the table's total quantity |
| DailyStats.DailyRevenueTotal | analysis_utils.py:24-27 | the daily revenues add up to the table's total TotalValue |
| DailyStats.DailyTransactionsTotal | analysis_utils.py:24-25 | when each invoice falls on one date, the daily transaction counts add up to the number of distinct invoices |
| DailyStats.DailyTransactionsAtLeast | analysis_utils.py:24-25 | for every table, the daily transaction counts add up to at least the number of distinct invoices |
| DailyStats.BasicStats | analysis_utils.py:13-32 | assigns the caller's TotalValue column, keeps its rows, returns the daily table, and each day's revenue is the sum of the written column over that day's rows |
| Ranking.Countries | analysis_utils.py:69 | the groups are the table's countries, each once |
| Ranking.Revenue | analysis_utils.py:69-70 | one country's summed TotalValue; see `Ranking.ColumnRevenue` and `Ranking.TopRevenueCountries` |
| Ranking.ColumnRevenue | analysis_utils.py:67-70 | summing the TotalValue column written into the frame over one country's rows gives that country's revenue |
| Ranking.SortByRevenue | analysis_utils.py:70-71 | the result is a permutation of the groups, ordered by non-increasing revenue |
| Ranking.Head | analysis_utils.py:72 | `head(n)` is a prefix of length min(n, len) for n >= 0, and max(0, len + n) for negative n |
| Ranking.TopRevenueCountries | analysis_utils.py:68-74 | at most top_n countries, distinct, all present in the table, in non-increasing revenue order; every country left out earns no more than the last one returned |
| Ranking.DistinctByMultiset | analysis_utils.py:70-71 | reordering a list without repetitions leaves it without repetitions |
| Ranking.GetTopRevenueCountries | analysis_utils.py:66-75 | assigns the caller's TotalValue column, keeps its rows, returns the ranking, ordered by the sums of the written column per country |
| Baskets.ProductCounts | analysis_utils.py:86 | the counts have a key for each product of the table, holding the number of rows that carry it |
| Baskets.AllowedItems | analysis_utils.py:86-88 | a product is allowed iff it occurs in the table at least threshold times |
| Baskets.PrepareBasket | analysis_utils.py:77-81 | the basket of the allowed products; also the global basket (90-92) and each country's (105-108); see `Baskets.PrepareBasketShape` |
| Baskets.PrepareBasketShape | analysis_utils.py:77-81 | the columns are the allowed products the rows carry, the rows are the invoices carrying one, and a cell is set iff the pair's summed quantity is positive |
| Baskets.BasketCell | analysis_utils.py:78-80 | the cell (invoice, product) is set iff the product is allowed and the pair's summed quantity is positive |
| Baskets.BasketEmpty | analysis_utils.py:90-94 | the basket is empty iff no row carries an allowed product |
| Mining.FileNamesDistinct | analysis_utils.py:130-131 | an itemsets file name is never a rules file name, and each kind of name determines its country |
| Mining.Decide | analysis_utils.py:110-128 | the per-country decision; see `Mining.MineBasket` |
| Mining.Record | analysis_utils.py:130-133 | a saved country's two tables written under their names, nothing written otherwise; see `Mining.SavedCountryFiles` |
| Mining.Written | analysis_utils.py:102-133 | the files after the countries in order; see `Mining.OtherFilesUntouched`, `Mining.SkippedCountryWritesNothing`, `Mining.SavedCountryFiles` |
| Mining.OtherFilesUntouched | analysis_utils.py:102-133 | a file no listed country names keeps what it held |
| Mining.SkippedCountryWritesNothing | analysis_utils.py:110-128 | a country skipped for little data, an exception or no itemsets leaves its two result names as they were |
| Mining.SavedCountryFiles | analysis_utils.py:130-133 | a saved country ends with its itemsets and rules tables, whatever the other countries did |
| Mining.EarlyReturnLosesNothing | analysis_utils.py:94-96 | with an empty global basket every country's basket is too small, so returning early writes what the loop would have |
| Mining.RunAprioriAnalysis | analysis_utils.py:83-135 | the directory exists afterwards; its files are unchanged if the global basket is empty, otherwise they are the result of the country loop |
| Mining.AnalyseCountries | analysis_utils.py:102-135 | the loop over the countries leaves the files written country by country according to each one's decision |
| Mining.MineCountry | analysis_utils.py:104-108 | a country's decision, made on its basket of allowed products |
| Mining.MineBasket | analysis_utils.py:110-128 | the outcome is too little data iff the basket is empty or has fewer than two columns, apriori-raised iff apriori raises on a large enough basket, no-itemsets iff it finds none, and saved iff both calls succeed with some itemsets, holding exactly what the two calls returned |
| Report.ParseCountry | analysis_utils.py:345 | the country read off a file name; see `Report.ParseCountryRoundTrip` and `Strings.SplitHead` |
| Report.ParseCountryRoundTrip | analysis_utils.py:345 | splitting the itemsets file name written for a country gives the country back, provided the name does not contain the suffix |
| Report.ItemsetsListing | analysis_utils.py:343 | the names are sorted, are exactly the listed itemsets files, and occur as often as they were listed |
| Report.ListingOrderIrrelevant | analysis_utils.py:343 | the order of the directory listing does not change the sorted names |
| Report.RulesCount | analysis_utils.py:346-350 | the row count of the country's rules table, 0 when there is none; see `Report.EntryCounts` |
| Report.Entries | analysis_utils.py:344-352 | one entry per listed file, in listing order |
| Report.EntryCounts | analysis_utils.py:345-351 | each entry counts its table's itemsets, and the rules of the rules table of its country, or 0 when there is none |
| Report.Line | analysis_utils.py:352 | each line is non-empty and ends with a newline |
| Report.InfoEmpty | analysis_utils.py:341-352 | the accumulated text is empty iff there are no entries, and otherwise ends with the last entry's line |
| Report.NoticeWhenNoTables | analysis_utils.py:342-353 | with a listing naming exactly the directory's files: the fixed notice appears when the directory is absent or holds no itemsets table, and the stripped text of the lines otherwise |
| Report.SavedCountryReported | analysis_utils.py:343-352 | a country with both tables on disk gets a line with its itemset and rule counts |
| Report.AnalysisThenReport | analysis_utils.py:130-133 | every country the analysis saves is reported with the numbers of itemsets and rules mining found |
| Report.Summary | analysis_utils.py:341-353 | the paragraph of the basket section; see `Report.NoticeWhenNoTables` and `Report.BasketSummary` |
| Report.BasketSummary | analysis_utils.py:341-353 | the loop's paragraph is the summary of the directory |
| Strings.SplitHead | analysis_utils.py:345 | when the separator occurs, the result is the prefix ending where it first occurs: it occurs right after the result and starts at no earlier index; otherwise the whole string |
| Strings.SortIgnoresOrder | analysis_utils.py:343 | `sorted` gives the same list for any arrangement of the same names |
| Strings.NatToStringRoundTrip | analysis_utils.py:352 | the decimal text of a count is all digits and reads back as the count |
| Strings.Strip | analysis_utils.py:353 | the result has no leading or trailing whitespace and is a slice of the input |

## Left out

- Reading the spreadsheet and writing and reading CSV files are not modelled. A
  written table is the value it holds, and reading it back gives its row count.
- Plotting (`plot_all_basic_stats`), the other sections of the Word document and
  `main.py` are not part of this model.
- Console output is not modelled. This includes the per-country messages of
  `run_apriori_analysis` and the summaries printed by `basic_stats`.
- Prices and TotalValue are exact `real`s. Floating-point rounding and the rounded
  mean, median, min and max statistics are not modelled.
- `basic_stats` also computes per-invoice and per-product sums (lines 20-22). Those
  are only printed or saved, so they are not modelled.
- `pd.to_datetime` (line 14) is not modelled. Rows carry an already parsed
  timestamp, whose date is a day number.
- `product_counts.quantile(0.80)`: the threshold is a parameter of
  `Mining.RunAprioriAnalysis` and `Baskets.AllowedItems`, not computed.
- `apriori` and `association_rules` are arbitrary functions that may raise. Their
  results are not checked against any definition of support or confidence.
- Missing values (NaN) are not modelled in any column but Customer ID. The
  source's `groupby("Country")` drops rows without a country, the per-country
  mask never selects them, and a missing Price or Quantity makes that row's
  TotalValue NaN, which groupby's sum skips, so the row adds nothing to its
  group.
  A `Row` always has a description, a quantity, a price and a country. The
  Invoice is held by its string form.
- Ranking.TopRevenueCountries: among countries with equal revenue, the model's
  order comes from a stable insertion sort. The source's depends on pandas' sort
  algorithm. Every stated property holds whatever the tie order is.
- Mining.RunAprioriAnalysis: creating the directory is modelled as setting
  `present`. A failure of `os.makedirs` is not modelled. `os.path.join` is plain
  concatenation keyed by file name; a country name containing '/' is treated as
  an ordinary name.
- Report.BasketSummary: the directory listing is a parameter naming exactly the
  files of the directory. Its order is left open, and
  `Report.ListingOrderIrrelevant` shows it does not matter.
- The loop body of `run_apriori_analysis` is split into `Mining.MineCountry` and
  `Mining.MineBasket`. The source's `continue`s are early returns there.
- `clean_transactions` copies the table before filtering. The model's tables are
  values, so the caller's table cannot change.
