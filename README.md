# goldpricespln data scripts, modelled in Dafny

This project models the Python scripts that assemble the data files of the
goldpricespln site. The site shows Polish prices in grams of gold. The
scripts modelled are these:

- `fetch_nbp_gold_prices.py` (module `NbpGoldPrices`). It downloads the NBP
  daily gold price in request windows of at most 93 days, sorts the prices by
  date, and averages them per month and per year.
- `fetch_nbp_gold_price_today.py` (module `NbpGoldToday`). It downloads the
  last 30 days in one request, sorts them newest first, and picks the head.
- `fetch_eurostat_min_wages.py` (module `EurostatMinWages`). It reads the
  half-yearly minimum wages of Poland out of a JSON-stat answer at the
  row-major cell of `(0, NAC, 0, time)` and averages them per year.
- `fetch_eurostat_avg_wages.py` (module `EurostatAvgWages`). It reads the
  yearly average wages, sorted by year.
- The code both Eurostat scripts share (module `GoldReference`):
  - the yearly gold lookup table;
  - the wage-to-gold join.

  The same module holds the monthly gold lookup of the Warsaw and stock
  scripts.
- `fetch_warsaw_m2_prices.py`, which is split into three modules:
  - `WarsawPeriod`: the quarter-label parser with its three regular
    expressions;
  - `WarsawM2`: the spreadsheet scan and the gold join;
  - `WarsawInterpolation`: the quarterly-to-monthly interpolation.
- `fetch_stock_prices.py` (module `StockPrices`, class `StockPriceFetcher`).
  It builds monthly bars from a daily frame, adds the gold equivalent of
  each close, and names the output file.
- `update_all_data.py` (module `UpdateAllData`, class `DataUpdater`). It
  runs the scripts in dependency order and validates their files.

Four shared modules support these:

- `Common`: keys, stable sort, grouping, means.
- `Text`: ASCII character classes, `lower`, `strip`, and Python's `int()`
  of a string.
- `Calendar`: `date.toordinal()` and the Warsaw running month number.
- `JsonStat`: the row-major flat index.

The outside world enters as parameters, each modelled as a value or an
oracle function:

- an HTTP answer is `None` when the request raises, otherwise the decoded
  JSON;
- a file is missing, malformed or parsed;
- `subprocess.run` is an outcome oracle;
- today is a day number.

An exception that ends a function is modelled as an `Option` result
(`None`).

Where the code and its documented intent disagree, the model follows the code:

- Two consecutive quarters are not interpolated. Their mid-quarter months
  are exactly three apart, and the test is `month2 > month1 + 3`.
  `WarsawInterpolation.ConsecutiveQuartersStep` shows the step this
  produces.
- A gold price of zero raises `ZeroDivisionError` in the Warsaw join and in
  the stock aggregation. The whole call fails; it does not just leave one
  record without a gold value.
- A Polish `12 kw 2020` label yields quarter 12, because the `kw` branch has
  no upper bound.

## Model

| member | source | states |
|---|---|---|
| NbpGoldPrices.FirstStartValue | scripts/fetch_nbp_gold_prices.py:90-92 | the first window starts at 2013-01-02 for any start year up to 2013, and at 1 January of the start year from 2014 on |
| NbpGoldPrices.ChunkPlanEnds | scripts/fetch_nbp_gold_prices.py:98-107 | a window is requested exactly when the start is not after today; the first window starts at the start day and the last ends today |
| NbpGoldPrices.ChunkPlanBounds | scripts/fetch_nbp_gold_prices.py:99-101 | every window lies inside [start, today] and spans at most 93 days |
| NbpGoldPrices.ChunkPlanSteps | scripts/fetch_nbp_gold_prices.py:100-107 | every window but the last spans the full 93 days, and the next window starts the day after the previous one ends |
| NbpGoldPrices.ChunkPlanOrdered | scripts/fetch_nbp_gold_prices.py:98-107 | the windows are increasing and do not overlap |
| NbpGoldPrices.ChunkPlanShape | scripts/fetch_nbp_gold_prices.py:98-107 | all of the window facts together: the ends, the bounds, the steps and the order |
| NbpGoldPrices.ChunkPlanCoversOnce | scripts/fetch_nbp_gold_prices.py:98-107 | every day from the start to today lies in exactly one window: no gap and no double request |
| NbpGoldPrices.ChunkPlanExample | scripts/fetch_nbp_gold_prices.py:91-107 | from the earliest day with today 2013-04-10, the windows are 2013-01-02..2013-04-05 and 2013-04-06..2013-04-10 |
| NbpGoldPrices.ConvertEntries | scripts/fetch_nbp_gold_prices.py:65-69 | one record per API entry, in order, with the date from `data` and the price from `cena` |
| NbpGoldPrices.FetchPriceRange | scripts/fetch_nbp_gold_prices.py:58-76 | a failed request yields nothing; otherwise the converted entries of the answer |
| NbpGoldPrices.FailedChunkSkipped | scripts/fetch_nbp_gold_prices.py:74-76 | a failed window adds nothing, and the windows after it are still collected |
| NbpGoldPrices.CollectedConcat | scripts/fetch_nbp_gold_prices.py:103-104 | the records of a plan are the records of its parts, concatenated: each window only extends the list |
| NbpGoldPrices.RequestWindows | scripts/fetch_nbp_gold_prices.py:98-107 | the loop requests exactly the planned windows and gathers their records window after window |
| NbpGoldPrices.FetchAllData | scripts/fetch_nbp_gold_prices.py:78-113 | a start year that `datetime` rejects yields no result and no request; otherwise the planned windows are requested, and the result is the stable date sort of their records: sorted, and a permutation of them |
| NbpGoldPrices.AggregateToMonthly | scripts/fetch_nbp_gold_prices.py:115-150 | one record per month that occurs in the input, months strictly ascending, each the mean of that month's daily prices |
| NbpGoldPrices.MonthlyBucketsPartition | scripts/fetch_nbp_gold_prices.py:127-134 | the months' buckets together hold every daily price exactly once |
| NbpGoldPrices.MonthlyEmpty | scripts/fetch_nbp_gold_prices.py:125-150 | no daily prices give no monthly records |
| NbpGoldPrices.MonthlyExample | scripts/fetch_nbp_gold_prices.py:127-147 | two January 2013 prices, 160 and 166, give the single record January 2013 at 163 |
| NbpGoldPrices.ToYearlyAverage | scripts/fetch_nbp_gold_prices.py:152-179 | one record per year that occurs, years strictly ascending, each the unweighted mean of that year's monthly prices |
| NbpGoldToday.NewestFirstOrder | scripts/fetch_nbp_gold_price_today.py:86 | the key of the reverse sort orders dates from later to earlier, and ties exactly on equal dates |
| NbpGoldToday.FetchLast30Days | scripts/fetch_nbp_gold_price_today.py:46-93 | one request for the window from 30 days before today to today; a failure or an empty answer yields nothing; otherwise the converted entries, sorted newest first, as a permutation of the answer |
| NbpGoldToday.GetMostRecentPrice | scripts/fetch_nbp_gold_price_today.py:95-111 | nothing exactly for an empty list; otherwise an element of the list (its head) |
| NbpGoldToday.MostRecentIsLatest | scripts/fetch_nbp_gold_price_today.py:105-111 | on a newest-first list, no entry has a later date than the head |
| NbpGoldToday.LatestOfAnswer | scripts/fetch_nbp_gold_price_today.py:77-111 | for a non-empty answer, the reported price is one the API sent, no entry has a later date, and it is the first entry of its date in the API's order |
| GoldReference.PairKeysMembers | scripts/fetch_eurostat_avg_wages.py:47-50 | a key is in the table exactly when some pair carries it |
| GoldReference.LastWriteStep | scripts/fetch_eurostat_avg_wages.py:48-50 | one more assignment keeps the last-write-wins description of the dict |
| GoldReference.LastWriteDuplicate | scripts/fetch_eurostat_avg_wages.py:48-50 | the description fixes the dict: with two entries for 2020, the later one's price is the one kept |
| GoldReference.YearPricePairsMembers | scripts/fetch_eurostat_avg_wages.py:48-50 | the pairs are exactly the (year, price) of the entries that have both fields; other entries are skipped |
| GoldReference.LoadYearlyGold | scripts/fetch_eurostat_avg_wages.py:29-60 | a missing or unreadable file gives an empty dict; otherwise the keys are the years of the complete entries, each with the price of its last entry; `fetch_eurostat_min_wages.py` lines 37-68 are the same code |
| GoldReference.MonthPricePairs | scripts/fetch_warsaw_m2_prices.py:300-302 | at most one pair per entry, and exactly one when every entry has year, month and price |
| GoldReference.MonthPricePairsMembers | scripts/fetch_warsaw_m2_prices.py:300-302 | a ((year, month), price) pair is listed exactly when some entry has that year, month and price |
| GoldReference.LoadMonthlyGold | scripts/fetch_warsaw_m2_prices.py:286-311 | the table exists exactly when the file parsed and every entry has year, month and price (the KeyError raises); it is the last-write-wins dict of the (year, month) pairs |
| GoldReference.CombineWithGoldPrices | scripts/fetch_eurostat_avg_wages.py:191-222 | one record per wage, in order, with its year and wage; a gold value exactly when the year has a positive gold price, and that value times the gold price gives back the wage; `fetch_eurostat_min_wages.py` lines 249-280 are the same code |
| EurostatAvgWages.AvgEntryReads | scripts/fetch_eurostat_avg_wages.py:162-181 | a time category yields a wage exactly when its code reads as that year, the year is in range, and the cell keyed by its index holds the wage |
| EurostatAvgWages.ParseAvgResponse | scripts/fetch_eurostat_avg_wages.py:130-185 | the wages of the time categories, sorted by year (equal years in input order), as a permutation of those wages |
| EurostatAvgWages.ParsedWages | scripts/fetch_eurostat_avg_wages.py:156-185 | a wage is in the parsed list exactly when some time category reads it |
| EurostatAvgWages.FetchAvgWageData | scripts/fetch_eurostat_avg_wages.py:82-128 | a failed request gives an empty list; an answer gives the sorted wages |
| EurostatMinWages.DashPos | scripts/fetch_eurostat_min_wages.py:200-203 | the position of the first dash: it holds a dash and nothing before it does |
| EurostatMinWages.NoDash | scripts/fetch_eurostat_min_wages.py:200 | no dash is counted exactly when the `'-' not in time_code` test holds |
| EurostatMinWages.SplitAtDash | scripts/fetch_eurostat_min_wages.py:203 | with one dash, the code is the year part, the dash and the semester part, and neither part holds a dash |
| EurostatMinWages.FlatIndexRowMajor | scripts/fetch_eurostat_min_wages.py:190-218 | for four dimensions, the stride sum is JSON-stat's row-major position of (0, NAC, 0, time) |
| EurostatMinWages.FlatIndexDistinct | scripts/fetch_eurostat_min_wages.py:190-218 | two different (currency, time) positions inside the cube read different cells |
| EurostatMinWages.ReadSemesters | scripts/fetch_eurostat_min_wages.py:198-229 | a code with two dashes makes the unpacking raise; otherwise the half-year values of the codes, in order |
| EurostatMinWages.AnnualAverages | scripts/fetch_eurostat_min_wages.py:231-241 | one wage per year that occurs, years strictly ascending, each the mean of that year's half-year values |
| EurostatMinWages.ParseApiResponse | scripts/fetch_eurostat_min_wages.py:137-247 | a missing NAC category, fewer than four sizes, or a two-dash code raise; otherwise the yearly means of the half-year values |
| EurostatMinWages.FetchWageData | scripts/fetch_eurostat_min_wages.py:90-135 | a failed request and a failed parse both give an empty list; otherwise the yearly means |
| EurostatMinWages.SemestersFromCodes | scripts/fetch_eurostat_min_wages.py:198-227 | every half-year value has a year in the range and is the value some time code reads: one dash, its year part, and the cell at its flat index |
| EurostatMinWages.SemesterOfReads | scripts/fetch_eurostat_min_wages.py:200-227 | a time code yields a half-year value exactly when it has one dash, its year part reads as a year of the range, and the cell at its flat index holds the value |
| EurostatMinWages.AnnualWageWithinSemesters | scripts/fetch_eurostat_min_wages.py:234-236 | a yearly wage lies between the smallest and the largest of that year's half-year values |
| JsonStat.RowMajorRange | scripts/fetch_eurostat_min_wages.py:187-218 | positions inside the cube get flat indices from 0 up to, but not including, the product of the sizes |
| JsonStat.RowMajorInjective | scripts/fetch_eurostat_min_wages.py:187-218 | different positions inside the cube get different flat indices |
| WarsawPeriod.FirstMatchLeftmost | scripts/fetch_warsaw_m2_prices.py:170 | the search fails exactly when no position matches; otherwise it returns the match at the leftmost matching position |
| WarsawPeriod.FirstMatchAt | scripts/fetch_warsaw_m2_prices.py:170 | a match with no match before it is what the search returns |
| WarsawPeriod.RunEnd | scripts/fetch_warsaw_m2_prices.py:176 | the greedy `+` run: every character up to the end is in the class, and the one at the end is not |
| WarsawPeriod.YearValueIsInt | scripts/fetch_warsaw_m2_prices.py:172 | `int` of the four matched digits is their value |
| WarsawPeriod.RomanQuarter | scripts/fetch_warsaw_m2_prices.py:178-180 | the table gives quarters 1..4 only |
| WarsawPeriod.QMatch | scripts/fetch_warsaw_m2_prices.py:184-186 | a `q` digit gives a quarter in 1..4 |
| WarsawPeriod.ParsePeriodYear | scripts/fetch_warsaw_m2_prices.py:169-172 | a year is found exactly when some 20xx number stands as a whole word; it is the leftmost one, always in 2000..2099 |
| WarsawPeriod.QQuarterRange | scripts/fetch_warsaw_m2_prices.py:183-186 | `Q` quarters are 1..4 |
| WarsawPeriod.KwGroupChars | scripts/fetch_warsaw_m2_prices.py:191 | a `kw` group is a non-empty run of the characters 1-4, i and v |
| WarsawPeriod.KwDigitsValue | scripts/fetch_warsaw_m2_prices.py:196-200 | `int` of a `kw` group succeeds only on plain digits, with a value of at least 1 |
| WarsawPeriod.ParsePeriodQuarter | scripts/fetch_warsaw_m2_prices.py:174-202 | every quarter found is at least 1; one above 4 comes only from a digit `kw` group, when neither the roman nor the `Q` form matched |
| WarsawPeriod.RomanLabel | scripts/fetch_warsaw_m2_prices.py:174-180 | "I 2006" is year 2006, quarter 1 |
| WarsawPeriod.QLabel | scripts/fetch_warsaw_m2_prices.py:182-186 | "Q1 2023" is year 2023, quarter 1 |
| WarsawPeriod.RomanKwLabel | scripts/fetch_warsaw_m2_prices.py:176-195 | "I kw. 2023": the roman search needs whitespace and a 20xx number right after the letters, so it fails, and the `kw` form gives quarter 1 |
| WarsawPeriod.ArabicKwLabel | scripts/fetch_warsaw_m2_prices.py:189-198 | "1 kw. 2023" is year 2023, quarter 1 |
| WarsawPeriod.WideKwLabel | scripts/fetch_warsaw_m2_prices.py:189-198 | "12 kw 2020" is year 2020 with quarter 12: the `kw` branch has no upper bound |
| WarsawPeriod.OldLabel | scripts/fetch_warsaw_m2_prices.py:170-180 | "I 1999" gives neither a year nor a quarter |
| WarsawPeriod.NoCenturyDigits | scripts/fetch_warsaw_m2_prices.py:170-180 | text without a 2 has neither a year nor a roman quarter |
| WarsawPeriod.DigitsNotRoman | scripts/fetch_warsaw_m2_prices.py:194-198 | a run of digits is no roman numeral of the table, so `int` decides |
| WarsawM2.FindWarsawColumn | scripts/fetch_warsaw_m2_prices.py:97-110 | no header exactly when none of the first 20 rows holds a Warsaw cell; otherwise the first such row and the first Warsaw cell in it, both 1-based |
| WarsawM2.ExtractWarsawQuarterlyPrices | scripts/fetch_warsaw_m2_prices.py:68-143 | no header gives the ValueError; otherwise the records of every row below the header row, in row order |
| WarsawM2.RowRecordsConcat | scripts/fetch_warsaw_m2_prices.py:113-140 | the rows are read independently and in order |
| WarsawM2.RowRecordsValid | scripts/fetch_warsaw_m2_prices.py:113-140 | every record has a year in 2000..2099 and a positive quarter, and comes from one of the rows |
| WarsawM2.PeriodCellRead | scripts/fetch_warsaw_m2_prices.py:118-137 | a non-empty text period whose stripped text parses, with a non-zero number price, gives that year, quarter and price |
| WarsawM2.QuarterRowRead | scripts/fetch_warsaw_m2_prices.py:113-137 | the row " Q1 2023", 1, 15000 with the Warsaw column 3 gives 2023 Q1 at 15000 |
| WarsawM2.FalsyRowsDropped | scripts/fetch_warsaw_m2_prices.py:118-119 | a zero price, a blank period or a missing price cell skips the row |
| WarsawM2.ConvertToGoldEquivalent | scripts/fetch_warsaw_m2_prices.py:313-364 | a zero gold price for a record's month raises; otherwise every record is kept in order with its month and PLN price, and gets a gold value exactly when its month has a gold price; that value times the gold price gives back the PLN price |
| WarsawInterpolation.QuarterOfMonth | scripts/fetch_warsaw_m2_prices.py:234-237 | a month is one of an entry's three quarter months exactly when the entry has that month's year and quarter |
| WarsawInterpolation.FirstPass | scripts/fetch_warsaw_m2_prices.py:228-240 | the two loops of the first pass build the first-pass dict |
| WarsawInterpolation.OverlayAt | scripts/fetch_warsaw_m2_prices.py:234-240 | one entry sets the months of its quarter that are not above 12, and no other month |
| WarsawInterpolation.FirstPassValue | scripts/fetch_warsaw_m2_prices.py:227-240 | after the first pass, a month is present exactly when it is not above 12 and some entry has its quarter; its price is that of the last such entry |
| WarsawInterpolation.LerpBetween | scripts/fetch_warsaw_m2_prices.py:259-261 | a straight-line value strictly between two mid-quarter months lies between the two prices |
| WarsawInterpolation.FillPairsAt | scripts/fetch_warsaw_m2_prices.py:243-272 | the second pass drops no month and overwrites no value; the months it adds are the valid months inside a gap, each with the straight-line value of the first pair whose gap holds it |
| WarsawInterpolation.SecondPass | scripts/fetch_warsaw_m2_prices.py:243-272 | the two loops of the second pass compute the gap filling over the sorted pairs |
| WarsawInterpolation.SortedRecords | scripts/fetch_warsaw_m2_prices.py:275-281 | every month of the dict appears once, strictly ascending by (year, month), with its price |
| WarsawInterpolation.Interpolate | scripts/fetch_warsaw_m2_prices.py:204-284 | no quarters give no months; otherwise the months of the two-pass dict, once each and ascending, each with its price |
| WarsawInterpolation.SortedQuartersOrder | scripts/fetch_warsaw_m2_prices.py:223 | the sorted quarters are in (year, quarter) order and are a permutation of the input |
| WarsawInterpolation.InterpolationKeys | scripts/fetch_warsaw_m2_prices.py:219-272 | a month is in the result exactly when some entry's quarter covers it or it lies in the gap of a consecutive sorted pair |
| WarsawInterpolation.QuarterMonthPrice | scripts/fetch_warsaw_m2_prices.py:228-272 | a month of a quarter carries the price of the last entry for that quarter; interpolation never overwrites it |
| WarsawInterpolation.GapMonthPrice | scripts/fetch_warsaw_m2_prices.py:243-272 | a month that no quarter covers is a valid month in the gap of the first pair holding it, with that pair's straight-line value, which lies between their prices |
| WarsawInterpolation.ConsecutiveQuartersStep | scripts/fetch_warsaw_m2_prices.py:254-258 | Q1 at 6000 and Q2 at 6300 of 2020 give January to June only, as a step from 6000 to 6300 with nothing interpolated |
| WarsawInterpolation.MissingQuarterFilled | scripts/fetch_warsaw_m2_prices.py:258-272 | Q1 at 6000 and Q3 at 6600 of 2020: April, May and June get 6200, 6300 and 6400, while March and July keep their own quarters' prices |
| WarsawInterpolation.GapMonthValue | scripts/fetch_warsaw_m2_prices.py:259-272 | in that gap, month m of 2020 gets 6000 + 100 * (m - 2) |
| StockPrices.Truncate | scripts/fetch_stock_prices.py:163 | `int()` of a float truncates toward zero |
| StockPrices.GroupHigh | scripts/fetch_stock_prices.py:160 | the month's high is the largest daily high, and is one of them |
| StockPrices.GroupLow | scripts/fetch_stock_prices.py:161 | the month's low is the smallest daily low, and is one of them |
| StockPrices.GoldEquivalent | scripts/fetch_stock_prices.py:166-171 | a gold value exactly when the month has a gold price; that value times the price gives back the close |
| StockPrices.MonthBar | scripts/fetch_stock_prices.py:152-171 | a bar's open, close and volume come from the last trading day; its high and low are the extremes of the month; its gold value is as above |
| StockPrices.ZeroGoldHit | scripts/fetch_stock_prices.py:167-169 | a month of the frame with a zero gold price makes the aggregation raise |
| StockPrices.MonthBars | scripts/fetch_stock_prices.py:152-173 | the group loop gives one bar per month in the given order, or fails at a zero gold price |
| StockPrices.AggregateOfMonths | scripts/fetch_stock_prices.py:146-175 | the bars of all months in ascending order form the monthly aggregate, and no day falls in a zero-gold month |
| StockPrices.StockPriceFetcher.constructor | scripts/fetch_stock_prices.py:41 | the gold table starts empty |
| StockPrices.StockPriceFetcher.LoadGoldPrices | scripts/fetch_stock_prices.py:76-102 | a missing or unreadable file, or an entry without year, month or price, gives False and keeps the old table; otherwise the table is replaced by the file's last-write-wins dict |
| StockPrices.StockPriceFetcher.AggregateToMonthly | scripts/fetch_stock_prices.py:136-175 | fails exactly when a day falls in a zero-gold month; otherwise one bar per calendar month, months ascending, each built from that month's rows |
| StockPrices.StockPriceFetcher.FetchStockData | scripts/fetch_stock_prices.py:104-134 | a failed download or an empty frame gives nothing; otherwise an aggregation failure gives nothing, and success gives a non-empty monthly aggregate |
| StockPrices.StockPriceFetcher.FetchAllStocks | scripts/fetch_stock_prices.py:208-235 | the gold table is loaded once; the saved files are, in configuration order, exactly those of the tickers whose download gave bars (a non-empty frame with no zero-gold month); each holds that ticker's monthly aggregate, is named after the ticker, has its currency label and counts its bars |
| StockPrices.SanitizedName | scripts/fetch_stock_prices.py:187 | the same length as the ticker, with dots and spaces turned into underscores and letters lowered |
| StockPrices.OutputFileName | scripts/fetch_stock_prices.py:187-188 | the sanitised ticker followed by `-monthly.json` |
| StockPrices.SaveToJson | scripts/fetch_stock_prices.py:190-198 | the document holds the ticker, the name, the currency label and the bars, and counts its data points as the number of bars |
| StockPrices.SanitizedNameCollides | scripts/fetch_stock_prices.py:187 | "PKN.WA", "pkn wa" and "PKN_WA" share the file name "pkn_wa" |
| StockPrices.CurrencyLabels | scripts/fetch_stock_prices.py:195 | "BP.L" is labelled PLN and "PKN.WA" local |
| StockPrices.SingleDayMonth | scripts/fetch_stock_prices.py:152-169 | a one-day month takes open, high, low and close from that day, and its gold value is the close over the month's gold price |
| StockPrices.OpenFromLastDay | scripts/fetch_stock_prices.py:154-163 | the open is the last day's, not the first day's, and the volume is truncated |
| UpdateAllData.ValidateFewerKeys | scripts/update_all_data.py:134-142 | expecting fewer keys never makes a valid file invalid |
| UpdateAllData.ValidateExamples | scripts/update_all_data.py:121-145 | a first entry with year, price and more keys is valid; an empty list, or a first entry lacking price, is not |
| UpdateAllData.ValidateNonObjectEntries | scripts/update_all_data.py:134-152 | a first entry that is a list holding the expected keys as strings is valid although it is no object; a number makes `in` raise, so the file is invalid |
| UpdateAllData.ValidateTextEntry | scripts/update_all_data.py:134-142 | a first entry that is a string is valid exactly when every expected key is a substring of it |
| UpdateAllData.DataUpdater.constructor | scripts/update_all_data.py:30-36 | the flags and directories are set, and nothing has been run or validated |
| UpdateAllData.DataUpdater.CommandShape | scripts/update_all_data.py:68-72 | the command is the interpreter, the script path, the step's arguments, and `-v` last in verbose mode |
| UpdateAllData.DataUpdater.RunScript | scripts/update_all_data.py:49-106 | a missing script fails without running anything; otherwise the command is run, and the call succeeds exactly when the process exits with 0 (a timeout or another exception is a failure) |
| UpdateAllData.DataUpdater.Validate | scripts/update_all_data.py:186-190 | with validation skipped nothing is recorded; otherwise the verdict is recorded, and it has no effect on the result |
| UpdateAllData.DataUpdater.GoldValidations | scripts/update_all_data.py:186-205 | the step-1 verdicts: both gold files with their expected keys, and none exactly when validation is skipped |
| UpdateAllData.DataUpdater.SecondaryValidations | scripts/update_all_data.py:226-256 | the step-2 verdicts: the Warsaw, minimum-wage and average-wage files, and none exactly when validation is skipped |
| UpdateAllData.DataUpdater.FetchGoldPrices | scripts/update_all_data.py:171-205 | both gold runs are always tried, in order; the step succeeds exactly when both succeed; the yearly and then the monthly gold file is validated even after a failed run |
| UpdateAllData.DataUpdater.RunValidated | scripts/update_all_data.py:220-230 | a run followed by the validation of its file; the validation does not change the outcome |
| UpdateAllData.DataUpdater.FetchSecondaryData | scripts/update_all_data.py:217-263 | the Warsaw, minimum-wage, average-wage and stock runs all happen, in order, whatever the earlier ones did; the step succeeds exactly when all four succeed; the first three files are validated and the stock run is not |
| UpdateAllData.DataUpdater.UpdateAll | scripts/update_all_data.py:154-291 | if a gold run fails, nothing else runs and the result is False; otherwise every secondary run and the timestamp run happen; the result is True exactly when every run succeeded; the gold files are always validated, the three secondary files only when step 2 runs |
| UpdateAllData.DataUpdater.AllStepsSucceed | scripts/update_all_data.py:282-291 | the result is True exactly when every step of the seven-step schedule succeeds |
| UpdateAllData.DataUpdater.FullSchedule | scripts/update_all_data.py:171-276 | with every script present, the commands run are the seven steps in their fixed order |
| Common.SortBySorted | scripts/fetch_nbp_gold_prices.py:110 | the stable sort's result is sorted by its key |
| Common.SortByPermutes | scripts/fetch_nbp_gold_prices.py:110 | the stable sort's result is a permutation of its input |
| Common.SortByStable | scripts/fetch_nbp_gold_prices.py:110 | the sort keeps the input order of the elements that share a key, as Python's sort does |
| Common.Group | scripts/fetch_nbp_gold_prices.py:127-134 | the buckets are keyed by exactly the keys that occur, and each holds the elements with its key, in input order |
| Common.SortedKeys | scripts/fetch_nbp_gold_prices.py:138 | `sorted(keys)`: every key once, strictly ascending |
| Common.MeanByKey | scripts/fetch_nbp_gold_prices.py:125-147 | one mean per key that occurs, keys strictly ascending, each the mean of its bucket |
| Common.BucketsPartition | scripts/fetch_nbp_gold_prices.py:127-134 | distinct keys covering every element split the input into buckets whose sizes add up to its length |
| Common.MeanBounds | scripts/fetch_nbp_gold_prices.py:140 | a mean lies between any lower and upper bound of its values |
| Common.MaxOf | scripts/fetch_stock_prices.py:160 | the maximum is one of the values and no value exceeds it |
| Common.MinOf | scripts/fetch_stock_prices.py:161 | the minimum is one of the values and no value is below it |
| Common.CollectMembers | scripts/fetch_warsaw_m2_prices.py:113-140 | a value is in the collected list exactly when some input element yields it |
| Text.Lower | scripts/fetch_warsaw_m2_prices.py:161 | `lower()` keeps the length and lowers every ASCII upper-case letter, leaving other characters as they are |
| Text.LowerIdempotent | scripts/fetch_warsaw_m2_prices.py:161 | lowered text has no upper-case letter, and lowering it again changes nothing |
| Text.ReplaceChar | scripts/fetch_stock_prices.py:187 | `replace` of one character keeps the length and swaps exactly the occurrences of that character |
| Text.Strip | scripts/fetch_warsaw_m2_prices.py:122 | stripped text neither starts nor ends with whitespace |
| Text.StripCutsSpace | scripts/fetch_warsaw_m2_prices.py:122 | `strip` removes only whitespace, and only from the two ends |
| Text.ParseIntRoundTrip | scripts/fetch_eurostat_avg_wages.py:162-174 | `int(str(n)) == n` for every integer |
| Text.ParseIntStrip | scripts/fetch_eurostat_avg_wages.py:165 | `int()` ignores surrounding whitespace |
| Text.ParseIntUnderscore | scripts/fetch_eurostat_avg_wages.py:165 | `int()` accepts single underscores between digits: "1_000" is 1000 |
| Text.ParseIntBadStart | scripts/fetch_eurostat_avg_wages.py:164-167 | text without whitespace at its ends that starts with neither a digit nor a sign raises ValueError |
| Text.ParseIntRejects | scripts/fetch_eurostat_avg_wages.py:164-167 | "20x3", "1__0" and "" raise ValueError |
| Text.DecimalValue | scripts/fetch_eurostat_avg_wages.py:174 | `str(n)` of a natural number is a digit string denoting n |
| Calendar.OrdinalOrder | scripts/fetch_nbp_gold_prices.py:98-107 | day numbers order dates like their (year, month, day) keys, and only equal dates share a day number |
| Calendar.DaysBeforeNextYear | scripts/fetch_nbp_gold_prices.py:100-107 | a year's day numbers run on from the previous year's, with 366 days in leap years |
| Calendar.EarliestDataOrdinal | scripts/fetch_nbp_gold_prices.py:92-107 | 2013-04-05 is 93 days after 2013-01-02, and 2013-04-06 and 2013-04-10 follow it |
| Calendar.FromMonthIndexInverse | scripts/fetch_warsaw_m2_prices.py:264-266 | turning a running month number back into a year and a month gives the original year and month |
| Calendar.MonthIndexInverse | scripts/fetch_warsaw_m2_prices.py:264-266 | the running month number of the year and month computed from an index is that index |
| Calendar.MonthIndexOrder | scripts/fetch_warsaw_m2_prices.py:254-266 | running month numbers order months like their (year, month) keys |

## Left out

- HTTP, files and the clock are not modelled. Each request is a parameter or an oracle: `None` for a RequestException, otherwise the decoded JSON. A file read is the value read. Today is a day number.
- Time of day: `datetime.now()` is taken to be after midnight. The test `current_start < today` then becomes "the start day is not after today".
- `round(x, 2)` is left out everywhere. Every price, mean and gold value is the exact real before rounding.
- Floats are exact reals, so rounding errors of sums and divisions are not modelled.
- JSON `null` is not modelled: a field is either present with a number or absent.
- The NBP date strings are modelled as dates. Sorting them as zero-padded `YYYY-MM-DD` strings is modelled as sorting on (year, month, day).
- `datetime.strptime` and `strftime('%Y-%m')` are modelled only through the (year, month) key of a parsed date. Malformed date strings are not modelled.
- The regular expressions, `\b`, `\w`, `\s` and `lower()` use ASCII classes only. Unicode letters, digits and spaces are not modelled.
- `float()` of a text cell is the oracle `toFloat`.
- `str()` of a number cell is not modelled. Such a period is taken as never giving a quarter.
- openpyxl is not modelled: loading the workbook and the active sheet is a parameter, a list of rows of cells.
- The ImportError when openpyxl is missing is left out.
- `fetch_excel_data`, pandas and yfinance are not modelled: the daily frame is a parameter.
- The `YearMonth` column added to the frame is left out.
- `_load_config`, `sys.exit` and the directory creation are left out. The configuration enters as its list of stocks.
- The stock files' `generated` timestamp and fixed `note` are left out.
- Every `main`, argument parsing, `log`, `print` and every `save_json` file write is left out: they only produce output.
- `update_timestamp.py` is not part of this model; the updater only runs it.
- The updater's timing, the stdout and stderr text, and the 300-second timeout value are left out. A timeout is one outcome of the run oracle.
- GoldReference.LoadMonthlyGold: stands for the two loaders, which react differently when a file is missing. The Warsaw loader raises, which is `None` here. The stock loader returns False, which `StockPriceFetcher.LoadGoldPrices` models on top of it.
- EurostatAvgWages.AvgEntry: a `value` that is not a number would make `float()` raise; this is not modelled.
- EurostatMinWages.SemesterOf: a cell `value` that is not a number would make `float()` raise ValueError, and `fetch_wage_data` would then return an empty list. Cells are numbers here, so this path is not modelled.
- NbpGoldPrices.ConvertEntries: an API entry without `data` or `cena`, or whose `cena` is not a number, makes the conversion raise KeyError or ValueError. That is no RequestException, so it escapes `fetch_price_range` and ends the script. API entries always carry both fields here, so this path is not modelled.
- NbpGoldToday.FetchLast30Days: the same holds for its conversion of the API entries: a missing `data` or `cena` raises past the RequestException handler, which is not modelled.
