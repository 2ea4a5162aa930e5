# NSE analysis core in Dafny

A model of the analysis pipeline of the Nairobi Securities Exchange report
generator, with proofs of what each stage promises:

- **Current-data merger** (module `Fetcher`, `merge.dfy`). The stock rows
  and analysis rows of the data store are merged into one row per trimmed
  ticker. Analysis fields override stock fields one key at a time.
- **Merged-row validator** (`Validator`, `validator.dfy`). Rows are counted
  by whether they lack a ticker, lack a price, or are complete. The run
  fails when no row is complete.
- **Indicator engine** (`Calculator`, `calculator.dfy`). For one merged row
  and the historical price frame, it computes:
  - the latest price and the 1-day change rule;
  - weekly and monthly changes and the 20/50/200-day moving averages;
  - all-time high and low, and the distance from the high;
  - RSI(14) and CAGR;
  - ten nested valuation metrics, found by tolerant key matching
    (`Matching`, `matching.dfy`).

  The numeric series helpers are in `Series` (`series.dfy`). Python's
  `float()`, `str()`, `strip()` and truthiness on JSON-like values are in
  `Values` (`values.dfy`).
- **Batch mode** (`Batch`, `batch.dfy`). `calculate_batch` skips rows the
  engine rejects and keeps the rest in order.
- **Market classifiers** (`Market`, `market.dfy`). The daily, weekly and
  monthly classifiers give a trend from the mean change, plus the top and
  bottom 5, 10 or 15 rows of one descending ranking.
- **Unavailable requirements** (`Requirements`, `requirements.dfy`). The
  missing-data note of every indicator that is not calculable.
- **Catalogue parser** (`Registry`, `registry.dfy`). A line-by-line state
  machine that tracks the current section header. It also groups the
  catalogue by category.
- **Feasibility analysis** (`Feasibility`, `feasibility.dfy`). Joins each
  catalogue indicator with the required-field table and the available-field
  table, then counts the statuses.

The loops of the source are Dafny methods with loop invariants. Each one is
proved equal to a recursive specification function, and the properties are
lemmas about those functions.

Three behaviours of the code are modelled as written:

- **Merge policy.** The merge follows list order, not timestamps: the last
  stock row for a ticker replaces earlier ones, and analysis rows are laid
  over it field by field.
- **Numeric errors.** A zero all-time high raises ZeroDivisionError at
  calculator.py:82, and `calculate_batch` does not catch it
  (`Calculator.Indicators`, `Batch.CollectSuccess`).
- **Empty historical frame.** An empty frame raises KeyError at
  calculator.py:30-31 and aborts the batch. This is logged under Findings.

## Model

| member | source | states |
|---|---|---|
| Values.ToFloat | src/nse_analysis/indicators/calculator.py:15-21 | None and nested dicts give None; ints and floats read as themselves; nan reads as a non-finite float; strings go through float() parsing |
| Values.ParseFloat | src/nse_analysis/indicators/calculator.py:18-21 | the nan/inf spellings give a non-finite float; any other string parses exactly when it is a signed decimal, to that decimal's value |
| Values.ParseIntText | src/nse_analysis/indicators/calculator.py:19 | float() reads the decimal text of every integer back as that integer |
| Values.FiniteOf | src/nse_analysis/indicators/calculator.py:62 | a value is kept exactly when float() reads it as a finite number, and then keeps that number; dropna() drops only nan, and the infinities are dropped here because the model folds them into nan (see Left out) |
| Values.TickerOf | src/nse_analysis/indicators/calculator.py:26 | a row without the key has the empty ticker; a None ticker becomes the text "None" |
| Values.StripShape | src/nse_analysis/indicators/calculator.py:26 | strip() removes exactly a whitespace prefix and suffix, and leaves no whitespace at either end |
| Values.StripIdempotent | src/nse_analysis/indicators/registry.py:51 | stripping a stripped line changes nothing |
| Values.StripEmptyIffBlank | src/nse_analysis/indicators/registry.py:51-56 | a line strips to empty exactly when it is all whitespace |
| Values.Lookup | src/nse_analysis/indicators/calculator.py:133-135 | a key that is absent reads as None; a hit is the value of an entry with that key |
| Values.LowerStringFixed | src/nse_analysis/indicators/calculator.py:145 | lower() is idempotent, and leaves a string without upper-case letters unchanged |
| Series.MaxOfBounds | src/nse_analysis/indicators/calculator.py:80 | the maximum bounds every price from above and is one of them |
| Series.MinOfBounds | src/nse_analysis/indicators/calculator.py:81 | the minimum bounds every price from below and is one of them |
| Series.Returns | src/nse_analysis/indicators/calculator.py:84 | n prices give at most n-1 returns |
| Series.GainsLossesSplit | src/nse_analysis/indicators/calculator.py:86-87 | each return splits into a gain and a loss, both non-negative and at most one non-zero, whose difference is the return |
| Series.MeanWithinRange | src/nse_analysis/indicators/calculator.py:74-78 | a moving average lies between the minimum and maximum of its window |
| Series.TailMeanWithinSeries | src/nse_analysis/indicators/calculator.py:74-81 | every moving average lies between the all-time low and the all-time high |
| Series.RsiRange | src/nse_analysis/indicators/calculator.py:84-92 | RSI lies in [0, 100], and it is 100 exactly when none of the last 14 returns is a fall |
| Matching.NormKey | src/nse_analysis/indicators/calculator.py:144-145 | the normal form is no longer than the key and holds only lower-case letters and digits |
| Matching.NormKeyFixed | src/nse_analysis/indicators/calculator.py:144-145 | a key made only of lower-case letters and digits is its own normal form |
| Matching.NormKeyIdempotent | src/nse_analysis/indicators/calculator.py:144-145 | normalising twice is normalising once |
| Matching.NormalizedKeys | src/nse_analysis/indicators/calculator.py:133 | the normalised payload keeps the values in order, and every key in it is already in normal form |
| Matching.ExtractMetric | src/nse_analysis/indicators/calculator.py:132-141 | a non-None result is the value of a payload entry whose key equals a candidate or normalises like one |
| Matching.ExtractMetricMiss | src/nse_analysis/indicators/calculator.py:132-141 | the result is None exactly when no candidate hits, either exactly or after normalising |
| Matching.ExtractMetricFirstHit | src/nse_analysis/indicators/calculator.py:134-140 | the first candidate that hits decides the result, and an exact hit beats a normalised one |
| Matching.Payload | src/nse_analysis/indicators/calculator.py:100-112 | a nested dict is read as it is; anything else reads as the empty dict |
| Calculator.PriceColumn | src/nse_analysis/indicators/calculator.py:30 | the ticker's price column is empty exactly when no frame row carries the ticker |
| Calculator.NumericPrices | src/nse_analysis/indicators/calculator.py:62 | dropping non-numeric prices never lengthens the column |
| Calculator.LatestPrice | src/nse_analysis/indicators/calculator.py:32-34 | the row's own price if float() reads it, else the last historical price before non-numeric prices are dropped, else none |
| Calculator.CompanyNameOf | src/nse_analysis/indicators/calculator.py:42 | company_name if truthy, else stock_name if truthy, else the ticker |
| Calculator.DailyFromChange | src/nse_analysis/indicators/calculator.py:47-58 | with prev = price - change: change/prev*100 when prev > 0; else 0.0 when abs(change) < 0.0001; else None; nothing written when there is no change |
| Calculator.ChangeEntry | src/nse_analysis/indicators/calculator.py:70-73 | a horizon change is written exactly when there are enough prices, against the price that many places from the end |
| Calculator.AverageEntry | src/nse_analysis/indicators/calculator.py:74-78 | a moving average is written exactly when its gate holds, as the mean of the last `window` prices |
| Calculator.FallbackEntry | src/nse_analysis/indicators/calculator.py:64-67 | the 1-day fallback is written exactly when the field is absent or None and there are two prices |
| Calculator.RsiEntry | src/nse_analysis/indicators/calculator.py:84-92 | rsi_14 is written exactly when there are 14 returns |
| Calculator.CagrEntry | src/nse_analysis/indicators/calculator.py:93-98 | return_cagr is written exactly when there are 252 prices and the first is positive |
| Calculator.LowBelowHigh | src/nse_analysis/indicators/calculator.py:80-81 | with a numeric price, both extremes are numbers and the low is at most the high |
| Calculator.HistoryOf | src/nse_analysis/indicators/calculator.py:61-62 | the history block runs exactly when the ticker has frame rows, over their numeric prices |
| Calculator.Opening | src/nse_analysis/indicators/calculator.py:38-58 | the four opening fields always hold their values, and the 1-day field is present exactly when the primary rule writes it |
| Calculator.Indicators | src/nse_analysis/indicators/calculator.py:24-129 | MissingTicker exactly for a blank ticker; a skipped error exactly when the ticker is blank or no price is found; ZeroDivision exactly when a found price meets a zero all-time high; no other error |
| Calculator.CalculateForRow | src/nse_analysis/indicators/calculator.py:24-129 | the insertions and overwrites build exactly the specified indicator row or error |
| Calculator.OpenMetrics | src/nse_analysis/indicators/calculator.py:40-58 | the first dict and the primary 1-day rule build the opening fields |
| Calculator.AddHistoryMetrics | src/nse_analysis/indicators/calculator.py:61-98 | the history block fails with ZeroDivision exactly for a zero high, and otherwise adds the specified fields |
| Calculator.AddWindowMetrics | src/nse_analysis/indicators/calculator.py:64-78 | the fallback, the changes and the averages are added as specified |
| Calculator.AddChangeMetrics | src/nse_analysis/indicators/calculator.py:64-71 | the 1-day fallback and the weekly change are added as specified |
| Calculator.AddAverageMetrics | src/nse_analysis/indicators/calculator.py:72-78 | the monthly change and the three moving averages are added as specified |
| Calculator.NestedKeys | src/nse_analysis/indicators/calculator.py:114-127 | the ten nested metrics are always present, possibly as None |
| Calculator.NestedKeeps | src/nse_analysis/indicators/calculator.py:114-127 | writing the nested metrics leaves every other field as it was |
| Calculator.HistoryKeeps | src/nse_analysis/indicators/calculator.py:61-98 | the history block leaves the fields it does not compute untouched |
| Calculator.FallbackGate | src/nse_analysis/indicators/calculator.py:64-67 | after the history block, a non-None 1-day value is kept; an absent or None one is replaced from the last two prices when there are two |
| Calculator.WeeklyGate | src/nse_analysis/indicators/calculator.py:70-71 | after the history block, the weekly change is present exactly when n >= 5, against p[n-5] |
| Calculator.MonthlyGate | src/nse_analysis/indicators/calculator.py:72-73 | after the history block, the monthly change is present exactly when n >= 22, against p[n-22] |
| Calculator.Average20Gate | src/nse_analysis/indicators/calculator.py:72-74 | after the history block, the 20-day average is present exactly when n >= 22 |
| Calculator.Average50Gate | src/nse_analysis/indicators/calculator.py:75-76 | after the history block, the 50-day average is present exactly when n >= 50 |
| Calculator.Average200Gate | src/nse_analysis/indicators/calculator.py:77-78 | after the history block, the 200-day average is present exactly when n >= 200 |
| Calculator.ExtremesGate | src/nse_analysis/indicators/calculator.py:80-81 | the all-time high and low are present exactly when the ticker has history |
| Calculator.DistanceGate | src/nse_analysis/indicators/calculator.py:82 | the distance from the high is present exactly when the ticker has history |
| Calculator.RsiGate | src/nse_analysis/indicators/calculator.py:84-92 | after the history block, rsi_14 is present exactly when there are 14 returns |
| Calculator.CagrGate | src/nse_analysis/indicators/calculator.py:93-98 | after the history block, return_cagr is present exactly when n >= 252 and the start is positive |
| Calculator.SuccessValue | src/nse_analysis/indicators/calculator.py:24-129 | a successful row has a ticker, a found price and no zero high, and is the computed row |
| Calculator.OpeningFieldsFinal | src/nse_analysis/indicators/calculator.py:40-45 | before the nested metrics, which do not overwrite them (Calculator.NestedKeeps): the ticker, the company name (company_name, else stock_name, else ticker), the latest price and the parsed change |
| Calculator.DailyChangeFinal | src/nse_analysis/indicators/calculator.py:47-67 | before the nested metrics, which do not overwrite it (Calculator.NestedKeeps), the 1-day change is the primary rule's value when not None; else the fallback from two prices; else None, or absent when no change was given |
| Calculator.WeeklyChangeFinal | src/nse_analysis/indicators/calculator.py:70-71 | before the nested metrics, which do not overwrite it (Calculator.NestedKeeps), the weekly change is present exactly when n >= 5 |
| Calculator.MonthlyChangeFinal | src/nse_analysis/indicators/calculator.py:72-73 | before the nested metrics, which do not overwrite it (Calculator.NestedKeeps), the monthly change is present exactly when n >= 22 |
| Calculator.Average20Final | src/nse_analysis/indicators/calculator.py:72-74 | before the nested metrics, which do not overwrite it (Calculator.NestedKeeps), the 20-day average is present exactly when n >= 22, as the mean of the last 20 |
| Calculator.Average50Final | src/nse_analysis/indicators/calculator.py:75-76 | before the nested metrics, which do not overwrite it (Calculator.NestedKeeps), the 50-day average is present exactly when n >= 50, as the mean of the last 50 |
| Calculator.Average200Final | src/nse_analysis/indicators/calculator.py:77-78 | before the nested metrics, which do not overwrite it (Calculator.NestedKeeps), the 200-day average is present exactly when n >= 200, as the mean of the last 200 |
| Calculator.ExtremesFinal | src/nse_analysis/indicators/calculator.py:80-81 | before the nested metrics, which do not overwrite it (Calculator.NestedKeeps), the all-time high and low are present exactly with history, as the max and min of the numeric prices |
| Calculator.DistanceFinal | src/nse_analysis/indicators/calculator.py:82 | before the nested metrics, which do not overwrite it (Calculator.NestedKeeps), the distance is present exactly with history, as (latest/ATH - 1)*100 |
| Calculator.RsiFinal | src/nse_analysis/indicators/calculator.py:84-92 | before the nested metrics, which do not overwrite it (Calculator.NestedKeeps), rsi_14 is present exactly when there are 14 returns |
| Calculator.CagrFinal | src/nse_analysis/indicators/calculator.py:93-98 | before the nested metrics, which do not overwrite it (Calculator.NestedKeeps), return_cagr is present exactly when n >= 252 and the start is positive |
| Batch.CalculateBatch | src/nse_analysis/indicators/calculator.py:148-156 | the loop appends successes, passes over the engine's own errors, and stops at any other error |
| Batch.CollectSuccess | src/nse_analysis/indicators/calculator.py:148-156 | the batch succeeds exactly when no row raises an uncaught error, and then holds exactly the successful rows' results, in input order |
| Batch.CollectFirstFatal | src/nse_analysis/indicators/calculator.py:151-155 | a failed batch reports the first uncaught error |
| Batch.CollectStopsAtFatal | src/nse_analysis/indicators/calculator.py:151-155 | once an uncaught error has escaped, later rows change nothing |
| Batch.BatchLength | src/nse_analysis/indicators/calculator.py:148-156 | a batch never returns more results than rows |
| Batch.SuccessesFromOutcomes | src/nse_analysis/indicators/calculator.py:153 | every result is the engine's result for some row |
| Batch.AllSucceed | src/nse_analysis/indicators/calculator.py:148-156 | when every row succeeds, the batch has one result per row, in order |
| Batch.EmptyFrameAbortsBatch | src/nse_analysis/indicators/calculator.py:30-31 | as written, an empty historical frame ends the batch with KeyError at the first row that has a ticker |
| Batch.EmptyFrameRow | src/nse_analysis/indicators/calculator.py:30-45 | with an empty history, a row with a ticker and a parseable price gets indicators |
| Batch.EmptyFrameBatch | src/nse_analysis/indicators/calculator.py:148-156 | with an empty history, rows with parseable prices never end the batch |
| Market.Columns | src/nse_analysis/indicators/calculator.py:175-176 | the listed columns end with the cadence's change column |
| Market.Coerce | src/nse_analysis/indicators/calculator.py:164-169 | coercion keeps one entry per row |
| Market.Defined | src/nse_analysis/indicators/calculator.py:171 | the defined changes are at most one per row |
| Market.TrendOf | src/nse_analysis/indicators/calculator.py:172 | bullish exactly for a positive mean, bearish exactly for a negative mean, flat exactly for zero |
| Market.MissingColumn | src/nse_analysis/indicators/calculator.py:164-176 | a missing column is reported exactly when some listed column, other than the change column the classifier adds, is in no row |
| Market.Classify | src/nse_analysis/indicators/calculator.py:159-216 | empty input gives insufficient_data with empty lists; a KeyError exactly for a missing column; otherwise the trend and mean are those of the defined changes, and each list holds min(N, rows) records with N = 5, 10 or 15 |
| Market.DefinedEntries | src/nse_analysis/indicators/calculator.py:171 | the defined changes are exactly the changes of the entries that are not nan |
| Market.DefinedMembers | src/nse_analysis/indicators/calculator.py:169-171 | a value is averaged exactly when it is some row's coerced change |
| Market.NoneDefinedFlat | src/nse_analysis/indicators/calculator.py:171-172 | with no numeric change the mean is 0.0 and the trend is flat |
| Market.MeanBetweenChanges | src/nse_analysis/indicators/calculator.py:171 | the mean lies between the smallest and the largest defined change |
| Market.TrendOfSigns | src/nse_analysis/indicators/calculator.py:171-172 | all defined changes positive gives bullish; all negative gives bearish |
| Market.Insert | src/nse_analysis/indicators/calculator.py:174 | inserting into the ranking adds exactly one entry |
| Market.Order | src/nse_analysis/indicators/calculator.py:174 | the ranking keeps one entry per row |
| Market.InsertRanked | src/nse_analysis/indicators/calculator.py:174 | inserting into a ranked list keeps it ranked and adds exactly that entry |
| Market.OrderRanked | src/nse_analysis/indicators/calculator.py:174 | the ranking is descending by change with nan last, and is a permutation of the rows |
| Market.AheadTotal | src/nse_analysis/indicators/calculator.py:174 | any two changes are comparable in the ranking order |
| Market.Fill | src/nse_analysis/indicators/calculator.py:175-176 | fillna(0.0) leaves no None or nan and keeps every other value |
| Market.Project | src/nse_analysis/indicators/calculator.py:175-176 | a record holds the cadence's columns in order, and no value is None or nan |
| Market.ProjectAll | src/nse_analysis/indicators/calculator.py:175-176 | one record per listed row, in ranking order, and no value in any record is None or nan |
| Market.ListedAreFilled | src/nse_analysis/indicators/calculator.py:175-176 | neither the gainers nor the losers show None or nan |
| Market.GainersAndLosers | src/nse_analysis/indicators/calculator.py:174-176 | gainers are the first N and losers the last N of the same ranking |
| Market.RankedFromRows | src/nse_analysis/indicators/calculator.py:164-174 | every ranked entry is an input row carrying that row's coerced change |
| Market.GainersAheadOfLosers | src/nse_analysis/indicators/calculator.py:174-176 | with at least 2N rows, every gainer ranks at or above every loser |
| Market.DailyExampleFrame | tests/test_calculator.py:21-26 | the three example rows coerce to changes 1.1, -2.3 and 0.3 |
| Market.DailyExampleTrend | tests/test_calculator.py:21-28 | the example's mean daily change is -0.3, so the trend is bearish |
| Market.DailyExampleOrder | tests/test_calculator.py:21-29 | the example ranks A, C, B |
| Market.DailyExampleInsights | tests/test_calculator.py:21-29 | the example classifies as bearish with mean -0.3, and both lists are A, C, B with their changes |
| Requirements.UnavailableRequirements | src/nse_analysis/indicators/calculator.py:219-225 | the loop builds the specified explanation map |
| Requirements.UnavailableKeys | src/nse_analysis/indicators/calculator.py:219-225 | the keys are exactly the indicators of the not-calculable records |
| Requirements.UnavailableLastWins | src/nse_analysis/indicators/calculator.py:222-224 | each key maps to the missing data of the last not-calculable record for it |
| Requirements.UnavailableFromAnalysis | src/nse_analysis/indicators/calculator.py:219-225 | over a feasibility analysis, the keys are exactly the unmapped indicators, each with the fixed note |
| Registry.ParseIndicators | src/nse_analysis/indicators/registry.py:49-63 | the line loop with its current section builds exactly the specified entries |
| Registry.ParseStep | src/nse_analysis/indicators/registry.py:54-62 | a header line switches the section; an emitting line appends one entry under the section in force |
| Registry.HeaderAfterLastHeader | src/nse_analysis/indicators/registry.py:57-58 | the section in force is the last header seen |
| Registry.HeaderAfterNoHeader | src/nse_analysis/indicators/registry.py:52 | before any header the section is "Uncategorized" |
| Registry.HeaderAfterKnown | src/nse_analysis/indicators/registry.py:52-58 | the section in force is "Uncategorized" or a known header |
| Registry.EntriesWellFormed | src/nse_analysis/indicators/registry.py:51-62 | every entry is a stripped, non-blank, non-header, non-skip line, filed under "Uncategorized" or a header |
| Registry.EntriesNames | src/nse_analysis/indicators/registry.py:54-63 | the entries are the kept lines in order, no more than there are lines |
| Registry.EntriesPrefix | src/nse_analysis/indicators/registry.py:54-63 | parsing a prefix of the lines gives a prefix of the entries |
| Registry.EntryOfLine | src/nse_analysis/indicators/registry.py:62 | each emitting line gives the entry at its place, under the section in force before it |
| Registry.Categories | src/nse_analysis/indicators/registry.py:66-71 | the categories that occur, each once |
| Registry.NamesInOccur | src/nse_analysis/indicators/registry.py:69-70 | a category has names exactly when some indicator is filed under it |
| Registry.CategoriesOccur | src/nse_analysis/indicators/registry.py:66-71 | a category is listed exactly when some indicator is filed under it |
| Registry.CategoriesPrefix | src/nse_analysis/indicators/registry.py:66-71 | the categories of a prefix of the catalogue are a prefix of the categories of the whole |
| Registry.CategoriesFirstUse | src/nse_analysis/indicators/registry.py:66-71 | categories are listed in order of first use |
| Registry.BuildIndicatorMap | src/nse_analysis/indicators/registry.py:66-71 | the keys are exactly the categories that occur, each with its names in input order |
| Registry.GroupSizesSum | src/nse_analysis/indicators/registry.py:66-71 | the group sizes add up to the number of indicators |
| Registry.NamesInAbsent | src/nse_analysis/indicators/registry.py:69-70 | a category that does not occur has no names |
| Feasibility.StrLeTotal | src/nse_analysis/indicators/feasibility.py:105 | any two strings are ordered one way or the other |
| Feasibility.StrLeTrans | src/nse_analysis/indicators/feasibility.py:105 | string order is transitive |
| Feasibility.StrLeAntisymmetric | src/nse_analysis/indicators/feasibility.py:105 | strings ordered both ways are equal |
| Feasibility.InsertString | src/nse_analysis/indicators/feasibility.py:105 | inserting into a sorted list keeps it sorted and adds exactly that string |
| Feasibility.SortStrings | src/nse_analysis/indicators/feasibility.py:105 | sorted() gives a sorted permutation |
| Feasibility.SortedUnique | src/nse_analysis/indicators/feasibility.py:105 | two sorted permutations of the same strings are equal, so the missing list is determined by its contents |
| Feasibility.Absent | src/nse_analysis/indicators/feasibility.py:103-105 | the required fields not available, each once, and no more than were required |
| Feasibility.AbsentWhenAllAvailable | src/nse_analysis/indicators/feasibility.py:105-106 | nothing is missing exactly when every required field is available |
| Feasibility.PermutationNoRepeats | src/nse_analysis/indicators/feasibility.py:103-105 | sorting a list without repeats leaves it without repeats |
| Feasibility.Assess | src/nse_analysis/indicators/feasibility.py:87-121 | name and category are copied; an unmapped indicator is not_calculable from source "unknown" with the fixed note; a mapped one is never not_calculable, is calculable exactly when nothing is missing, and lists the missing fields sorted, each once |
| Feasibility.AnalyzeFeasibility | src/nse_analysis/indicators/feasibility.py:84-122 | one record per indicator, in input order |
| Feasibility.CountStatus | src/nse_analysis/indicators/feasibility.py:128-129 | a status count never exceeds the number of records |
| Feasibility.SummarizeFeasibility | src/nse_analysis/indicators/feasibility.py:125-130 | the three status keys are always present, each is its status's count, and the counts add up to the number of records |
| Feasibility.StatusPartition | tests/test_registry_and_feasibility.py:21-25 | the three counts add up to the number of records |
| Feasibility.ShippedMappedAreCalculable | src/nse_analysis/indicators/feasibility.py:24-81 | with the shipped tables, every mapped indicator is calculable with nothing missing |
| Validator.Classify | src/nse_analysis/data/validator.py:32-40 | a row lands under missing-ticker exactly when its ticker is missing, and under missing-price exactly when only its price is missing |
| Validator.CountVerdict | src/nse_analysis/data/validator.py:31-40 | a counter never exceeds the number of rows |
| Validator.Ratio | src/nse_analysis/data/validator.py:42-46 | the ratio is valid/total, 0.0 for no rows, lies in [0, 1], and is 1.0 exactly when every row is valid |
| Validator.ValidateMergedRows | src/nse_analysis/data/validator.py:25-54 | fails exactly when there are rows and none is valid; otherwise reports the three counts, invalid = total - valid, and the ratio |
| Validator.CountsPartition | src/nse_analysis/data/validator.py:27-42 | valid + missing ticker + missing price = total |
| Validator.TickerCheckedFirst | src/nse_analysis/data/validator.py:34-39 | a row missing both counts only as missing its ticker |
| Validator.AllPresentAllValid | src/nse_analysis/data/validator.py:31-40 | rows that each carry a ticker and a price are all valid |
| Validator.ThreeValidRows | tests/test_validator.py:4-13 | three rows with tickers and prices give valid 3, invalid 0 and ratio 1.0 |
| Fetcher.Order | src/nse_analysis/data/fetcher.py:80-82 | no blank ticker ever gets an output row |
| Fetcher.MergeCurrentData | src/nse_analysis/data/fetcher.py:72-93 | the two loops over the dict keyed by trimmed ticker return exactly the specified merge |
| Fetcher.MergeOn | src/nse_analysis/data/fetcher.py:78-91 | the same for any key function |
| Fetcher.IndexStockRows | src/nse_analysis/data/fetcher.py:79-83 | after the stock loop, the keys are the stock tickers in first-appearance order, each holding its last stock row |
| Fetcher.ApplyAnalysisRows | src/nse_analysis/data/fetcher.py:84-90 | after the analysis loop, the keys are the tickers of both lists in first-appearance order, each holding its merged row |
| Fetcher.AnalysisStep | src/nse_analysis/data/fetcher.py:88-90 | one analysis row adds its ticker if new, and updates that ticker's row field by field |
| Fetcher.OrderMembers | src/nse_analysis/data/fetcher.py:78-91 | the output tickers are exactly the non-blank tickers of the input rows |
| Fetcher.OrderDistinct | src/nse_analysis/data/fetcher.py:78-91 | each ticker gets exactly one output row |
| Fetcher.OrderPrefix | src/nse_analysis/data/fetcher.py:83-91 | later rows never reorder the tickers already seen |
| Fetcher.OrderFirstAppearance | src/nse_analysis/data/fetcher.py:83-91 | a ticker that first appears later comes later in the output |
| Fetcher.StockBaseLast | src/nse_analysis/data/fetcher.py:79-83 | a later stock row for the same ticker replaces the earlier one wholesale |
| Fetcher.StockBaseNone | src/nse_analysis/data/fetcher.py:88 | a ticker with no stock row starts from the empty dict |
| Fetcher.OverlayNone | src/nse_analysis/data/fetcher.py:84-90 | a ticker with no analysis row keeps its stock row |
| Fetcher.AbsentTicker | src/nse_analysis/data/fetcher.py:78-91 | a ticker in neither list has nothing merged |
| Fetcher.OverlayLastWriter | src/nse_analysis/data/fetcher.py:88-89 | a field takes its value from the last analysis row for the ticker that carries it |
| Fetcher.OverlayKeepsBase | src/nse_analysis/data/fetcher.py:88-89 | a field no analysis row carries keeps its stock value, or stays absent |
| Fetcher.MergeShape | src/nse_analysis/data/fetcher.py:78-91 | exactly one output row per distinct non-blank ticker across both lists |

## Left out

- Reading the catalogue file, the data-store fetches, CSV loading, logging and report writing are not part of this model. `parse_indicators` works on the file's lines, and `merge_current_data` on the two row lists.
- The date sort of the historical frame: the frame is given already in date order, as a sequence of (ticker, price) rows.
- pandas `to_numeric(errors="coerce")` is modelled as Python `float()` parsing of the value. The decimal grammar covers sign, digits and one point; exponents and underscores are not read.
- IEEE floats: prices are exact reals. nan and both infinities are one non-finite value. A numpy division by zero gives that value.
- Series.Returns: a return over a zero earlier price is dropped. pandas keeps an infinite return there; only the 0/0 return is nan and dropped.
- Calculator.DailyFromChange: a change of negative infinity with a finite price gives nan in the source, which is not None and so blocks the fallback. The model folds infinities into nan and writes None.
- Calculator.DailyFromChange: a latest price of positive infinity with a finite change of at least 0.0001 in size gives a previous price of infinity, so the source writes 0.0, which blocks the fallback at calculator.py:65. The model folds the infinity into nan and writes None.
- Values.ToFloat: `float()` of an int beyond the float range raises OverflowError, which `_to_float` does not catch, so such a row aborts the batch. The model reads every int as its exact value.
- Calculator.Cagr: the real power `(end/start) ** (1/years)` is the parameter `power`; only the gate and the arguments are modelled.
- Market.OrderRanked: pandas' sort does not fix the order of equal changes. The model uses a stable insertion sort, which is one admissible order. What is proved about the ranking (descending with nan last, a permutation of the rows, gainers at or above losers) holds for every admissible order; which of several tied rows is listed may differ. The concrete example has no ties.
- `strip()` is modelled for the ASCII whitespace of `str.isspace()` (space, tab, the line and page breaks, and the separators 0x1C to 0x1F); `lower()` and `isalnum()` for ASCII letters and digits. Non-ASCII whitespace, letters and digits are not modelled.
- Python's `str()` of a float is not modelled: a float ticker trims to a fixed placeholder text.
- The daily classifier's coercion of `stock_price` is left out, because `stock_price` is not among the columns it lists.
- The required fields of each indicator are a list, not a set. Repeated fields are removed while computing the missing list, as `set()` does.
- The history comes from the historical frame only; an embedded `price_history` payload is not part of this model.
- The command-line orchestration, which calls `merge_current_data` with a tuple, is not part of this model.
- A missing `ticker_symbol` or `stock_price` column in the historical frame, which would raise KeyError, is not modelled; the frame always has both.
- The pydantic field check on `completeness_ratio` is not modelled as a check; its [0, 1] bound is proved instead (`Validator.Ratio`).

## Findings

| source | as written | input that shows it | evidently intended | confidence | as-written member | corrected member |
|---|---|---|---|---|---|---|
| src/nse_analysis/indicators/calculator.py:30-31 | an empty historical frame is replaced by a frame with no columns, and `sort_values("date")` on it raises KeyError; `calculate_batch` does not catch it, so the whole batch fails | an empty historical frame and any row whose trimmed ticker is non-blank | compute each row over an empty history: the row keeps its own price and gets no history fields | not executed | Batch.EmptyFrameAbortsBatch (over Calculator.IndicatorsAsWritten) | Batch.EmptyFrameBatch (over Calculator.Indicators) |
