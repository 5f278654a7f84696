# RFM customer segmentation, modelled in Dafny

This project models the RFM (Recency, Frequency, Monetary) analysis in `main.py`. The
script reads a retail sales sheet and cleans it. It then builds one row per customer:
- **recency:** days since the customer's last purchase;
- **frequency:** number of distinct invoices;
- **monetary:** total revenue.

It scores recency and frequency into quintiles 1..5 with `pd.qcut` and joins the two
digits into a score code such as `"53"`. A table of ten regular expressions then names
the customer's segment.

Each stage is a whole-table expression in the script. Each is modelled as a pure function
over sequences of records:

- `Cleaner` (`cleaner.dfy`): row filtering and the revenue column (main.py:48-63).
- `Aggregator` (`aggregator.dfy`): group-by customer and the monetary filter (main.py:72-79).
- `Quantile` (`quantile.dfy`): `pd.qcut(x, 5)` on integers, exactly.
- `Scorer` (`scorer.dfy`): `rank(method="first")`, both score columns and the score code (main.py:86-89).
- `Segmenter` (`segmenter.dfy`): the segment map and `replace(..., regex=True)` (main.py:98-111).
- `Rfm` (`rfm.dfy`): the stages composed.
- `Seqs` and `Wrappers` (`seqs.dfy`, `wrappers.dfy`): filter, insertion sort and counting helpers, and `Result`/`Option`.

Representation choices:
- A missing cell is `None`.
- Money is an integer number of minor units (pence).
- Timestamps are integer minutes from a fixed epoch, and the reference date `today_date` is a parameter.
- `pd.qcut` interpolates its six bin edges at positions k(n-1)/5, k = 0..5, of the sorted data. The model keeps every edge multiplied by five, so edges and comparisons are exact integers.
- Failures are `Err(BinEdgesNotUnique)`. The script raises in these cases:
  - `qcut` meets two equal edges;
  - the table is empty: pandas' edges are then all NaN and collapse to one.

Where the code and its comments disagree, the model follows the code:
- **Cancellations:** the comment at main.py:13 says a cancelled invoice *starts* with `C`. The filter at main.py:59 drops every invoice that *contains* `C` anywhere. A missing invoice counts as not cancelled (`na=False`).
- **Spelling:** the segment name at main.py:100 is `at_Risk`, and is kept with that spelling.

The segment map is applied the way pandas applies a regex dictionary:
- Each rule's match mask is computed on the *original* code.
- Then `re.sub` rewrites the current text: leftmost matches first, no overlaps.

A plain chain of `re.sub` calls is modelled too. Both are proved to give the same name for all 25 codes.

## Model

| member | source | states |
|---|---|---|
| `Seqs.FilterCounts` | main.py:48-63 | a boolean-mask selection keeps every copy of a passing row and no copy of a failing one |
| `Cleaner.DropIncomplete` | main.py:48 | a row is kept exactly when it was in the sheet and none of its cells is missing |
| `Cleaner.DropCancelled` | main.py:59 | a row is kept exactly when it was in the sheet and its invoice does not contain `C` (a missing invoice is kept) |
| `Cleaner.AttachTotalPrice` | main.py:62 | one priced row per input row, the same row, with revenue present exactly when price and quantity are, and equal to their product |
| `Cleaner.DropIncompletePriced` | main.py:63 | a priced row is kept exactly when no cell, revenue included, is missing |
| `Cleaner.Clean` | main.py:48-63 | the cleaned table is no longer than the sheet, no survivor's invoice contains `C`, and every survivor's revenue is price times quantity; survivors are typed with no missing cell |
| `Cleaner.LineRevenue` | main.py:62 | a row's revenue is present exactly when its price and quantity are, and is then their product |
| `Cleaner.Admit` | main.py:48-63 | the single-row rule: a row yields a transaction exactly when it is complete and its invoice has no `C`; the transaction keeps every cell of the row (invoice, stock code, description, quantity, date, price, customer, country) and adds price times quantity |
| `Cleaner.CleanAppend` | main.py:48-63 | cleaning distributes over concatenation of sheets |
| `Cleaner.CleanIsRowwise` | main.py:48-63 | the staged pipeline equals applying the single-row rule to each row in order |
| `Cleaner.CleanKeepsExactlyAdmitted` | main.py:48-63 | a transaction is in the cleaned table exactly when some sheet row admits it |
| `Cleaner.SecondDropIsNoOp` | main.py:62-63 | the second `dropna` removes nothing: after the first, every row has both revenue factors |
| `Cleaner.CancelledExample` | main.py:59 | a complete row with invoice `C12345` does not survive cleaning |
| `Aggregator.CustomerIds` | main.py:74 | the group keys are strictly ascending and are exactly the customers of the cleaned lines |
| `Aggregator.RowsOf` | main.py:74 | a group holds exactly the lines of its customer |
| `Aggregator.Latest` | main.py:74 | the latest timestamp of a group is one of its lines' timestamps and no line is later |
| `Aggregator.DaysSince` | main.py:74 | the day count is the floor of the time difference in days: days·1440 ≤ diff < (days+1)·1440 minutes |
| `Aggregator.MetricsOf` | main.py:74-76 | a customer's row: frequency is the number of distinct invoices and at least 1, monetary is the sum of its revenues, recency is the floor of days since its latest line |
| `Aggregator.GroupKeys` | main.py:74 | row i of the grouped table belongs to the i-th group key |
| `Aggregator.GroupByCustomer` | main.py:74-78 | one row per distinct customer, strictly ascending by customer id, each holding that customer's metrics |
| `Aggregator.KeepPositive` | main.py:79 | a row is kept exactly when it was in the table and its monetary is positive |
| `Aggregator.KeepPositiveByCustomer` | main.py:79 | the monetary filter keeps the ascending customer order |
| `Aggregator.Aggregate` | main.py:74-79 | ascending one-row-per-customer table, every row with positive monetary and frequency ≥ 1 and that customer's own metrics, and every customer with positive revenue present |
| `Aggregator.MonetaryIsConserved` | main.py:76 | the monetary column of the grouped table sums to the total revenue of the cleaned lines |
| `Aggregator.LatestLineExample` | main.py:69-74 | with reference 2011-12-11 00:00 and latest line 2011-12-09 12:50, recency is 1 day |
| `Aggregator.ThreeLineExample` | main.py:74-79 | three lines, two invoices and one customer aggregate to recency 5, frequency 2, monetary 60 |
| `Quantile.ScaledQuantile` | main.py:86 | each interpolated edge lies between the least and the greatest value; edge 0 is the minimum and edge 5 the maximum |
| `Quantile.Edges` | main.py:86 | the six edges, from the minimum to the maximum |
| `Quantile.Bucket` | main.py:86 | the bin is the first of 1..5 whose upper edge the value does not exceed |
| `Quantile.QCut` | main.py:86-87 | the cut fails exactly for empty data or repeated edges; otherwise every value gets a bin in 1..5 |
| `Quantile.BucketIff` | main.py:86-87 | against non-decreasing edges, a value is in bucket k exactly when it is at most edge k and above edge k-1 |
| `Quantile.QCutBin` | main.py:86-87 | value i is in bin k exactly when it is at most edge k and above edge k-1 (bin 1 takes the lowest edge) |
| `Quantile.EdgesSorted` | main.py:86-87 | the edges never decrease |
| `Quantile.QCutMonotone` | main.py:86-87 | a value no larger than another never gets a higher bin |
| `Quantile.QCutMinimumInFirstBin` | main.py:86-87 | the smallest value is in bin 1 |
| `Quantile.QCutFailsOnConstant` | main.py:86-87 | data whose values are all equal cannot be cut |
| `Scorer.Rank` | main.py:87 | every rank is in 1..n |
| `Scorer.Ranks` | main.py:87 | one rank per value, each in 1..n; their order is stated by `RankOrder` and that they are a permutation of 1..n by `RanksArePermutation` |
| `Scorer.RankOrder` | main.py:87 | rank i is below rank j exactly when value i is smaller, or equal and earlier |
| `Scorer.RanksArePermutation` | main.py:87 | the ranks are a permutation of 1..n |
| `Scorer.RecencyScores` | main.py:86 | it fails exactly when the cut fails; otherwise each customer's score is 6 minus its qcut bin (labels 5, 4, 3, 2, 1), in 1..5 |
| `Scorer.RecencyScoreAntitone` | main.py:86 | a larger recency never gets a higher score |
| `Scorer.MostRecentScoreFive` | main.py:86 | the customers with the least recency score 5 |
| `Scorer.RecencyFailsWhenUniform` | main.py:86 | equal recencies for everyone make the recency cut fail |
| `Scorer.FrequencyScores` | main.py:87 | the frequency score is the qcut bin of the ranks, in 1..5 |
| `Scorer.RankBucket` | main.py:87 | rank r of n goes to the least k in 1..5 with 5(r-1) ≤ k(n-1) |
| `Scorer.EdgesOfRanks` | main.py:87 | the scaled edges of ranks 1..n are 5 + k(n-1) |
| `Scorer.EdgesOfRanksDistinct` | main.py:87 | the rank edges are distinct exactly when n ≥ 2 |
| `Scorer.FrequencyFailsIff` | main.py:87 | the frequency cut fails exactly when there are at most one customer |
| `Scorer.RankBucketIsBin` | main.py:87 | rank r is in bucket k exactly when 5r lies between the scaled rank edges 5 + (k-1)(n-1) and 5 + k(n-1) |
| `Scorer.FrequencyScoreIsRankBucket` | main.py:87 | each frequency score is the rank bucket of the customer's rank |
| `Scorer.FrequencyScoreMonotone` | main.py:87 | a smaller frequency, or an equal frequency earlier in the table, never gets a higher score |
| `Scorer.FrequencyBinSize` | main.py:87 | bin k holds exactly BinTop(k) − BinTop(k-1) customers, with BinTop(k) = 1 + ⌊k(n-1)/5⌋ |
| `Scorer.BinWidth` | main.py:87 | bin k spans ⌊(n-1)/5⌋ or one more ranks, and bin 1 exactly one more |
| `Scorer.FrequencyBinsBalanced` | main.py:87 | with q = ⌊(n-1)/5⌋ every bin holds q or q+1 customers, bin 1 holds q+1, and for n ≥ 5 no bin is empty |
| `Scorer.ScoreCode` | main.py:89 | the code has two characters, the recency digit then the frequency digit, each in `1`..`5` |
| `Scorer.ScoreCodeRoundTrip` | main.py:89 | the code reads back as the two scores |
| `Segmenter.ReplaceMasked` | main.py:111 | applying the rules with pandas' masks leaves the text alone when no rule matches the original |
| `Segmenter.ReplaceChained` | main.py:111 | a plain chain of substitutions leaves the text alone when no rule matches it |
| `Segmenter.Segment` | main.py:111 | a code of two score digits becomes the grid's name for those scores |
| `Segmenter.Sub` | main.py:111 | a text with no match of the pattern is returned unchanged |
| `Segmenter.TwoCharMatch` | main.py:98-111 | a two-character code matches a pattern exactly when its characters fall in the pattern's classes, and is then replaced whole |
| `Segmenter.NoDigitNoMatch` | main.py:98-111 | no pattern of digits matches inside a text without digits |
| `Segmenter.SegMapPatterns` | main.py:98-109 | every pattern of the map starts with a class of digits |
| `Segmenter.SegMapNames` | main.py:98-109 | no segment name holds a digit |
| `Segmenter.UniqueRule` | main.py:111 | a code matched by exactly one rule becomes that rule's name, with pandas' masks and with chained substitution alike |
| `Segmenter.RuleHit` | main.py:98-109 | the classes of rule j hold the two score digits exactly when j is the grid's rule for those scores |
| `Segmenter.ExactlyOneRule` | main.py:98-109 | each of the 25 score codes is matched by exactly one pattern of the map |
| `Segmenter.SegmentIsTable` | main.py:98-111 | every score code is replaced by the name the grid of recency against frequency gives it, never left as a code, with pandas' masks and with chained substitution alike |
| `Segmenter.SegmentExamples` | main.py:98-111 | `55` is champions, `33` need_attention, `21` hibernating, `15` cant_loose |
| `Rfm.ScoredRow` | main.py:86-111 | a customer's final row carries its metrics, its two scores, their code and the grid's segment for them |
| `Rfm.ScoredRows` | main.py:86-111 | one final row per metrics row, in order, with its metrics, its two scores, their two-digit code and the grid's segment |
| `Rfm.Join` | main.py:86-89 | the run fails exactly when a score column failed, the recency error first; otherwise the rows join both columns |
| `Rfm.Score` | main.py:86-111 | scoring fails exactly when the recency cut fails (the frequency cut fails only for fewer than two customers); a successful scoring keeps every customer's id and metrics, row for row |
| `Rfm.ScoreValues` | main.py:86-89 | in a successful scoring, a customer's recency score is 6 minus its recency bin, its frequency score is the bucket of its first-rank by frequency, and its code joins the two digits |
| `Rfm.Analyse` | main.py:48-111 | the whole run fails exactly when the recency cut of the aggregated table fails |
| `Rfm.ScoredRowsFacts` | main.py:86-111 | rows built from an ascending table of buying customers stay ascending, with scores in 1..5 and the grid's segment |
| `Rfm.ScoredTable` | main.py:86-111 | a successful scoring of an ascending table of buying customers lists them in the same order, with scores in 1..5 and the grid's segment |
| `Rfm.AnalyseOrderedAndSegmented` | main.py:48-111 | a successful run lists customers in strictly ascending id order, each with positive monetary, frequency ≥ 1, scores in 1..5 and the grid's segment |
| `Rfm.ScoredCustomers` | main.py:74-89 | a successful scoring of the aggregated lines holds exactly the customers with positive revenue, each with its own metrics |
| `Rfm.AnalyseCustomers` | main.py:48-111 | a successful run holds exactly the cleaned customers with positive revenue, each with its own metrics |
| `Rfm.AnalyseScoresOrdered` | main.py:86-89 | a customer no more recent than another never scores higher on recency; one buying less often, or as often with a smaller id, never scores higher on frequency |

## Left out

- Reading the sheet (main.py:35) and writing the result (main.py:114): file I/O. The model starts from the rows and ends at the table.
- The console output and exploratory calls (main.py:41-45, 51, 69, 80, 113): they print values and change nothing.
- The display and warning settings (main.py:29-32): library configuration.
- The plots (main.py:131-192): presentation only. They also read columns `R`, `F` and `M` that the table never defines.
- Floating-point arithmetic: prices, revenues and sums are exact integers in minor units, and quantile edges are exact scaled integers. Rounding is not modelled.
- Calendar arithmetic: timestamps are integer minutes from an epoch and the reference date is a parameter. `datetime` parsing and time zones are not modelled.
- Invoice numbers the spreadsheet reader delivers as numbers: invoices are strings here. A numeric invoice is always kept by the `C` filter.
- The order of rows inside a customer's group: only its latest timestamp, distinct invoices and revenue sum are observed.
- `reset_index` (main.py:112) and the categorical dtype of the score columns: the model's rows already carry the customer id as a field, and scores are plain integers.
- Updates in place (`inplace=True`, column assignment): modelled as functions from table to table, since no step depends on the aliasing.
- Regular expressions in general: only the two-atom patterns of the segment map are modelled, as character classes.
- The monetary score: the script computes none (main.py:88).

