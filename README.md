# Quant-amental stock screener: verified model of the scoring and ranking core

Each run of the screener makes one pass over the Nifty 500 universe. For each stock it
scrapes a map of fundamental metrics and downloads a year of daily prices.
It then scores the stock against nine threshold criteria: market cap,
quarterly sales and profit growth, Piotroski score, debt to equity, ROCE,
P/E, distance from the 52-week high, and the 14-period RSI. Stocks that
score at least 6 of 9 become candidates, each with an 8% stop loss and a
16% target. The candidates are sorted stably by descending score, and the
best 15 are sent to a Telegram chat in messages of at most 4096 characters.

The model covers the deterministic part of that pipeline:

- `metrics.dfy` (module `Metrics`): the metric map as `map<string, real>`.
  It also defines the ways the scoring code reads it: `dict.get` with a
  default of 0, a default of `float('inf')` (an `Extended` real), and
  Python truthiness of a value that may be absent.
- `growth.dfy` (module `Growth`): the two growth-rate formulas the scraper
  computes before storing them in the map.
- `scoring.dfy` (module `Scoring`): `calculate_quantamental_score`.
  - `CalculateScore` is an imperative method that keeps a counter and a
    list. `RunBlock` holds the source's nine criterion blocks.
  - It is proved equal to the specification function `Passed`, which is
    built from the per-criterion `Evaluate` (Pass with the value shown,
    Fail, or Skip).
  - The result is then characterised criterion by criterion.
- `ranking.dfy` (module `Ranking`): the scoring loop of `main`. It screens
  each instrument (metrics present, at least 240 bars, score at least 6),
  derives the stop loss and target, sorts the candidates stably in place
  on an array, and truncates the list to 15.
- `chunking.dfy` (module `Chunking`): the slicing comprehension in
  `send_telegram_message`.

Two details of the code that the model keeps:

- The 52-week criterion is skipped when either price is absent or zero
  (Python truthiness, main.py:209).
- Profit growth divides by `yoy`, not by its absolute value, and only on a
  positive base; every other base yields +100 or -100 (main.py:143-148).

## Model

| member | source | states |
|---|---|---|
| Growth.SalesGrowth | main.py:133 | growth is 0 on a zero base; otherwise `latest = yoy + g·abs(yoy)/100`, so the rate recovers the latest figure, and it is positive exactly when sales rose |
| Growth.ProfitGrowth | main.py:143-148 | on a positive base `latest = yoy + g·yoy/100`; on a zero or negative base the rate is ±100 and is positive exactly when the latest profit is positive |
| Growth.SalesGrowthPasses | main.py:133 | the rate reaches 12 iff `latest ≥ 1.12·yoy` on a positive base or `latest ≥ 0.88·yoy` on a negative base; a zero base never passes |
| Growth.ProfitGrowthPasses | main.py:143-148 | the rate reaches 12 iff `latest ≥ 1.12·yoy` on a positive base, or the company turned a profit from a zero or negative base |
| Metrics.Get | main.py:170-202 | `m.get(key, d)`: the value `m.get(key)` finds, or the default when it finds none |
| Metrics.GetOrInfinity | main.py:190-200 | `m.get(key, float('inf'))`: infinite exactly when the key is absent, otherwise the stored value |
| Metrics.Truthy | main.py:209 | a possibly absent value is truthy exactly when it is neither None nor 0.0 |
| Scoring.PercentFromHigh | main.py:210 | the current price lies `pct` percent of the high below the high: `current = high − pct·high/100` |
| Scoring.Evaluate | main.py:169-225 | a criterion passes exactly when it meets its threshold on the raw map (`Meets`: metric present, and > 500, ≥ 12, ≥ 12, > 5, < 2, > 10, in (0, 70), 52-week percentage ≤ 35 on non-zero prices, RSI > 45), so no default lets one pass; only criteria 8 and 9 can be skipped, 8 exactly when a price is absent or zero, 9 exactly when there is no RSI |
| Scoring.CalculateScore | main.py:161-227 | the counter and list, updated by the nine blocks in straight-line order, end as exactly `Passed` (the entries of the passing criteria, in order) and a score equal to the list's length |
| Scoring.RunBlock | main.py:169-223 | one criterion block appends that criterion's entry when it passes, and nothing otherwise, and adds as many points as it appends entries |
| Scoring.Passed | main.py:166-227 | the engine's list of entries (the passing criteria, selected from all nine in order) has at most 9 entries |
| Scoring.Score | main.py:166-227 | the engine's score is at most 9 |
| Scoring.PassedUnrolled | main.py:166-227 | the selection over all nine criteria is their entries appended one after the other in criterion order, as the nine blocks append them |
| Scoring.SelectSound | main.py:166-227 | every selected entry names a listed criterion that passes, carrying the value that criterion shows |
| Scoring.SelectComplete | main.py:166-227 | every listed criterion that passes is selected |
| Scoring.SelectInOrder | main.py:166-227 | criteria listed in increasing number give entries in increasing number |
| Scoring.SelectLength | main.py:166-227 | no more entries than listed criteria; one entry per listed criterion if all pass; none if none pass |
| Scoring.EveryCriterionListed | main.py:169-223 | the nine blocks cover every criterion |
| Scoring.PassedExactly | main.py:166-227 | a criterion appears in the result iff it passes; each entry carries its criterion's value; entries are in strictly increasing criterion order 1..9, so none repeats |
| Scoring.ScoreBounds | main.py:166-227 | the score lies in [0, 9]; it is 9 when every criterion passes and 0 iff none does |
| Scoring.NoDataScoresZero | main.py:170-225 | with none of the nine metrics and no RSI, the list is empty and the score is 0 |
| Scoring.Boundaries | main.py:170-200 | market cap 500, Piotroski 5, ROCE 10, D/E 2.0, P/E 70 and P/E 0 all fail; sales or profit growth of exactly 12 passes |
| Scoring.ThresholdCriteria | main.py:170-202 | criteria 1–7 each appear in the result iff the metric is present and market cap > 500, sales and profit growth ≥ 12, Piotroski > 5, D/E < 2, ROCE > 10, 0 < P/E < 70 |
| Scoring.ThresholdValues | main.py:172-202 | every entry of criteria 1–7 shows its metric, which is present in the map |
| Scoring.MissingDefaultsFail | main.py:170-202 | a missing D/E or P/E defaults to +inf and fails; a missing market cap, growth, Piotroski or ROCE defaults to 0 and fails |
| Scoring.NearYearHighCriterion | main.py:207-213 | criterion 8 passes iff both prices are present and non-zero and `(high − current)/high·100 ≤ 35`; its entry shows that percentage, and the high it divides by is non-zero |
| Scoring.MomentumCriterion | main.py:219-223 | criterion 9 passes iff an RSI value is present and strictly above 45; its entry shows that value |
| Scoring.NearHigh | main.py:210-211 | on a positive high, being at most 35% below it is the same as the current price reaching 65% of the high |
| Scoring.FullMarks | main.py:169-227 | a stock meeting all nine thresholds scores 9 and lists all nine criteria in order |
| Scoring.AllPassTags | main.py:166-227 | nine entries in strictly increasing criterion order are exactly criteria 1..9 |
| Ranking.StopLoss | main.py:298 | the stop loss lies 8% of the price below it |
| Ranking.Target | main.py:299 | the target lies 16% of the price above it |
| Ranking.RiskReward | main.py:297-299 | target − price = 2·(price − stop loss); for a positive price, stop < price < target; price 100 gives 92 and 116 |
| Ranking.Screen | main.py:279-310 | a candidate keeps the symbol and the 90-180 day horizon, scores 6..9 with as many listed criteria, and has its stop loss and target derived from its price |
| Ranking.Candidates | main.py:264-310 | a universe yields no more candidates than it has instruments |
| Ranking.CollectCandidates | main.py:264-310 | the loop over the universe returns exactly `Candidates`: the qualifying instruments' candidates, in universe order |
| Ranking.CandidatesSound | main.py:274-310 | every candidate comes from an instrument of the universe that qualifies |
| Ranking.CandidatesComplete | main.py:274-310 | every qualifying instrument contributes its candidate |
| Ranking.CandidatesAppend | main.py:274-310 | screening a universe in two parts yields the first part's candidates followed by the second's |
| Ranking.CandidatesInUniverseOrder | main.py:274-310 | when two instruments qualify, the earlier one's candidate comes before the later one's |
| Ranking.ScreenQualifies | main.py:279-310 | an instrument yields a candidate iff it has metrics, at least 240 bars and a score of at least 6; the candidate's score is between 6 and 9, equals the number of criteria it lists, and its price is the scraped Current Price, 0 when absent, with stop and target derived from it |
| Ranking.UnpricedCandidate | main.py:296-299 | a stock without a scraped Current Price that meets the other eight thresholds scores 8 and is listed with price, stop loss and target all 0 |
| Ranking.CandidatesQualify | main.py:295-310 | every candidate scores 6..9 with as many listed criteria, and its stop and target derive from its price |
| Ranking.InsertByScore | main.py:318 | inserting into a list makes it one longer |
| Ranking.SortByScore | main.py:318 | sorting keeps the length of the list |
| Ranking.InsertPermutes | main.py:318 | one insertion adds the element and keeps all the others (multiset) |
| Ranking.SortPermutes | main.py:318 | the sorted list is a permutation of the candidates |
| Ranking.InsertAt | main.py:318 | insertion places the element just after the last element that scores at least as much |
| Ranking.InsertKeepsOrder | main.py:318 | insertion keeps a non-increasing list non-increasing |
| Ranking.InsertKeepsTies | main.py:318 | insertion appends the element after those of equal score and leaves every other score's elements in order |
| Ranking.SortedByScore | main.py:318 | the sorted list has non-increasing scores |
| Ranking.SortIsStable | main.py:318 | for every score, the elements with that score keep their input order |
| Ranking.SortKeepsSorted | main.py:318 | a list already in non-increasing order is left unchanged |
| Ranking.SortIdempotent | main.py:318 | ranking twice gives the same list as ranking once |
| Ranking.SortCandidates | main.py:318 | the in-place insertion sort leaves the array holding the stable descending sort of its old contents |
| Ranking.InsertLast | main.py:318 | one pass moves `a[i]` into place in the sorted prefix and leaves the rest of the array unchanged |
| Ranking.ShiftSmaller | main.py:318 | the inner loop shifts right the run of lower-scoring elements before `i` and returns the slot where that run began |
| Ranking.Report | main.py:321 | the report holds at most 15 candidates, in non-increasing score order |
| Ranking.WithScorePrefix | main.py:321 | cutting a list keeps, for each score, a prefix of that score's elements |
| Ranking.RankCandidates | main.py:264-321 | collect, sort in place, truncate: returns the number of candidates found and exactly the first min(n, 15) of the sorted list |
| Ranking.ReportProperties | main.py:261-321 | the report has min(n, 15) entries, non-increasing scores, each one a candidate scoring at least 6, no omitted candidate outscoring a shown one, a prefix of the sorted list, and for each score its candidates in the order they were collected (universe order) |
| Chunking.Chunks | main.py:240 | a message yields no chunks exactly when it is empty |
| Chunking.TelegramChunks | main.py:239-240 | the chunks sent concatenate back to the message, and each has 1 to 4096 characters |
| Chunking.ChunkCount | main.py:239-240 | the number of chunks n is the ceiling of len/size: (n − 1)·size < len ≤ n·size, or n = len = 0 |
| Chunking.ChunkLengths | main.py:239-240 | no chunks iff the message is empty; each chunk has 1..size characters, and all but the last have exactly size |
| Chunking.ConcatPrefix | main.py:240 | the first k chunks spell out the first min(k·size, len) characters |
| Chunking.ConcatChunks | main.py:240 | the chunks concatenated in order give back the message |
| Chunking.NineThousand | main.py:239-240 | a 9000-character report is sent as 4096 + 4096 + 808 characters |

## Left out

- Fetching the universe (main.py:31-95): CSV download with a static fallback list; I/O and static data.
- HTML scraping in `get_screener_data` (main.py:97-159): network and page structure. Only the growth formulas are modelled; the metric map is an input.
- The RSI computation (main.py:219-220): a call into a technical-analysis library. The RSI is an input `Option<real>`, where `None` stands for a missing value, NaN, or one of the caught exceptions.
- The price-history download (main.py:284-289): I/O. The instrument carries its bar count, and an empty history counts as 0 bars.
- Scoring.CalculateScore: the two `try`/`except` guards around criteria 8 and 9 (main.py:205-215, 218-225) are not modelled beyond the skip. Metric values are reals, so no `TypeError` can arise.
- Scoring.RunBlock: the source writes the nine blocks inline in one function. The model runs them as nine calls to one method, one block per call, in the same order and with the same effect.
- Ranking.CollectCandidates: the per-instrument `except Exception` (main.py:314-315) is not modelled, because no modelled step raises.
- Telegram delivery, its credential guard, `time.sleep` throttling and logging (main.py:234-250, 312): network and timing side effects.
- Number formatting (`:.2f`), the entry texts and the report message (main.py:172-223, 304-306, 324-340). Entries are tagged with their criterion and value, and prices stay unformatted reals.
- The Piotroski score is scraped as an integer (main.py:153). The model reads it as a real like every other metric, which changes no comparison.
- Floating point: every metric, price and rate is an exact `real`. IEEE-754 rounding, NaN and infinite metric values are not modelled, apart from the `float('inf')` default.
- Ranking.RankCandidates: the candidate list is a sequence; only the in-place sort works on an array.
