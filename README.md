# data-insights metrics engine, in Dafny

This project models the metrics aggregation engine of data-insights. The engine turns a list of
web-analytics export rows (`Insight`: country, device category, landing page, session medium,
sessions, users, new users, page views, engagement duration, engagement rate as text) into a report:

- **Overall statistics.** One pass over all rows. It produces a session-weighted engagement rate, the
  average session duration, the bounce rate, pages per session, the new-user percentage and sessions
  per user. Every ratio is guarded against a zero denominator.
- **Aggregation by breakdown.** Rows are grouped by country, device category, landing page or session
  medium. Groups with fewer rows than a threshold are dropped, and so is the group keyed `"(not set)"`.
  Each remaining group gets its totals, its row count and four ratios.
- **Ranking.** A list of group statistics is sorted in place by one of ten named fields, ascending or
  `"DESC"`. Top and bottom slices are then cut from it.
- **The report.** Overall statistics come first. Then come the four breakdowns with threshold 100, each
  sorted descending by a fixed field. The country and page lists are cut to their first and last 5.

Modules, one per source file: `Common` (`kit/common/const.go`, the record types of
`kit/common/model.go`, and their duplicates in `kit/model/model.go`), `Util` (`kit/metrics/util.go`),
`Accumulate` (the running sums both calculators share), `Aggregated` (`kit/metrics/aggregated.go`),
`Overall` (`kit/metrics/overall.go`), `Sort` (`kit/common/sort.go` and the identical
`SortByField` of `kit/model/model.go`), `KeyMetrics` (`kit/metrics/ui.go`) and `Compare` (the
lemmas that compare the group and the overall calculators on the same records). `Wrappers` holds `Option`.

How the model represents the source:

- **Open string types.** Go's `Breakdown`, `Metric` and `SortOrder` are open string types. The
  operations therefore take strings. The datatypes `Breakdown` and `Metric` give the named constants,
  and `BreakdownFromName` / `MetricFromName` resolve a string to its constant. An unrecognised
  breakdown keys every row by `""`. An unrecognised sort field makes the comparator false for every pair.
- **Unguarded group ratios.** A group's `AverageSessionDuration` and `BounceRate` are divided by the
  group's total sessions without a guard. In Go that yields an infinity or NaN. Here these fields are
  `Option<real>`, and they are `None` exactly when the total sessions are 0. All other ratios are exact `real`s.
- **The float parser.** `strconv.ParseFloat` is a parameter `parseFloat: string -> Option<real>`, where
  `None` is a parse error. Only its 0-on-error wrapper is modelled.
- **Map iteration order.** The aggregation's output order follows Go's map iteration. The model's loop
  picks the next key with `:|`. Its contract (`IsAggregation`) fixes the set of entries and nothing
  about their order.
- **Sorting.** The sort result is stated through the comparator's `less`. Ascending leaves no pair
  out of order. `"DESC"` uses the comparator `!less`, which is not a strict order; the model states its
  actual outcome, a non-increasing list. `less` on an undefined ratio is false. The model's sort
  order puts undefined ratios lowest, so the defined entries always end in order around them. Go's
  outcome can differ (see "## Left out"). The implementation is an in-place insertion sort. Go's `sort.Slice` is unstable, so no claim is made about the relative order of equal keys.
- **Name comparison.** Go compares strings byte by byte. `LexLess` compares Unicode scalar values
  lexicographically, which is the same order, because UTF-8 preserves code point order.
- **The report's panic.** `CalculateKeyMetrics` panics in Go when the country or page breakdown has
  fewer than 5 qualifying groups. The model returns `SliceOutOfRange` in that case.
- **Two different bounce numerators.** The group bounce numerator counts bounce *rows*. The overall
  one sums their *sessions*. `UniformBounceGroup` makes the difference concrete: when every row is a
  bounce with k sessions, the overall rate is 100 and the group rate of the same rows is 100 / k.

## Model

| member | source | states |
|---|---|---|
| Common.BreakdownFromName | kit/common/const.go:5-12 | a string resolves to a breakdown exactly when it is one of the four names, and then to the breakdown of that name |
| Common.MetricFromName | kit/common/const.go:14-27 | a string resolves to a metric exactly when it is one of the ten field names, and then to the metric of that name |
| Common.BreakdownNameRoundTrip | kit/model/model.go:21-28 | each breakdown's name resolves back to that breakdown, so the four names are distinct (the same constants as kit/common) |
| Common.MetricNameRoundTrip | kit/model/model.go:30-43 | each metric's name resolves back to that metric, so the ten names are distinct (the same constants as kit/common) |
| Util.GetTopElements | kit/metrics/util.go:5-7 | for 0 <= n <= length, the result has n elements and followed by the rest it rebuilds the input (the prefix) |
| Util.GetBottomElements | kit/metrics/util.go:10-12 | for 0 <= n <= length, the result has n elements, is the input's suffix in its original order (not reversed), and the rest followed by it rebuilds the input |
| Util.ParseStringToFloat | kit/metrics/util.go:15-21 | 0 when the parser reports an error, the parsed value otherwise |
| Util.SliceExtremes | kit/metrics/util.go:5-12 | taking all elements gives the whole input and taking none gives the empty sequence, from either end |
| Util.TopAndBottomCover | kit/metrics/util.go:5-12 | the top n and the bottom length-n together are the whole input |
| Accumulate.BounceCountsBounded | kit/metrics/overall.go:16-20 | with no negative session counts: 0 <= bounce rows <= sessions of bounce rows <= all sessions |
| Accumulate.BounceRecordsAtMostRecords | kit/metrics/aggregated.go:39-41 | the bounce rows are between 0 and the number of rows |
| Accumulate.RateTotalBounded | kit/metrics/aggregated.go:37-49 | when every parsed rate lies in [lo, hi], the rate sum lies in [lo·n, hi·n] |
| Accumulate.WeightedRateTotalBounded | kit/metrics/overall.go:13-14 | when every parsed rate lies in [lo, hi] and sessions are non-negative, the session-weighted sum lies in [lo·S, hi·S] |
| Accumulate.NewUsersBounded | kit/metrics/overall.go:21-22 | when each row has 0 <= new users <= users, the same holds of the totals |
| Aggregated.KeysAreNonEmptyGroups | kit/metrics/aggregated.go:13-26 | the keys the grouping loop creates are exactly those whose group of rows is non-empty |
| Aggregated.KeyOfSelects | kit/metrics/aggregated.go:14-24 | a named breakdown keys each row by the field of that name |
| Aggregated.GroupByKey | kit/metrics/aggregated.go:10-26 | the grouping loop builds a map whose keys are the keys present and whose entry for each key is that key's rows in input order, never empty |
| Aggregated.AggregateGroup | kit/metrics/aggregated.go:32-57 | the accumulation loop yields the group's summary: exact totals, row count, mean parsed rate, guarded engagement duration, and session ratios undefined at 0 sessions |
| Aggregated.AggregateMetricsByBreakdown | kit/metrics/aggregated.go:9-74 | the output has distinct names, exactly one entry per key present that is not "(not set)" and has at least threshold rows, each entry the summary of its group; every entry has DataPointCount >= threshold; a threshold above the input size gives an empty result |
| Aggregated.EntriesQualify | kit/metrics/aggregated.go:31-69 | every entry of an aggregation has DataPointCount equal to the number of input positions with its key, at least threshold, and is not named "(not set)" |
| Aggregated.GroupSizeIsCount | kit/metrics/aggregated.go:25-25 | a group's size is the number of input positions whose row has its key |
| Aggregated.GroupMembers | kit/metrics/aggregated.go:13-26 | a row is in a group exactly when it is in the input and has the group's key |
| Aggregated.DistinctNamesCardinality | kit/metrics/aggregated.go:30-31 | names are distinct exactly when there are as many names as entries |
| Aggregated.AggregationSize | kit/metrics/aggregated.go:30-70 | an aggregation has exactly one entry per qualifying key |
| Aggregated.AggregationUnique | kit/metrics/aggregated.go:30-73 | two aggregations of the same input have the same entries and length; only the order can differ |
| Aggregated.AggregationPermutation | kit/metrics/ui.go:17-30 | any rearrangement of an aggregation, such as the sorted list, is still an aggregation |
| Aggregated.QualifyingNamesBounded | kit/metrics/aggregated.go:31-31 | a threshold above the input size leaves no qualifying key |
| Aggregated.LowThresholdAdmitsAllKeys | kit/metrics/aggregated.go:31-31 | with threshold at most 1, every present key except "(not set)" qualifies |
| Aggregated.UnknownBreakdownSingleGroup | kit/metrics/aggregated.go:14-24 | an unrecognised breakdown admits at most the one key "", and admits it when the input is non-empty and meets the threshold |
| Aggregated.GroupRatioGuards | kit/metrics/aggregated.go:50-56 | a group's session duration and bounce rate are undefined exactly when its sessions total 0; its engagement duration is 0 when page views are not positive |
| Aggregated.GroupBounceRateBounded | kit/metrics/aggregated.go:39-51 | with non-negative sessions, a group's bounce rate is defined iff its sessions are non-zero and then lies in [0, 100] |
| Aggregated.GroupEngagementRateWithin | kit/metrics/aggregated.go:37-49 | a group's average engagement rate lies within the range of its rows' parsed rates |
| Overall.CalculateOverallMetrics | kit/metrics/overall.go:7-48 | the single pass yields the six guarded ratios of the dataset's sums |
| Overall.EmptyDataAllZero | kit/metrics/overall.go:8-38 | empty input gives all six statistics 0 |
| Overall.GuardedRatiosZero | kit/metrics/overall.go:26-38 | without positive sessions the four session ratios are 0; without positive users the two user ratios are 0 |
| Overall.EngagementRateIsWeightedMean | kit/metrics/overall.go:12-29 | with non-negative sessions and positive total, the overall engagement rate lies within the range of the parsed rates (a session-weighted mean) |
| Overall.BounceRateBounded | kit/metrics/overall.go:16-31 | with non-negative sessions the overall bounce rate lies in [0, 100] |
| Overall.NewUserPercentageBounded | kit/metrics/overall.go:35-36 | when each row has 0 <= new users <= users, the new-user percentage lies in [0, 100] |
| Compare.GroupBounceAtMostOverallBounce | kit/metrics/overall.go:16-18 | over the same rows, the group bounce rate (rows / sessions) never exceeds the overall one (sessions / sessions) |
| Compare.SessionDurationAgrees | kit/metrics/overall.go:30-30 | over the same rows with positive sessions, both calculators give the same average session duration |
| Compare.UniformBounceGroup | kit/metrics/aggregated.go:39-51 | when every row is a bounce with k sessions, the overall bounce rate is 100 and the group bounce rate is 100 / k |
| Sort.LexLessTrichotomy | kit/common/sort.go:18-19 | string order: exactly one of a < b, a = b, b < a |
| Sort.LexLessTransitive | kit/common/sort.go:18-19 | string order is transitive |
| Sort.AscLeExcludesLess | kit/model/model.go:71-101 | the order the sort uses never puts an element before one the comparator calls less, for all ten fields |
| Sort.LePreorder | kit/model/model.go:68-103 | the sort order of every field and direction is total and transitive |
| Sort.InsertionSort | kit/common/sort.go:14-14 | in place, the array ends a permutation of its old contents, ordered by the given total preorder |
| Sort.SortByField | kit/common/sort.go:13-48 | the list ends a permutation of its old contents; with "DESC" no element is less than a later one, otherwise no later element is less than an earlier one; an unknown field promises only the permutation |
| KeyMetrics.SortedBreakdown | kit/metrics/ui.go:17-30 | one breakdown aggregated with threshold 100 and sorted descending is an aggregation, sorted, with every entry qualifying |
| KeyMetrics.CalculateKeyMetrics | kit/metrics/ui.go:12-42 | the report holds the overall metrics of the data; the first and last 5 of the country aggregation sorted descending by engagement rate and of the page aggregation sorted descending by sessions; the whole device aggregation sorted by bounce rate and medium aggregation sorted by session duration; every entry has at least 100 rows and is not "(not set)"; it is SliceOutOfRange exactly when fewer than 5 countries or pages qualify |

## Left out

- Files other than the metrics engine are not part of this model. These are the entry points,
  environment loading, file walking and JSON decoding, the language-model client and its prompt
  rendering, and e-mail rendering and delivery. All of them are I/O.
- The `...WithInsight`, `EmailData` and `EnvVariables` types of `kit/common/model.go` carry the
  language model's reply and configuration. They are not modelled.
- IEEE float64 behaviour is not modelled. This covers rounding and the infinities and NaN of the unguarded
  group divisions. It also covers the NaN and ±Inf that `strconv.ParseFloat` returns without error
  for "NaN", "Inf" and "Infinity", which then make the engagement-rate sums non-finite. Ratios are
  exact reals, the parser yields only finite reals, and an undefined group ratio is `None`.
- `strconv.ParseFloat` itself is not modelled. It is the caller-supplied `parseFloat`.
- Go's 64-bit integer overflow in the sums is not modelled. Totals are unbounded integers.
- Util.GetTopElements: Go's `s[:n]` panics only when n exceeds the slice's capacity, not its length.
  The model requires n <= length. The report never depends on the difference. It always calls
  `GetBottomElements(s, 5)` on the same slice (kit/metrics/ui.go:36, 39), and that call panics
  whenever len(s) < 5, because its low index len(s) - 5 is negative (kit/metrics/util.go:11).
  So the report panics exactly when the length is below 5, whatever the capacity.
- Sort.SortByField: the internals of Go's `sort.Slice` (pdqsort) are not modelled, only the sorted
  outcome. The model sorts by insertion sort, so the order of equal keys may differ from Go's.
- Sort.SortByField: the model sorts undefined ratios (`None`) lowest and promises the defined entries
  in order. In Go such a ratio is NaN or ±Inf (−Inf when a zero-session group's durations sum below 0). With a NaN present, Go's comparator is not a strict weak
  order, and Go may leave defined entries out of order. For example, bounce rates 3, NaN, 1 sorted
  ascending stay as they are, because insertion sort sees `NaN < 3` and `1 < NaN` both false. A +Inf
  average session duration (zero sessions, positive duration) is ordered above every finite value in
  Go. Here it is `None` and sorts lowest.
- Sort.SortByField: with an unrecognised field the model leaves the list unchanged. Go still runs
  `sort.Slice` with an always-false comparator. Only the permutation is promised either way.
