# Expense ledger — a verified model of its core

This project models the core of a single-page expense ledger: the store that
holds the list of transactions (newest first) and the reducer that applies
`add`, `remove`, `hydrate` and `purge` to it, and the four views derived from
that list — the filtered ledger with its category choices, the summary cards
(totals, balance, latest activity, per-day velocity), the insights panel
(per-category buckets, top debit and credit categories, busiest hour, newest
record) and the timeline (the 40 newest records grouped by local day) — plus
the entry form's submit handler, which validates the raw field values and
builds the draft handed to the store.

Modules, one per source file of the core, plus shared support:

- `Ledger` (`ledger.dfy`) — `Transaction`, `Draft`, `State`, `Action` and the
  reducer `Apply`, the provider's load guard `OnLoaded` and `UseTransactions`.
- `Filtering` (`filtering.dfy`) — the five filter clauses, `Matches`,
  `Filtered` and the sorted category list `CategoryOptions`.
- `Summary` (`summary.dfy`) — the summing loop `SumByKind`, the span and
  velocity (`ComputeVelocity` against `VelocityOf`) and the card values
  (`Summarize` against `SummaryOf`).
- `Insights` (`insights.dfy`) — the bucket/histogram loop `Tally`, the
  first-maximum picks of the stable sorts (`FirstMaxIndex`), the `reduce` for
  the busiest hour (`Busiest`) and `ComputeInsights` against `InsightsOf`.
- `Timeline` (`timeline.dfy`) — `BucketByDay`, an in-place insertion sort on
  arrays (`SortDescendingBy`), `GroupByDay` against the predicate
  `IsDayGrouping`, and `TimelineOf`.
- `Form` (`form.dfy`) — the class `TransactionForm` with one field per form
  input and the method `HandleSubmit`, specified by the pure `SubmitOutcome`.
- Support: `Wrappers` (`Option`, `Result`), `Seqs` (`Filter`, subsequences,
  repeat-free sequences), `Text` (`toLowerCase` on ASCII, `includes`, `trim`,
  the default string order) and `Time` (timestamps as integer milliseconds,
  local days and hours at a fixed zone offset).

Timestamps are integers (milliseconds since the epoch); the local zone is a
fixed `offset` parameter. Amounts are reals. The fresh id of `add`, the clock
readings, `Number(...)`, the parse of the form's date field and the
loaded list of the provider are parameters.

Where the code and its description differ, the model follows the code: the
"latest activity" card shows the head record's `occurredAt` (when the event
happened), not its `createdAt` (when it was recorded).

## Model

| member | source | states |
|---|---|---|
| Ledger.Initial | components/transactions-store.tsx:25-27 | `initialState`; no contract: specified by `PurgeResets` |
| Ledger.Stamp | components/transactions-store.tsx:41-45 | the record `add` builds from a draft; no contract: specified by `AddKeepsDraftFields` |
| Ledger.Apply | components/transactions-store.tsx:37-68 | the `reducer`; no contract of its own: specified by `AddPrepends`, `AddKeepsDraftFields`, `RemoveKeepsOthersInOrder`, `HydrateReplaces`, `PurgeResets` and `ApplyKeepsLedgerValid` |
| Ledger.AddPrepends | components/transactions-store.tsx:39-49 | `add` puts the stamped draft at the head, keeps the old list as the tail, grows the list by one and sets `lastSyncedAt` to the new record's `createdAt` |
| Ledger.AddKeepsDraftFields | components/transactions-store.tsx:41-45 | the new head has the given id and creation time and otherwise exactly the draft's fields |
| Ledger.AddKeepsIdsUnique | components/transactions-store.tsx:41-47 | adding under an id not yet present keeps ids unique |
| Ledger.RemoveKeepsOthersInOrder | components/transactions-store.tsx:51-56 | `remove(id)` keeps exactly the records with another id, as a subsequence in the original order, and leaves `lastSyncedAt` unchanged |
| Ledger.RemoveIdempotent | components/transactions-store.tsx:52 | removing an id twice equals removing it once |
| Ledger.RemoveAbsentIsNoop | components/transactions-store.tsx:52 | removing an id that is absent returns the same state |
| Ledger.RemovePresentDropsOne | components/transactions-store.tsx:52 | with unique ids, removing a present id shortens the list by exactly one |
| Ledger.FilterKeepsIdsUnique | components/transactions-store.tsx:52 | any filtering of a list with unique ids has unique ids |
| Ledger.HydrateReplaces | components/transactions-store.tsx:58-62 | `hydrate(items)` makes the list exactly `items` |
| Ledger.PurgeResets | components/transactions-store.tsx:63-64 | `purge` yields the empty list with no `lastSyncedAt`, whatever the prior state |
| Ledger.ApplyKeepsLedgerValid | components/transactions-store.tsx:37-68 | every action keeps ids unique and amounts positive, given a fresh id and positive amount for `add` and a valid list for `hydrate` |
| Ledger.OnLoaded | components/transactions-store.tsx:82-86 | the loaded list replaces the ledger (and stamps the sync time) only when it is non-empty; an empty load leaves the state unchanged |
| Ledger.UseTransactions | components/transactions-store.tsx:106-111 | outside a provider the hook fails with the exact message; inside it returns the provider's state |
| Seqs.Filter | components/transactions-store.tsx:52 | `Array.prototype.filter`: the result is no longer than the input and holds exactly the input elements that pass |
| Filtering.DefaultFilters | app/page.tsx:52-56 | the page's initial filters; no contract: specified by `DefaultFiltersKeepAll` |
| Filtering.KindClause | app/page.tsx:19-21 | the kind clause; no contract: specified by `FilteredRecordsSatisfyClauses` |
| Filtering.CategoryClause | app/page.tsx:23-25 | the category clause (exact match); no contract: specified by `FilteredRecordsSatisfyClauses` |
| Filtering.FromClause | app/page.tsx:27-32 | the `from` clause; no contract: specified by `DateBoundsAreInclusiveDays` |
| Filtering.ToClause | app/page.tsx:34-39 | the `to` clause (end of the local day, see Left out); no contract: specified by `DateBoundsAreInclusiveDays` |
| Filtering.Haystack | app/page.tsx:45 | the searched text: label, description or empty, category, separated by single spaces; no contract: specified by `SearchIsCaseInsensitiveSubstring` |
| Filtering.SearchClause | app/page.tsx:41-46 | the text clause; no contract: specified by `EmptySearchAcceptsAll` and `SearchIsCaseInsensitiveSubstring` |
| Filtering.Matches | app/page.tsx:18-47 | the filter callback, the conjunction of the five clauses; no contract: specified by `FilteredIsExactlyTheMatches` and `FilteredRecordsSatisfyClauses` |
| Filtering.Filtered | app/page.tsx:16-48 | `useFiltered`; no contract: specified by `FilteredIsSubsequence`, `FilteredIsExactlyTheMatches` and `DefaultFiltersKeepAll` |
| Filtering.FilteredIsSubsequence | app/page.tsx:18-47 | the filtered view is an order-preserving subsequence of the ledger |
| Filtering.FilteredIsExactlyTheMatches | app/page.tsx:18-47 | a record is in the view iff it is in the ledger and every clause accepts it |
| Filtering.FilteredRecordsSatisfyClauses | app/page.tsx:19-46 | each record in the view has the chosen kind, the chosen category (exact match), lies on or after the `from` day and on or before the `to` day, and its lower-cased haystack contains the lower-cased search |
| Filtering.DateBoundsAreInclusiveDays | app/page.tsx:27-39 | both date clauses are inclusive: they accept a record iff its local day is at or after `from` / at or before `to` |
| Filtering.EmptySearchAcceptsAll | app/page.tsx:41-43 | an empty search accepts every record |
| Filtering.SearchIsCaseInsensitiveSubstring | app/page.tsx:45-46 | the text clause holds iff lower(label + " " + description-or-empty + " " + category) contains lower(search) |
| Filtering.DefaultFiltersKeepAll | app/page.tsx:16-48 | with the initial filters (`all`, `all`, no dates, empty search) the view is the whole ledger |
| Filtering.StrictlyAscendingIsDistinct | app/page.tsx:60 | a strictly ascending list holds no repeats |
| Filtering.InsertSorted | app/page.tsx:60 | inserting a category into a strictly ascending list keeps it strictly ascending and adds exactly that category |
| Filtering.CategoryOptions | app/page.tsx:59-62 | the category list is strictly ascending (so repeat-free) and holds exactly the categories present in the ledger |
| Text.Lower | app/page.tsx:45 | `toLowerCase` keeps the length, turns each upper-case ASCII letter into its lower-case letter (code point plus 32), and changes no other character |
| Text.LowerIgnoresCase | app/page.tsx:45-46 | strings that differ only in the case of ASCII letters lower-case to the same string, so the search ignores case |
| Text.Includes | app/page.tsx:46 | `includes` holds iff the needle occurs at some position of the haystack |
| Text.Trim | components/transaction-form.tsx:35 | `trim` returns a contiguous piece of the input with only white space cut from both ends; it is empty iff the input is all white space, and otherwise starts and ends with a non-space |
| Text.Less | app/page.tsx:60 | the default string order of `sort`; no contract: specified by `LessIrreflexive`, `LessTransitive` and `LessTotal` |
| Text.LessTotal | app/page.tsx:60 | the default string order is total |
| Text.LessTransitive | app/page.tsx:60 | the default string order is transitive |
| Text.LessIrreflexive | app/page.tsx:60 | the default string order is strict |
| Time.DayOf | components/transaction-timeline.tsx:15 | the local calendar day of a timestamp; no contract: specified by `DayOfMonotone`, `AtOrAfterStartOfDay` and `AtOrBeforeEndOfDay` |
| Time.StartOfDay | app/page.tsx:28 | local midnight opening a day; no contract: specified by `AtOrAfterStartOfDay` |
| Time.EndOfDay | app/page.tsx:35 | `23:59:59.999` closing a day; no contract: specified by `AtOrBeforeEndOfDay` |
| Time.CalendarDayDiff | components/summary-cards.tsx:45 | `differenceInCalendarDays`; no contract: specified by `SpanCoversAllEvents` |
| Time.HourOf | components/insights-panel.tsx:35 | `getHours()` is an hour from 0 to 23 |
| Time.AtOrAfterStartOfDay | app/page.tsx:27-32 | a time is at or after the local midnight opening a day iff its local day is that day or later |
| Time.AtOrBeforeEndOfDay | app/page.tsx:34-39 | a time is at or before `23:59:59.999` of a day iff its local day is that day or earlier |
| Time.DayOfMonotone | components/summary-cards.tsx:43-45 | a later time never falls on an earlier local day |
| Summary.KindTotal | components/summary-cards.tsx:68-73 | the total of one flow; no contract: specified by `KindTotalConcat`, `KindTotalSumsThatFlow`, `CreditAndDebitPartitionAmounts`, `TotalsNonNegative` and `SumByKind` |
| Summary.SumByKind | components/summary-cards.tsx:68-73 | the summing loop leaves in `credit` the total of the credit records and in `debit` the total of all the others |
| Summary.KindTotalConcat | components/summary-cards.tsx:70-73 | the total of a concatenation is the sum of the totals |
| Summary.KindTotalSumsThatFlow | components/summary-cards.tsx:68-73 | the total of a flow is the sum of the amounts of exactly the records of that flow |
| Summary.CreditAndDebitPartitionAmounts | components/summary-cards.tsx:68-73 | credit plus debit is the sum of all amounts: every record is counted once |
| Summary.TotalsNonNegative | components/summary-cards.tsx:68-73 | with no negative amounts, neither total is negative |
| Summary.Earliest | components/summary-cards.tsx:42-43 | the head of the ascending sort: an `occurredAt` of the ledger no later than any other |
| Summary.Latest | components/summary-cards.tsx:42-44 | the last of the ascending sort: an `occurredAt` of the ledger no earlier than any other |
| Summary.Span | components/summary-cards.tsx:45 | the span is at least one day |
| Summary.SpanCoversAllEvents | components/summary-cards.tsx:42-45 | no two events are more calendar days apart than the span, and a span above one is the distance of some pair of events (so span = max(1, distance from earliest to latest)) |
| Summary.Averages | components/summary-cards.tsx:57-61 | `avgCredit * span == credit`, `avgDebit * span == debit` and `dailyNet == avgCredit - avgDebit` |
| Summary.VelocityOf | components/summary-cards.tsx:37-62 | `computeVelocity`; no contract: specified by `ComputeVelocity`, `Averages`, `Span`, `SpanCoversAllEvents` and `EmptyLedgerSummary` |
| Summary.ComputeVelocity | components/summary-cards.tsx:37-62 | the method computes `VelocityOf`: zeros for an empty ledger, otherwise the credit, debit and net totals per day of the span |
| Summary.SummaryOf | components/summary-cards.tsx:67-83 | the card values; no contract: specified by `Summarize`, `SummaryAccountsForLedger`, `SummaryTotalsNonNegative` and `EmptyLedgerSummary` |
| Summary.Summarize | components/summary-cards.tsx:67-83 | the method computes `SummaryOf` by running the loops `SumByKind` and `ComputeVelocity`; it exists to run those loops |
| Summary.SummaryAccountsForLedger | components/summary-cards.tsx:74-80 | the card totals are the sums of the credit and of the debit records, the balance is credit minus debit, credit plus debit accounts for every amount, and the latest activity is present iff the ledger is non-empty and is then the head record's `occurredAt` |
| Summary.SummaryTotalsNonNegative | components/summary-cards.tsx:68-73 | in a valid ledger both totals are non-negative |
| Summary.EmptyLedgerSummary | components/summary-cards.tsx:38-40 | an empty ledger has zero totals, zero balance, the placeholder for latest activity and zero velocity |
| Summary.BalanceAccent | components/summary-cards.tsx:91 | the balance card's accent; no contract: specified by `BalanceCardPositiveIffCovered` |
| Summary.BalanceCardPositiveIffCovered | components/summary-cards.tsx:91 | the balance card is "positive" iff the credits are at least the debits |
| Insights.CategoryOrder | components/insights-panel.tsx:23-33 | the iteration order of the category map is repeat-free and holds exactly the ledger's categories; its first-seen order is `CategoryOrderIsFirstSeen` |
| Insights.CategoryOrderIsFirstSeen | components/insights-panel.tsx:23-33 | the map's order is first-seen order: when one category precedes another, some record of the first comes before every record of the second |
| Insights.BucketOf | components/insights-panel.tsx:26-33 | the bucket the loop holds for a category; no contract: specified by `BucketIsCategoryTotals`, `BucketOfAbsent` and `Tally` |
| Insights.HourCounts | components/insights-panel.tsx:24-36 | the `byHour` histogram; no contract: specified by `HourCountsStep`, `HistogramCountsEveryRecord` and `Tally` |
| Insights.BucketIsCategoryTotals | components/insights-panel.tsx:26-33 | the bucket of a category holds the credit and debit totals of exactly the records in that category |
| Insights.BucketOfAbsent | components/insights-panel.tsx:27 | a category no record carries has an empty bucket |
| Insights.FileRecord | components/insights-panel.tsx:27-33 | one turn of the loop adds the record to its bucket (a new one, appended to the map's order, on first sight) and keeps every bucket equal to its category's running totals |
| Insights.HourCountsStep | components/insights-panel.tsx:35-36 | counting a record raises the slot of its hour by one and leaves the others alone |
| Insights.CountStep | components/insights-panel.tsx:35-36 | one slot's count grows by one exactly when the added record falls in that hour |
| Insights.Tally | components/insights-panel.tsx:23-37 | the loop leaves the categories in first-seen order, one bucket per ledger category holding that category's totals, and the 24-slot hour histogram of the ledger |
| Insights.FirstMaxIndex | components/insights-panel.tsx:39-40 | the head of the stable descending sort: an entry with the largest score, every earlier entry scoring strictly less |
| Insights.Busiest | components/insights-panel.tsx:42-45 | the `reduce` returns the first slot with the largest count, or hour 0 with count 0 when every slot is empty |
| Insights.DebitScores | components/insights-panel.tsx:39 | the sort keys of `sortedDebit`: exactly one score per category of the map (its contract); each is that category's bucket debit total, which `BucketIsCategoryTotals` ties to the category's records and `TopDebitSinkIsLargest` uses |
| Insights.CreditScores | components/insights-panel.tsx:40 | the sort keys of `sortedCredit`: exactly one score per category of the map (its contract); each is that category's bucket credit total, which `BucketIsCategoryTotals` ties to the category's records and `PrimaryCreditSourceIsLargest` uses |
| Insights.InsightsOf | components/insights-panel.tsx:18-77 | `computeInsights`; no contract: specified by `EmptyLedgerHasNoInsights`, `FourInsightsInOrder`, `TopDebitSinkIsLargest`, `PrimaryCreditSourceIsLargest` and `PeakHourIsEarliestBusiest` |
| Insights.ComputeInsights | components/insights-panel.tsx:18-77 | the method computes `InsightsOf` by running the loop `Tally`; it exists to run that loop |
| Insights.EmptyLedgerHasNoInsights | components/insights-panel.tsx:19-21 | an empty ledger has no insights |
| Insights.FourInsightsInOrder | components/insights-panel.tsx:49-76 | a non-empty ledger has exactly four insights: debit sink, credit source, peak hour and the head record's label and time |
| Insights.TopDebitSinkIsLargest | components/insights-panel.tsx:39-55 | the top debit sink is a ledger category whose debit total is at least every category's, and every category first seen before it has a strictly smaller total (ties go to the first seen) |
| Insights.PrimaryCreditSourceIsLargest | components/insights-panel.tsx:40-62 | the same for the credit source and credit totals |
| Insights.CategorySumSplitsHead | components/insights-panel.tsx:26-33 | over repeat-free categories, the bucket totals of a ledger grow by a record's amount exactly when its category is among them |
| Insights.CategorySumCovers | components/insights-panel.tsx:23-34 | over any repeat-free list covering the ledger's categories, the bucket totals add up to the ledger's total |
| Insights.EmptyCategorySum | components/insights-panel.tsx:23 | an empty ledger has empty buckets |
| Insights.BucketsPartitionTotals | components/insights-panel.tsx:23-34 | the buckets partition the amounts: their credit (or debit) totals add up to the ledger's credit (or debit) total |
| Insights.HistogramCountsEveryRecord | components/insights-panel.tsx:24-36 | the histogram has 24 slots and its counts add up to the number of records |
| Insights.PeakHourIsEarliestBusiest | components/insights-panel.tsx:42-45 | the peak hour's count is the largest slot count, every earlier hour has fewer, and it is at least one in a non-empty ledger |
| Timeline.SortDescendingBy | components/transaction-timeline.tsx:20-22 | the in-place sort leaves the array in non-increasing key order and a permutation of what it held |
| Timeline.InsertAt | components/transaction-timeline.tsx:22 | one insertion pass extends the sorted prefix by one slot, permuting only that prefix and leaving every later slot as it was |
| Timeline.Swap | components/transaction-timeline.tsx:22 | one exchange of the sort swaps exactly two slots and keeps the array's contents |
| Timeline.BucketByDay | components/transaction-timeline.tsx:13-19 | the loop yields one repeat-free key per day on which something happened, each day's list being that day's records in ledger order |
| Timeline.FileByDay | components/transaction-timeline.tsx:15-18 | one turn appends the record to its day's list (a new list, on first sight) and keeps every list equal to its day's records |
| Timeline.OrderDays | components/transaction-timeline.tsx:20-21 | sorting the day lists gives strictly descending days, each day's own list, and every day |
| Timeline.DistinctDayLists | components/transaction-timeline.tsx:20-21 | day lists sorted by day, none twice and each the list of its own day, have strictly descending days |
| Timeline.OrderEntries | components/transaction-timeline.tsx:22 | each day's list is sorted newest first without gaining or losing a record |
| Timeline.IsDayGrouping | components/transaction-timeline.tsx:12-23 | what `groupByDay` returns; a predicate: established by `GroupByDay` and used by `GroupingPartitions` |
| Timeline.GroupByDay | components/transaction-timeline.tsx:12-23 | the result is a day grouping: days strictly descending, exactly the days of the input, each group holding exactly that day's records newest first |
| Timeline.Recent | components/transaction-timeline.tsx:30 | `slice(0, 40)` is a prefix of the ledger of length min(40, n) |
| Timeline.TimelineOf | components/transaction-timeline.tsx:26-30 | an empty ledger gives no timeline; otherwise the result is the day grouping of the first 40 records |
| Timeline.FlattenIsSpread | components/transaction-timeline.tsx:14-22 | read group after group, the groups hold the records of their days, day by day |
| Timeline.SpreadSplitsHead | components/transaction-timeline.tsx:14-19 | with distinct days, a record is spread into the groups exactly once if its day is among them and not at all otherwise |
| Timeline.SpreadOverEmpty | components/transaction-timeline.tsx:14 | no records spread into nothing |
| Timeline.SpreadCovers | components/transaction-timeline.tsx:14-19 | groups with distinct days covering every record's day take up each record exactly once |
| Timeline.GroupingPartitions | components/transaction-timeline.tsx:13-22 | a day grouping is a permutation of its input, every entry has its group's day, and no group is empty |
| Timeline.GroupHoldsItsDay | components/transaction-timeline.tsx:14-19 | every entry of a group lies on the group's day, and the group is non-empty |
| Timeline.TimelineShowsRecentWindow | components/transaction-timeline.tsx:26-30 | the timeline shows each of the first min(40, n) records exactly once, so it holds min(40, n) entries |
| Form.Message | components/transaction-form.tsx:39-49 | the three error texts; no contract: `TransactionForm.HandleSubmit` states that a rejection shows `Message` of its reason |
| Form.FirstError | components/transaction-form.tsx:35-51 | the first failing check; no contract: specified by `ChecksRunInOrder` |
| Form.SubmitOutcome | components/transaction-form.tsx:35-62 | the outcome of a press of submit; no contract: specified by `SubmittedDraftIsWellFormed`, `SubmissionKeepsLedgerValid` and `TransactionForm.HandleSubmit` |
| Form.OptionalText | components/transaction-form.tsx:57 | the description is absent iff it is blank after trimming, and otherwise the trimmed text |
| Form.ChecksRunInOrder | components/transaction-form.tsx:38-51 | the label check fires iff the label is all white space; the amount check iff the label passed and the amount is not finite or not positive; the date check iff both passed and the date field is empty; none iff all three pass |
| Form.SubmittedDraftIsWellFormed | components/transaction-form.tsx:55-62 | a submitted draft has the trimmed non-empty label, the typed amount (finite and positive, so its absolute value is itself), the trimmed description or none, and the chosen kind, category and time |
| Form.SubmissionKeepsLedgerValid | components/transaction-form.tsx:55-62 | adding a submitted draft under a fresh id keeps the ledger valid |
| Form.TransactionForm.constructor | components/transaction-form.tsx:22-30 | a fresh form has empty label, description and amount, category `General`, kind `credit`, the current local time and no message |
| Form.TransactionForm.HandleSubmit | components/transaction-form.tsx:32-70 | the outcome is `SubmitOutcome` of the field values; a rejection shows the first failing check's message and changes no field; a submission clears the message and resets every field to its default; an invalid date clears the message and changes nothing else |

## Left out

- Persistence (`loadTransactions`, `persistTransactions`), React context, hooks, effects, re-rendering and the batching of state updates: the loaded list is a parameter of `Ledger.OnLoaded`, and the form's setters are direct field updates.
- `nanoid()` and `new Date()`: the fresh id and the clock readings are parameters; freshness of the id is a precondition where uniqueness is claimed.
- Ledger.Apply: the reducer's `default` branch is not modelled, because the action type admits no other case.
- date-fns: `parseISO`, `format`, `getHours` and `differenceInCalendarDays` are modelled as floor division of integer timestamps at a fixed zone offset; daylight-saving changes are not modelled.
- Filtering.ToClause: treats the `to` date as the end of the local day; the code appends `T23:59:59.999Z`, so for a zone other than UTC its bound is the end of the UTC day. `from` is a local midnight in both.
- Summary.Earliest, Summary.Latest, Timeline.SortDescendingBy: the code compares `occurredAt` as ISO-8601 strings; the model compares the timestamps, which orders the same for well-formed `toISOString` output.
- Timeline.SortDescendingBy: the comparator `a > b ? -1 : 1` never reports equal keys, so the arrangement of records with equal `occurredAt` depends on the engine; the model only promises non-increasing order and a permutation.
- Timeline.OrderEntries: sorts a copy of each day's list; the code sorts the map's arrays in place, which nothing else observes.
- Insights.FirstMaxIndex: only the first entry of each sorted copy is computed, since nothing else of the sorted lists is used.
- Summary.SumByKind: the code repeats the same summing loop in `SummaryCards` and `computeVelocity`; it is modelled once and used by both.
- Formatting: `Intl.NumberFormat` currency strings, `toFixed`, `format(..., 'PPPpp')`, the `HH:00` hour label and all JSX; the model returns the underlying numbers and timestamps (`Summary.Summarize` returns the latest activity as a timestamp, `None` for the `—` placeholder).
- Floating point: amounts and averages are reals; rounding, NaN and infinities of IEEE doubles are not modelled (except that `Number(amount)` may be non-finite in the form).
- Text.Lower: folds ASCII letters only; full Unicode `toLowerCase` is not modelled.
- Text.Less: orders strings by Unicode code point; JavaScript's default sort compares UTF-16 code units, which differ only outside the Basic Multilingual Plane.
- `Number(...)` string parsing and `new Date(...)` date parsing: parameters of `Form.TransactionForm.HandleSubmit`.
- The browser `confirm` guarding `purge` and the presentational components (the table, the filter panel, the layout).
