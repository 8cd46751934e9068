# Expense tracker ledger — a Dafny model

This project models the ledger logic of a browser-based personal expense
tracker (`script.js`). Users record income and expense transactions, each
carrying a snapshot of its currency. The page keeps the list in local
storage and recomputes its summary cards and category breakdown after
every change.

The model pulls that logic out of the DOM handlers and expresses it as
pure functions over `seq<Transaction>`:

- **Ledger** (`ledger.dfy`): the records and a few helpers.
  - A `Transaction` has an id, a `kind` (the source's `type` string), a
    description, an amount in integer cents, a category code, a calendar
    date and a `Currency` snapshot.
  - Calendar dates become day numbers, with `getDay` numbering (Sunday is 0).
  - Also here: sums of amounts, and the currency and type selections.
- **Seqs** (`seqs.dfy`): an order-preserving `Filter`. Every
  `Array.prototype.filter` of the source goes through it. The file also
  holds the subsequence, contents, concatenation and fusion facts about it.
- **Windows** (`windows.dfy`): the "this month" and "this week" windows of
  the summary. It also models the weekly comparison as the code writes it
  (see Findings).
- **Aggregate** (`aggregate.dfy`): `updateSummary`.
  - The five figures are income, expenses, balance, monthly expenses and
    weekly expenses.
  - Each is computed over the records whose currency code equals the
    active one.
  - A one-pass method is proved equal to them.
- **Breakdown** (`breakdown.dfy`): `updateCategoryBreakdown`.
  - Expenses are grouped by category, in order of first appearance.
    That is list order, and the list holds the newest record first,
    because each submission is prepended.
  - The groups are stably sorted by total, largest first.
  - Each group gets its exact percentage of the expense total.
  - The two empty states are kept apart.
- **Store** (`store.dfy`): the operations that change the list.
  - Submitting the form, with its validation and description trimming.
  - The list view's type and category filters.
  - Delete, clear-all, import and export.
  - The one-time migration of the legacy `expenses` key.
- **Categories** (`categories.dfy`): `getCategoryEmoji` and
  `getCategoryName`, with their fallbacks.
- **Scenarios** (`scenarios.dfy`): worked examples that take a submission
  through the summary and the breakdown.

Inputs the page reads from its environment are parameters of the model.
These are the active currency, the local date "now", the id produced by
`Date.now()`, the answer to `confirm`, and the parsed import file.

Three behaviours of the code are easy to misread:

- Delete removes every record with the given id, not only one.
- A zero amount and a non-numeric amount are both rejected as a missing
  field, since `!amount` is checked first. Only negative amounts reach the
  "Amount must be greater than 0" branch.
- The weekly total has no upper bound: records dated after today count too.

## Model

| member | source | states |
|---|---|---|
| `Ledger.DayOfWeek` | script.js:208 | The weekday index lies in 0..6 and is the day number's residue shifted by 3 modulo 7, so consecutive days get consecutive weekdays; `Ledger.DayNumberEpoch` and `Ledger.SundayAnchor` fix which index is Sunday |
| `Ledger.DaysInMonth` | script.js:235 | A month has 28 to 31 days, and 29 exactly for February of a Gregorian leap year |
| `Ledger.DayNumberEpoch` | script.js:235 | `new Date("1970-01-01")` is day 0, and its weekday index is 4 (a Thursday) |
| `Ledger.SundayAnchor` | script.js:208 | Sunday 2000-01-02 is day 10958 and gets weekday index 0, as `getDay` numbers Sunday |
| `Ledger.DayNumberNextDay` | script.js:235 | Within a month, the next day of the month has the next day number |
| `Ledger.DayNumberNextMonth` | script.js:235 | The first of each month has the day number after the last day of the month before, and 1 January the one after 31 December, leap years included |
| `Ledger.YearLength` | script.js:235 | The year from 1 March before `y` to 1 March of `y` has 366 days when `y` is a Gregorian leap year and 365 otherwise |
| `Ledger.MarchFollowsFebruary` | script.js:235 | 1 March follows 28 or 29 February, whichever is the last day of February |
| `Ledger.SpringToAutumnMonthEnd` | script.js:235 | From March to November, the first of the next month follows the month's last day |
| `Ledger.WinterMonthEnds` | script.js:235 | 1 February follows 31 January, and 1 January follows 31 December of the year before |
| `Ledger.SumSplit` | script.js:215-221 | The sums of the records a filter keeps and of those it drops add up to the sum of the whole list |
| `Ledger.SumMonotone` | script.js:225-236 | With no negative amount, a narrower selection never sums to more than a wider one |
| `Ledger.ByCurrencyInsert` | script.js:211-213 | Inserting a foreign-currency record anywhere leaves the currency partition unchanged; inserting a matching one adds it at the same relative place |
| `Windows.WeekStart` | script.js:208 | The week starts on a Sunday that is on or before today and at most six days earlier |
| `Windows.InWeekCharacterized` | script.js:234-236 | For any Sunday in the seven days up to and including today, the weekly window holds exactly the days from that Sunday on, today included; anything a week or more in the past is outside |
| `Windows.SundayUnique` | script.js:208 | Two Sundays less than seven days apart are the same day, so the week's Sunday is unique |
| `Windows.January2024` | script.js:208 | Day *d* of January 2024 is day number 19722 + *d*, and its weekday index is *d* mod 7 (1 January was a Monday) |
| `Windows.AsWrittenWithinWeek` | script.js:208-236 | The comparison as written never admits a record dated before the week's Sunday |
| `Windows.AsWrittenDropsWeekStart` | script.js:208-236 | The comparison as written drops records dated on the week's Sunday whenever the local time of day is later than the zone offset |
| `Windows.AsWrittenSundayCounterexample` | script.js:208-236 | At noon on Wednesday 2024-01-17 in UTC-5, an expense dated Sunday 2024-01-14 is in the week but left out of the weekly total as written |
| `Aggregate.Summarize` | script.js:204-236 | Balance is income minus expenses, and income plus expenses is the sum over the active-currency records of either type |
| `Aggregate.KindsPartitionSum` | script.js:215-221 | The income sum plus the expense sum equals the sum over the records whose type is one of the two |
| `Aggregate.SummaryBounds` | script.js:225-236 | With no negative amount, the monthly and weekly figures lie between 0 and total expenses, and income is not negative |
| `Aggregate.ByCurrencyIdempotent` | script.js:211-213 | Selecting the active currency twice gives the same list as selecting it once |
| `Aggregate.SummaryOnlyActiveCurrency` | script.js:210-213 | The summary of the list equals the summary of its active-currency records alone |
| `Aggregate.ForeignRecordIgnored` | script.js:210-213 | Adding or removing a record in another currency, anywhere in the list, changes no figure of the summary |
| `Aggregate.SelectedSumStep` | script.js:215-236 | Appending one record to a filter-and-reduce chain adds its amount exactly when it passes both filters |
| `Aggregate.SummarizeStep` | script.js:215-236 | Appending a record adds its amount to exactly the figures it qualifies for (income; expenses and balance; for an expense, this month and this week) and leaves the others unchanged |
| `Aggregate.ComputeSummary` | script.js:204-236 | A single left-to-right pass yields the same five figures as the separate filter-and-reduce chains |
| `Breakdown.AddTo` | script.js:281-283 | Adding to a category total keeps every existing category at its position and appends a new category last, growing the list by at most one |
| `Breakdown.AddToCategories` | script.js:282 | After an addition the categories present are the old ones plus the added one |
| `Breakdown.AddToTotal` | script.js:282 | An addition raises the sum of all totals by the amount added |
| `Breakdown.AddToLookup` | script.js:282 | An addition raises the added category's total by the amount (from 0 when new) and leaves every other total alone |
| `Breakdown.AddToDistinct` | script.js:282 | Additions never create a second entry for a category |
| `Breakdown.TotalsFromCorrect` | script.js:278-283 | Folding records into totals adds their categories, adds their sum, adds each category's own sum to its total, and keeps categories distinct |
| `Breakdown.CategoryTotalsCorrect` | script.js:278-283 | The totals have one entry per category of the records, listed in the order of each category's first record; each holds that category's sum, and together they hold the sum of all records |
| `Breakdown.FirstIndex` | script.js:282 | The position of a category's first record: no earlier record has the category, and the record there has it (or the list's length when none has) |
| `Breakdown.CategoryTotalsOrder` | script.js:280-283 | Keys enter the totals in insertion order: an earlier entry's category has an earlier first record than any later entry's |
| `Breakdown.AddToKeepsOrder` | script.js:282 | Adding one more record keeps the totals in first-appearance order: old keys keep their order and a new key is appended last |
| `Breakdown.AddToGrows` | script.js:282 | Adding to the totals creates a new entry exactly when the category is not yet a key |
| `Breakdown.CategoryTotalsEmpty` | script.js:285 | There are no category totals exactly when there are no expense records |
| `Breakdown.LookupDistinct` | script.js:282 | With no repeated category, looking up an entry's category finds that entry's amount |
| `Breakdown.InsertDesc` | script.js:296-297 | Insertion adds exactly the one entry: the result is the old multiset plus the new entry |
| `Breakdown.InsertDescSorted` | script.js:296-297 | Inserting into a list sorted by decreasing amount keeps it sorted |
| `Breakdown.InsertDescStable` | script.js:296-297 | Among entries of the inserted entry's amount, insertion puts it first and leaves the others in order |
| `Breakdown.SortDesc` | script.js:296-297 | Sorting is a permutation of the category totals |
| `Breakdown.SortDescSorted` | script.js:296-297 | The sorted totals never increase from front to back |
| `Breakdown.SortDescTotal` | script.js:299 | Sorting keeps the grand total |
| `Breakdown.SortDescCategories` | script.js:296-297 | Sorting keeps the set of categories |
| `Breakdown.SortDescDistinct` | script.js:296-297 | Sorting never repeats a category |
| `Breakdown.SortDescStable` | script.js:296-297 | The sort is stable: entries with equal totals keep their order of first appearance |
| `Breakdown.SortDescTiesOrder` | script.js:296-297 | Sorting totals listed in first-appearance order leaves every group of equal totals in first-appearance order |
| `Breakdown.SortedTiesOrder` | script.js:280-297 | After sorting, categories with equal totals appear in the order of their first records |
| `Breakdown.InsertDescTiesOrder` | script.js:297 | Inserting an entry seen before every entry of its amount keeps ties in first-appearance order |
| `Breakdown.SortedTotalsCorrect` | script.js:278-297 | The sorted category totals are ordered largest first, with equal totals in the order of their categories' first records; they hold each category of the records once with its own sum, and add up to the sum of the records |
| `Breakdown.PercentTotalScaled` | script.js:299-302 | The percentages of a list of totals add up to the list's sum times 100 over the grand total |
| `Breakdown.WholeIsHundred` | script.js:302 | A positive total is exactly 100 percent of itself, as `Percent` computes a share |
| `Breakdown.PercentInRange` | script.js:302 | A share of a part no larger than a positive whole lies in [0, 100] |
| `Breakdown.PercentsAddUp` | script.js:299-302 | The percentages of a list taken against its own positive total add up to exactly 100 |
| `Breakdown.ToShares` | script.js:301-302 | Each shown line carries its category, its amount and that amount's percentage of the total |
| `Breakdown.ExpenseBreakdown` | script.js:278-293 | Expense records yield the "no expense data" state exactly when there are none, and never the "no data" state |
| `Breakdown.CategoryBreakdown` | script.js:259-293 | The card shows "no data" exactly when no record has the active currency, and "no expense data" exactly when such records exist but none is an expense |
| `Breakdown.ExpenseBreakdownContents` | script.js:278-302 | The shares of expense records are non-empty, sorted by amount with the largest first and equal amounts in first-appearance order, and hold each category once with its own sum; their amounts add up to the expense sum |
| `Breakdown.SortedEntryInRange` | script.js:299-302 | With positive amounts, every sorted category total is between 0 and 100 percent of the expense sum |
| `Breakdown.ExpenseBreakdownPercentages` | script.js:299-302 | With positive amounts the expense sum is positive, each percentage is the amount's share of that sum (amount / total * 100) and lies in [0, 100], and the percentages add up to exactly 100 |
| `Breakdown.ActiveExpensesFromList` | script.js:263-280 | Every record feeding the breakdown comes from the stored list |
| `Breakdown.BreakdownContents` | script.js:259-302 | The breakdown is sorted, with equal totals in the order of their categories' first active-currency expense records, lists each active-currency expense category once with its sum, and adds up to the summary's expense total; with positive amounts its percentages lie in [0, 100] and add up to 100 |
| `Breakdown.BreakdownIgnoresForeignRecord` | script.js:262-265 | Adding or removing a record in another currency leaves the breakdown unchanged |
| `Breakdown.BreakdownIgnoresNonExpense` | script.js:278-283 | Once the active currency has some record, adding a non-expense record leaves the breakdown unchanged |
| `Store.LeadingSpace` | script.js:103 | Counts exactly the whitespace run at the start of the text |
| `Store.TrailingSpace` | script.js:103 | Counts exactly the whitespace run at the end of the text |
| `Store.Trim` | script.js:103 | The trimmed description is empty exactly when the text is all whitespace; otherwise it is the slice between the whitespace runs and starts and ends with visible characters |
| `Store.TrimIdempotent` | script.js:103 | Trimming a trimmed description changes nothing |
| `Store.Submit` | script.js:99-128 | Submission succeeds exactly when every field is given, the description has a visible character and the amount is positive. A falsy field (zero or NaN amount included) is MissingField; a negative amount is InvalidAmount. On refusal the list is unchanged. On success the new record, with trimmed description, id and active currency, heads the list and the tail is the old list |
| `Store.SubmitKeepsWellFormed` | script.js:108-128 | Submitting keeps every stored record well-formed and grows the list by one exactly when the form is acceptable |
| `Store.SubmitAddsToKindTotal` | script.js:118-128 | An accepted submission adds its amount to the total of its own type and to no other |
| `Store.FilterList` | script.js:146-158 | Applying the type filter and then the category filter equals one filter by both conditions, each skipped when unset |
| `Store.FilterListContents` | script.js:150-158 | The list view is an order-preserving subsequence holding every copy of each record that matches every set filter and nothing else; with no filter set it is the whole list |
| `Store.FilterListIndependent` | script.js:150-158 | The two filters are independent: applying them in either order gives the same list |
| `Store.Delete` | script.js:192-195 | Without confirmation nothing changes; with it no record carrying the id remains |
| `Store.DeleteContents` | script.js:194 | A confirmed delete leaves the old list minus exactly the records with that id, in the same order |
| `Store.DeleteAbsentIsNoOp` | script.js:194 | Deleting an id that no record carries changes nothing |
| `Store.DeleteIdempotent` | script.js:194 | Deleting the same id twice is the same as deleting it once |
| `Store.DeleteKeepsWellFormed` | script.js:194 | Deleting keeps every stored record well-formed |
| `Store.ClearAll` | script.js:327-335 | An empty list reports that there is nothing to clear. A non-empty list becomes empty only when the user confirms, and otherwise stays as it was |
| `Store.Import` | script.js:517-531 | An array payload replaces the list wholesale; any other value or unparsable text is refused and leaves the list unchanged |
| `Store.Export` | script.js:499-500 | Importing an export restores exactly the exported list, whatever the list was before |
| `Store.FromLegacy` | script.js:347-350 | A migrated legacy record is typed as an expense |
| `Store.Migrate` | script.js:344-356 | Migration fires only when legacy records exist and the list is empty. It then types every record as an expense, keeps all of each record's other fields in order, and removes the legacy key; otherwise nothing changes |
| `Store.MigrateIdempotent` | script.js:344-356 | Running the migration a second time changes nothing |
| `Store.MigratedAreExpenses` | script.js:347-351 | After migration the income total is zero and the expense total is the sum of every migrated amount |
| `Categories.CategoryEmoji` | script.js:359-382 | Every code, known or not, gets a non-empty icon |
| `Categories.CategoryName` | script.js:384-407 | Every code, known or not, gets a non-empty display name |
| `Categories.RegistryCoversForms` | script.js:360-380 | Icons and names cover the same codes, namely those of the registry's expense and income groups, and no code is in both groups |
| `Categories.NameFallback` | script.js:384-407 | "Other" is shown exactly for the `other` code and for unknown codes |
| `Categories.EmojiFallback` | script.js:359-382 | The pushpin is shown exactly for the two "other" codes and for unknown codes |
| `Categories.NamesDistinct` | script.js:385-405 | No two known categories share a display name |
| `Scenarios.CoffeeSubmitted` | script.js:102-128 | Submitting " Coffee ", 4.50, food into an empty list stores the single trimmed record |
| `Scenarios.CoffeeSummary` | script.js:219-221 | With only that record, the USD expense total is 4.50 |
| `Scenarios.CoffeeBreakdown` | script.js:278-302 | With only that record, the breakdown is food, 4.50, 100% |
| `Scenarios.MonthScenario` | script.js:204-236 | With a 1000.00 USD income, a 300.00 USD expense this month and a EUR expense, the USD summary shows balance 700.00 and monthly 300.00 |
| `Scenarios.UsdSummary` | script.js:210-236 | With a 1000.00 income and a 300.00 expense dated 2024-01-02, both in USD, the summary on 2024-01-17 shows balance 700.00, monthly 300.00 and weekly 0 |
| `Scenarios.RentNotThisWeek` | script.js:208-236 | A record dated 2024-01-02 is outside the week of 2024-01-17 |
| `Scenarios.TiedCategoriesFirstSeenFirst` | script.js:278-302 | Two categories of 20.00 each are shown at 50% each, the one whose record comes first in the list on top, for either list order |
| `Scenarios.NewestTieOnTop` | script.js:99-128 | Submitting a lunch and then a power bill of 20.00 each yields the list power, lunch, and the bills category, the more recently added one, is shown on top |

## Left out

- Rendering, notifications, keyboard shortcuts and the service worker
  (HTML templates, CSS, toasts, focus handling) are presentation and I/O.
  The empty-state messages are kept as the `NoData` and `NoExpenseData`
  breakdown states.
- Persistence (`localStorage`, `JSON.parse`/`stringify`, `FileReader`,
  `Blob` download) is not modelled. Each operation returns the list to be
  written. The import file arrives already parsed, as an array, some other
  JSON value, or unparsable text. Load-time fallbacks are not modelled
  beyond the `DefaultCurrency` constant.
- Store.Import: records inside an imported array are taken as well-typed
  `Transaction`s. The code does not check them, and records with missing
  fields, non-numeric amounts or unparseable dates are not modelled. The
  early return when no file is chosen, which changes nothing and shows no
  message, is outside the model: `Payload` always holds a read file.
- The currency selector (`initializeCurrencySelector`, the change handler)
  and the `currencies` table it reads are not part of this model. The active
  currency code is a parameter of every aggregate.
- `confirm` is a boolean parameter of delete and clear-all. `Date.now()`
  is the `id` parameter of `Store.Submit`. The current moment is a
  parameter, a local calendar `Date`, or a `Windows.Clock` where the time
  of day matters.
- Amounts are integer cents, not IEEE-754 doubles. `parseFloat`, rounding
  in sums and `toFixed` rendering (two decimals for money, one for
  percentages) are not modelled. Percentages are exact reals before
  rounding.
- Breakdown.Percent: the share is 0.0 when the expense total is zero,
  where the code would render NaN or Infinity. The total can only be
  zero through imported non-positive amounts.
- Windows.InMonth: compares calendar fields. The code calls `getMonth()`
  in local time on dates parsed as UTC midnight. West of Greenwich, a
  record dated the 1st of a month therefore counts toward the previous
  month. This time-zone effect, and daylight-saving shifts, are not
  modelled.
- Windows.AsWrittenInWeek: counts whole minutes and uses one zone
  offset for both today and the week's Sunday. The code's start of week
  also keeps seconds and milliseconds, and takes the Sunday's own offset.
  So the two can disagree in two cases:
  - when the minute of the day equals the offset and seconds have passed;
  - across a daylight-saving change inside the week.

  The dropped-Sunday lemmas remain sufficient conditions for the loss.
- Store.Export: the round trip treats `JSON.stringify` followed by
  `JSON.parse` as the identity on well-typed records. This holds for
  strings and finite numbers. NaN or Infinity amounts would come back as
  `null`.
- `formatDate` ("Today", "Yesterday", locale month names) is display only.
- JavaScript object semantics in the category totals and registry lookups
  are not modelled. Integer-like keys are enumerated before other keys,
  and inherited property names such as `constructor` resolve to `Object`
  members. Category codes are plain strings such as the registry's keys.
- `Store.Trim` follows the ECMAScript whitespace set exactly. `IsTrimmed`
  lists the Unicode space separators of the current Unicode version, and
  later additions are not tracked.

## Findings

| source | as written | input that shows it | evidently intended | confidence | as-written member | corrected member |
|---|---|---|---|---|---|---|
| script.js:208-236 | The week start is a local-time instant: this week's Sunday at the current time of day. Each record's `YYYY-MM-DD` date is parsed as UTC midnight and compared with `>=` | At 12:00 on Wednesday 2024-01-17 in UTC-5, an expense dated Sunday 2024-01-14 is left out of the weekly total | Every expense dated on or after this week's Sunday counts | high, not executed | `Windows.AsWrittenSundayCounterexample` | `Windows.InWeekCharacterized` |
