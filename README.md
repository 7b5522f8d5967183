# worklog — a Dafny model of the work log and its analytics report

The worklog application records the work done by a team of workers, often
reported through a Telegram bot. It stores three tables:

- **Worker**: a Telegram id, a full name, an optional username and an active flag.
- **WorkType**: a slug code, a name, a unit and a default rate.
- **WorkEntry**: one line of the log. It holds a worker, a work type, a date, a
  decimal quantity, an optional comment and the chat and message the entry came from.

An admin page, `analytics_view`, builds a report from these tables for a chosen
period of days:

- the period's total quantity;
- a per-day series that has a point for every day of the period, zero where
  nobody worked;
- the ten workers with the largest totals;
- a per-work-type series labelled `name (unit)`, largest first;
- a snapshot of today: its total and how many distinct workers and work types
  appear in it.

This project models that report and the table rules it relies on:

- `wrappers.dfy` (`Wrappers`): `Option` and `Result`.
- `text.dfy` (`Text`): the decimal and zero-padded renderings of integers used by
  the display texts and the ISO dates, and the readers that invert them.
- `dates.dfy` (`Dates`): dates as Python's `datetime.date` represents them.
  - Every date is an ordinal from 0001-01-01 (day 1) to 9999-12-31.
  - `timedelta` arithmetic is arithmetic on ordinals.
  - `isoformat` writes YYYY-MM-DD, and `ParseCalendarDate` reads that form back.
  - The model proves that conversion between ordinals and calendar dates works
    in both directions.
- `models.dfy` (`Models`): the three records, their field limits, the default
  unit `шт`, and their display texts (`__str__`).
- `store.dfy` (`Store`): the class `WorkLog`, which holds the three tables and
  inserts into and deletes from them. A write that would break a rule of the
  schema is rejected and changes nothing. The rules are:
  - Telegram ids are unique, and so are codes.
  - There is at most one entry per worker, work type and date.
  - Foreign keys are protected, so a referenced worker or work type cannot be deleted.
  - Quantities and rates are non-negative and fit their decimal columns.
- `joins.dfy` (`Joins`): an entry joined with its worker and work type, which is
  what the report's queries read.
- `aggregates.dfy` (`Aggregates`): what the report's ORM queries compute:
  - date-range filtering;
  - `Sum("quantity")`;
  - grouping with `values(...).annotate(...)`;
  - `order_by("-total")`.
- `analytics.dfy` (`Analytics`): `analytics_view` itself.
  - Choosing the period from the `start` and `end` query arguments.
  - The zero-filled daily loop, written as a method with loop invariants.
  - The top-ten workers, the by-type series and today's snapshot.
  - The whole report, written as a method whose postcondition ties every field
    to its specification.

Quantities are exact. A `decimal(12, 3)` quantity is a natural number of
thousandths, and a `decimal(10, 2)` rate is an integer number of hundredths.

## Model

| member | source | states |
|---|---|---|
| `Text.IntTextInjective` | config/worklog/models.py:25 | distinct Telegram ids render as distinct decimal texts |
| `Dates.ToOrdinal` | config/worklog/admin.py:78 | a calendar date's ordinal falls within the days of its own year |
| `Dates.CivilOfValid` | config/worklog/admin.py:76-78 | every ordinal up to 9999-12-31 is a real calendar date, and that date's ordinal is the ordinal itself |
| `Dates.CivilOfOrdinal` | config/worklog/admin.py:76-78 | every real calendar date comes back from its ordinal, so dates and ordinals correspond one to one |
| `Dates.ParseIsoFormat` | config/worklog/admin.py:52-53 | what `isoformat` writes, `fromisoformat` reads back as the same date |
| `Dates.IsoFormatOfParsed` | config/worklog/admin.py:52-53 | a YYYY-MM-DD argument that parses is exactly the ISO text of the date it names |
| `Dates.IsoFormatInjective` | config/worklog/admin.py:76 | distinct days get distinct labels |
| `Models.WorkerTextDeterminesTelegramId` | config/worklog/models.py:23-25 | a worker's display text `name [telegram id]` determines the Telegram id, even when the name contains brackets |
| `Models.UnnamedWorkerText` | config/worklog/models.py:24 | a worker with an empty full name is shown as `#<pk>` |
| `Models.TypeLabelInjective` | config/worklog/models.py:46-47 | `name (unit)` determines the name and the unit when the unit has no `(` |
| `Models.TypeLabelsCanCollide` | config/worklog/models.py:46-47 | without that condition, two different (name, unit) pairs share a label |
| `Models.ReadQuantityText` | config/worklog/models.py:60-62 | a quantity with three decimal places displays as text that reads back as the same quantity |
| `Models.EntryTextParts` | config/worklog/models.py:84-85 | an entry's display text starts with its ISO date and ends with its quantity and unit |
| `Store.WorkLog.constructor` | config/worklog/models.py:15-85 | the empty tables satisfy every rule |
| `Store.WorkLog.AddWorker` | config/worklog/models.py:16-19 | an insert is rejected exactly when the Telegram id is taken; otherwise a worker with a fresh pk is appended, active unless told otherwise, and nothing else changes |
| `Store.WorkLog.AddWorkType` | config/worklog/models.py:38-44 | a missing unit becomes `шт`, a missing rate 0 and a missing active flag true; a taken code or a rate outside 0..99999999.99 is rejected and changes nothing; otherwise a work type is appended |
| `Store.WorkLog.AddEntry` | config/worklog/models.py:57-62 | a missing work date becomes today; an unknown worker or work type, a quantity outside 0..999999999.999 or a repeated (worker, work type, date) is rejected and changes nothing; otherwise an entry is appended and the rules still hold |
| `Store.WorkLog.DeleteWorker` | config/worklog/models.py:57 | a worker that is missing, or that an entry still refers to, is kept and nothing changes; otherwise exactly that worker goes |
| `Store.WorkLog.DeleteWorkType` | config/worklog/models.py:58 | the same for a work type |
| `Store.WorkLog.DeleteEntry` | config/worklog/models.py:56 | deleting an entry fails only when the entry is missing, and removes only that entry |
| `Store.WorkerRejectedIffInvalid` | config/worklog/models.py:16 | a new worker is refused if and only if accepting it would break the uniqueness of Telegram ids |
| `Store.WorkTypeRejectedIffInvalid` | config/worklog/models.py:38-44 | a new work type is refused if and only if accepting it would repeat a code or hold an out-of-range rate |
| `Store.EntryRejectedIffInvalid` | config/worklog/models.py:73-77 | a new entry is refused if and only if accepting it would break a rule of the schema |
| `Store.OneEntryPerWorkerTypeAndDay` | config/worklog/models.py:73-77 | two stored entries with the same worker, work type and date are the same entry |
| `Store.WorkerDeletionIffConsistent` | config/worklog/models.py:57 | deleting a worker succeeds if and only if it exists and the tables stay consistent without it |
| `Store.WorkTypeDeletionIffConsistent` | config/worklog/models.py:58 | deleting a work type succeeds if and only if it exists and the tables stay consistent without it |
| `Store.StoredWorkersDisplayDistinctly` | config/worklog/models.py:16-25 | two stored workers never have the same display text |
| `Store.WithoutWorker` | config/worklog/models.py:57 | deleting a worker keeps exactly the other workers and keeps ids unique |
| `Joins.EntryRowsJoin` | config/worklog/admin.py:82-91 | each row the queries read carries its entry's date and quantity, its worker's full name, and its work type's name and unit |
| `Aggregates.BetweenMembers` | config/worklog/admin.py:57 | `work_date__range` keeps exactly the rows whose date lies in the range, both ends included |
| `Aggregates.BetweenEmpty` | config/worklog/admin.py:57 | a range whose start comes after its end selects nothing |
| `Aggregates.BetweenExtend` | config/worklog/admin.py:57-60 | widening the range by one day adds exactly the quantities dated that day |
| `Aggregates.GroupSumCorrect` | config/worklog/admin.py:63-67 | grouping makes one bucket per value present; each bucket holds the sum for its value, and the buckets together hold every quantity once |
| `Aggregates.SortByTotalCorrect` | config/worklog/admin.py:84 | `order_by("-total")` permutes the buckets into non-increasing order, keeping the groups and the grand total |
| `Aggregates.SortedGroupEntry` | config/worklog/admin.py:81-85 | after sorting, every bucket still holds its own group's total |
| `Aggregates.KeyTotalAbsent` | config/worklog/admin.py:77 | a date with no rows has total 0 |
| `Aggregates.KeysInMembers` | config/worklog/admin.py:101-102 | a value is among the distinct values of a query exactly when some row carries it, so the distinct counts count exactly the workers and work types present |
| `Aggregates.KeysInSize` | config/worklog/admin.py:101-102 | there are no more distinct values than rows, and at least one when there are rows |
| `Analytics.SelectWindow` | config/worklog/admin.py:51-55 | a missing or empty start means today - 6, and a missing or empty end means today; if either given argument fails to parse, the period is the seven days ending today |
| `Analytics.WindowOfIsoDates` | config/worklog/admin.py:51-53 | ISO-formatted arguments select exactly the dates they name |
| `Analytics.MalformedStartFallsBack` | config/worklog/admin.py:51-55 | a malformed start gives the default period whatever the end is |
| `Analytics.MalformedEndDiscardsStart` | config/worklog/admin.py:51-55 | a malformed end discards a valid start too |
| `Analytics.EmptyArgumentIsAbsent` | config/worklog/admin.py:52 | an empty `start` argument acts like a missing one |
| `Analytics.DayLabelsAt` | config/worklog/admin.py:74-78 | label i is the ISO text of day start + i |
| `Analytics.DailyTotalsAt` | config/worklog/admin.py:77 | value i is the total dated start + i |
| `Analytics.DayLabelNamesDay` | config/worklog/admin.py:74-78 | each label parses back to its own day, so the labels run through consecutive days without gaps |
| `Analytics.DayLabelsSpanWindow` | config/worklog/admin.py:74-76 | the first label is the start and the last is the end |
| `Analytics.DailyValueOfDay` | config/worklog/admin.py:63-77 | each day's value is the summed quantity dated that day, and 0 when there are no rows |
| `Analytics.DailyTotalsSum` | config/worklog/admin.py:70-78 | the daily values add up to the quantity of the days they cover |
| `Analytics.DailyValuesConserveTotal` | config/worklog/admin.py:57-78 | the daily series of a period adds up to the period total `total_qty`, even for a reversed period |
| `Analytics.TotalsMap` | config/worklog/admin.py:70 | `totals_map` has a key for exactly the dates present |
| `Analytics.TotalsMapLookup` | config/worklog/admin.py:70-77 | `totals_map.get(d, 0)` is the by-day total of d |
| `Analytics.DailySeries` | config/worklog/admin.py:72-78 | the loop produces one label and one value per day from start to end, the label being the day formatted by `format` (the view passes `isoformat`) and the value that day's total, and nothing for a reversed period |
| `Analytics.NextDate` | config/worklog/admin.py:78 | defines `d + timedelta(days=1)` over ordinals: the next day before 9999-12-31, and OverflowError on 9999-12-31 itself |
| `Analytics.AsWrittenOverflowsAtLastDate` | config/worklog/admin.py:75-78 | the loop as written fails on every period ending 9999-12-31 |
| `Analytics.AsWrittenAgreesBeforeLastDate` | config/worklog/admin.py:75-78 | for periods ending earlier, the loop as written gives exactly the ISO labels that `DailySeries` produces with `isoformat` |
| `Analytics.TopWorkers` | config/worklog/admin.py:84 | at most ten rows |
| `Analytics.TopWorkersCorrect` | config/worklog/admin.py:81-87 | there are as many rows as distinct full names, up to ten; every name appears once and totals never increase |
| `Analytics.TopWorkerTotal` | config/worklog/admin.py:81-87 | each row is a name with entries in the period and holds the total of all its entries |
| `Analytics.TopWorkersCutoff` | config/worklog/admin.py:84 | a name left out of the top ten has a total no larger than any name shown |
| `Analytics.SameNameWorkersMerge` | config/worklog/admin.py:82-83 | two different workers with the same full name make one row with both totals |
| `Analytics.ByTypeCorrect` | config/worklog/admin.py:90-94 | there is one row per (name, unit) present, with that pair's total; the totals are in non-increasing order and add up to the period total |
| `Analytics.SumTotals` | config/worklog/admin.py:96 | the values series adds up to the totals of the rows it comes from |
| `Analytics.ByTypeLabelIsWorkTypeText` | config/worklog/admin.py:95 | a by-type label reads exactly like the work type's own display text |
| `Analytics.TodaySnapshotCorrect` | config/worklog/admin.py:99-102 | today's total is the quantity dated today; each distinct count is at most the number of today's entries, and 0 exactly when nothing is dated today |
| `Analytics.AnalyticsView` | config/worklog/admin.py:45-120 | every field of the report matches its specification over the selected period; the daily and by-type values each add up to the period total, and there are at most ten workers |

## Left out

- Rendering: the admin URL registration, the page template, `each_context`, the
  title and `model_opts` are not modelled. The report is returned as a datatype.
- Time: the clock and the time zone behind `timezone.localdate()` are a
  parameter `today` of the view and of `Store.WorkLog.AddEntry`. The unused `tz` is
  dropped.
- Parsing: `date.fromisoformat` is a parameter `parse` of
  `Analytics.SelectWindow` and `Analytics.AnalyticsView`, because the forms it
  accepts depend on the Python version. The lemmas about concrete arguments use
  `Dates.ParseCalendarDate`, which reads the YYYY-MM-DD form only.
- Analytics.SelectWindow: requires `today` to be later than 0001-01-06.
  `today - timedelta(days=6)` raises an OverflowError for the first six days of
  the calendar, and that case is not modelled.
- Floats: the `float(...)` conversions of totals are left out. Values stay
  exact thousandths.
- Ties: the order among groups with equal totals under `order_by("-total")` is
  the database's choice. The model sorts in one fixed way and states only
  non-increasing order, the groups and their totals. So among equal totals at
  the tenth place, which names make the top ten is not specified.
- `by_day`'s `order_by("work_date")` is left out, because its rows go straight
  into a dictionary.
- Timestamps: `created_at`, `updated_at`, `joined_at` and `last_seen` are not
  modelled, and neither are the `Meta` orderings, indexes or verbose names.
- Field formats: the `max_length` of character fields and the slug syntax of
  `code` are not enforced.
- Integer width: Telegram, chat and message ids are unbounded integers, not
  64-bit.
- Validation: the store enforces `MinValueValidator` and the decimal limits on
  every insert, although Django runs them only in full model validation. It does
  not enforce `blank=False`: an empty full name, code, name or unit is accepted,
  as in a write that skips `full_clean`, and this keeps the `#<pk>` branch of
  `Worker.__str__` reachable. Rules are checked in a fixed order: references,
  then amounts, then uniqueness.
- Store: transactions, concurrent writers and updates of existing rows are left
  out. Primary keys come from a counter per table.
- Joins: the report takes its rows as given. `Joins.EntryRows` builds them from
  the stored tables, but `Analytics.AnalyticsView` is not restated over a `WorkLog`.

## Findings

| source | as written | input that shows it | evidently intended | confidence | as-written member | corrected member |
|---|---|---|---|---|---|---|
| config/worklog/admin.py:75-78 | the loop appends the label for `d`, then executes `d += timedelta(days=1)`, and only then tests `d <= end` | `?end=9999-12-31` with any valid start: after the last label the step past `date.max` raises OverflowError and the report is lost | the series ends with 9999-12-31 and the report is shown | not executed | `Analytics.AsWrittenOverflowsAtLastDate` | `Analytics.DailySeries` |
