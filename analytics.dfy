/**
  The work analytics report: the period chosen from the `start` and `end`
  query arguments, the period's total, a per-day series with a point for
  every day of the period, the ten workers with the largest totals, the
  per-work-type series, and a snapshot of today's work.
 */
module Analytics {
  import opened Wrappers
  import opened Dates
  import opened Models
  import opened Aggregates

  /** The report period, both ends included. */
  datatype Window = Window(start: Day, end: Day)

  /** The seven days ending today. */
  function DefaultWindow(today: Day): Window
    requires 6 < today
  {
    Window(today - 6, today)
  }

  /** A query argument is used only when present and non-empty. */
  predicate Given(arg: Option<string>) {
    arg.Some? && arg.value != ""
  }

  /** A given argument that does not parse as a date. */
  predicate Malformed(arg: Option<string>, parse: string -> Option<Day>) {
    Given(arg) && parse(arg.value).None?
  }

  /** The period from the `start` and `end` arguments: an absent start means six days
      before today, an absent end means today, and if either given argument fails to
      parse, both fall back to the seven days ending today. A start after the end is kept. */
  function SelectWindow(startArg: Option<string>, endArg: Option<string>, today: Day,
                        parse: string -> Option<Day>): (w: Window)
    requires 6 < today
    ensures Malformed(startArg, parse) || Malformed(endArg, parse) ==> w == DefaultWindow(today)
    ensures !Malformed(startArg, parse) && !Malformed(endArg, parse) ==>
              && w.start == (if Given(startArg) then parse(startArg.value).value else today - 6)
              && w.end == (if Given(endArg) then parse(endArg.value).value else today)
  {
    var start := if Given(startArg) then parse(startArg.value) else Some(today - 6);
    var end := if Given(endArg) then parse(endArg.value) else Some(today);
    if start.Some? && end.Some? then Window(start.value, end.value) else DefaultWindow(today)
  }

  /** Dates written the way `isoformat` writes them select exactly those dates. */
  lemma WindowOfIsoDates(a: Day, b: Day, today: Day)
    requires 6 < today
    ensures SelectWindow(Some(IsoFormat(a)), Some(IsoFormat(b)), today, ParseCalendarDate) == Window(a, b)
  {
    ParseIsoFormat(a);
    ParseIsoFormat(b);
  }

  /** `start=not-a-date` falls back to the seven days ending today, whatever the end says. */
  lemma MalformedStartFallsBack(endArg: Option<string>, today: Day)
    requires 6 < today
    ensures SelectWindow(Some("not-a-date"), endArg, today, ParseCalendarDate) == DefaultWindow(today)
  {
    assert Malformed(Some("not-a-date"), ParseCalendarDate);
  }

  /** A malformed end discards a well-formed start too. */
  lemma MalformedEndDiscardsStart(a: Day, today: Day)
    requires 6 < today
    ensures SelectWindow(Some(IsoFormat(a)), Some("yesterday"), today, ParseCalendarDate) == DefaultWindow(today)
  {
    assert Malformed(Some("yesterday"), ParseCalendarDate);
  }

  /** An empty argument is treated as an absent one. */
  lemma EmptyArgumentIsAbsent(endArg: Option<string>, today: Day, parse: string -> Option<Day>)
    requires 6 < today
    ensures SelectWindow(Some(""), endArg, today, parse) == SelectWindow(None, endArg, today, parse)
  {
  }

  /** `WorkEntry.objects.filter(work_date__range=(start, end))`. */
  function PeriodRows(entries: seq<Row>, w: Window): seq<Row> {
    Between(entries, w.start, w.end)
  }

  /** The number of days from start to end inclusive; none when the start is after the end. */
  function DayCount(w: Window): nat {
    if w.start <= w.end then w.end - w.start + 1 else 0
  }

  /** The ISO labels of n consecutive days from start. */
  function DayLabels(start: int, n: nat): (ls: seq<string>)
    requires 1 <= start && start + n <= MaxOrdinal + 1
    ensures |ls| == n
  {
    DaySeries(IsoFormat, start, n)
  }

  /** f of each of n consecutive days from start, in order. */
  function DaySeries<T>(f: Day -> T, start: int, n: nat): (s: seq<T>)
    requires 1 <= start && start + n <= MaxOrdinal + 1
    ensures |s| == n
    decreases n
  {
    if n == 0 then [] else DaySeries(f, start, n - 1) + [f(start + n - 1)]
  }

  /** The totals of n consecutive days from start, 0 for a day without rows. */
  function DailyTotals(rs: seq<Row>, start: int, n: nat): (vs: seq<nat>)
    ensures |vs| == n
    decreases n
  {
    if n == 0 then [] else DailyTotals(rs, start, n - 1) + [KeyTotal(rs, DateKey, start + n - 1)]
  }

  lemma DaySeriesNext<T>(f: Day -> T, start: int, d: int)
    requires 1 <= start <= d <= MaxOrdinal
    ensures DaySeries(f, start, d + 1 - start) == DaySeries(f, start, d - start) + [f(d)]
  {
  }

  lemma DailyTotalsNext(rs: seq<Row>, start: int, d: int)
    requires start <= d
    ensures DailyTotals(rs, start, d + 1 - start) == DailyTotals(rs, start, d - start) + [KeyTotal(rs, DateKey, d)]
  {
  }

  lemma DayLabelsAt(start: int, n: nat, i: nat)
    requires 1 <= start && start + n <= MaxOrdinal + 1 && i < n
    ensures DayLabels(start, n)[i] == IsoFormat(start + i)
  {
    DaySeriesAt(IsoFormat, start, n, i);
  }

  lemma {:induction false} DaySeriesAt<T>(f: Day -> T, start: int, n: nat, i: nat)
    requires 1 <= start && start + n <= MaxOrdinal + 1 && i < n
    ensures DaySeries(f, start, n)[i] == f(start + i)
    decreases n
  {
    if i < n - 1 {
      DaySeriesAt(f, start, n - 1, i);
    }
  }

  lemma {:induction false} DailyTotalsAt(rs: seq<Row>, start: int, n: nat, i: nat)
    requires i < n
    ensures DailyTotals(rs, start, n)[i] == KeyTotal(rs, DateKey, start + i)
    decreases n
  {
    if i < n - 1 {
      DailyTotalsAt(rs, start, n - 1, i);
    }
  }

  /** Label i names day start + i: the labels are consecutive days without gaps. */
  lemma DayLabelNamesDay(start: Day, n: nat, i: nat)
    requires start + n <= MaxOrdinal + 1 && i < n
    ensures ParseCalendarDate(DayLabels(start, n)[i]) == Some(start + i)
  {
    forall d: Day
      ensures ParseCalendarDate(IsoFormat(d)) == Some(d)
    {
      ParseIsoFormat(d);
    }
    SeriesInverse(IsoFormat, ParseCalendarDate, start, n, i);
  }

  /** Reading back element i of a series through an inverse of f gives its day. */
  lemma SeriesInverse<T>(f: Day -> T, g: T -> Option<Day>, start: Day, n: nat, i: nat)
    requires forall d: Day :: g(f(d)) == Some(d)
    requires start + n <= MaxOrdinal + 1 && i < n
    ensures g(DaySeries(f, start, n)[i]) == Some(start + i)
  {
    DaySeriesAt(f, start, n, i);
  }

  /** The first label is the period's start and the last its end. */
  lemma DayLabelsSpanWindow(w: Window)
    requires w.start <= w.end
    ensures DayLabels(w.start, DayCount(w))[0] == IsoFormat(w.start)
    ensures DayLabels(w.start, DayCount(w))[DayCount(w) - 1] == IsoFormat(w.end)
  {
    DayLabelsAt(w.start, DayCount(w), 0);
    DayLabelsAt(w.start, DayCount(w), DayCount(w) - 1);
  }

  /** A day's value is the summed quantity of the rows dated that day, and 0 when
      there are none. */
  lemma DailyValueOfDay(rs: seq<Row>, start: int, n: nat, i: nat)
    requires i < n
    ensures DailyTotals(rs, start, n)[i] == SumQuantity(Between(rs, start + i, start + i))
    ensures (forall r :: r in rs ==> r.date != start + i) ==> DailyTotals(rs, start, n)[i] == 0
  {
    DailyTotalsAt(rs, start, n, i);
    BetweenExtend(rs, start + i, start + i);
    BetweenEmpty(rs, start + i, start + i - 1);
    if forall r :: r in rs ==> r.date != start + i {
      NoRowOnDay(rs, start + i);
    }
  }

  lemma {:induction false} NoRowOnDay(rs: seq<Row>, d: int)
    requires forall r :: r in rs ==> r.date != d
    ensures KeyTotal(rs, DateKey, d) == 0
  {
    if rs != [] {
      assert forall r :: r in rs[..|rs| - 1] ==> r in rs;
      NoRowOnDay(rs[..|rs| - 1], d);
    }
  }

  /** The sum of a list of totals. */
  function Sum(xs: seq<nat>): nat {
    if xs == [] then 0 else xs[0] + Sum(xs[1..])
  }

  lemma {:induction false} SumSnoc(xs: seq<nat>, x: nat)
    ensures Sum(xs + [x]) == Sum(xs) + x
  {
    if xs != [] {
      assert (xs + [x])[1..] == xs[1..] + [x];
      SumSnoc(xs[1..], x);
    }
  }

  /** The totals of n consecutive days add up to the quantity of the rows in those days. */
  lemma {:induction false} DailyTotalsSum(rs: seq<Row>, start: int, n: nat)
    ensures Sum(DailyTotals(rs, start, n)) == SumQuantity(Between(rs, start, start + n - 1))
    decreases n
  {
    var last := start + n - 1;
    if n == 0 {
      BetweenEmpty(rs, start, last);
    } else {
      DailyTotalsSum(rs, start, n - 1);
      assert start + (n - 1) - 1 == last - 1;
      assert DailyTotals(rs, start, n) == DailyTotals(rs, start, n - 1) + [KeyTotal(rs, DateKey, last)];
      SumSnoc(DailyTotals(rs, start, n - 1), KeyTotal(rs, DateKey, last));
      BetweenExtend(rs, start, last);
    }
  }

  /** The daily series loses and invents nothing: its values add up to the period total,
      also when the period is empty or reversed. */
  lemma DailyValuesConserveTotal(entries: seq<Row>, w: Window)
    ensures Sum(DailyTotals(PeriodRows(entries, w), w.start, DayCount(w))) == SumQuantity(PeriodRows(entries, w))
  {
    var qs := PeriodRows(entries, w);
    if w.start <= w.end {
      DailyTotalsSum(qs, w.start, DayCount(w));
      BetweenMembers(entries, w.start, w.end);
      BetweenAll(qs, w.start, w.end);
    } else {
      BetweenEmpty(entries, w.start, w.end);
    }
  }

  /** `totals_map`: the by-day rows as a dictionary from date to total. Later rows
      overwrite earlier ones, as in a dict comprehension. */
  function TotalsMap(bs: seq<Bucket<int>>): (m: map<int, nat>)
    ensures forall d :: d in m <==> d in Keys(bs)
  {
    if bs == [] then map[]
    else
      KeysSnoc(bs);
      TotalsMap(bs[..|bs| - 1])[bs[|bs| - 1].key := bs[|bs| - 1].total]
  }

  /** With distinct dates, reading the dictionary is reading the by-day rows. */
  lemma {:induction false} TotalsMapLookup(bs: seq<Bucket<int>>, d: int)
    requires DistinctKeys(bs)
    ensures (if d in TotalsMap(bs) then TotalsMap(bs)[d] else 0) == Lookup(bs, d)
  {
    if bs != [] {
      var init, last := bs[..|bs| - 1], bs[|bs| - 1];
      DistinctKeysSnoc(bs);
      if d == last.key {
        LookupFinds(bs, |bs| - 1);
      } else {
        TotalsMapLookup(init, d);
        LookupSnoc(bs, d);
      }
    } else {
      KeysAt(bs, d);
    }
  }

  /** One turn of the daily loop: day d's label and its `totals_map.get(d, 0)` extend
      the series of the days before it. */
  lemma SeriesStep(qs: seq<Row>, totals: map<int, nat>, format: Day -> string, start: Day, d: Day)
    requires start <= d && totals == TotalsMap(GroupSum(qs, DateKey))
    ensures DaySeries(format, start, d + 1 - start) == DaySeries(format, start, d - start) + [format(d)]
    ensures DailyTotals(qs, start, d + 1 - start)
      == DailyTotals(qs, start, d - start) + [if d in totals then totals[d] else 0]
  {
    GroupSumCorrect(qs, DateKey);
    TotalsMapLookup(GroupSum(qs, DateKey), d);
    DaySeriesNext(format, start, d);
    DailyTotalsNext(qs, start, d);
  }

  /** The daily series: for each day from the period's start to its end, its label
      (`format`, which the view sets to `isoformat`) and its total, with 0 for a day
      without work. A start after the end gives two empty series. The cursor is an
      unbounded day number, so a period ending on the last representable date ends
      normally. */
  method DailySeries(qs: seq<Row>, w: Window, format: Day -> string)
    returns (labels: seq<string>, values: seq<nat>)
    ensures |labels| == |values| == DayCount(w)
    ensures labels == DaySeries(format, w.start, DayCount(w))
    ensures values == DailyTotals(qs, w.start, DayCount(w))
  {
    var byDay := GroupSum(qs, DateKey);
    var totals := TotalsMap(byDay);
    labels, values := [], [];
    var d: int := w.start;
    while d <= w.end
      invariant w.start <= d && (d == w.start || d <= w.end + 1)
      invariant |labels| == |values| == d - w.start
      invariant labels == DaySeries(format, w.start, d - w.start)
      invariant values == DailyTotals(qs, w.start, d - w.start)
    {
      SeriesStep(qs, totals, format, w.start, d);
      labels := labels + [format(d)];
      values := values + [if d in totals then totals[d] else 0];
      d := d + 1;
    }
  }

  /** Why the daily loop could not end: `d += timedelta(days=1)` past 9999-12-31. */
  datatype SeriesError = DateOverflow

  /** `date + timedelta(days=1)`, which raises OverflowError past the last date. */
  function NextDate(d: Day): (r: Result<Day, SeriesError>)
    ensures r.Success? <==> d < MaxOrdinal
    ensures r.Success? ==> r.value == d + 1
  {
    if d < MaxOrdinal then Success(d + 1) else Failure(DateOverflow)
  }

  /** The daily loop exactly as written, producing f(d) for each day d: the value for d
      is appended, then d is advanced by one day, and the loop test is made on the new d.
      Advancing from the last representable date raises, which discards the whole report. */
  function LoopAsWritten<T>(f: Day -> T, d: Day, end: Day): Result<seq<T>, SeriesError>
    decreases MaxOrdinal - d
  {
    if d > end then Success([])
    else
      match NextDate(d)
      case Failure(e) => Failure(e)
      case Success(next) =>
        var rest := LoopAsWritten(f, next, end);
        if rest.Failure? then rest else Success([f(d)] + rest.value)
  }

  /** The daily labels as the loop writes them. */
  function DayLabelsAsWritten(d: Day, end: Day): Result<seq<string>, SeriesError>
  {
    LoopAsWritten(IsoFormat, d, end)
  }

  /** A period that ends on 9999-12-31 makes the loop as written fail, for every start
      up to that date: the last label is appended, then the step past it overflows. */
  lemma AsWrittenOverflowsAtLastDate(d: Day)
    ensures DayLabelsAsWritten(d, MaxOrdinal).Failure?
  {
    LoopOverflowsAtLastDate(IsoFormat, d);
  }

  lemma {:induction false} LoopOverflowsAtLastDate<T>(f: Day -> T, d: Day)
    ensures LoopAsWritten(f, d, MaxOrdinal).Failure?
    decreases MaxOrdinal - d
  {
    if d < MaxOrdinal {
      LoopOverflowsAtLastDate(f, d + 1);
    }
  }

  /** Before the last date the loop as written yields the same labels as DailySeries. */
  lemma AsWrittenAgreesBeforeLastDate(d: Day, end: Day)
    requires end < MaxOrdinal
    ensures d <= end ==> DayLabelsAsWritten(d, end) == Success(DayLabels(d, end - d + 1))
    ensures d > end ==> DayLabelsAsWritten(d, end) == Success([])
  {
    LoopAgreesBeforeLastDate(IsoFormat, d, end);
  }

  lemma {:induction false} LoopAgreesBeforeLastDate<T>(f: Day -> T, d: Day, end: Day)
    requires end < MaxOrdinal
    ensures d <= end ==> LoopAsWritten(f, d, end) == Success(DaySeries(f, d, end - d + 1))
    ensures d > end ==> LoopAsWritten(f, d, end) == Success([])
    decreases MaxOrdinal - d
  {
    if d <= end {
      LoopAgreesBeforeLastDate(f, d + 1, end);
      DaySeriesCons(f, d, end - d);
    }
  }

  /** A series of n + 1 days is the first day's value followed by the series of the next n. */
  lemma {:induction false} DaySeriesCons<T>(f: Day -> T, start: int, n: nat)
    requires 1 <= start && start + n + 1 <= MaxOrdinal + 1
    ensures DaySeries(f, start, n + 1) == [f(start)] + DaySeries(f, start + 1, n)
    decreases n
  {
    if n > 0 {
      DaySeriesCons(f, start, n - 1);
      assert start + 1 + n - 1 == start + n;
    }
  }

  /** The number of worker rows the report shows (`[:10]`). */
  const TopLimit := 10

  /** `values("worker__full_name").annotate(total=Sum("quantity")).order_by("-total")`. */
  function ByName(qs: seq<Row>): seq<Bucket<string>> {
    SortByTotal(GroupSum(qs, NameKey))
  }

  /** The first ten of the workers by total. */
  function TopWorkers(qs: seq<Row>): (top: seq<Bucket<string>>)
    ensures |top| <= TopLimit
  {
    var s := ByName(qs);
    s[..if |s| < TopLimit then |s| else TopLimit]
  }

  /** Top workers are grouped by name: as many rows as distinct names, up to ten; each
      name once, with the total of all its rows; totals never increase. */
  lemma TopWorkersCorrect(qs: seq<Row>)
    ensures var names := KeysIn(qs, NameKey);
      |TopWorkers(qs)| == if |names| < TopLimit then |names| else TopLimit
    ensures NonIncreasing(TopWorkers(qs))
    ensures forall i, j :: 0 <= i < j < |TopWorkers(qs)| ==> TopWorkers(qs)[i].key != TopWorkers(qs)[j].key
  {
    var g := GroupSum(qs, NameKey);
    var s := ByName(qs);
    GroupSumCorrect(qs, NameKey);
    SortByTotalCorrect(g);
    assert |s| == |KeysIn(qs, NameKey)| by {
      DistinctKeysCount(g);
    }
    SortedPrefix(s, |TopWorkers(qs)|);
  }

  /** Each top-worker row is a name with rows in the period, holding the total of all
      rows carrying that name. */
  lemma TopWorkerTotal(qs: seq<Row>, i: int)
    requires 0 <= i < |TopWorkers(qs)|
    ensures TopWorkers(qs)[i].key in KeysIn(qs, NameKey)
    ensures TopWorkers(qs)[i].total == KeyTotal(qs, NameKey, TopWorkers(qs)[i].key)
  {
    var s := ByName(qs);
    GroupSumCorrect(qs, NameKey);
    SortByTotalCorrect(GroupSum(qs, NameKey));
    KeysAt(s, s[i].key);
    SortedGroupEntry(qs, NameKey, i);
  }

  /** A name that has rows in the period but is not among the top workers has a total
      no larger than that of any name shown. */
  lemma TopWorkersCutoff(qs: seq<Row>, name: string)
    requires name in KeysIn(qs, NameKey) && name !in Keys(TopWorkers(qs))
    ensures forall i :: 0 <= i < |TopWorkers(qs)| ==> KeyTotal(qs, NameKey, name) <= TopWorkers(qs)[i].total
  {
    var g := GroupSum(qs, NameKey);
    var s := ByName(qs);
    var top := TopWorkers(qs);
    GroupSumCorrect(qs, NameKey);
    SortByTotalCorrect(g);
    KeysAt(s, name);
    var j :| 0 <= j < |s| && s[j].key == name;
    assert top == s[..|top|];
    PrefixCutoff(s, |top|, j);
    SortedGroupEntry(qs, NameKey, j);
  }

  /** Two different workers with the same full name make a single row holding both
      totals. */
  lemma SameNameWorkersMerge(a: Row, b: Row)
    requires a.workerName == b.workerName && a.worker != b.worker
    ensures |TopWorkers([a, b])| == 1
    ensures TopWorkers([a, b])[0] == Bucket(a.workerName, a.quantity + b.quantity)
  {
    var qs := [a, b];
    assert qs[..1] == [a] && [a][..0] == [];
    assert KeysIn(qs, NameKey) == KeysIn([a], NameKey) + {b.workerName};
    assert KeysIn(qs, NameKey) == {a.workerName};
    TopWorkersCorrect(qs);
    TopWorkerTotal(qs, 0);
    assert KeyTotal([a], NameKey, a.workerName) == a.quantity;
  }

  /** `values(name=..., unit=...).annotate(total=Sum("quantity")).order_by("-total")`. */
  function ByType(qs: seq<Row>): seq<Bucket<(string, string)>> {
    SortByTotal(GroupSum(qs, TypeKey))
  }

  /** One row per (name, unit) pair present, each with that pair's total, in
      non-increasing order of total, and together holding the whole period total. */
  lemma ByTypeCorrect(qs: seq<Row>)
    ensures |ByType(qs)| == |KeysIn(qs, TypeKey)|
    ensures Keys(ByType(qs)) == KeysIn(qs, TypeKey)
    ensures forall i, j :: 0 <= i < j < |ByType(qs)| ==> ByType(qs)[i].key != ByType(qs)[j].key
    ensures forall i :: 0 <= i < |ByType(qs)| ==> ByType(qs)[i].total == KeyTotal(qs, TypeKey, ByType(qs)[i].key)
    ensures NonIncreasing(ByType(qs))
    ensures Total(ByType(qs)) == SumQuantity(qs)
  {
    var g := GroupSum(qs, TypeKey);
    var s := ByType(qs);
    GroupSumCorrect(qs, TypeKey);
    SortByTotalCorrect(g);
    DistinctKeysCount(g);
    forall i, j | 0 <= i < j < |s| ensures s[i].key != s[j].key {
      DistinctKeysAt(s, i, j);
    }
    forall i | 0 <= i < |s| ensures s[i].total == KeyTotal(qs, TypeKey, s[i].key) {
      SortedGroupEntry(qs, TypeKey, i);
    }
  }

  /** The labels `name (unit)` of the by-type rows. */
  function TypeLabels(bs: seq<Bucket<(string, string)>>): seq<string> {
    seq(|bs|, i requires 0 <= i < |bs| => TypeLabel(bs[i].key.0, bs[i].key.1))
  }

  /** The names of the top-worker rows. */
  function Names(bs: seq<Bucket<string>>): seq<string> {
    seq(|bs|, i requires 0 <= i < |bs| => bs[i].key)
  }

  /** The totals of a grouped query's rows. */
  function Totals<K>(bs: seq<Bucket<K>>): seq<nat> {
    seq(|bs|, i requires 0 <= i < |bs| => bs[i].total)
  }

  lemma {:induction false} SumTotals<K>(bs: seq<Bucket<K>>)
    ensures Sum(Totals(bs)) == Total(bs)
  {
    if bs != [] {
      assert Totals(bs)[1..] == Totals(bs[1..]);
      SumTotals(bs[1..]);
    }
  }

  /** A by-type label reads exactly as the work type's own display text. */
  lemma ByTypeLabelIsWorkTypeText(bs: seq<Bucket<(string, string)>>, i: int, t: WorkType)
    requires 0 <= i < |bs| && bs[i].key == (t.name, t.unit)
    ensures TypeLabels(bs)[i] == WorkTypeText(t)
  {
  }

  /** The snapshot of today's work. */
  datatype Snapshot = Snapshot(total: nat, workers: nat, types: nat)

  function WorkerOf(r: Row): nat { r.worker }
  function WorkTypeOf(r: Row): nat { r.workType }

  /** `filter(work_date=today)` with its total and its distinct workers and work types. */
  function TodaySnapshot(entries: seq<Row>, today: Day): Snapshot {
    var t := Between(entries, today, today);
    Snapshot(SumQuantity(t), |KeysIn(t, WorkerOf)|, |KeysIn(t, WorkTypeOf)|)
  }

  /** Today's total is the quantity dated today; each distinct count is at most the
      number of today's entries, and is 0 exactly when nothing is dated today. */
  lemma TodaySnapshotCorrect(entries: seq<Row>, today: Day)
    ensures TodaySnapshot(entries, today).total == KeyTotal(entries, DateKey, today)
    ensures TodaySnapshot(entries, today).workers <= |Between(entries, today, today)|
    ensures TodaySnapshot(entries, today).types <= |Between(entries, today, today)|
    ensures TodaySnapshot(entries, today).workers == 0 <==> forall r :: r in entries ==> r.date != today
    ensures TodaySnapshot(entries, today).types == 0 <==> forall r :: r in entries ==> r.date != today
  {
    var t := Between(entries, today, today);
    BetweenExtend(entries, today, today);
    BetweenEmpty(entries, today, today - 1);
    KeysInSize(t, WorkerOf);
    KeysInSize(t, WorkTypeOf);
    if t != [] {
      assert t[0] in t;
    }
  }

  /** What the report page receives. Quantities stay in thousandths. */
  datatype Report = Report(
    start: string,
    end: string,
    totalQty: nat,
    daysLabels: seq<string>,
    daysValues: seq<nat>,
    workersLabels: seq<string>,
    workersValues: seq<nat>,
    typesLabels: seq<string>,
    typesValues: seq<nat>,
    todayTotal: nat,
    todayWorkers: nat,
    todayTypes: nat)

  /** `analytics_view`: the report for the period chosen from the arguments and for today. */
  method AnalyticsView(entries: seq<Row>, startArg: Option<string>, endArg: Option<string>,
                       today: Day, parse: string -> Option<Day>) returns (r: Report)
    requires 6 < today
    ensures var w := SelectWindow(startArg, endArg, today, parse);
      var qs := PeriodRows(entries, w);
      && r.start == IsoFormat(w.start) && r.end == IsoFormat(w.end)
      && r.totalQty == SumQuantity(qs)
      && r.daysLabels == DayLabels(w.start, DayCount(w))
      && r.daysValues == DailyTotals(qs, w.start, DayCount(w))
      && r.workersLabels == Names(TopWorkers(qs)) && r.workersValues == Totals(TopWorkers(qs))
      && r.typesLabels == TypeLabels(ByType(qs)) && r.typesValues == Totals(ByType(qs))
      && Snapshot(r.todayTotal, r.todayWorkers, r.todayTypes) == TodaySnapshot(entries, today)
    ensures |r.daysLabels| == |r.daysValues| && Sum(r.daysValues) == r.totalQty
    ensures |r.workersLabels| == |r.workersValues| <= TopLimit
    ensures |r.typesLabels| == |r.typesValues| && Sum(r.typesValues) == r.totalQty
  {
    var w := SelectWindow(startArg, endArg, today, parse);
    var qs := PeriodRows(entries, w);
    var total := SumQuantity(qs);
    var labels, values := DailySeries(qs, w, IsoFormat);
    var top := TopWorkers(qs);
    var byType := ByType(qs);
    var snapshot := TodaySnapshot(entries, today);
    DailyValuesConserveTotal(entries, w);
    ByTypeCorrect(qs);
    SumTotals(byType);
    r := Report(IsoFormat(w.start), IsoFormat(w.end), total, labels, values,
                Names(top), Totals(top), TypeLabels(byType), Totals(byType),
                snapshot.total, snapshot.workers, snapshot.types);
  }
}
