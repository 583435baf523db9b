/** Calendar gap filling of the orders series (`fillMissingDates` in
    src/App.jsx): one point per day, Monday-start week or month of the
    requested range, reusing the series' points and zero-filling the rest. */
module GapFill {
  import opened Common
  import opened Calendar
  import opened Series

  datatype Granularity = ByDay | ByWeek | ByMonth

  /** The `groupBy` filter: "week" and "month" are recognised, anything else
      fills by day. */
  function GranularityOf(groupBy: string): (g: Granularity)
    ensures g == ByWeek <==> groupBy == "week"
    ensures g == ByMonth <==> groupBy == "month"
  {
    if groupBy == "week" then ByWeek else if groupBy == "month" then ByMonth else ByDay
  }

  /** Every day from `cur` to `last` (date-fns `eachDayOfInterval`). */
  function DaysFrom(cur: Date, last: Date): (r: seq<Date>)
    requires Valid(cur) && Valid(last)
    ensures |r| == if Ordinal(cur) <= Ordinal(last) then Ordinal(last) - Ordinal(cur) + 1 else 0
    ensures forall i :: 0 <= i < |r| ==> Valid(r[i]) && Ordinal(r[i]) == Ordinal(cur) + i
    decreases Ordinal(last) - Ordinal(cur) + 1
  {
    if Ordinal(cur) > Ordinal(last) then [] else [cur] + DaysFrom(Next(cur), last)
  }

  /** Every seventh day from `cur` up to `last` (date-fns
      `eachWeekOfInterval` once `cur` and `last` are week starts). */
  function WeeksFrom(cur: Date, last: Date): (r: seq<Date>)
    requires Valid(cur) && Valid(last)
    ensures forall i :: 0 <= i < |r| ==> Valid(r[i]) && Ordinal(r[i]) == Ordinal(cur) + 7 * i
    ensures |r| == 0 <==> Ordinal(cur) > Ordinal(last)
    ensures |r| > 0 ==> r[0] == cur && Ordinal(r[|r| - 1]) <= Ordinal(last) < Ordinal(r[|r| - 1]) + 7
    decreases Ordinal(last) - Ordinal(cur) + 1
  {
    if Ordinal(cur) > Ordinal(last) then []
    else
      var rest := WeeksFrom(Forward(cur, 7), last);
      assert forall i :: 0 < i <= |rest| ==> ([cur] + rest)[i] == rest[i - 1];
      [cur] + rest
  }

  /** The first day of every month from `cur`'s to `last`'s (date-fns
      `eachMonthOfInterval`). */
  function MonthsFrom(cur: Date, last: Date): (r: seq<Date>)
    requires Valid(cur) && cur.day == 1
    ensures |r| == if MonthIndex(cur) <= MonthIndex(last) then MonthIndex(last) - MonthIndex(cur) + 1 else 0
    ensures forall i :: 0 <= i < |r| ==> Valid(r[i]) && r[i].day == 1 && MonthIndex(r[i]) == MonthIndex(cur) + i
    ensures forall i :: 0 < i < |r| ==> Ordinal(r[i - 1]) < Ordinal(r[i])
    decreases MonthIndex(last) - MonthIndex(cur) + 1
  {
    if MonthIndex(cur) > MonthIndex(last) then []
    else
      var rest := MonthsFrom(NextMonthStart(cur), last);
      assert rest != [] ==> Ordinal(cur) < Ordinal(rest[0]);
      [cur] + rest
  }

  /** The canonical period keys of `[start, last]`. */
  function Periods(start: Date, last: Date, g: Granularity): seq<Date>
    requires Valid(start) && Valid(last)
  {
    match g
    case ByDay => DaysFrom(start, last)
    case ByWeek => WeeksFrom(StartOfWeek(start), StartOfWeek(last))
    case ByMonth => MonthsFrom(StartOfMonth(start), last)
  }

  /** `new Map(series.map(item => [item.date, item]))`: a later point with
      the same date replaces an earlier one. */
  function DataMap(series: seq<Point>): map<Field, Point>
  {
    if series == [] then map[]
    else DataMap(series[..|series| - 1])[series[|series| - 1].date := series[|series| - 1]]
  }

  /** `dataMap.get(period) || { date: period, value: 0 }` for every key. */
  function FillFrom(series: seq<Point>, keys: seq<Date>): (r: seq<Point>)
    ensures |r| == |keys|
  {
    var m := DataMap(series);
    seq(|keys|, i requires 0 <= i < |keys| =>
      if Day(keys[i]) in m then m[Day(keys[i])] else Point(Day(keys[i]), 0.0))
  }

  /** `fillMissingDates(series, startDate, endDate, groupBy)`. A missing start
      or end is `None`; a date that is not a real day, or a start after the
      end, makes date-fns throw, and the catch returns the series. */
  function FillMissingDates(series: seq<Point>, start: Option<Date>, end: Option<Date>, groupBy: string)
    : (r: seq<Point>)
    ensures series == [] ==> r == []
    ensures series != [] && (start.None? || end.None?) ==> r == series
    ensures (series != [] && start.Some? && end.Some?
             && !(Valid(start.value) && Valid(end.value) && Ordinal(start.value) <= Ordinal(end.value)))
            ==> r == series
  {
    if series == [] then []
    else if start.None? || end.None? then series
    else if !Valid(start.value) || !Valid(end.value) || Ordinal(start.value) > Ordinal(end.value) then series
    else FillFrom(series, Periods(start.value, end.value, GranularityOf(groupBy)))
  }

  // ---- Properties ------------------------------------------------------------

  predicate LastWithDate(series: seq<Point>, j: int, k: Field)
  {
    0 <= j < |series| && series[j].date == k && forall j' :: j < j' < |series| ==> series[j'].date != k
  }

  /** The map holds a date exactly when some point has it. */
  lemma {:induction false} DataMapKeys(series: seq<Point>)
    ensures forall k :: k in DataMap(series) <==> exists j :: 0 <= j < |series| && series[j].date == k
    decreases |series|
  {
    if series != [] {
      var n := |series| - 1;
      var init := series[..n];
      DataMapKeys(init);
      forall k | k in DataMap(series)
        ensures exists j :: 0 <= j < |series| && series[j].date == k
      {
        if k != series[n].date {
          assert DataMap(series) == DataMap(init)[series[n].date := series[n]];
          assert k in DataMap(init);
          var j :| 0 <= j < |init| && init[j].date == k;
          assert series[j] == init[j];
        }
      }
      forall k, j | 0 <= j < |series| && series[j].date == k
        ensures k in DataMap(series)
      {
        if j < n {
          assert init[j] == series[j];
        }
      }
    }
  }

  /** The map holds, for each date, the last point with that date. */
  lemma {:induction false} DataMapIsLastPoint(series: seq<Point>, k: Field, j: int)
    requires LastWithDate(series, j, k)
    ensures k in DataMap(series) && DataMap(series)[k] == series[j]
    decreases |series|
  {
    var n := |series| - 1;
    if j < n {
      var init := series[..n];
      assert series[n].date != k;
      assert LastWithDate(init, j, k) by {
        forall j' | j < j' < |init| ensures init[j'].date != k {
          assert init[j'] == series[j'];
        }
      }
      DataMapIsLastPoint(init, k, j);
    }
  }

  /** Each filled point is the last series point whose date is its key, or
      a zero point at the key; either way its date is the key. */
  lemma FillFromPoint(series: seq<Point>, keys: seq<Date>, i: int)
    requires 0 <= i < |keys|
    ensures FillFrom(series, keys)[i].date == Day(keys[i])
    ensures (forall j :: 0 <= j < |series| ==> series[j].date != Day(keys[i]))
            ==> FillFrom(series, keys)[i] == Point(Day(keys[i]), 0.0)
    ensures forall j :: LastWithDate(series, j, Day(keys[i])) ==> FillFrom(series, keys)[i] == series[j]
  {
    var k := Day(keys[i]);
    DataMapKeys(series);
    var m := DataMap(series);
    if k in m {
      var j :| 0 <= j < |series| && series[j].date == k;
      var last := LastIndex(series, k, j);
      DataMapIsLastPoint(series, k, last);
      forall j' | LastWithDate(series, j', k) ensures FillFrom(series, keys)[i] == series[j'] {
        DataMapIsLastPoint(series, k, j');
      }
    }
  }

  /** The last position at or after `j` holding date `k`. */
  function LastIndex(series: seq<Point>, k: Field, j: int): (r: int)
    requires 0 <= j < |series| && series[j].date == k
    ensures LastWithDate(series, r, k) && j <= r
    decreases |series| - j
  {
    if exists j' :: j < j' < |series| && series[j'].date == k then
      var j' :| j < j' < |series| && series[j'].date == k;
      LastIndex(series, k, j')
    else j
  }

  /** Filling by day: exactly one point per calendar day from start to end,
      in ascending order, whatever the series held. */
  lemma FillByDay(series: seq<Point>, start: Date, end: Date)
    requires series != [] && Valid(start) && Valid(end) && Ordinal(start) <= Ordinal(end)
    ensures var r := FillMissingDates(series, Some(start), Some(end), "day");
      && |r| == Ordinal(end) - Ordinal(start) + 1
      && (forall i :: 0 <= i < |r| ==>
            r[i].date.Day? && Valid(r[i].date.date) && Ordinal(r[i].date.date) == Ordinal(start) + i)
      && (forall x :: Valid(x) && Ordinal(start) <= Ordinal(x) <= Ordinal(end)
                      ==> exists i :: 0 <= i < |r| && r[i].date == Day(x))
  {
    var keys := DaysFrom(start, end);
    var r := FillMissingDates(series, Some(start), Some(end), "day");
    assert r == FillFrom(series, keys);
    FillFromDates(series, keys);
    forall x | Valid(x) && Ordinal(start) <= Ordinal(x) <= Ordinal(end)
      ensures exists i :: 0 <= i < |r| && r[i].date == Day(x)
    {
      var i := Ordinal(x) - Ordinal(start);
      BeforeIsChronological(keys[i], x);
      assert r[i].date == Day(x);
    }
  }

  /** Two week starts less than a week apart are the same day. */
  lemma WeekStartsOrdered(p: int, q: int)
    requires p % 7 == 0 && q % 7 == 0 && p < q + 7
    ensures p <= q
  {
  }

  lemma StepKeepsWeekday(x: int, i: int)
    ensures (x + 7 * i) % 7 == x % 7
  {
  }

  /** A day a whole number of weeks after a Monday is a Monday. */
  lemma MondayStep(p: int, i: int, o: int)
    requires p % 7 == 0 && o == p + 7 * i
    ensures o % 7 == 0
  {
    StepKeepsWeekday(p, i);
  }

  /** Every key counted in weeks from a Monday is a Monday. */
  lemma WeekKeysAreMondays(a: Date, b: Date)
    requires Valid(a) && Valid(b) && Ordinal(a) % 7 == 0
    ensures var keys := WeeksFrom(a, b);
      forall i :: 0 <= i < |keys| ==> Ordinal(keys[i]) % 7 == 0
  {
    var keys := WeeksFrom(a, b);
    forall i | 0 <= i < |keys|
      ensures Ordinal(keys[i]) % 7 == 0
    {
      MondayStep(Ordinal(a), i, Ordinal(keys[i]));
    }
  }

  /** The week keys are Mondays seven days apart. */
  lemma WeekPeriodsAreMondays(start: Date, end: Date)
    requires Valid(start) && Valid(end)
    ensures var keys := Periods(start, end, ByWeek);
      forall i :: 0 <= i < |keys| ==>
        Valid(keys[i]) && Ordinal(keys[i]) % 7 == 0 && Ordinal(keys[i]) == Ordinal(StartOfWeek(start)) + 7 * i
  {
    var a, b := StartOfWeek(start), StartOfWeek(end);
    assert Periods(start, end, ByWeek) == WeeksFrom(a, b);
    WeekKeysAreMondays(a, b);
  }

  /** The week keys run from the week start of `start` to the week start of
      `end`. */
  lemma WeekPeriodsEnds(start: Date, end: Date)
    requires Valid(start) && Valid(end) && Ordinal(start) <= Ordinal(end)
    ensures var keys := Periods(start, end, ByWeek);
      && |keys| > 0
      && keys[0] == StartOfWeek(start)
      && keys[|keys| - 1] == StartOfWeek(end)
  {
    var a, b := StartOfWeek(start), StartOfWeek(end);
    assert Periods(start, end, ByWeek) == WeeksFrom(a, b);
    WeekStartsOrdered(Ordinal(a), Ordinal(b));
    LastWeekKey(a, b);
  }

  /** The last week key is the week start of the end. */
  lemma LastWeekKey(a: Date, b: Date)
    requires Valid(a) && Valid(b) && Ordinal(a) % 7 == 0 && Ordinal(b) % 7 == 0 && Ordinal(a) <= Ordinal(b)
    ensures var keys := WeeksFrom(a, b); |keys| > 0 && keys[|keys| - 1] == b
  {
    var keys := WeeksFrom(a, b);
    var n := |keys| - 1;
    var last := keys[n];
    SameWeekStart(Ordinal(a), n, Ordinal(last), Ordinal(b));
    OrdinalInjective(last, b);
  }

  lemma SameWeekStart(p: int, n: int, l: int, q: int)
    requires p % 7 == 0 && q % 7 == 0 && l == p + 7 * n && l <= q < l + 7
    ensures l == q
  {
    StepKeepsWeekday(p, n);
    WeekStartsOrdered(q, l);
  }

  /** Every filled point carries its key as its date. */
  lemma FillFromDates(series: seq<Point>, keys: seq<Date>)
    ensures forall i :: 0 <= i < |keys| ==> FillFrom(series, keys)[i].date == Day(keys[i])
  {
    forall i | 0 <= i < |keys|
      ensures FillFrom(series, keys)[i].date == Day(keys[i])
    {
      FillFromPoint(series, keys, i);
    }
  }

  /** Filling by week: one point per Monday from the week of start to the
      week of end, seven days apart. */
  lemma FillByWeek(series: seq<Point>, start: Date, end: Date)
    requires series != [] && Valid(start) && Valid(end) && Ordinal(start) <= Ordinal(end)
    ensures var r := FillMissingDates(series, Some(start), Some(end), "week");
      && |r| > 0
      && r[0].date == Day(StartOfWeek(start))
      && r[|r| - 1].date == Day(StartOfWeek(end))
      && (forall i :: 0 <= i < |r| ==>
            && r[i].date.Day? && Valid(r[i].date.date)
            && Ordinal(r[i].date.date) % 7 == 0
            && Ordinal(r[i].date.date) == Ordinal(StartOfWeek(start)) + 7 * i)
  {
    var keys := Periods(start, end, ByWeek);
    assert FillMissingDates(series, Some(start), Some(end), "week") == FillFrom(series, keys);
    WeekPeriodsAreMondays(start, end);
    WeekPeriodsEnds(start, end);
    FillFromDates(series, keys);
  }

  /** Filling by month: one point per month from start's to end's, each on
      the first of its month, in ascending order. */
  lemma FillByMonth(series: seq<Point>, start: Date, end: Date)
    requires series != [] && Valid(start) && Valid(end) && Ordinal(start) <= Ordinal(end)
    ensures var r := FillMissingDates(series, Some(start), Some(end), "month");
      && |r| == MonthIndex(end) - MonthIndex(start) + 1
      && (forall i :: 0 <= i < |r| ==>
            && r[i].date.Day? && Valid(r[i].date.date) && r[i].date.date.day == 1
            && MonthIndex(r[i].date.date) == MonthIndex(start) + i)
      && (forall i :: 0 < i < |r| ==> Ordinal(r[i - 1].date.date) < Ordinal(r[i].date.date))
  {
    var keys := MonthsFrom(StartOfMonth(start), end);
    var r := FillMissingDates(series, Some(start), Some(end), "month");
    assert r == FillFrom(series, keys);
    FillFromDates(series, keys);
    BeforeIsChronological(start, end);
  }

  /** A worked case: revenue in cents on the 1st and the 3rd of January
      2024, filled by day over the 1st to the 3rd, gives the 2nd as a zero
      point between the two, in currency units. */
  lemma DailyExample()
    ensures var d1, d2, d3 := Date(2024, 1, 1), Date(2024, 1, 2), Date(2024, 1, 3);
      var payload := JsonObject(map["daily" := JsonArray([
        Record(map["date" := Day(d1), "revenue" := Num(1000)]),
        Record(map["date" := Day(d3), "revenue" := Num(500)])])]);
      FillMissingDates(NormalizeSeries(payload), Some(d1), Some(d3), "day")
        == [Point(Day(d1), 10.0), Point(Day(d2), 0.0), Point(Day(d3), 5.0)]
  {
    ExampleSeries();
    ExampleRange([Point(Day(Date(2024, 1, 1)), 10.0), Point(Day(Date(2024, 1, 3)), 5.0)]);
    ExampleFill();
  }

  lemma ExampleSeries()
    ensures var d1, d3 := Date(2024, 1, 1), Date(2024, 1, 3);
      var payload := JsonObject(map["daily" := JsonArray([
        Record(map["date" := Day(d1), "revenue" := Num(1000)]),
        Record(map["date" := Day(d3), "revenue" := Num(500)])])]);
      NormalizeSeries(payload) == [Point(Day(d1), 10.0), Point(Day(d3), 5.0)]
  {
    var d1, d3 := Date(2024, 1, 1), Date(2024, 1, 3);
    var e1 := Record(map["date" := Day(d1), "revenue" := Num(1000)]);
    var e3 := Record(map["date" := Day(d3), "revenue" := Num(500)]);
    var payload := JsonObject(map["daily" := JsonArray([e1, e3])]);
    ExampleEntry(d1, 1000);
    ExampleEntry(d3, 500);
    assert Lookup(payload, CandidatePaths[0]) == Some(JsonArray([e1, e3]));
    FindSeriesIsFirst(payload, CandidatePaths);
    assert FindSeries(payload, CandidatePaths) == Some([e1, e3]);
    assert NormalizeEntries([e1, e3]) == [Point(Day(d1), 10.0), Point(Day(d3), 5.0)] by {
      assert [e1, e3][1..] == [e3];
      assert NormalizeEntries([e3]) == [Point(Day(d3), 5.0)];
    }
  }

  lemma ExampleDays()
    ensures DaysFrom(Date(2024, 1, 1), Date(2024, 1, 3)) == [Date(2024, 1, 1), Date(2024, 1, 2), Date(2024, 1, 3)]
  {
    var d1, d2, d3 := Date(2024, 1, 1), Date(2024, 1, 2), Date(2024, 1, 3);
    var keys := DaysFrom(d1, d3);
    assert Ordinal(d2) == Ordinal(d1) + 1 && Ordinal(d3) == Ordinal(d1) + 2;
    assert |keys| == 3;
    OrdinalInjective(keys[0], d1);
    OrdinalInjective(keys[1], d2);
    OrdinalInjective(keys[2], d3);
  }

  lemma ExampleFill()
    ensures var d1, d2, d3 := Date(2024, 1, 1), Date(2024, 1, 2), Date(2024, 1, 3);
      FillFrom([Point(Day(d1), 10.0), Point(Day(d3), 5.0)], [d1, d2, d3])
        == [Point(Day(d1), 10.0), Point(Day(d2), 0.0), Point(Day(d3), 5.0)]
  {
    var d1, d2, d3 := Date(2024, 1, 1), Date(2024, 1, 2), Date(2024, 1, 3);
    var series := [Point(Day(d1), 10.0), Point(Day(d3), 5.0)];
    var keys := [d1, d2, d3];
    var r := FillFrom(series, keys);
    assert r[0] == series[0] by {
      FillFromPoint(series, keys, 0);
      assert LastWithDate(series, 0, Day(d1));
    }
    assert r[1] == Point(Day(d2), 0.0) by {
      FillFromPoint(series, keys, 1);
    }
    assert r[2] == series[1] by {
      FillFromPoint(series, keys, 2);
      assert LastWithDate(series, 1, Day(d3));
    }
  }

  lemma ExampleRange(series: seq<Point>)
    requires series != []
    ensures FillMissingDates(series, Some(Date(2024, 1, 1)), Some(Date(2024, 1, 3)), "day")
            == FillFrom(series, [Date(2024, 1, 1), Date(2024, 1, 2), Date(2024, 1, 3)])
  {
    ExampleDays();
  }

  /** A record with a date and a revenue in cents becomes a point in
      currency units. */
  lemma ExampleEntry(d: Date, cents: int)
    ensures EntryPoint(Record(map["date" := Day(d), "revenue" := Num(cents)]))
            == Point(Day(d), cents as real / 100.0)
  {
    var f := map["date" := Day(d), "revenue" := Num(cents)];
    FirstTruthyIsFirst(f, DateKeys);
    assert TruthyAt(f, DateKeys[0]);
    RecordValue(f, 0);
    assert HasMoneyKey(f) by {
      assert MoneyKeys[0] in f;
    }
  }
}
