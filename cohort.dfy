/** The cohort table: for each month in which customers first bought, how
    many of them bought again in each later month, the column totals, and
    how each cell is shown. Months are identified by their first day. */
module Cohort {
  import opened Common
  import opened Calendar
  import opened Ordering

  /** One cell of the cohort report: customers of cohort `cohortMonth` who
      ordered in `orderMonth`. */
  datatype CohortItem = CohortItem(cohortMonth: Date, orderMonth: Date, customers: Option<int>)

  /** One cohort: its month and its customers per order month. */
  datatype CohortRow = CohortRow(cohortKey: Date, values: map<Date, int>)

  ghost predicate HasCohort(items: seq<CohortItem>, c: Date)
  {
    exists j :: 0 <= j < |items| && items[j].cohortMonth == c
  }

  /** The cells of cohort `c` after the items in order, a later item for
      the same order month replacing an earlier one. */
  ghost function CellsFor(items: seq<CohortItem>, c: Date): map<Date, int>
  {
    if items == [] then map[]
    else
      var cells := CellsFor(items[..|items| - 1], c);
      var item := items[|items| - 1];
      if item.cohortMonth == c then cells[item.orderMonth := OrElse(item.customers, 0)] else cells
  }

  /** The item that decides a cell: the last one for that cohort and month. */
  ghost predicate LastFor(items: seq<CohortItem>, c: Date, k: Date, j: int)
  {
    0 <= j < |items| && items[j].cohortMonth == c && items[j].orderMonth == k
    && forall j' :: j < j' < |items| ==> !(items[j'].cohortMonth == c && items[j'].orderMonth == k)
  }

  /** A cohort has a cell for a month exactly when some item gives one. */
  lemma {:induction false} CellsForKeys(items: seq<CohortItem>, c: Date, k: Date)
    ensures k in CellsFor(items, c) <==>
              exists j :: 0 <= j < |items| && items[j].cohortMonth == c && items[j].orderMonth == k
    decreases |items|
  {
    if items != [] {
      var n := |items| - 1;
      var init := items[..n];
      CellsForKeys(init, c, k);
      if k in CellsFor(init, c) {
        var j :| 0 <= j < n && init[j].cohortMonth == c && init[j].orderMonth == k;
        assert items[j] == init[j];
      }
      if !(items[n].cohortMonth == c && items[n].orderMonth == k)
         && exists j :: 0 <= j < |items| && items[j].cohortMonth == c && items[j].orderMonth == k {
        var j :| 0 <= j < |items| && items[j].cohortMonth == c && items[j].orderMonth == k;
        assert init[j] == items[j];
      }
    }
  }

  /** Each cell holds the customers of the last item for its month. */
  lemma {:induction false} CellIsLastItem(items: seq<CohortItem>, c: Date, k: Date, j: int)
    requires LastFor(items, c, k, j)
    ensures k in CellsFor(items, c) && CellsFor(items, c)[k] == OrElse(items[j].customers, 0)
    decreases |items|
  {
    var n := |items| - 1;
    if j < n {
      var init := items[..n];
      assert LastFor(init, c, k, j) by {
        forall j' | j < j' < |init| ensures !(init[j'].cohortMonth == c && init[j'].orderMonth == k) {
          assert init[j'] == items[j'];
        }
      }
      CellIsLastItem(init, c, k, j);
    }
  }

  /** Scanning one more item touches only its own cohort. */
  lemma CellsStep(items: seq<CohortItem>, i: int)
    requires 0 <= i < |items|
    ensures forall c :: CellsFor(items[..i + 1], c) ==
              if c == items[i].cohortMonth
              then CellsFor(items[..i], c)[items[i].orderMonth := OrElse(items[i].customers, 0)]
              else CellsFor(items[..i], c)
    ensures forall c :: HasCohort(items[..i + 1], c) <==> HasCohort(items[..i], c) || c == items[i].cohortMonth
  {
    var pre, post := items[..i], items[..i + 1];
    assert post[..|post| - 1] == pre;
    assert post[|post| - 1] == items[i];
    forall c
      ensures CellsFor(post, c) ==
                if c == items[i].cohortMonth
                then CellsFor(pre, c)[items[i].orderMonth := OrElse(items[i].customers, 0)]
                else CellsFor(pre, c)
    {
    }
    CohortsStep(items, i);
  }

  lemma CohortsStep(items: seq<CohortItem>, i: int)
    requires 0 <= i < |items|
    ensures forall c :: HasCohort(items[..i + 1], c) <==> HasCohort(items[..i], c) || c == items[i].cohortMonth
  {
    forall c | HasCohort(items[..i + 1], c) && c != items[i].cohortMonth
      ensures HasCohort(items[..i], c)
    {
      var j :| 0 <= j < i + 1 && items[..i + 1][j].cohortMonth == c;
      assert items[..i][j] == items[j];
    }
    forall c | HasCohort(items[..i], c)
      ensures HasCohort(items[..i + 1], c)
    {
      var j :| 0 <= j < i && items[..i][j].cohortMonth == c;
      assert items[..i + 1][j] == items[j];
    }
    assert items[..i + 1][i] == items[i];
  }

  /** Sort key putting earlier cohorts first. */
  function Earliness(row: CohortRow): real
  {
    -(Ordinal(row.cohortKey) as real)
  }

  function MakeRows(keys: seq<Date>, acc: map<Date, map<Date, int>>): (r: seq<CohortRow>)
    requires forall c :: c in keys ==> c in acc
    ensures |r| == |keys|
  {
    seq(|keys|, j requires 0 <= j < |keys| => CohortRow(keys[j], acc[keys[j]]))
  }

  /** What the cohort table promises about the rows built from `items`. */
  ghost predicate IsMatrix(items: seq<CohortItem>, rows: seq<CohortRow>)
  {
    // one row per cohort that occurs, and no other
    (forall c :: HasCohort(items, c) <==> exists i :: 0 <= i < |rows| && rows[i].cohortKey == c)
    // in chronological order, so no cohort twice
    && (forall i, j :: 0 <= i < j < |rows| ==> Before(rows[i].cohortKey, rows[j].cohortKey))
    // each row's cells are what its items give
    && (forall i :: 0 <= i < |rows| ==> rows[i].values == CellsFor(items, rows[i].cohortKey))
  }

  /** `cohortMatrix`: group the items by cohort in a map, remembering the
      order in which cohorts first appear, then sort the cohorts by month.
      Nothing is shown while the list of months is empty. */
  method CohortMatrix(items: Option<seq<CohortItem>>, months: seq<Date>) returns (rows: seq<CohortRow>)
    requires items.Some? ==> forall i :: 0 <= i < |items.value| ==>
               Valid(items.value[i].cohortMonth) && Valid(items.value[i].orderMonth)
    ensures items.None? || months == [] ==> rows == []
    ensures items.Some? && months != [] ==> IsMatrix(items.value, rows)
  {
    if items.None? || |months| == 0 {
      return [];
    }
    var xs := items.value;
    var acc: map<Date, map<Date, int>> := map[];
    var keys: seq<Date> := [];
    for i := 0 to |xs|
      invariant forall c :: c in acc <==> c in keys
      invariant forall a, b :: 0 <= a < b < |keys| ==> keys[a] != keys[b]
      invariant forall c :: c in acc <==> HasCohort(xs[..i], c)
      invariant forall c :: CellsFor(xs[..i], c) == if c in acc then acc[c] else map[]
    {
      var item := xs[i];
      var c := item.cohortMonth;
      CellsStep(xs, i);
      var values := if c in acc then acc[c] else map[];
      if c !in acc {
        keys := keys + [c];
      }
      acc := acc[c := values[item.orderMonth := OrElse(item.customers, 0)]];
    }
    assert xs[..|xs|] == xs;
    var raw := MakeRows(keys, acc);
    rows := SortDesc(raw, Earliness);
    MatrixHolds(xs, keys, acc, raw, rows);
  }

  lemma MatrixHolds(xs: seq<CohortItem>, keys: seq<Date>, acc: map<Date, map<Date, int>>,
                    raw: seq<CohortRow>, rows: seq<CohortRow>)
    requires forall i :: 0 <= i < |xs| ==> Valid(xs[i].cohortMonth)
    requires forall c :: c in acc <==> c in keys
    requires forall a, b :: 0 <= a < b < |keys| ==> keys[a] != keys[b]
    requires forall c :: c in acc <==> HasCohort(xs, c)
    requires forall c :: CellsFor(xs, c) == if c in acc then acc[c] else map[]
    requires raw == MakeRows(keys, acc)
    requires rows == SortDesc(raw, Earliness)
    ensures IsMatrix(xs, rows)
  {
    RowsFromMap(xs, keys, acc, raw, rows);
    EveryCohortHasRow(xs, keys, acc, raw, rows);
    RowsAscending(acc, raw, rows);
  }

  /** Every sorted row is the row of one cohort seen in the scan. */
  lemma RowsFromMap(xs: seq<CohortItem>, keys: seq<Date>, acc: map<Date, map<Date, int>>,
                    raw: seq<CohortRow>, rows: seq<CohortRow>)
    requires forall i :: 0 <= i < |xs| ==> Valid(xs[i].cohortMonth)
    requires forall c :: c in acc <==> c in keys
    requires forall c :: c in acc <==> HasCohort(xs, c)
    requires raw == MakeRows(keys, acc)
    requires multiset(rows) == multiset(raw)
    ensures forall i :: 0 <= i < |rows| ==>
              rows[i].cohortKey in acc && rows[i] == CohortRow(rows[i].cohortKey, acc[rows[i].cohortKey])
    ensures forall i :: 0 <= i < |rows| ==> Valid(rows[i].cohortKey)
  {
    forall i | 0 <= i < |rows|
      ensures rows[i].cohortKey in acc && rows[i] == CohortRow(rows[i].cohortKey, acc[rows[i].cohortKey])
      ensures Valid(rows[i].cohortKey)
    {
      assert rows[i] in multiset(raw);
      assert HasCohort(xs, rows[i].cohortKey);
    }
  }

  lemma EveryCohortHasRow(xs: seq<CohortItem>, keys: seq<Date>, acc: map<Date, map<Date, int>>,
                          raw: seq<CohortRow>, rows: seq<CohortRow>)
    requires forall c :: c in acc <==> c in keys
    requires forall c :: c in acc <==> HasCohort(xs, c)
    requires raw == MakeRows(keys, acc)
    requires multiset(rows) == multiset(raw)
    ensures forall c :: HasCohort(xs, c) ==> exists i :: 0 <= i < |rows| && rows[i].cohortKey == c
  {
    forall c | HasCohort(xs, c)
      ensures exists i :: 0 <= i < |rows| && rows[i].cohortKey == c
    {
      var j :| 0 <= j < |keys| && keys[j] == c;
      assert raw[j] in multiset(rows);
    }
  }

  /** Rows sorted by month, no two for one cohort, are in strictly
      chronological order. */
  lemma RowsAscending(acc: map<Date, map<Date, int>>, raw: seq<CohortRow>, rows: seq<CohortRow>)
    requires forall a, b :: 0 <= a < b < |raw| ==> raw[a].cohortKey != raw[b].cohortKey
    requires forall i :: 0 <= i < |rows| ==>
               rows[i].cohortKey in acc && rows[i] == CohortRow(rows[i].cohortKey, acc[rows[i].cohortKey])
    requires multiset(rows) == multiset(raw)
    requires SortedDesc(rows, Earliness)
    requires forall i :: 0 <= i < |rows| ==> Valid(rows[i].cohortKey)
    ensures forall i, j :: 0 <= i < j < |rows| ==> Before(rows[i].cohortKey, rows[j].cohortKey)
  {
    forall i, j | 0 <= i < j < |rows|
      ensures Before(rows[i].cohortKey, rows[j].cohortKey)
    {
      NoRepeatsPermuted(raw, rows, i, j);
      BeforeIsChronological(rows[i].cohortKey, rows[j].cohortKey);
    }
  }

  // ------------------------------------------------------------ totals

  /** `row.values[month] ?? 0`. */
  function ValueAt(row: CohortRow, month: Date): int
  {
    if month in row.values then row.values[month] else 0
  }

  /** A month's column, summed over the rows. */
  function ColumnSum(rows: seq<CohortRow>, month: Date): int
  {
    if rows == [] then 0 else ColumnSum(rows[..|rows| - 1], month) + ValueAt(rows[|rows| - 1], month)
  }

  lemma Distribute(a: int, b: int, c: int)
    ensures a * (b + c) == a * b + a * c
  {
  }

  /** Every listed month at 0. */
  method ZeroTotals(months: seq<Date>) returns (totals: map<Date, int>)
    ensures forall m :: m in totals <==> m in months
    ensures forall m :: m in totals ==> totals[m] == 0
  {
    totals := map[];
    for j := 0 to |months|
      invariant forall m :: m in totals <==> m in months[..j]
      invariant forall m :: m in totals ==> totals[m] == 0
    {
      assert months[..j + 1] == months[..j] + [months[j]];
      totals := totals[months[j] := 0];
    }
    assert months[..|months|] == months;
  }

  /** `v` added once for every time `m` is listed. */
  function AddedFor(months: seq<Date>, m: Date, v: int): int
  {
    if months == [] then 0
    else AddedFor(months[..|months| - 1], m, v) + if months[|months| - 1] == m then v else 0
  }

  lemma {:induction false} AddedForIsCount(months: seq<Date>, m: Date, v: int)
    ensures AddedFor(months, m, v) == Count(months, m) * v
    decreases |months|
  {
    if months != [] {
      AddedForIsCount(months[..|months| - 1], m, v);
      Distribute(v, Count(months[..|months| - 1], m), 1);
    }
  }

  /** One row added into the totals: each listed month gets the row's value,
      once per time it is listed. */
  method AddRow(totals: map<Date, int>, months: seq<Date>, row: CohortRow) returns (r: map<Date, int>)
    requires forall m :: m in months ==> m in totals
    ensures r.Keys == totals.Keys
    ensures forall m :: m in r ==> r[m] == totals[m] + Count(months, m) * ValueAt(row, m)
  {
    r := totals;
    for j := 0 to |months|
      invariant r.Keys == totals.Keys
      invariant forall m :: m in r ==> r[m] == totals[m] + AddedFor(months[..j], m, ValueAt(row, m))
    {
      var m := months[j];
      assert months[..j + 1][..j] == months[..j];
      r := r[m := r[m] + ValueAt(row, m)];
    }
    assert months[..|months|] == months;
    forall m | m in r
      ensures r[m] == totals[m] + Count(months, m) * ValueAt(row, m)
    {
      AddedForIsCount(months, m, ValueAt(row, m));
    }
  }

  /** `cohortTotals`: start every listed month at 0, then add each row in.
      A month listed twice is added twice. */
  method CohortTotals(months: seq<Date>, matrix: seq<CohortRow>) returns (totals: map<Date, int>)
    ensures forall m :: m in totals <==> m in months
    ensures forall m :: m in totals ==> totals[m] == Count(months, m) * ColumnSum(matrix, m)
  {
    if |months| == 0 {
      return map[];
    }
    totals := ZeroTotals(months);
    for r := 0 to |matrix|
      invariant forall m :: m in totals <==> m in months
      invariant forall m :: m in totals ==> totals[m] == Count(months, m) * ColumnSum(matrix[..r], m)
    {
      var before := totals;
      totals := AddRow(totals, months, matrix[r]);
      assert matrix[..r + 1][..r] == matrix[..r];
      forall m | m in totals
        ensures totals[m] == Count(months, m) * ColumnSum(matrix[..r + 1], m)
      {
        Distribute(Count(months, m), ColumnSum(matrix[..r], m), ValueAt(matrix[r], m));
      }
    }
    assert matrix[..|matrix|] == matrix;
  }

  /** With each month listed once, a listed month's total is just its
      column's sum. */
  lemma {:induction false} ListedOnce(months: seq<Date>, m: Date)
    requires forall i, j :: 0 <= i < j < |months| ==> months[i] != months[j]
    requires m in months
    ensures Count(months, m) == 1
    decreases |months|
  {
    var n := |months| - 1;
    if months[n] == m {
      assert m !in months[..n];
    } else {
      assert m in months[..n] by {
        var i :| 0 <= i < |months| && months[i] == m;
        assert months[..n][i] == m;
      }
      ListedOnce(months[..n], m);
    }
  }

  // -------------------------------------------------------------- cells

  /** How one cell of the table is shown: a dash for a month before the
      cohort began, else the count and, when the cohort's own month had
      customers, the count as a share of them. */
  datatype CellView = Dash | Shown(count: int, share: Option<real>)

  function CohortCell(row: CohortRow, month: Date): (c: CellView)
    ensures c.Dash? <==> Before(month, row.cohortKey)
    ensures c.Shown? ==> c.count == ValueAt(row, month)
    ensures c.Shown? ==> (c.share.None? <==> ValueAt(row, row.cohortKey) <= 0)
    ensures c.Shown? && c.share.Some? ==>
              c.share.value * ValueAt(row, row.cohortKey) as real == c.count as real
  {
    var base := ValueAt(row, row.cohortKey);
    if Before(month, row.cohortKey) then Dash
    else Shown(ValueAt(row, month), if base > 0 then Some(ValueAt(row, month) as real / base as real) else None)
  }

  /** The cohort's own month is the whole cohort. */
  lemma OwnMonthIsWhole(row: CohortRow)
    requires ValueAt(row, row.cohortKey) > 0
    ensures CohortCell(row, row.cohortKey) == Shown(ValueAt(row, row.cohortKey), Some(1.0))
  {
    var base := ValueAt(row, row.cohortKey) as real;
    assert base / base == 1.0;
  }
}
