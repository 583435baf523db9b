/** The per-row tables of the dashboard: top products, monthly retention,
    and new versus returning orders with their average shares. */
module Reducers {
  import opened Common
  import opened Calendar

  // --------------------------------------------------------------- products

  /** One item of a top-products report; every field may be absent. */
  datatype ProductItem = ProductItem(
    skuId: Option<string>,
    productId: Option<string>,
    productName: Option<string>,
    skuName: Option<string>,
    quantity: Option<int>,
    revenue: Option<int>)

  /** A product row: revenue and average price in currency units. */
  datatype Product = Product(id: Option<string>, productName: string, skuName: string,
                             quantity: int, revenue: real, avgPrice: real)

  /** The row of one item. The average price is only computed when both the
      quantity and the revenue are present and non-zero. */
  function ProductOf(item: ProductItem): (p: Product)
    ensures p.revenue * 100.0 == OrElse(item.revenue, 0) as real
    ensures p.quantity != 0 && p.revenue != 0.0 ==> p.avgPrice * p.quantity as real == p.revenue
    ensures p.quantity == 0 || p.revenue == 0.0 ==> p.avgPrice == 0.0
    ensures p.quantity == OrElse(item.quantity, 0)
    ensures item.productName.Some? && item.productName.value != "" ==> p.productName == item.productName.value
    ensures (item.productName.None? || item.productName.value == "") ==> p.productName == "Produto sem nome"
    ensures item.skuName.Some? && item.skuName.value != "" ==> p.skuName == item.skuName.value
    ensures (item.skuName.None? || item.skuName.value == "") ==> p.skuName == "-"
    ensures item.skuId.Some? && item.skuId.value != "" ==> p.id == item.skuId
    ensures (item.skuId.None? || item.skuId.value == "") ==> p.id == item.productId
  {
    var quantity := OrElse(item.quantity, 0);
    var cents := OrElse(item.revenue, 0);
    Product(
      if item.skuId.Some? && item.skuId.value != "" then item.skuId else item.productId,
      TextOr(item.productName, "Produto sem nome"),
      TextOr(item.skuName, "-"),
      quantity,
      cents as real / 100.0,
      if quantity != 0 && cents != 0 then (cents as real / quantity as real) / 100.0 else 0.0)
  }

  /** `mapProducts`: one row per item, in the report's order. */
  function MapProducts(items: Option<seq<ProductItem>>): (r: seq<Product>)
    ensures items.None? ==> r == []
    ensures items.Some? ==> |r| == |items.value|
                            && forall i :: 0 <= i < |r| ==> r[i] == ProductOf(items.value[i])
  {
    if items.None? then []
    else seq(|items.value|, i requires 0 <= i < |items.value| => ProductOf(items.value[i]))
  }

  // -------------------------------------------------------------- retention

  /** One month of the retention report. */
  datatype RetentionItem = RetentionItem(
    periodStart: Date,
    customers: Option<int>,
    previousCustomers: Option<int>,
    retainedCustomers: Option<int>)

  /** The `yyyy-MM` month a row is labelled with. */
  datatype YearMonth = YearMonth(year: int, month: int)

  datatype RetentionRow = RetentionRow(period: YearMonth, customers: int, previousCustomers: int,
                                       retainedCustomers: int, retentionRate: Option<real>)

  /** The row of one month: the rate is the retained fraction of the
      previous month's customers, and has no value when there were none. */
  function RetentionRowOf(item: RetentionItem): (row: RetentionRow)
    requires Valid(item.periodStart)
    ensures row.period == YearMonth(item.periodStart.year, item.periodStart.month)
    ensures row.retentionRate.None? <==> row.previousCustomers <= 0
    ensures row.retentionRate.Some? ==>
              row.retentionRate.value * row.previousCustomers as real == row.retainedCustomers as real
    ensures row.customers == OrElse(item.customers, 0)
    ensures row.previousCustomers == OrElse(item.previousCustomers, 0)
    ensures row.retainedCustomers == OrElse(item.retainedCustomers, 0)
  {
    var previous := OrElse(item.previousCustomers, 0);
    var retained := OrElse(item.retainedCustomers, 0);
    RetentionRow(
      YearMonth(item.periodStart.year, item.periodStart.month),
      OrElse(item.customers, 0),
      previous,
      retained,
      if previous > 0 then Some(retained as real / previous as real) else None)
  }

  /** `retentionRows`: one row per month, in the report's order. */
  function RetentionRows(items: Option<seq<RetentionItem>>): (r: seq<RetentionRow>)
    requires items.Some? ==> forall i :: 0 <= i < |items.value| ==> Valid(items.value[i].periodStart)
    ensures items.None? ==> r == []
    ensures items.Some? ==> |r| == |items.value|
                            && forall i :: 0 <= i < |r| ==> r[i] == RetentionRowOf(items.value[i])
  {
    if items.None? then []
    else seq(|items.value|, i requires 0 <= i < |items.value| => RetentionRowOf(items.value[i]))
  }

  /** The month `format(new Date(periodStart), "yyyy-MM")` shows on a
      clock `offsetMinutes` away from UTC (-180 in Brasilia): the day is
      read as UTC midnight and rendered in local time, which west of UTC is
      the evening of the day before. */
  function LocalMonthOfUtcMidnight(d: Date, offsetMinutes: int): (r: YearMonth)
    requires Valid(d) && -1440 < offsetMinutes < 1440
    ensures offsetMinutes >= 0 ==> r == YearMonth(d.year, d.month)
    ensures offsetMinutes < 0 ==> (r == YearMonth(d.year, d.month) <==> d.day > 1)
  {
    var local := if offsetMinutes < 0 then Prev(d) else d;
    YearMonth(local.year, local.month)
  }

  /** West of UTC the first day of a month is shown as the month before,
      while the rows of the model keep the day's own month. */
  lemma FirstOfMonthWestOfUtc()
    ensures LocalMonthOfUtcMidnight(Date(2024, 3, 1), -180) == YearMonth(2024, 2)
    ensures RetentionRowOf(RetentionItem(Date(2024, 3, 1), None, None, None)).period == YearMonth(2024, 3)
  {
    assert Prev(Date(2024, 3, 1)) == Date(2024, 2, 29);
  }

  /** A rate is a fraction in [0, 1] when no more customers are retained
      than there were. */
  lemma RetentionRateBounded(item: RetentionItem)
    requires Valid(item.periodStart)
    requires 0 <= OrElse(item.retainedCustomers, 0) <= OrElse(item.previousCustomers, 0)
    ensures var row := RetentionRowOf(item);
      row.retentionRate.Some? ==> 0.0 <= row.retentionRate.value <= 1.0
  {
  }

  // ----------------------------------------------------- new vs returning

  /** One month of the new-versus-returning report. */
  datatype NvrItem = NvrItem(periodStart: Option<Date>, newOrders: Option<int>, returningOrders: Option<int>)

  datatype NvrRow = NvrRow(periodStart: Option<Date>, newOrders: int, returningOrders: int, totalOrders: int)

  /** The mean share of new and of returning orders over the months that had
      orders; absent when there is no such month. */
  datatype Average = Average(newShare: Option<real>, returningShare: Option<real>)

  function NvrRowOf(item: NvrItem): (row: NvrRow)
    ensures row.totalOrders == row.newOrders + row.returningOrders
    ensures row.newOrders == OrElse(item.newOrders, 0) && row.returningOrders == OrElse(item.returningOrders, 0)
    ensures row.periodStart == item.periodStart
  {
    var n := OrElse(item.newOrders, 0);
    var ret := OrElse(item.returningOrders, 0);
    NvrRow(item.periodStart, n, ret, n + ret)
  }

  /** `newVsReturningRows`: one row per month, in the report's order. */
  function NvrRows(items: Option<seq<NvrItem>>): (r: seq<NvrRow>)
    ensures items.None? ==> r == []
    ensures items.Some? ==> |r| == |items.value| && RowsAddUp(r)
                            && forall i :: 0 <= i < |r| ==> r[i] == NvrRowOf(items.value[i])
  {
    if items.None? then []
    else seq(|items.value|, i requires 0 <= i < |items.value| => NvrRowOf(items.value[i]))
  }

  /** Every row's total is its new plus its returning orders. */
  ghost predicate RowsAddUp(rows: seq<NvrRow>)
  {
    forall i :: 0 <= i < |rows| ==> rows[i].totalOrders == rows[i].newOrders + rows[i].returningOrders
  }

  /** Number of months with orders. */
  function Counted(rows: seq<NvrRow>): nat
  {
    if rows == [] then 0
    else Counted(rows[..|rows| - 1]) + (if rows[|rows| - 1].totalOrders > 0 then 1 else 0)
  }

  /** Sum over the months with orders of the share of new orders. */
  function NewShareSum(rows: seq<NvrRow>): real
  {
    if rows == [] then 0.0
    else
      var row := rows[|rows| - 1];
      NewShareSum(rows[..|rows| - 1])
        + (if row.totalOrders > 0 then row.newOrders as real / row.totalOrders as real else 0.0)
  }

  /** Sum over the months with orders of the share of returning orders. */
  function ReturningShareSum(rows: seq<NvrRow>): real
  {
    if rows == [] then 0.0
    else
      var row := rows[|rows| - 1];
      ReturningShareSum(rows[..|rows| - 1])
        + (if row.totalOrders > 0 then row.returningOrders as real / row.totalOrders as real else 0.0)
  }

  /** In each month with orders the two shares make a whole, so the sums of
      shares add up to the number of such months. */
  lemma {:induction false} ShareSumsComplement(rows: seq<NvrRow>)
    requires RowsAddUp(rows)
    ensures NewShareSum(rows) + ReturningShareSum(rows) == Counted(rows) as real
    decreases |rows|
  {
    if rows != [] {
      var n := |rows| - 1;
      assert RowsAddUp(rows[..n]);
      ShareSumsComplement(rows[..n]);
      var row := rows[n];
      if row.totalOrders > 0 {
        var t := row.totalOrders as real;
        assert row.newOrders as real / t + row.returningOrders as real / t
               == (row.newOrders + row.returningOrders) as real / t;
      }
    }
  }

  /** With no negative counts each month's share of new orders is at most 1,
      so the sum is at most the number of months counted. */
  lemma {:induction false} NewShareSumBounded(rows: seq<NvrRow>)
    requires RowsAddUp(rows)
    requires forall i :: 0 <= i < |rows| ==> rows[i].newOrders >= 0 && rows[i].returningOrders >= 0
    ensures 0.0 <= NewShareSum(rows) <= Counted(rows) as real
    decreases |rows|
  {
    if rows != [] {
      var n := |rows| - 1;
      assert RowsAddUp(rows[..n]);
      NewShareSumBounded(rows[..n]);
      var row := rows[n];
      if row.totalOrders > 0 {
        assert row.newOrders as real <= row.totalOrders as real;
        assert row.newOrders as real / row.totalOrders as real <= 1.0;
      }
    }
  }

  /** `newVsReturningAverage`: one pass over the rows summing each counted
      month's shares, then the means. */
  method NewVsReturningAverage(rows: seq<NvrRow>) returns (avg: Average)
    ensures avg.newShare.None? <==> Counted(rows) == 0
    ensures avg.returningShare.None? <==> Counted(rows) == 0
    ensures avg.newShare.Some? ==> avg.newShare.value == NewShareSum(rows) / Counted(rows) as real
    ensures avg.returningShare.Some? ==>
              avg.returningShare.value == ReturningShareSum(rows) / Counted(rows) as real
    ensures RowsAddUp(rows) && avg.newShare.Some? ==> avg.newShare.value + avg.returningShare.value == 1.0
  {
    if |rows| == 0 {
      return Average(None, None);
    }
    var newSum := 0.0;
    var returningSum := 0.0;
    var count := 0;
    for i := 0 to |rows|
      invariant newSum == NewShareSum(rows[..i])
      invariant returningSum == ReturningShareSum(rows[..i])
      invariant count == Counted(rows[..i])
    {
      assert rows[..i + 1][..i] == rows[..i];
      assert rows[..i + 1][i] == rows[i];
      var total := rows[i].totalOrders;
      if total > 0 {
        newSum := newSum + rows[i].newOrders as real / total as real;
        returningSum := returningSum + rows[i].returningOrders as real / total as real;
        count := count + 1;
      }
    }
    assert rows[..|rows|] == rows;
    if count == 0 {
      return Average(None, None);
    }
    avg := Average(Some(newSum / count as real), Some(returningSum / count as real));
    if RowsAddUp(rows) {
      ShareSumsComplement(rows);
      MeansComplement(newSum, returningSum, count as real);
    }
  }

  lemma MeansComplement(a: real, b: real, c: real)
    requires c != 0.0 && a + b == c
    ensures a / c + b / c == 1.0
  {
    assert a / c + b / c == (a + b) / c;
  }
}
