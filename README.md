# Sales dashboard analytics, modelled and proved in Dafny

This project models the data layer of a store's sales dashboard, a React
single-page app. It covers the pure and imperative transformations that turn
the reporting API's payloads into the numbers the charts and tables show:

- **Series** (`series.dfy`): `normalizeSeries` finds the series array in an
  orders payload. It tries a fixed list of keys in order, turns `[date, value]`
  pairs and records into `{date, value}` points, divides money values (cents)
  by 100, and drops entries without a date. `detectValueFormatter` picks the
  chart label and format.
- **Calendar gap filling** (`gapfill.dfy`, with the proleptic Gregorian
  calendar in `calendar.dfy`): `fillMissingDates` gives one point per day, per
  Monday-start week or per month of the requested range. It reuses the point
  whose date is the key and zero-fills the rest.
- **Traffic sources and coupons** (`grouping.dfy`, with the sort and share
  rule in `ordering.dfy`): `utmGroups` groups UTM items by source. A missing,
  empty or "(none)" source becomes "Direto". Each group sums orders and cents
  and keeps one line per item, sorted by revenue. `couponGroups` builds one row
  per coupon item. Both sort largest revenue first, and each row gets
  `revenue / total`, or 0 when the total is 0.
- **Per-row reports** (`reducers.dfy`):
  - `mapProducts` computes the average price.
  - `retentionRows` computes the retention rate, which is absent when there
    were no previous customers.
  - `newVsReturningRows` and `newVsReturningAverage` compute the mean shares of
    new and returning orders over the months that had orders.
- **Cohorts** (`cohort.dfy`): `cohortMatrix` builds one row per cohort month,
  in chronological order; a later item replaces an earlier one for the same
  cell. `cohortTotals` gives the column totals. The cell rule shows "-" for a
  month before the cohort, otherwise the count and its share of the cohort's
  own month.
- **CSV export** (`csv.dfy`): `toCsv` writes a header line of labels, then
  one line per row of quoted cells with inner quotes doubled, as in RFC 4180
  section 2. A reader for that layout proves that the export loses no cell.

Money arrives as integer cents and is modelled as `int`. Currency units are
`real` (`cents / 100`). Calendar days are `Calendar.Date(year, month, day)`,
counted by `Calendar.Ordinal` (days since 0001-01-01, a Monday).

The imperative parts are Dafny methods with loops. Each method's loop
invariants tie its accumulators to a reference function over the input
prefix:

- `Grouping.GroupUtm`: the reduce into a per-source map plus the order in
  which sources first appear.
- `Cohort.CohortMatrix`: the `forEach` into a map of cohorts.
- `Cohort.CohortTotals`, `Cohort.ZeroTotals` and `Cohort.AddRow`: the nested
  `forEach` loops.
- `Reducers.NewVsReturningAverage`: the reduce into share sums.

Everything else is functions and lemmas.

## Model

| member | source | states |
|---|---|---|
| Series.FindSeriesIsFirst | src/App.jsx:33-45 | the series is the array under the first candidate key, in the fixed order daily, dailySales, salesDaily, ordersByDay, byDay, series, data, orders.daily, orders.byDay; none exactly when no candidate holds an array |
| Series.NormalizeSeriesSource | src/App.jsx:30-45 | an absent payload, or one with no array at any candidate, gives no points; otherwise the points are those of the first array found |
| Series.NormalizeEntries | src/App.jsx:47-68 | the output is no longer than the input, and every output point has a truthy date |
| Series.KeptPositions | src/App.jsx:47-68 | the kept positions are strictly increasing and within the input, one per output point, and a position is kept exactly when its entry's date is truthy |
| Series.NormalizeKeepsOrder | src/App.jsx:47-68 | output point j is the point of the entry at the j-th kept position, so order is preserved |
| Series.NormalizeAppend | src/App.jsx:47-68 | normalising a concatenation is concatenating the normalisations, since each entry is mapped on its own |
| Series.FirstTruthyIsFirst | src/App.jsx:52 | a record's date is the field under the first date key whose value is truthy, or undefined when there is none |
| Series.FirstPresentIsFirst | src/App.jsx:55-63 | the value is the field under the first value key that is neither null nor undefined |
| Series.TupleIsNotScaled | src/App.jsx:49-51 | a `[date, value]` pair keeps its value undivided |
| Series.RecordValue | src/App.jsx:53-65 | a record's value is its first present value field, divided by 100 exactly when some money key is defined |
| Series.RecordWithoutValue | src/App.jsx:55-63 | a record with no value key gets value 0 |
| Series.ValueBeforeSalesQuirk | src/App.jsx:53-65 | `{value: v, sales: s}` yields v / 100: `value` is read before `sales`, but `sales` still marks the record as money |
| Series.PeriodWord | src/App.jsx:84-85 | the period word is semanal exactly for "week", mensal exactly for "month", and diaria otherwise |
| Series.MetaForWords | src/App.jsx:84-90 | the label starts with "Receita" exactly when the format is currency, exactly when the sample looks like money; its second word follows `groupBy` |
| Series.MetaForSixLabels | src/App.jsx:87-90 | a non-default label is one of the six combinations |
| Series.DetectValueFormatterCases | src/App.jsx:71-91 | the default "Vendas diarias"/currency meta is returned exactly when the normalised series is empty; otherwise the label and format follow the sample's money keys and `groupBy` |
| Series.SampleHasMoney | src/App.jsx:77-81 | the sample test gives no answer exactly when `x?.[0]` is undefined or falsy; for an array with a first element it is true exactly when that element is a record defining a money key |
| Series.FirstSampleDecides | src/App.jsx:77-81 | the first of `daily`, `data`, `series` whose array has a first element decides, skipping earlier keys whose first element is undefined or falsy: money exactly when that element is a record defining `revenue`, `amount`, `total` or `sales`, whatever later keys hold |
| Series.NoSampleIsSkipped | src/App.jsx:77 | a sampled key whose first element is undefined or falsy can be removed from the payload without changing the outcome |
| Series.NoSampleIsNotMoney | src/App.jsx:77-81 | with no first element under `daily`, `data` or `series` (all three absent included) the fallback `{}` has no money key |
| Series.DailySalesCountedAsOrders | src/App.jsx:33-90 | a `dailySales` revenue series is divided by 100 as money yet labelled "Pedidos diaria" with the count format |
| Series.IntendedFormatMatchesScaling | src/App.jsx:44-90 | sampling the array the series was read from, the first point's value is divided by 100 exactly when the format is currency, and a `[date, value]` pair gives the count format unscaled |
| Series.IntendedAgreesOnDaily | src/App.jsx:33-77 | when `daily` holds an array the intended and the as-written detectors agree |
| Series.DailySalesIntended | src/App.jsx:33-90 | the intended detector labels the `dailySales` revenue series "Receita diaria" with the currency format |
| Calendar.StartOfWeek | src/App.jsx:101-105 | the week start is a Monday at most six days before the day |
| Calendar.StartOfMonth | src/App.jsx:106-110 | the month start is the first of the same month |
| Calendar.BeforeIsChronological | src/App.jsx:1317 | comparing days field by field (year, then month, then day) agrees with their order in time; equal ordinals mean equal days |
| GapFill.GranularityOf | src/App.jsx:100-116 | "week" and "month" choose weeks and months; anything else fills by day |
| GapFill.DaysFrom | src/App.jsx:111-115 | the day keys are consecutive days from start, as many as the range holds |
| GapFill.WeeksFrom | src/App.jsx:101-105 | week keys are seven days apart, none when the start is after the end, the last within a week of the end |
| GapFill.MonthsFrom | src/App.jsx:106-110 | month keys are the firsts of consecutive months, one per month of the range, strictly increasing |
| GapFill.FillMissingDates | src/App.jsx:93-126 | an empty series gives an empty result; a missing start or end returns the series unchanged; a day that does not exist or a start after the end throws in date-fns, and the catch returns the series unchanged |
| GapFill.DataMapKeys | src/App.jsx:118 | the lookup map holds a date exactly when some point has it |
| GapFill.DataMapIsLastPoint | src/App.jsx:118 | for a repeated date, the map holds the last point with it |
| GapFill.FillFromPoint | src/App.jsx:120-122 | each filled entry has its key as date, and is the last input point with that date, or the zero point when there is none |
| GapFill.FillByDay | src/App.jsx:111-122 | filling by day gives exactly one entry per calendar day from start to end, ascending, covering every day of the range |
| GapFill.WeekPeriodsAreMondays | src/App.jsx:101-105 | every week key is a Monday, seven days after the previous one, starting from the week of start |
| GapFill.WeekPeriodsEnds | src/App.jsx:101-105 | the week keys start at the week of start and end at the week of end |
| GapFill.FillByWeek | src/App.jsx:101-105 | filling by week gives Mondays seven days apart, from the week of start to the week of end |
| GapFill.FillByMonth | src/App.jsx:106-110 | filling by month gives one first-of-month per month from start's to end's, ascending |
| GapFill.DailyExample | src/App.jsx:30-126 | a payload with 1000 and 500 cents on 2024-01-01 and 2024-01-03, filled by day, gives 10, 0, 5 |
| Ordering.SortDesc | src/App.jsx:273-275 | the sort result is non-increasing by revenue and a permutation of its input |
| Ordering.SharesSum | src/App.jsx:276-280 | with a non-zero total the shares add up to 1; with a zero total every share is 0 |
| Ordering.SharesBounded | src/App.jsx:276-280 | with no negative revenue every share lies in [0, 1] |
| Grouping.GroupUtm | src/App.jsx:246-281 | absent items give no groups; otherwise there is one group per source that occurs and no other, no source twice, orders and revenue/100 summed over the source's items, the lines a permutation of the source's items' lines sorted by revenue, groups sorted by revenue, and the share rule |
| Grouping.TotalsForNonEmpty | src/App.jsx:253-264 | a source has lines exactly when some item falls in it |
| Grouping.LinesPerSource | src/App.jsx:258-264 | a source has exactly one line per item that falls in it |
| Grouping.SourceKeyRule | src/App.jsx:250-252 | for every item: an absent or empty source, or "(none)" with any of its letters capitalised, is direct traffic ("Direto"); any other source is the group's key unchanged |
| Grouping.NoneMarkerIsDirect | src/App.jsx:250-252 | examples: "(NONE)" is direct traffic, and "google" keeps its name |
| Grouping.ScanAsWrittenAgrees | src/App.jsx:249-266 | the reduce as written, on a plain `{}` accumulator, throws exactly when some source names a member inherited from `Object.prototype`; otherwise it builds the same per-source totals as the model's scan |
| Grouping.ConstructorSourceThrows | src/App.jsx:253-258 | as written, a single item whose source is "constructor" makes the reduce throw |
| Grouping.ConstructorIsAGroup | src/App.jsx:246-281 | on that same item, the model's table has a "constructor" group with its 1 order and 9.90 revenue |
| Grouping.UtmSharesSum | src/App.jsx:276-280 | the UTM shares add up to 1 when there is revenue, and are all 0 when there is none |
| Grouping.CouponGroups | src/App.jsx:283-298 | absent items give no rows; otherwise one row per item |
| Grouping.CouponTable | src/App.jsx:286-297 | coupon rows are the items' rows reordered, sorted by revenue, each with its share |
| Grouping.CouponSharesSum | src/App.jsx:293-297 | coupon shares add up to 1 when there is revenue |
| Grouping.CouponCode | src/App.jsx:288 | the code is "(sem cupom)" exactly when the code is absent, empty or already that text |
| Reducers.ProductOf | src/App.jsx:316-326 | revenue is cents/100; avgPrice × quantity = revenue when both are non-zero, else avgPrice is 0; quantity is the item's, 0 when absent; the product and SKU names are the item's when present and non-empty, else "Produto sem nome" and "-"; the id is the SKU id, else the product id |
| Reducers.MapProducts | src/App.jsx:314-327 | absent items give no rows; otherwise one row per item, in order |
| Reducers.RetentionRowOf | src/App.jsx:339-347 | for a period start that is a real day: the row is labelled with the year and month of that day; the customer, previous and retained counts are the item's, absent ones read as 0; the rate is absent exactly when the previous count is not positive, and otherwise rate × previous = retained |
| Reducers.RetentionRows | src/App.jsx:336-350 | absent items give no rows; otherwise one row per item, in order |
| Reducers.RetentionRateBounded | src/App.jsx:347 | when no more customers are retained than there were, the rate lies in [0, 1] |
| Reducers.LocalMonthOfUtcMidnight | src/App.jsx:343 | east of UTC the label is the day's month; west of UTC it is the day's month exactly when the day is not the 1st |
| Reducers.FirstOfMonthWestOfUtc | src/App.jsx:343 | 2024-03-01 is labelled 2024-02 at UTC-3, while the model's rows keep 2024-03 |
| Reducers.NvrRowOf | src/App.jsx:409-414 | the new and returning counts are the item's, absent ones read as 0, and the total is their sum; the period start is kept |
| Reducers.NvrRows | src/App.jsx:406-415 | absent items give no rows; otherwise row i is the row of item i, so every row adds up |
| Reducers.ShareSumsComplement | src/App.jsx:419-430 | over the months with orders, the sums of new and of returning shares add up to the number of such months |
| Reducers.NewShareSumBounded | src/App.jsx:419-430 | with no negative counts the sum of new shares lies between 0 and the number of months counted |
| Reducers.NewVsReturningAverage | src/App.jsx:416-439 | both shares are absent exactly when no month has orders; otherwise each is the mean of its per-month shares over the months with orders, and the two add up to 1 |
| Cohort.CellsForKeys | src/App.jsx:381-387 | a cohort has a cell for a month exactly when some item gives one |
| Cohort.CellIsLastItem | src/App.jsx:387 | each cell holds the customers of the last item for that cohort and month, 0 when absent |
| Cohort.CohortMatrix | src/App.jsx:377-392 | no rows without items or without months; otherwise one row per cohort that occurs and no other, in strictly chronological order, each holding exactly its items' cells |
| Cohort.ZeroTotals | src/App.jsx:395-398 | every listed month starts at 0, and no other key exists |
| Cohort.AddRow | src/App.jsx:399-403 | adding a row gives each listed month the row's value once per time it is listed |
| Cohort.CohortTotals | src/App.jsx:393-405 | the totals hold exactly the listed months, each the column sum over the rows times the number of times it is listed |
| Cohort.ListedOnce | src/App.jsx:396-402 | with no month listed twice, each total is just its column's sum |
| Cohort.CohortCell | src/App.jsx:1309-1322 | a dash exactly for months before the cohort; otherwise the count, with a share that is absent exactly when the cohort's own month is not positive and otherwise satisfies share × base = count |
| Cohort.OwnMonthIsWhole | src/App.jsx:1309-1318 | the cohort's own month, when positive, shows a share of 1 |
| Csv.Escape | src/lib/format.js:28 | escaping never shortens a cell, and leaves a cell without quotes unchanged |
| Csv.ReadQuotedEscaped | src/lib/format.js:28-30 | stripping the outer quotes and undoubling the inner ones recovers the cell's text |
| Csv.NoRowsIsHeaderLine | src/lib/format.js:34 | with no rows the export is the header line and a single newline |
| Csv.SplitJoin | src/lib/format.js:21 | a header of labels without commas splits back into the labels |
| Csv.ReadLines | src/lib/format.js:22-33 | the body reads back as the table of cells, row by row |
| Csv.CsvRoundTrip | src/lib/format.js:20-35 | when no label holds a comma or newline, reading the export back gives the labels and every row's cells, absent values as empty text |

## Left out

- I/O and the UI are not modelled:
  - JSX rendering and React hooks;
  - the react-query hooks and `fetch` wrappers in `src/lib/hooks.js` and `src/lib/api.js`;
  - `downloadCsv`, which touches the DOM and Blob;
  - `formatCurrency`, `formatNumber` and `formatPercent`, which use `Intl` and float formatting.
- Date strings are taken as parsed calendar days. `parseISO`, `format(..., "yyyy-MM-dd")`, `toISOString().slice(0, 10)` and time zones are not modelled, except for the finding below. A series point matches a gap-fill key when its date is that day.
- Week and month keys are computed as Monday-start weeks and first-of-month days of the proleptic Gregorian calendar. date-fns itself is not modelled.
- The date-fns version the app builds against is not part of this model. The model follows date-fns 2: a start after the end, or a day that does not exist, throws, and the `catch` returns the series unchanged.
- `Series.NumberOf`: `Number(...)` coercion is not modelled. A calendar day in a value field reads as 0, where JavaScript gives NaN. Numeric strings and other text values are not modelled in series fields.
- Floating point is not modelled. Shares, averages and currency units are exact reals, so IEEE rounding and NaN (for example `totalOrders || 0` on NaN) are left out.
- Grouping.GroupUtm: when two groups have equal revenue, their order is not stated, and neither is the order of two child lines of equal revenue inside a group, which are sorted the same way. The model lists sources in first-appearance order before its stable sort. JavaScript's `Object.values` puts integer-like keys first, which is not modelled.
- Ordering.SortDesc: the sort is stable by construction, but stability is not proved; only order and permutation are.
- UTM sources and coupon codes are modelled as text only. Lower-casing is ASCII-only, which is enough to recognise "(none)".
- Reducers.RetentionRowOf and Reducers.RetentionRows require each period start to be a real day. In the source, `format` throws on a missing or invalid `periodStart`, and the model does not represent that error.
- Series entries are pairs or records. A `null` element of the series array, where `entry.date` throws, is not modelled.
- `monthLabel` is not modelled. New-versus-returning rows keep the raw `periodStart`.
- Cohort.CohortMatrix requires every cohort month and every order month to be a real day: in the source, `new Date(...).toISOString()` throws on a missing or invalid date, and the model does not represent that error. Ordering cohort keys with `localeCompare`, and testing a cell with `month < row.cohortKey`, are modelled as `Calendar.Before`. These agree for `yyyy-MM-dd` text with four-digit years.
- Cohort.CohortTotals returns an empty map when no months are listed. The source returns an empty array there; both have no totals to read.
- CSV values are modelled as text already. `String(raw)` on numbers is not modelled.
- The model follows the code's behaviour:
  - the retention rate is absent for any previous count ≤ 0, not only for 0;
  - cohort cells before the cohort month are kept in the matrix, and only rendered as "-";
  - the direct-traffic label is "Direto".

## Findings

| source | as written | input that shows it | evidently intended | confidence | as-written member | corrected member |
|---|---|---|---|---|---|---|
| src/App.jsx:249-258 | the accumulator is a plain `{}`, so `acc[source]` also finds members inherited from `Object.prototype`: for such a source no group is created, and `acc[source].children.push` reads `undefined` and throws a TypeError | one UTM item with `utmSource` "constructor" (also "toString", "valueOf", "__proto__", …) | every source becomes its own group, as with a prototype-free object or a `Map` | high, not executed | Grouping.ScanAsWritten (with Grouping.ScanAsWrittenAgrees and Grouping.ConstructorSourceThrows) | Grouping.GroupUtm (with Grouping.ConstructorIsAGroup) |
| src/App.jsx:77-81 | the sample item is read from `daily`, `data` and `series` only, while the series itself may come from `dailySales`, `salesDaily`, `ordersByDay`, `byDay`, `orders.daily` or `orders.byDay` (src/App.jsx:33-45); the series' records are divided by 100 as money, but the label and format say orders | `{dailySales: [{date: "2024-03-01", revenue: 1000}]}` gives the point 10 and the meta "Pedidos diaria" with the number format | the sample is the first element of the array the series was read from, so a money series is labelled and formatted as revenue | high, not executed | Series.DailySalesCountedAsOrders | Series.DetectValueFormatterIntended (with Series.IntendedFormatMatchesScaling, Series.IntendedAgreesOnDaily and Series.DailySalesIntended) |
| src/App.jsx:343 | `format(new Date(item.periodStart), "yyyy-MM")` reads a date-only `periodStart` as UTC midnight, then renders it in local time | `periodStart` "2024-03-01" on a UTC-3 clock (Brasília) is labelled "2024-02" | the month of `periodStart` itself, as `monthLabel` (src/App.jsx:352-370) gets with `getUTCMonth` | medium, not executed | Reducers.LocalMonthOfUtcMidnight (with Reducers.FirstOfMonthWestOfUtc) | Reducers.RetentionRowOf |
