/** Payload shape detection and series normalisation for the orders chart
    (`normalizeSeries` and `detectValueFormatter` in src/App.jsx). */
module Series {
  import opened Common
  import opened Calendar

  /** A scalar field of a series entry. A key missing from an entry's map is
      JavaScript's `undefined`; calendar-day strings are taken as already
      parsed into a `Date`. */
  datatype Field = Null | Num(n: int) | Day(date: Date)

  predicate Truthy(f: Field)
  {
    match f
    case Null => false
    case Num(n) => n != 0
    case Day(_) => true
  }

  /** `Number(f)` for the fields the model carries; a calendar day, which
      JavaScript would turn into NaN, reads as 0. */
  function NumberOf(f: Field): int
  {
    match f
    case Num(n) => n
    case _ => 0
  }

  /** One element of a series array: a `[date, value]` pair or a record. */
  datatype Entry =
    | Tuple(first: Field, second: Field)
    | Record(fields: map<string, Field>)

  /** The parts of a JSON payload the detector looks at: arrays hold series
      entries, objects map keys to further values. */
  datatype Json =
    | JsonNull
    | JsonText(text: string)
    | JsonArray(items: seq<Entry>)
    | JsonObject(members: map<string, Json>)

  predicate JsonTruthy(j: Json)
  {
    match j
    case JsonNull => false
    case JsonText(s) => s != ""
    case _ => true
  }

  /** A normalised chart point; `date` is whatever field was picked as the
      date, so a point can carry a number there. */
  datatype Point = Point(date: Field, value: real)

  const DateKeys: seq<string> := ["date", "day", "week", "month", "period", "createdAt"]
  const ValueKeys: seq<string> := ["revenue", "amount", "total", "value", "sales", "orders", "count"]
  const MoneyKeys: seq<string> := ["revenue", "amount", "total", "sales"]

  /** The candidate places of the series in a payload, in priority order. */
  const CandidatePaths: seq<seq<string>> :=
    [["daily"], ["dailySales"], ["salesDaily"], ["ordersByDay"], ["byDay"],
     ["series"], ["data"], ["orders", "daily"], ["orders", "byDay"]]

  predicate TruthyAt(fields: map<string, Field>, k: string)
  {
    k in fields && Truthy(fields[k])
  }

  predicate PresentAt(fields: map<string, Field>, k: string)
  {
    k in fields && !fields[k].Null?
  }

  /** `f[k0] || f[k1] || ...`: the first truthy field, or a falsy one. */
  function FirstTruthy(fields: map<string, Field>, keys: seq<string>): Field
  {
    if keys == [] then Null
    else if TruthyAt(fields, keys[0]) then fields[keys[0]]
    else FirstTruthy(fields, keys[1..])
  }

  /** `FirstTruthy` is truthy exactly when some key holds a truthy field,
      and then it is the field under the first such key. */
  lemma {:induction false} FirstTruthyIsFirst(fields: map<string, Field>, keys: seq<string>)
    ensures Truthy(FirstTruthy(fields, keys)) <==> exists i :: 0 <= i < |keys| && TruthyAt(fields, keys[i])
    ensures forall i :: 0 <= i < |keys| && TruthyAt(fields, keys[i])
                        && (forall j :: 0 <= j < i ==> !TruthyAt(fields, keys[j]))
                        ==> FirstTruthy(fields, keys) == fields[keys[i]]
  {
    if keys != [] {
      FirstTruthyIsFirst(fields, keys[1..]);
      assert forall i :: 1 <= i < |keys| ==> keys[i] == keys[1..][i - 1];
      if !TruthyAt(fields, keys[0]) {
        forall i | 0 <= i < |keys| && TruthyAt(fields, keys[i])
                   && (forall j :: 0 <= j < i ==> !TruthyAt(fields, keys[j]))
          ensures FirstTruthy(fields, keys) == fields[keys[i]]
        {
          assert i > 0;
          assert forall j :: 0 <= j < i - 1 ==> keys[1..][j] == keys[j + 1];
        }
      }
    }
  }

  /** `f[k0] ?? f[k1] ?? ...`: the first field that is neither null nor
      missing. */
  function FirstPresent(fields: map<string, Field>, keys: seq<string>): Option<Field>
  {
    if keys == [] then None
    else if PresentAt(fields, keys[0]) then Some(fields[keys[0]])
    else FirstPresent(fields, keys[1..])
  }

  /** `FirstPresent` is missing exactly when no key is present, and is
      otherwise the field under the first present key. */
  lemma {:induction false} FirstPresentIsFirst(fields: map<string, Field>, keys: seq<string>)
    ensures FirstPresent(fields, keys).None? <==> forall i :: 0 <= i < |keys| ==> !PresentAt(fields, keys[i])
    ensures forall i :: 0 <= i < |keys| && PresentAt(fields, keys[i])
                        && (forall j :: 0 <= j < i ==> !PresentAt(fields, keys[j]))
                        ==> FirstPresent(fields, keys) == Some(fields[keys[i]])
  {
    if keys != [] {
      FirstPresentIsFirst(fields, keys[1..]);
      assert forall i :: 1 <= i < |keys| ==> keys[i] == keys[1..][i - 1];
      if !PresentAt(fields, keys[0]) {
        forall i | 0 <= i < |keys| && PresentAt(fields, keys[i])
                   && (forall j :: 0 <= j < i ==> !PresentAt(fields, keys[j]))
          ensures FirstPresent(fields, keys) == Some(fields[keys[i]])
        {
          assert i > 0;
          assert forall j :: 0 <= j < i - 1 ==> keys[1..][j] == keys[j + 1];
        }
      }
    }
  }

  /** Some money key is defined on the record (a `null` counts). */
  predicate HasMoneyKey(fields: map<string, Field>)
  {
    exists k :: k in MoneyKeys && k in fields
  }

  /** The point one entry maps to, before entries without a date are dropped. */
  function EntryPoint(e: Entry): Point
  {
    match e
    case Tuple(d, v) => Point(d, NumberOf(v) as real)
    case Record(f) =>
      var v := NumberOf(OrElse(FirstPresent(f, ValueKeys), Num(0))) as real;
      Point(FirstTruthy(f, DateKeys), if HasMoneyKey(f) then v / 100.0 else v)
  }

  /** The entries the date filter keeps. */
  predicate KeepsEntry(e: Entry)
  {
    Truthy(EntryPoint(e).date)
  }

  /** Map every entry to its point and keep those with a truthy date. */
  function NormalizeEntries(entries: seq<Entry>): (r: seq<Point>)
    ensures |r| <= |entries|
    ensures forall p :: p in r ==> Truthy(p.date)
  {
    if entries == [] then []
    else
      (if KeepsEntry(entries[0]) then [EntryPoint(entries[0])] else []) + NormalizeEntries(entries[1..])
  }

  /** `payload.a?.b`: the value at a key path, `None` when undefined. */
  function Lookup(j: Json, path: seq<string>): Option<Json>
  {
    if path == [] then Some(j)
    else match j
      case JsonObject(m) => if path[0] in m then Lookup(m[path[0]], path[1..]) else None
      case _ => None
  }

  predicate IsArrayAt(j: Json, path: seq<string>)
  {
    Lookup(j, path).Some? && Lookup(j, path).value.JsonArray?
  }

  /** `candidates.find(Array.isArray)`: the first path holding an array. */
  function FindSeries(j: Json, paths: seq<seq<string>>): Option<seq<Entry>>
  {
    if paths == [] then None
    else if IsArrayAt(j, paths[0]) then Some(Lookup(j, paths[0]).value.items)
    else FindSeries(j, paths[1..])
  }

  /** No series is found exactly when no path holds an array; otherwise the
      series is the array under the first path that holds one. */
  lemma {:induction false} FindSeriesIsFirst(j: Json, paths: seq<seq<string>>)
    ensures FindSeries(j, paths).None? <==> forall i :: 0 <= i < |paths| ==> !IsArrayAt(j, paths[i])
    ensures forall i :: 0 <= i < |paths| && IsArrayAt(j, paths[i])
                        && (forall k :: 0 <= k < i ==> !IsArrayAt(j, paths[k]))
                        ==> FindSeries(j, paths) == Some(Lookup(j, paths[i]).value.items)
  {
    if paths != [] {
      FindSeriesIsFirst(j, paths[1..]);
      assert forall i :: 1 <= i < |paths| ==> paths[i] == paths[1..][i - 1];
      if !IsArrayAt(j, paths[0]) {
        forall i | 0 <= i < |paths| && IsArrayAt(j, paths[i])
                   && (forall k :: 0 <= k < i ==> !IsArrayAt(j, paths[k]))
          ensures FindSeries(j, paths) == Some(Lookup(j, paths[i]).value.items)
        {
          assert i > 0;
          assert forall k :: 0 <= k < i - 1 ==> paths[1..][k] == paths[k + 1];
        }
      }
    }
  }

  /** `normalizeSeries(payload)`. */
  function NormalizeSeries(payload: Json): seq<Point>
  {
    if !JsonTruthy(payload) then []
    else match FindSeries(payload, CandidatePaths)
      case None => []
      case Some(items) => NormalizeEntries(items)
  }

  /** An absent payload, or one with no array at any candidate path, gives
      no points; otherwise the points come from the array at the first
      candidate path that holds one. */
  lemma NormalizeSeriesSource(payload: Json)
    ensures !JsonTruthy(payload) ==> NormalizeSeries(payload) == []
    ensures (forall i :: 0 <= i < |CandidatePaths| ==> !IsArrayAt(payload, CandidatePaths[i]))
            ==> NormalizeSeries(payload) == []
    ensures forall i :: 0 <= i < |CandidatePaths| && JsonTruthy(payload) && IsArrayAt(payload, CandidatePaths[i])
                        && (forall k :: 0 <= k < i ==> !IsArrayAt(payload, CandidatePaths[k]))
                        ==> NormalizeSeries(payload)
                            == NormalizeEntries(Lookup(payload, CandidatePaths[i]).value.items)
  {
    FindSeriesIsFirst(payload, CandidatePaths);
  }

  // ---- Properties of the normaliser ------------------------------------

  /** Normalisation maps entries one at a time: it distributes over
      concatenation. */
  lemma {:induction false} NormalizeAppend(a: seq<Entry>, b: seq<Entry>)
    ensures NormalizeEntries(a + b) == NormalizeEntries(a) + NormalizeEntries(b)
  {
    if a == [] {
      assert a + b == b;
    } else {
      assert (a + b)[1..] == a[1..] + b;
      NormalizeAppend(a[1..], b);
    }
  }

  /** Positions of the entries that survive the date filter, in order. */
  function Kept(entries: seq<Entry>, from: nat): seq<nat>
  {
    if entries == [] then []
    else (if KeepsEntry(entries[0]) then [from] else []) + Kept(entries[1..], from + 1)
  }

  /** `Kept` lists, strictly increasing, exactly the kept positions, one
      per output point. */
  lemma {:induction false} KeptPositions(entries: seq<Entry>, from: nat)
    ensures |Kept(entries, from)| == |NormalizeEntries(entries)|
    ensures forall j :: 0 <= j < |Kept(entries, from)| ==> from <= Kept(entries, from)[j] < from + |entries|
    ensures forall j, k :: 0 <= j < k < |Kept(entries, from)| ==> Kept(entries, from)[j] < Kept(entries, from)[k]
    ensures forall i :: 0 <= i < |entries| ==> (KeepsEntry(entries[i]) <==> from + i in Kept(entries, from))
  {
    if entries != [] {
      var tail := entries[1..];
      KeptPositions(tail, from + 1);
      forall i | 1 <= i < |entries|
        ensures KeepsEntry(entries[i]) <==> from + i in Kept(entries, from)
      {
        assert entries[i] == tail[i - 1];
      }
    }
  }

  /** Output point `j` is the point of the entry at position `Kept[j]`. */
  ghost predicate PointsAtKept(entries: seq<Entry>, from: nat)
  {
    var r, idx := NormalizeEntries(entries), Kept(entries, from);
    |idx| == |r|
    && forall j :: 0 <= j < |idx| ==>
         from <= idx[j] < from + |entries| && r[j] == EntryPoint(entries[idx[j] - from])
  }

  /** Order preservation: output point `j` is the point of the entry at
      position `Kept[j]`; with `KeptPositions`, the output is the
      subsequence of entry points at the positions whose date is truthy. */
  lemma {:induction false} NormalizeKeepsOrder(entries: seq<Entry>, from: nat)
    ensures PointsAtKept(entries, from)
  {
    if entries != [] {
      NormalizeKeepsOrder(entries[1..], from + 1);
      if KeepsEntry(entries[0]) {
        KeptStep(entries, from);
      } else {
        DroppedStep(entries, from);
      }
    }
  }

  lemma KeptStep(entries: seq<Entry>, from: nat)
    requires entries != [] && KeepsEntry(entries[0])
    requires PointsAtKept(entries[1..], from + 1)
    ensures PointsAtKept(entries, from)
  {
    var tail := entries[1..];
    var r, r' := NormalizeEntries(entries), NormalizeEntries(tail);
    var idx, idx' := Kept(entries, from), Kept(tail, from + 1);
    assert r == [EntryPoint(entries[0])] + r';
    assert idx == [from] + idx';
    forall j | 1 <= j < |idx|
      ensures from <= idx[j] < from + |entries|
      ensures r[j] == EntryPoint(entries[idx[j] - from])
    {
      assert r[j] == r'[j - 1] && idx[j] == idx'[j - 1];
      assert entries[idx[j] - from] == tail[idx'[j - 1] - (from + 1)];
    }
  }

  lemma DroppedStep(entries: seq<Entry>, from: nat)
    requires entries != [] && !KeepsEntry(entries[0])
    requires PointsAtKept(entries[1..], from + 1)
    ensures PointsAtKept(entries, from)
  {
    var tail := entries[1..];
    var r, r' := NormalizeEntries(entries), NormalizeEntries(tail);
    var idx, idx' := Kept(entries, from), Kept(tail, from + 1);
    assert r == [] + r';
    assert idx == [] + idx';
    forall j | 0 <= j < |idx|
      ensures from <= idx[j] < from + |entries|
      ensures r[j] == EntryPoint(entries[idx[j] - from])
    {
      assert r[j] == r'[j] && idx[j] == idx'[j];
      assert entries[idx[j] - from] == tail[idx'[j] - (from + 1)];
    }
  }

  /** A `[date, value]` pair keeps its value as it is: no division by 100. */
  lemma TupleIsNotScaled(d: Field, v: int)
    requires Truthy(d)
    ensures NormalizeEntries([Tuple(d, Num(v))]) == [Point(d, v as real)]
  {
  }

  /** A record's value: the field under the first value key that is
      neither null nor missing, divided by 100 exactly when a money key is
      defined; 0 when no value key is present. */
  lemma RecordValue(f: map<string, Field>, i: int)
    requires 0 <= i < |ValueKeys| && PresentAt(f, ValueKeys[i])
    requires forall j :: 0 <= j < i ==> !PresentAt(f, ValueKeys[j])
    ensures var v := NumberOf(f[ValueKeys[i]]) as real;
      EntryPoint(Record(f)).value == if HasMoneyKey(f) then v / 100.0 else v
  {
    FirstPresentIsFirst(f, ValueKeys);
  }

  lemma RecordWithoutValue(f: map<string, Field>)
    requires forall i :: 0 <= i < |ValueKeys| ==> !PresentAt(f, ValueKeys[i])
    ensures EntryPoint(Record(f)).value == 0.0
  {
    FirstPresentIsFirst(f, ValueKeys);
  }

  /** The quirk kept from the source: `value` is read before `sales`, but the
      presence of `sales` still divides it by 100. */
  lemma ValueBeforeSalesQuirk(d: Date, v: int, s: int)
    ensures EntryPoint(Record(map["date" := Day(d), "value" := Num(v), "sales" := Num(s)]))
            == Point(Day(d), v as real / 100.0)
  {
    var f := map["date" := Day(d), "value" := Num(v), "sales" := Num(s)];
    assert HasMoneyKey(f) by { assert "sales" in MoneyKeys && "sales" in f; }
    assert ValueKeys[3] == "value";
    RecordValue(f, 3);
    assert FirstTruthy(f, DateKeys) == Day(d) by {
      assert DateKeys[0] == "date" && TruthyAt(f, "date");
      FirstTruthyIsFirst(f, DateKeys);
    }
  }

  // ---- Value meta ---------------------------------------------------------

  datatype ValueFormat = Currency | Count
  datatype ValueMeta = ValueMeta(labelText: string, format: ValueFormat)

  /** `x?.[0]` is undefined or falsy: `x` is missing, falsy, an empty
      array, or an object without a truthy `"0"` member. */
  predicate NoSample(x: Option<Json>)
  {
    match x
    case None => true
    case Some(JsonNull) => true
    case Some(JsonText(s)) => s == ""
    case Some(JsonArray(items)) => items == []
    case Some(JsonObject(m)) => "0" !in m || !JsonTruthy(m["0"])
  }

  /** `x?.[0]` followed by the test whether its keys include a money key:
      `None` when the first element is undefined or falsy. */
  function SampleHasMoney(x: Option<Json>): (r: Option<bool>)
    ensures r.None? <==> NoSample(x)
    ensures x.Some? && x.value.JsonArray? && x.value.items != [] ==>
              r == Some(x.value.items[0].Record? && exists k :: k in MoneyKeys && k in x.value.items[0].fields)
  {
    match x
    case None => None
    case Some(JsonNull) => None
    case Some(JsonText(s)) => if s == "" then None else Some(false)
    case Some(JsonArray(items)) =>
      if items == [] then None
      else Some(match items[0] case Tuple(_, _) => false case Record(f) => HasMoneyKey(f))
    case Some(JsonObject(m)) =>
      if "0" !in m then None
      else match m["0"]
        case JsonNull => None
        case JsonText(s) => if s == "" then None else Some(false)
        case JsonArray(_) => Some(false)
        case JsonObject(m0) => Some(exists k :: k in MoneyKeys && k in m0)
  }

  /** `payload?.daily?.[0] || payload?.data?.[0] || payload?.series?.[0] || {}`
      has a money key. */
  function LooksLikeMoney(payload: Json): bool
  {
    match SampleHasMoney(Lookup(payload, ["daily"]))
    case Some(b) => b
    case None =>
      match SampleHasMoney(Lookup(payload, ["data"]))
      case Some(b) => b
      case None => OrElse(SampleHasMoney(Lookup(payload, ["series"])), false)
  }

  /** The keys whose first element is sampled, in the order `||` tries them. */
  const Sampled: seq<string> := ["daily", "data", "series"]

  /** The first sampled array with a first element decides: the payload
      looks like money exactly when that element is a record defining a
      money key. Earlier keys are skipped when their first element is
      undefined or falsy, whatever later keys hold. */
  lemma FirstSampleDecides(payload: Json, i: int, e: Entry, rest: seq<Entry>)
    requires 0 <= i < |Sampled|
    requires forall j :: 0 <= j < i ==> NoSample(Lookup(payload, [Sampled[j]]))
    requires Lookup(payload, [Sampled[i]]) == Some(JsonArray([e] + rest))
    ensures LooksLikeMoney(payload) <==> e.Record? && exists k :: k in MoneyKeys && k in e.fields
  {
    assert ([e] + rest)[0] == e;
    if i > 0 { assert NoSample(Lookup(payload, [Sampled[0]])); }
    if i > 1 { assert NoSample(Lookup(payload, [Sampled[1]])); }
  }

  /** A sampled key whose first element is undefined or falsy is as good as
      absent: removing it from the payload does not change the outcome. */
  lemma NoSampleIsSkipped(m: map<string, Json>, key: string)
    requires key in Sampled
    requires NoSample(Lookup(JsonObject(m), [key]))
    ensures LooksLikeMoney(JsonObject(m)) == LooksLikeMoney(JsonObject(m - {key}))
  {
    var m' := m - {key};
    forall other | other in Sampled && other != key
      ensures Lookup(JsonObject(m'), [other]) == Lookup(JsonObject(m), [other])
    {
      assert other in m' <==> other in m;
    }
    assert Lookup(JsonObject(m'), [key]) == None;
  }

  /** With no first element under `daily`, `data` or `series` (in
      particular when all three are absent) the fallback `{}` has no keys,
      so the payload does not look like money. */
  lemma NoSampleIsNotMoney(payload: Json)
    requires forall j :: 0 <= j < |Sampled| ==> NoSample(Lookup(payload, [Sampled[j]]))
    ensures !LooksLikeMoney(payload)
  {
    assert NoSample(Lookup(payload, [Sampled[0]]));
    assert NoSample(Lookup(payload, [Sampled[1]]));
    assert NoSample(Lookup(payload, [Sampled[2]]));
  }

  /** `payload?.groupBy || "day"`. */
  function GroupByOf(payload: Json): string
  {
    match Lookup(payload, ["groupBy"])
    case Some(JsonText(s)) => if s == "" then "day" else s
    case _ => "day"
  }

  function PeriodWord(groupBy: string): (w: string)
    ensures w in {"diaria", "semanal", "mensal"}
    ensures w == "semanal" <==> groupBy == "week"
    ensures w == "mensal" <==> groupBy == "month"
  {
    if groupBy == "week" then "semanal" else if groupBy == "month" then "mensal" else "diaria"
  }

  const DefaultMeta := ValueMeta("Vendas diarias", Currency)

  /** `detectValueFormatter(payload)`. */
  function DetectValueFormatter(payload: Json): (r: ValueMeta)
  {
    if NormalizeSeries(payload) == [] then DefaultMeta
    else MetaFor(LooksLikeMoney(payload), GroupByOf(payload))
  }

  /** The meta of a non-empty series: revenue or orders, per period. */
  function MetaFor(money: bool, groupBy: string): ValueMeta
  {
    ValueMeta((if money then "Receita " else "Pedidos ") + PeriodWord(groupBy),
              if money then Currency else Count)
  }

  const SixLabels: set<string> :=
    {"Receita diaria", "Receita semanal", "Receita mensal",
     "Pedidos diaria", "Pedidos semanal", "Pedidos mensal"}

  /** The label's first word says whether the formatter is the currency
      one; its second word follows `groupBy`. */
  lemma MetaForWords(money: bool, groupBy: string)
    ensures var r := MetaFor(money, groupBy);
      && (r.format == Currency <==> money)
      && (r.format == Currency <==> r.labelText[..7] == "Receita")
      && r.labelText[8..] == PeriodWord(groupBy)
      && r.labelText[0] != DefaultMeta.labelText[0]
  {
    var r := MetaFor(money, groupBy);
    var head := if money then "Receita " else "Pedidos ";
    assert r.labelText == head + PeriodWord(groupBy);
    assert r.labelText[..7] == head[..7];
    assert r.labelText[0] == head[0];
    assert "Pedidos "[..7] != "Receita" by { assert "Pedidos "[0] != "Receita"[0]; }
  }

  /** There are six labels. */
  lemma MetaForSixLabels(money: bool, groupBy: string)
    ensures MetaFor(money, groupBy).labelText in SixLabels
  {
    var w := PeriodWord(groupBy);
    if money {
      assert "Receita " + "diaria" == "Receita diaria";
      assert "Receita " + "semanal" == "Receita semanal";
      assert "Receita " + "mensal" == "Receita mensal";
    } else {
      assert "Pedidos " + "diaria" == "Pedidos diaria";
      assert "Pedidos " + "semanal" == "Pedidos semanal";
      assert "Pedidos " + "mensal" == "Pedidos mensal";
    }
  }

  /** With a non-empty series the label is one of the six, Currency exactly
      when the sample item looks like money; with an empty one it is the
      default. */
  lemma DetectValueFormatterCases(payload: Json)
    ensures var r := DetectValueFormatter(payload);
      && (r == DefaultMeta <==> NormalizeSeries(payload) == [])
      && (NormalizeSeries(payload) != [] ==>
            && r.labelText in SixLabels
            && (r.format == Currency <==> LooksLikeMoney(payload))
            && (r.format == Currency <==> r.labelText[..7] == "Receita")
            && r.labelText[8..] == PeriodWord(GroupByOf(payload)))
  {
    MetaForWords(LooksLikeMoney(payload), GroupByOf(payload));
    MetaForSixLabels(LooksLikeMoney(payload), GroupByOf(payload));
  }

  // ---- Finding: the sample is not taken from the series ------------------

  /** A revenue series under `dailySales` is normalised as money, its
      cents divided by 100, but the sample is read from `daily`, `data`
      and `series` only, so the detector labels and formats it as an
      order count. */
  lemma DailySalesCountedAsOrders(d: Date)
    ensures var p := JsonObject(map["dailySales" := JsonArray([Record(map["date" := Day(d), "revenue" := Num(1000)])])]);
      && NormalizeSeries(p) == [Point(Day(d), 10.0)]
      && DetectValueFormatter(p) == ValueMeta("Pedidos diaria", Count)
  {
    var p := JsonObject(map["dailySales" := JsonArray([Record(map["date" := Day(d), "revenue" := Num(1000)])])]);
    RevenueRecordIsScaled(d);
    DailySalesFound(p, [Record(map["date" := Day(d), "revenue" := Num(1000)])]);
    NoSampleIsNotMoney(p);
    assert "Pedidos " + "diaria" == "Pedidos diaria";
  }

  lemma RevenueRecordIsScaled(d: Date)
    ensures NormalizeEntries([Record(map["date" := Day(d), "revenue" := Num(1000)])]) == [Point(Day(d), 10.0)]
  {
    var f := map["date" := Day(d), "revenue" := Num(1000)];
    assert HasMoneyKey(f) by { assert "revenue" in MoneyKeys && "revenue" in f; }
    assert ValueKeys[0] == "revenue";
    RecordValue(f, 0);
    assert FirstTruthy(f, DateKeys) == Day(d) by {
      assert DateKeys[0] == "date" && TruthyAt(f, "date");
      FirstTruthyIsFirst(f, DateKeys);
    }
  }

  lemma DailySalesFound(p: Json, items: seq<Entry>)
    requires p == JsonObject(map["dailySales" := JsonArray(items)])
    ensures FindSeries(p, CandidatePaths) == Some(items)
  {
    assert !IsArrayAt(p, CandidatePaths[0]) && IsArrayAt(p, CandidatePaths[1]);
    FindSeriesIsFirst(p, CandidatePaths);
  }

  /** The evident intent: sample the first element of the array the series
      was read from, the same array whose records are divided by 100. */
  function LooksLikeMoneyIntended(payload: Json): bool
  {
    match FindSeries(payload, CandidatePaths)
    case Some(items) => items != [] && items[0].Record? && HasMoneyKey(items[0].fields)
    case None => false
  }

  function DetectValueFormatterIntended(payload: Json): ValueMeta
  {
    if NormalizeSeries(payload) == [] then DefaultMeta
    else MetaFor(LooksLikeMoneyIntended(payload), GroupByOf(payload))
  }

  /** With the intended sample, the format agrees with the scaling: when
      the series' first element is kept as the first point, that point's
      value was divided by 100 exactly when the format is the currency
      one. */
  lemma IntendedFormatMatchesScaling(payload: Json, e: Entry, rest: seq<Entry>)
    requires JsonTruthy(payload)
    requires FindSeries(payload, CandidatePaths) == Some([e] + rest)
    requires KeepsEntry(e)
    ensures NormalizeSeries(payload) != []
    ensures var r := DetectValueFormatterIntended(payload);
      match e
      case Tuple(d, v) => r.format == Count && NormalizeSeries(payload)[0] == Point(d, NumberOf(v) as real)
      case Record(f) =>
        var v := NumberOf(OrElse(FirstPresent(f, ValueKeys), Num(0))) as real;
        NormalizeSeries(payload)[0] == Point(FirstTruthy(f, DateKeys), if r.format == Currency then v / 100.0 else v)
  {
    assert ([e] + rest)[0] == e && ([e] + rest)[1..] == rest;
    assert NormalizeSeries(payload)[0] == EntryPoint(e);
    MetaForWords(LooksLikeMoneyIntended(payload), GroupByOf(payload));
  }

  /** Where the first sampled key holds the series itself, the intended
      detector agrees with the code as written. */
  lemma IntendedAgreesOnDaily(payload: Json, items: seq<Entry>)
    requires Lookup(payload, ["daily"]) == Some(JsonArray(items))
    ensures DetectValueFormatterIntended(payload) == DetectValueFormatter(payload)
  {
    assert IsArrayAt(payload, CandidatePaths[0]);
    if items != [] {
      assert [items[0]] + items[1..] == items && Sampled[0] == "daily";
      FirstSampleDecides(payload, 0, items[0], items[1..]);
    }
  }

  /** The `dailySales` payload above is labelled and formatted as revenue
      by the intended detector. */
  lemma DailySalesIntended(d: Date)
    ensures var p := JsonObject(map["dailySales" := JsonArray([Record(map["date" := Day(d), "revenue" := Num(1000)])])]);
      DetectValueFormatterIntended(p) == ValueMeta("Receita diaria", Currency)
  {
    var f := map["date" := Day(d), "revenue" := Num(1000)];
    var p := JsonObject(map["dailySales" := JsonArray([Record(f)])]);
    DailySalesCountedAsOrders(d);
    DailySalesFound(p, [Record(f)]);
    assert HasMoneyKey(f) by { assert "revenue" in MoneyKeys && "revenue" in f; }
    assert "Receita " + "diaria" == "Receita diaria";
  }
}
