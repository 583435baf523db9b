/** The traffic-source table (`utmGroups`) and the coupon table
    (`couponGroups`) of the dashboard: rows keyed by UTM source or coupon
    code, revenue turned from cents into currency units, sorted by revenue
    (largest first), each with its share of the total revenue. */
module Grouping {
  import opened Common
  import opened Ordering

  /** One item of the UTM report; every field may be absent. */
  datatype UtmItem = UtmItem(
    utmSource: Option<string>,
    utmMedium: Option<string>,
    utmCampaign: Option<string>,
    orders: Option<int>,
    revenue: Option<int>)

  /** A medium/campaign line inside a source group. */
  datatype Child = Child(source: string, medium: string, campaign: string, orders: int, revenue: real)

  /** A source group as the table shows it. */
  datatype UtmGroup = UtmGroup(source: string, orders: int, revenue: real, children: seq<Child>, share: real)

  /** The running totals of one source while the items are scanned. */
  datatype Totals = Totals(orders: int, cents: int, children: seq<Child>)

  /** ASCII lower-casing of one character. */
  function LowerChar(c: char): char
  {
    if 'A' <= c <= 'Z' then (c as int + 32) as char else c
  }

  function Lower(s: string): string
  {
    seq(|s|, i requires 0 <= i < |s| => LowerChar(s[i]))
  }

  const Direct := "Direto"

  /** The group an item falls in: its source, or "Direto" when the source is
      absent, empty or any spelling of "(none)". */
  function SourceKey(item: UtmItem): string
  {
    var raw := item.utmSource;
    if raw.None? || raw.value == "" || Lower(raw.value) == "(none)" then Direct else raw.value
  }

  /** `t` is "(none)" with any of its letters upper-cased. */
  ghost predicate NoneMarker(t: string)
  {
    |t| == 6 && forall i :: 0 <= i < 6 ==> CaseVariant("(none)"[i], t[i])
  }

  /** `c` is the lower-case `l` or, when `l` is a letter, its capital. */
  predicate CaseVariant(l: char, c: char)
  {
    c == l || ('a' <= l <= 'z' && c == (l as int - 32) as char)
  }

  lemma LowerIsNoneMarker(t: string)
    ensures Lower(t) == "(none)" <==> NoneMarker(t)
  {
    if |t| == 6 {
      forall i | 0 <= i < 6
        ensures LowerChar(t[i]) == "(none)"[i] <==> CaseVariant("(none)"[i], t[i])
      {
      }
      if NoneMarker(t) {
        assert forall i :: 0 <= i < 6 ==> Lower(t)[i] == "(none)"[i];
      }
      if Lower(t) == "(none)" {
        assert forall i :: 0 <= i < 6 ==> LowerChar(t[i]) == Lower(t)[i];
      }
    }
  }

  /** Every source: an absent or empty one, or "(none)" in any letter case,
      is direct traffic; any other source is its own group under its own
      text. */
  lemma SourceKeyRule(item: UtmItem)
    ensures var s := item.utmSource;
      SourceKey(item) == if s.None? || s.value == "" || NoneMarker(s.value) then Direct else s.value
  {
    if item.utmSource.Some? {
      LowerIsNoneMarker(item.utmSource.value);
    }
  }

  /** The line an item adds to its group. */
  function ChildOf(item: UtmItem): Child
  {
    Child(SourceKey(item), TextOr(item.utmMedium, "-"), TextOr(item.utmCampaign, "-"),
          OrElse(item.orders, 0), OrElse(item.revenue, 0) as real / 100.0)
  }

  function ChildRevenue(c: Child): real { c.revenue }

  function GroupRevenue(g: UtmGroup): real { g.revenue }

  /** What the items contribute to source `k`, in item order: the reference
      the accumulating loop is proved against. */
  ghost function TotalsFor(items: seq<UtmItem>, k: string): Totals
  {
    if items == [] then Totals(0, 0, [])
    else
      var t := TotalsFor(items[..|items| - 1], k);
      var item := items[|items| - 1];
      if SourceKey(item) == k then
        Totals(t.orders + OrElse(item.orders, 0), t.cents + OrElse(item.revenue, 0), t.children + [ChildOf(item)])
      else t
  }

  ghost predicate HasSource(items: seq<UtmItem>, k: string)
  {
    exists j :: 0 <= j < |items| && SourceKey(items[j]) == k
  }

  /** A source has a line for every item that falls in it, so it has lines
      exactly when some item falls in it. */
  lemma {:induction false} TotalsForNonEmpty(items: seq<UtmItem>, k: string)
    ensures TotalsFor(items, k).children != [] <==> HasSource(items, k)
    decreases |items|
  {
    if items != [] {
      var n := |items| - 1;
      TotalsForNonEmpty(items[..n], k);
      if HasSource(items[..n], k) {
        var j :| 0 <= j < n && SourceKey(items[..n][j]) == k;
        assert SourceKey(items[j]) == k;
      }
      if HasSource(items, k) && SourceKey(items[n]) != k {
        var j :| 0 <= j < |items| && SourceKey(items[j]) == k;
        assert SourceKey(items[..n][j]) == k;
      }
    }
  }

  /** The group a source's totals become: cents to currency units, lines
      sorted by revenue. The share is filled in once all groups are known. */
  function Finish(k: string, t: Totals): UtmGroup
  {
    UtmGroup(k, t.orders, t.cents as real / 100.0, SortDesc(t.children, ChildRevenue), 0.0)
  }

  /** The groups of the sources in `keys`, in that order. */
  function FinishAll(keys: seq<string>, acc: map<string, Totals>): (r: seq<UtmGroup>)
    requires forall k :: k in keys ==> k in acc
    ensures |r| == |keys|
  {
    seq(|keys|, j requires 0 <= j < |keys| => Finish(keys[j], acc[keys[j]]))
  }

  /** Every group with its share of the revenue of all groups. */
  function WithGroupShares(gs: seq<UtmGroup>): (r: seq<UtmGroup>)
    ensures |r| == |gs|
  {
    var shares := Shares(Revenues(gs, GroupRevenue));
    seq(|gs|, i requires 0 <= i < |gs| => gs[i].(share := shares[i]))
  }

  /** One group per source that occurs among the items, and no other. */
  ghost predicate SameSources(items: seq<UtmItem>, groups: seq<UtmGroup>)
  {
    forall k :: HasSource(items, k) <==> exists i :: 0 <= i < |groups| && groups[i].source == k
  }

  ghost predicate DistinctSources(groups: seq<UtmGroup>)
  {
    forall i, j :: 0 <= i < j < |groups| ==> groups[i].source != groups[j].source
  }

  /** Each group holds exactly what its items add up to, lines sorted. */
  ghost predicate GroupsAddUp(items: seq<UtmItem>, groups: seq<UtmGroup>)
  {
    forall i :: 0 <= i < |groups| ==> GroupAddsUp(items, groups[i])
  }

  ghost predicate GroupAddsUp(items: seq<UtmItem>, g: UtmGroup)
  {
    var t := TotalsFor(items, g.source);
    g.orders == t.orders
    && g.revenue == t.cents as real / 100.0
    && multiset(g.children) == multiset(t.children)
    && SortedDesc(g.children, ChildRevenue)
  }

  /** What the table promises about the groups built from `items`. */
  ghost predicate IsUtmTable(items: seq<UtmItem>, groups: seq<UtmGroup>)
  {
    SameSources(items, groups)
    && DistinctSources(groups)
    && GroupsAddUp(items, groups)
    && SortedDesc(groups, GroupRevenue)
    && (forall i :: 0 <= i < |groups| ==> groups[i].share == Shares(Revenues(groups, GroupRevenue))[i])
  }

  /** The `utmGroups` reduction: scan the items once, collecting per-source
      totals and lines in a map and the order in which sources first appear;
      then finish, sort and share the groups. */
  method GroupUtm(items: Option<seq<UtmItem>>) returns (groups: seq<UtmGroup>)
    ensures items.None? ==> groups == []
    ensures items.Some? ==> IsUtmTable(items.value, groups)
  {
    if items.None? {
      return [];
    }
    var xs := items.value;
    var acc: map<string, Totals> := map[];
    var keys: seq<string> := [];
    for i := 0 to |xs|
      invariant ScanInv(xs, i, keys, acc)
    {
      var item := xs[i];
      var k := SourceKey(item);
      var t := if k in acc then acc[k] else Totals(0, 0, []);
      var t' := Totals(t.orders + OrElse(item.orders, 0), t.cents + OrElse(item.revenue, 0), t.children + [ChildOf(item)]);
      var keys' := if k in acc then keys else keys + [k];
      ScanStep(xs, i, keys, acc, t', keys');
      keys, acc := keys', acc[k := t'];
    }
    ScanDone(xs, keys, acc);
    var raw := FinishAll(keys, acc);
    var sorted := SortDesc(raw, GroupRevenue);
    groups := WithGroupShares(sorted);
    UtmTableHolds(xs, keys, acc, raw, sorted, groups);
  }

  /** Scanning one more item changes only its own source's totals. */
  lemma TotalsForStep(xs: seq<UtmItem>, i: int, t: Totals, t': Totals)
    requires 0 <= i < |xs|
    requires t == TotalsFor(xs[..i], SourceKey(xs[i]))
    requires t' == Totals(t.orders + OrElse(xs[i].orders, 0), t.cents + OrElse(xs[i].revenue, 0), t.children + [ChildOf(xs[i])])
    ensures forall k :: TotalsFor(xs[..i + 1], k) == if k == SourceKey(xs[i]) then t' else TotalsFor(xs[..i], k)
  {
    assert xs[..i + 1][..i] == xs[..i];
  }

  /** What the scan has built after the first `i` items: a map holding the
      totals of every source seen so far, and those sources once each in
      the order they first appeared. */
  ghost predicate ScanInv(xs: seq<UtmItem>, i: int, keys: seq<string>, acc: map<string, Totals>)
    requires 0 <= i <= |xs|
  {
    && (forall k :: k in acc <==> k in keys)
    && (forall a, b :: 0 <= a < b < |keys| ==> keys[a] != keys[b])
    && (forall k :: k in acc ==> acc[k].children != [])
    && (forall k :: TotalsFor(xs[..i], k) == if k in acc then acc[k] else Totals(0, 0, []))
  }

  /** One more item keeps the scan's invariant. */
  lemma ScanStep(xs: seq<UtmItem>, i: int, keys: seq<string>, acc: map<string, Totals>, t': Totals, keys': seq<string>)
    requires 0 <= i < |xs| && ScanInv(xs, i, keys, acc)
    requires var k := SourceKey(xs[i]);
      var t := if k in acc then acc[k] else Totals(0, 0, []);
      && t' == Totals(t.orders + OrElse(xs[i].orders, 0), t.cents + OrElse(xs[i].revenue, 0), t.children + [ChildOf(xs[i])])
      && keys' == if k in acc then keys else keys + [k]
    ensures ScanInv(xs, i + 1, keys', acc[SourceKey(xs[i]) := t'])
  {
    var k := SourceKey(xs[i]);
    var t := if k in acc then acc[k] else Totals(0, 0, []);
    TotalsForStep(xs, i, t, t');
  }

  /** The facts the scan leaves behind, for the finishing steps. */
  ghost predicate Scanned(xs: seq<UtmItem>, keys: seq<string>, acc: map<string, Totals>)
  {
    (forall k :: k in acc <==> k in keys)
    && (forall a, b :: 0 <= a < b < |keys| ==> keys[a] != keys[b])
    && (forall k :: k in acc <==> HasSource(xs, k))
    && (forall k :: k in acc ==> acc[k] == TotalsFor(xs, k))
  }

  lemma ScanDone(xs: seq<UtmItem>, keys: seq<string>, acc: map<string, Totals>)
    requires ScanInv(xs, |xs|, keys, acc)
    ensures Scanned(xs, keys, acc)
  {
    assert xs[..|xs|] == xs;
    forall k ensures k in acc <==> HasSource(xs, k) {
      TotalsForNonEmpty(xs, k);
    }
  }

  lemma SortedGroupsAddUp(xs: seq<UtmItem>, keys: seq<string>, acc: map<string, Totals>,
                          raw: seq<UtmGroup>, sorted: seq<UtmGroup>)
    requires Scanned(xs, keys, acc)
    requires raw == FinishAll(keys, acc)
    requires multiset(sorted) == multiset(raw)
    ensures GroupsAddUp(xs, sorted)
    ensures forall i :: 0 <= i < |sorted| ==>
              sorted[i].source in acc && sorted[i] == Finish(sorted[i].source, acc[sorted[i].source])
  {
    forall i | 0 <= i < |sorted|
      ensures GroupAddsUp(xs, sorted[i])
      ensures sorted[i].source in acc && sorted[i] == Finish(sorted[i].source, acc[sorted[i].source])
    {
      assert sorted[i] in multiset(raw);
    }
  }

  lemma EverySourceSorted(xs: seq<UtmItem>, keys: seq<string>, acc: map<string, Totals>,
                          raw: seq<UtmGroup>, sorted: seq<UtmGroup>)
    requires Scanned(xs, keys, acc)
    requires raw == FinishAll(keys, acc)
    requires multiset(sorted) == multiset(raw)
    ensures forall k :: HasSource(xs, k) ==> exists i :: 0 <= i < |sorted| && sorted[i].source == k
  {
    forall k | HasSource(xs, k)
      ensures exists i :: 0 <= i < |sorted| && sorted[i].source == k
    {
      var j :| 0 <= j < |keys| && keys[j] == k;
      assert raw[j] in multiset(sorted);
      var i :| 0 <= i < |sorted| && sorted[i] == raw[j];
    }
  }

  lemma UtmTableHolds(xs: seq<UtmItem>, keys: seq<string>, acc: map<string, Totals>,
                      raw: seq<UtmGroup>, sorted: seq<UtmGroup>, groups: seq<UtmGroup>)
    requires Scanned(xs, keys, acc)
    requires raw == FinishAll(keys, acc)
    requires sorted == SortDesc(raw, GroupRevenue)
    requires groups == WithGroupShares(sorted)
    ensures IsUtmTable(xs, groups)
  {
    SortedGroupsAddUp(xs, keys, acc, raw, sorted);
    EverySourceSorted(xs, keys, acc, raw, sorted);
    DistinctSorted(keys, acc, raw, sorted);
    SharingKeepsTable(xs, sorted, groups);
  }

  /** Filling in the shares changes nothing else about the groups. */
  lemma SharingKeepsTable(xs: seq<UtmItem>, sorted: seq<UtmGroup>, groups: seq<UtmGroup>)
    requires SameSources(xs, sorted) && DistinctSources(sorted) && GroupsAddUp(xs, sorted)
    requires SortedDesc(sorted, GroupRevenue)
    requires groups == WithGroupShares(sorted)
    ensures IsUtmTable(xs, groups)
  {
    assert Revenues(groups, GroupRevenue) == Revenues(sorted, GroupRevenue);
    assert OnlySharesDiffer(sorted, groups);
    SharingKeepsSources(xs, sorted, groups);
    SharingKeepsSums(xs, sorted, groups);
  }

  /** Two group lists that agree on everything but the shares. */
  ghost predicate OnlySharesDiffer(a: seq<UtmGroup>, b: seq<UtmGroup>)
  {
    |a| == |b|
    && forall i :: 0 <= i < |a| ==>
         a[i].source == b[i].source && a[i].revenue == b[i].revenue
         && a[i].orders == b[i].orders && a[i].children == b[i].children
  }

  lemma SharingKeepsSources(xs: seq<UtmItem>, sorted: seq<UtmGroup>, groups: seq<UtmGroup>)
    requires SameSources(xs, sorted) && OnlySharesDiffer(sorted, groups)
    ensures SameSources(xs, groups)
  {
    forall k ensures HasSource(xs, k) <==> exists i :: 0 <= i < |groups| && groups[i].source == k {
      if HasSource(xs, k) {
        var i :| 0 <= i < |sorted| && sorted[i].source == k;
        assert groups[i].source == k;
      }
    }
  }

  lemma SharingKeepsSums(xs: seq<UtmItem>, sorted: seq<UtmGroup>, groups: seq<UtmGroup>)
    requires GroupsAddUp(xs, sorted) && OnlySharesDiffer(sorted, groups)
    ensures GroupsAddUp(xs, groups)
  {
    forall i | 0 <= i < |groups| ensures GroupAddsUp(xs, groups[i]) {
      assert GroupAddsUp(xs, sorted[i]);
    }
  }

  lemma DistinctSorted(keys: seq<string>, acc: map<string, Totals>, raw: seq<UtmGroup>, sorted: seq<UtmGroup>)
    requires forall k :: k in acc <==> k in keys
    requires forall a, b :: 0 <= a < b < |keys| ==> keys[a] != keys[b]
    requires raw == FinishAll(keys, acc)
    requires multiset(sorted) == multiset(raw)
    requires forall i :: 0 <= i < |sorted| ==>
               sorted[i].source in acc && sorted[i] == Finish(sorted[i].source, acc[sorted[i].source])
    ensures DistinctSources(sorted)
  {
    forall a, b | 0 <= a < b < |sorted|
      ensures sorted[a].source != sorted[b].source
    {
      assert forall i, j :: 0 <= i < j < |raw| ==> raw[i].source != raw[j].source;
      NoRepeatsPermuted(raw, sorted, a, b);
    }
  }

  /** Each source has one line per item that falls in it. */
  lemma {:induction false} LinesPerSource(items: seq<UtmItem>, k: string)
    ensures |TotalsFor(items, k).children| == Count(SourceKeys(items), k)
    decreases |items|
  {
    if items != [] {
      var n := |items| - 1;
      LinesPerSource(items[..n], k);
      assert SourceKeys(items)[..n] == SourceKeys(items[..n]);
    }
  }

  function SourceKeys(items: seq<UtmItem>): (r: seq<string>)
    ensures |r| == |items|
  {
    seq(|items|, i requires 0 <= i < |items| => SourceKey(items[i]))
  }

  /** The UTM shares add up to 1 when there is revenue at all, and are all 0
      when there is none. */
  lemma UtmSharesSum(items: seq<UtmItem>, groups: seq<UtmGroup>)
    requires IsUtmTable(items, groups)
    ensures RealSum(Revenues(groups, GroupRevenue)) != 0.0 ==>
              RealSum(seq(|groups|, i requires 0 <= i < |groups| => groups[i].share)) == 1.0
    ensures RealSum(Revenues(groups, GroupRevenue)) == 0.0 ==>
              forall i :: 0 <= i < |groups| ==> groups[i].share == 0.0
  {
    assert seq(|groups|, i requires 0 <= i < |groups| => groups[i].share) == Shares(Revenues(groups, GroupRevenue));
    SharesSum(Revenues(groups, GroupRevenue));
  }

  /** "(NONE)" or "(None)" from the tracker is direct traffic too. */
  lemma NoneMarkerIsDirect()
    ensures SourceKey(UtmItem(Some("(NONE)"), None, None, None, None)) == Direct
    ensures SourceKey(UtmItem(Some("google"), None, None, None, None)) == "google"
  {
    assert Lower("(NONE)") == "(none)";
    assert Lower("google")[0] == 'g';
  }

  // ------------------------------------------- the accumulator as written

  /** The members every plain JavaScript object inherits from
      `Object.prototype`, all of them truthy. */
  const PrototypeNames: set<string> := {
    "constructor", "__proto__", "__defineGetter__", "__defineSetter__",
    "__lookupGetter__", "__lookupSetter__", "hasOwnProperty", "isPrototypeOf",
    "propertyIsEnumerable", "toString", "toLocaleString", "valueOf" }

  /** What `acc[source]` finds on the `{}` accumulator: an own group, an
      inherited member, or nothing. */
  datatype Slot = Own(t: Totals) | Inherited | Missing

  function SlotOf(acc: map<string, Totals>, k: string): (r: Slot)
    ensures r.Own? <==> k in acc
    ensures r.Inherited? <==> k !in acc && k in PrototypeNames
  {
    if k in acc then Own(acc[k]) else if k in PrototypeNames then Inherited else Missing
  }

  /** The reduce as the source writes it, with `None` for a thrown
      TypeError: an inherited member is truthy, so no group is created and
      `.children.push` reads `undefined`. */
  function ScanAsWritten(items: seq<UtmItem>): Option<map<string, Totals>>
  {
    if items == [] then Some(map[])
    else
      match ScanAsWritten(items[..|items| - 1])
      case None => None
      case Some(acc) =>
        var item := items[|items| - 1];
        var k := SourceKey(item);
        match SlotOf(acc, k)
        case Inherited => None
        case Own(t) =>
          Some(acc[k := Totals(t.orders + OrElse(item.orders, 0), t.cents + OrElse(item.revenue, 0), t.children + [ChildOf(item)])])
        case Missing =>
          Some(acc[k := Totals(OrElse(item.orders, 0), OrElse(item.revenue, 0), [ChildOf(item)])])
  }

  ghost predicate NamesInherited(items: seq<UtmItem>)
  {
    exists i :: 0 <= i < |items| && SourceKey(items[i]) in PrototypeNames
  }

  /** As written, the reduce throws exactly when some source names an
      inherited member; otherwise it builds the same per-source totals as
      the reference fold the model's scan is proved against. */
  lemma {:induction false} ScanAsWrittenAgrees(items: seq<UtmItem>)
    ensures ScanAsWritten(items).None? <==> NamesInherited(items)
    ensures ScanAsWritten(items).Some? ==>
      forall k :: TotalsFor(items, k) == if k in ScanAsWritten(items).value then ScanAsWritten(items).value[k] else Totals(0, 0, [])
    ensures ScanAsWritten(items).Some? ==> forall k :: k in ScanAsWritten(items).value ==> k !in PrototypeNames
    decreases |items|
  {
    if items != [] {
      var n := |items| - 1;
      var init := items[..n];
      ScanAsWrittenAgrees(init);
      InheritedStep(items);
    }
  }

  lemma InheritedStep(items: seq<UtmItem>)
    requires items != []
    ensures NamesInherited(items) <==>
              NamesInherited(items[..|items| - 1]) || SourceKey(items[|items| - 1]) in PrototypeNames
  {
    var n := |items| - 1;
    if NamesInherited(items[..n]) {
      var i :| 0 <= i < n && SourceKey(items[..n][i]) in PrototypeNames;
      assert items[i] == items[..n][i];
    }
    if NamesInherited(items) && SourceKey(items[n]) !in PrototypeNames {
      var i :| 0 <= i < |items| && SourceKey(items[i]) in PrototypeNames;
      assert items[..n][i] == items[i];
    }
  }

  /** One visit from a source named "constructor" makes the reduce throw. */
  lemma ConstructorSourceThrows()
    ensures ScanAsWritten([UtmItem(Some("constructor"), None, None, Some(1), Some(990))]) == None
  {
    var item := UtmItem(Some("constructor"), None, None, Some(1), Some(990));
    assert [item][..0] == [];
    SourceKeyRule(item);
  }

  /** The model's table for that same visit has a "constructor" group with
      its order and revenue. */
  lemma ConstructorIsAGroup(groups: seq<UtmGroup>)
    requires IsUtmTable([UtmItem(Some("constructor"), None, None, Some(1), Some(990))], groups)
    ensures exists i :: 0 <= i < |groups| && groups[i].source == "constructor"
                        && groups[i].orders == 1 && groups[i].revenue == 9.9
  {
    var item := UtmItem(Some("constructor"), None, None, Some(1), Some(990));
    var items := [item];
    SourceKeyRule(item);
    assert HasSource(items, "constructor");
    var i :| 0 <= i < |groups| && groups[i].source == "constructor";
    assert GroupAddsUp(items, groups[i]);
    assert items[..0] == [];
  }

  // ---------------------------------------------------------------- coupons

  /** One item of the coupon report. */
  datatype CouponItem = CouponItem(couponCode: Option<string>, orders: Option<int>, revenue: Option<int>)

  datatype CouponRow = CouponRow(code: string, orders: int, revenue: real, share: real)

  /** The row an item becomes before shares are known. */
  function CouponRowOf(item: CouponItem): CouponRow
  {
    CouponRow(TextOr(item.couponCode, "(sem cupom)"), OrElse(item.orders, 0),
              OrElse(item.revenue, 0) as real / 100.0, 0.0)
  }

  function CouponRevenue(c: CouponRow): real { c.revenue }

  function WithoutShare(rows: seq<CouponRow>): (r: seq<CouponRow>)
    ensures |r| == |rows|
  {
    seq(|rows|, i requires 0 <= i < |rows| => rows[i].(share := 0.0))
  }

  function CouponRows(xs: seq<CouponItem>): (r: seq<CouponRow>)
    ensures |r| == |xs|
  {
    seq(|xs|, i requires 0 <= i < |xs| => CouponRowOf(xs[i]))
  }

  /** Every row with its share of the revenue of all rows. */
  function WithCouponShares(rows: seq<CouponRow>): (r: seq<CouponRow>)
    ensures |r| == |rows|
  {
    var shares := Shares(Revenues(rows, CouponRevenue));
    seq(|rows|, i requires 0 <= i < |rows| => rows[i].(share := shares[i]))
  }

  /** The `couponGroups` table: one row per item (equal codes are not
      merged), largest revenue first, each with its share of the total. */
  function CouponGroups(items: Option<seq<CouponItem>>): (r: seq<CouponRow>)
    ensures items.None? ==> r == []
    ensures items.Some? ==> |r| == |items.value|
  {
    if items.None? then []
    else
      var sorted := SortDesc(CouponRows(items.value), CouponRevenue);
      assert |sorted| == |items.value| by {
        assert |multiset(sorted)| == |multiset(CouponRows(items.value))|;
      }
      WithCouponShares(sorted)
  }

  /** The coupon rows are the items' rows reordered, sorted by revenue,
      with the share rule applied. */
  lemma CouponTable(xs: seq<CouponItem>)
    ensures var r := CouponGroups(Some(xs));
      multiset(WithoutShare(r)) == multiset(CouponRows(xs))
      && SortedDesc(r, CouponRevenue)
      && forall i :: 0 <= i < |r| ==> r[i].share == Shares(Revenues(r, CouponRevenue))[i]
  {
    var rows := CouponRows(xs);
    var sorted := SortDesc(rows, CouponRevenue);
    var r := CouponGroups(Some(xs));
    assert r == WithCouponShares(sorted);
    assert Revenues(r, CouponRevenue) == Revenues(sorted, CouponRevenue);
    forall i | 0 <= i < |sorted| ensures sorted[i].share == 0.0 {
      assert sorted[i] in multiset(rows);
    }
    assert WithoutShare(r) == sorted;
  }

  /** Coupon shares add up to 1 when there is revenue at all. */
  lemma CouponSharesSum(xs: seq<CouponItem>)
    ensures var r := CouponGroups(Some(xs));
      RealSum(Revenues(r, CouponRevenue)) != 0.0 ==>
        RealSum(seq(|r|, i requires 0 <= i < |r| => r[i].share)) == 1.0
  {
    var r := CouponGroups(Some(xs));
    CouponTable(xs);
    assert seq(|r|, i requires 0 <= i < |r| => r[i].share) == Shares(Revenues(r, CouponRevenue));
    SharesSum(Revenues(r, CouponRevenue));
  }

  /** A code that is absent or empty is shown as "(sem cupom)". */
  lemma CouponCode(item: CouponItem)
    ensures CouponRowOf(item).code == "(sem cupom)" <==>
              item.couponCode.None? || item.couponCode.value in {"", "(sem cupom)"}
  {
  }
}
