/**
 * The owner dashboard: one pass over the stored orders keeps running tallies
 * (per item name, per category, per modifier, per hour of day, and overall
 * totals), from which the figures, rankings and breakdowns are derived.
 *
 * Money is in cents, so rounding to two decimals is the identity; every
 * `Math.round` is written out as round-half-up division on integers.
 */
module Metrics {
  import opened Util
  import opened OrderTypes
  import opened Pricing
  import opened Ranking

  // ---------------------------------------------------------------------------
  // Helpers
  // ---------------------------------------------------------------------------

  /** The hour on a twelve-hour clock face. */
  function Clock12(h: Hour): (c: nat)
    ensures 1 <= c <= 12
  {
    if h % 12 == 0 then 12 else h % 12
  }

  /** "12 AM", "1 AM" … "11 AM", "12 PM", "1 PM" … "11 PM". */
  function FormatHour(h: Hour): string {
    if h == 0 then "12 AM"
    else if h < 12 then NatToString(h) + " AM"
    else if h == 12 then "12 PM"
    else NatToString(h - 12) + " PM"
  }

  /** A label is the twelve-hour clock reading followed by the half of the day. */
  lemma FormatHourClock(h: Hour)
    ensures FormatHour(h) == NatToString(Clock12(h)) + (if h < 12 then " AM" else " PM")
  {
    assert NatToString(12) == "12" by {
      assert NatToString(1) == "1";
    }
  }

  /** No two hours share a label. */
  lemma FormatHourInjective(a: Hour, b: Hour)
    requires FormatHour(a) == FormatHour(b)
    ensures a == b
  {
    FormatHourClock(a);
    FormatHourClock(b);
    var sa := if a < 12 then " AM" else " PM";
    var sb := if b < 12 then " AM" else " PM";
    SplitAtSuffix(NatToString(Clock12(a)), sa, NatToString(Clock12(b)), sb);
    NatToStringInjective(Clock12(a), Clock12(b));
    assert sa[1] == sb[1];
  }

  const CoffeeCategory := "Coffee"
  const TeaCategory := "Tea"
  const PastryCategory := "Pastry"
  const OtherCategory := "Other"

  function CategoryOf(item: OrderItem): (c: string)
    ensures c in [CoffeeCategory, TeaCategory, PastryCategory, OtherCategory]
  {
    match item
    case Pastry(_) => PastryCategory
    case Drink(d) =>
      if d.name in CoffeeDrinks then CoffeeCategory
      else if d.name in TeaDrinks then TeaCategory
      else OtherCategory
  }

  /** Pastries and catalog drinks have their own category; only a drink outside the catalog is "Other". */
  lemma CategoryOfCatalog(item: OrderItem)
    ensures CategoryOf(item) == PastryCategory <==> item.Pastry?
    ensures CategoryOf(item) == OtherCategory <==> item.Drink? && !IsDrinkName(item.drink.name)
    ensures CategoryOf(item) == CoffeeCategory <==> item.Drink? && IsCoffee(item.drink.name)
  {
    CatalogShape();
  }

  /**
   * `Math.round(num / den)`, which rounds halves up (towards +infinity), as
   * integer division: floor((2 num + den) / (2 den)).
   */
  function RoundDiv(num: int, den: int): (r: int)
    requires den != 0
    ensures den > 0 ==> 2 * den * r <= 2 * num + den < 2 * den * (r + 1)
    ensures den < 0 ==> 2 * den * r >= 2 * num + den > 2 * den * (r + 1)
  {
    if den > 0 then (2 * num + den) / (2 * den)
    else (-(2 * num + den)) / (-2 * den)
  }

  /** `Math.round(count / total * 100)`, or 0 when the total is 0. */
  function Percent(count: int, total: int): (p: int)
    ensures total == 0 ==> p == 0
    ensures total > 0 ==> 2 * total * p <= 200 * count + total < 2 * total * (p + 1)
    ensures 0 <= count <= total ==> 0 <= p <= 100
  {
    if total == 0 then 0
    else
      var p := RoundDiv(100 * count, total);
      if 0 <= count <= total then
        ScaleBound(2 * total, p, 101);
        ScaleBound(2 * total, 0, p + 1);
        p
      else p
  }

  /** Dividing both sides of a strict inequality by a positive factor. */
  lemma ScaleBound(k: int, x: int, y: int)
    requires k > 0 && k * x < k * y
    ensures x < y
  {
  }

  // ---------------------------------------------------------------------------
  // Tallies
  // ---------------------------------------------------------------------------

  /**
   * One row of a tally keyed by name: the units counted and the revenue in
   * cents. Rows stay in the order their names were first seen, as the keys
   * of a JavaScript object do.
   */
  datatype Entry = Entry(name: string, count: int, revenue: int)

  type Tally = seq<Entry>

  function Counted(e: Entry): int { e.count }
  function Earned(e: Entry): int { e.revenue }

  /** The row holding `name`, or -1. */
  function RowOf(t: Tally, name: string): (k: int)
    ensures -1 <= k < |t|
    ensures k >= 0 ==> t[k].name == name
    ensures forall j :: 0 <= j < |t| && (k < 0 || j < k) ==> t[j].name != name
  {
    FindIndex(t, (e: Entry) => e.name == name)
  }

  /** Any index with the first-row characterisation is the row. */
  lemma RowUnique(t: Tally, name: string, j: int)
    requires -1 <= j < |t|
    requires j >= 0 ==> t[j].name == name
    requires forall i :: 0 <= i < |t| && (j < 0 || i < j) ==> t[i].name != name
    ensures RowOf(t, name) == j
  {
  }

  /** `tally[name] ?? 0`. */
  function CountFor(t: Tally, name: string): int {
    var k := RowOf(t, name);
    if k >= 0 then t[k].count else 0
  }

  function RevenueFor(t: Tally, name: string): int {
    var k := RowOf(t, name);
    if k >= 0 then t[k].revenue else 0
  }

  /** `tally[name] = (tally[name] ?? 0) + count`, the same for the revenue. */
  function Bump(t: Tally, name: string, count: int, revenue: int): Tally {
    var k := RowOf(t, name);
    if k >= 0 then t[k := Entry(name, t[k].count + count, t[k].revenue + revenue)]
    else t + [Entry(name, count, revenue)]
  }

  /** Bumping a name adds to that name's row and leaves every other name's row alone. */
  lemma BumpLookup(t: Tally, name: string, count: int, revenue: int, other: string)
    ensures CountFor(Bump(t, name, count, revenue), other) == CountFor(t, other) + (if other == name then count else 0)
    ensures RevenueFor(Bump(t, name, count, revenue), other) == RevenueFor(t, other) + (if other == name then revenue else 0)
  {
    var u := Bump(t, name, count, revenue);
    var k := RowOf(t, name);
    var j := RowOf(t, other);
    if k >= 0 {
      assert forall i :: 0 <= i < |u| ==> u[i].name == t[i].name;
      RowUnique(u, other, j);
    } else {
      assert forall i :: 0 <= i < |t| ==> u[i] == t[i];
      if j >= 0 {
        RowUnique(u, other, j);
      } else if other == name {
        RowUnique(u, other, |t|);
      } else {
        RowUnique(u, other, -1);
      }
    }
  }

  /** Bumping adds exactly the bumped amounts to the column totals. */
  lemma BumpSums(t: Tally, name: string, count: int, revenue: int)
    ensures SumOf(Bump(t, name, count, revenue), Counted) == SumOf(t, Counted) + count
    ensures SumOf(Bump(t, name, count, revenue), Earned) == SumOf(t, Earned) + revenue
  {
    var k := RowOf(t, name);
    if k >= 0 {
      var e := Entry(name, t[k].count + count, t[k].revenue + revenue);
      assert Bump(t, name, count, revenue) == t[k := e];
      SumOfUpdate(t, k, e, Counted);
      SumOfUpdate(t, k, e, Earned);
    } else {
      var e := Entry(name, count, revenue);
      assert Bump(t, name, count, revenue) == t + [e];
      SumOfConcat(t, [e], Counted);
      SumOfConcat(t, [e], Earned);
      assert SumOf([e], Counted) == count;
      assert SumOf([e], Earned) == revenue;
    }
  }

  /** No name has two rows. */
  predicate DistinctNames(t: Tally) {
    forall i, j :: 0 <= i < j < |t| ==> t[i].name != t[j].name
  }

  lemma BumpDistinct(t: Tally, name: string, count: int, revenue: int)
    requires DistinctNames(t)
    ensures DistinctNames(Bump(t, name, count, revenue))
    ensures name in set e | e in Bump(t, name, count, revenue) :: e.name
  {
    var u := Bump(t, name, count, revenue);
    var k := RowOf(t, name);
    if k >= 0 {
      assert forall i :: 0 <= i < |u| ==> u[i].name == t[i].name;
      assert u[k] in u;
    } else {
      assert u[|t|] in u;
    }
  }

  /**
   * The running state of the pass: per-name item rows (units and revenue),
   * per-category rows, per-value modifier rows (milk, add-on, temperature,
   * size; units only), and the unit and drink totals.
   */
  datatype Tallies = Tallies(
    items: Tally,
    categories: Tally,
    milks: Tally,
    addOns: Tally,
    temperatures: Tally,
    sizes: Tally,
    totalItems: int,
    totalDrinks: int)

  const NoTallies := Tallies([], [], [], [], [], [], 0, 0)

  function DrinkUnit(item: OrderItem): int {
    if item.Drink? then 1 else 0
  }

  /** One row bump per add-on entry, under its prettified name. */
  function TallyAddOns(t: Tally, addOns: seq<string>): Tally {
    if |addOns| == 0 then t
    else Bump(TallyAddOns(t, addOns[..|addOns| - 1]), Prettify(addOns[|addOns| - 1]), 1, 0)
  }

  /** A drink's modifiers: one unit per filled milk, temperature and size, one per add-on entry. */
  function TallyModifiers(t: Tallies, d: DrinkItem): Tallies {
    t.(totalDrinks := t.totalDrinks + 1,
       milks := if Filled(d.milk) then Bump(t.milks, Prettify(d.milk.value), 1, 0) else t.milks,
       temperatures := if Filled(d.temperature) then Bump(t.temperatures, d.temperature.value, 1, 0) else t.temperatures,
       sizes := if Filled(d.size) then Bump(t.sizes, d.size.value, 1, 0) else t.sizes,
       addOns := TallyAddOns(t.addOns, d.addOns))
  }

  /** What one line item adds to the tallies, given its price. */
  function TallyItem(t: Tallies, item: OrderItem, price: int): Tallies {
    var qty := Quantity(item);
    var u := t.(totalItems := t.totalItems + qty,
                items := Bump(t.items, Prettify(item.Name()), qty, price),
                categories := Bump(t.categories, CategoryOf(item), qty, price));
    if item.Drink? then TallyModifiers(u, item.drink) else u
  }

  function TallyItems(t: Tallies, items: seq<OrderItem>): Tallies {
    if |items| == 0 then t
    else
      var n := |items| - 1;
      TallyItem(TallyItems(t, items[..n]), items[n], ItemPrice(items[n]))
  }

  /** `items.reduce((sum, item) => sum + itemPrice(item), 0)`. */
  function OrderRevenue(o: OrderRecord): int {
    SumOf(o.items, ItemPrice)
  }

  function OrderUnits(o: OrderRecord): int {
    SumOf(o.items, Quantity)
  }

  function OrderDrinks(o: OrderRecord): int {
    SumOf(o.items, DrinkUnit)
  }

  /** The tallies after the items of the orders, in order. */
  function TallyOrders(orders: seq<OrderRecord>): Tallies {
    if |orders| == 0 then NoTallies
    else TallyItems(TallyOrders(orders[..|orders| - 1]), orders[|orders| - 1].items)
  }

  /**
   * The bookkeeping the pass keeps: item rows and category rows both count
   * every unit, and carry the same revenue; each of the milk, temperature
   * and size tallies counts at most one unit per drink.
   */
  predicate Balanced(t: Tallies) {
    && SumOf(t.items, Counted) == t.totalItems
    && SumOf(t.categories, Counted) == t.totalItems
    && SumOf(t.categories, Earned) == SumOf(t.items, Earned)
    && 0 <= SumOf(t.milks, Counted) <= t.totalDrinks
    && 0 <= SumOf(t.temperatures, Counted) <= t.totalDrinks
    && 0 <= SumOf(t.sizes, Counted) <= t.totalDrinks
  }

  /** `Bump` by 1 for `cond`, keeping the unit sum within one more drink. */
  lemma BumpIf(t: Tally, cond: bool, name: string)
    ensures SumOf(if cond then Bump(t, name, 1, 0) else t, Counted) <= SumOf(t, Counted) + 1
    ensures SumOf(if cond then Bump(t, name, 1, 0) else t, Counted) >= SumOf(t, Counted)
  {
    BumpSums(t, name, 1, 0);
  }

  /** One item keeps the bookkeeping and moves the totals by its units, price and drink count. */
  lemma TallyItemBalanced(t: Tallies, item: OrderItem, price: int)
    requires Balanced(t)
    ensures var u := TallyItem(t, item, price);
            && Balanced(u)
            && u.totalItems == t.totalItems + Quantity(item)
            && SumOf(u.items, Earned) == SumOf(t.items, Earned) + price
            && u.totalDrinks == t.totalDrinks + DrinkUnit(item)
  {
    var qty := Quantity(item);
    BumpSums(t.items, Prettify(item.Name()), qty, price);
    BumpSums(t.categories, CategoryOf(item), qty, price);
    if item.Drink? {
      var d := item.drink;
      BumpIf(t.milks, Filled(d.milk), if Filled(d.milk) then Prettify(d.milk.value) else "");
      BumpIf(t.temperatures, Filled(d.temperature), if Filled(d.temperature) then d.temperature.value else "");
      BumpIf(t.sizes, Filled(d.size), if Filled(d.size) then d.size.value else "");
    }
  }

  lemma {:induction false} TallyItemsBalanced(t: Tallies, items: seq<OrderItem>)
    requires Balanced(t)
    ensures var u := TallyItems(t, items);
            && Balanced(u)
            && u.totalItems == t.totalItems + SumOf(items, Quantity)
            && SumOf(u.items, Earned) == SumOf(t.items, Earned) + SumOf(items, ItemPrice)
            && u.totalDrinks == t.totalDrinks + SumOf(items, DrinkUnit)
  {
    if |items| > 0 {
      var n := |items| - 1;
      TallyItemsBalanced(t, items[..n]);
      TallyItemBalanced(TallyItems(t, items[..n]), items[n], ItemPrice(items[n]));
    }
  }

  /**
   * After any orders: the bookkeeping holds, the revenue over the item rows
   * is the sum of the orders' revenues, units sold are the orders' units,
   * and drinks are counted one by one.
   */
  lemma {:induction false} TallyOrdersTotals(orders: seq<OrderRecord>)
    ensures Balanced(TallyOrders(orders))
    ensures SumOf(TallyOrders(orders).items, Earned) == SumOf(orders, OrderRevenue)
    ensures TallyOrders(orders).totalItems == SumOf(orders, OrderUnits)
    ensures TallyOrders(orders).totalDrinks == SumOf(orders, OrderDrinks)
  {
    if |orders| > 0 {
      var n := |orders| - 1;
      TallyOrdersTotals(orders[..n]);
      TallyItemsBalanced(TallyOrders(orders[..n]), orders[n].items);
    }
  }

  // ---------------------------------------------------------------------------
  // Hours of the day
  // ---------------------------------------------------------------------------

  /** `new Array(n).fill(0)`. */
  function Zeros(n: nat): (r: seq<int>)
    ensures |r| == n
  {
    if n == 0 then [] else Zeros(n - 1) + [0]
  }

  function Slot(x: int): int { x }

  lemma {:induction false} SumOfZeros(n: nat)
    ensures SumOf(Zeros(n), Slot) == 0
    ensures forall h :: 0 <= h < n ==> Zeros(n)[h] == 0
  {
    if n > 0 {
      SumOfZeros(n - 1);
      assert Zeros(n)[..n - 1] == Zeros(n - 1);
    }
  }

  /** Orders per hour of the day, over 24 slots. */
  function HourlyOrders(orders: seq<OrderRecord>): (r: seq<int>)
    ensures |r| == 24
  {
    if |orders| == 0 then Zeros(24)
    else
      var p := HourlyOrders(orders[..|orders| - 1]);
      var h := orders[|orders| - 1].createdHour;
      p[h := p[h] + 1]
  }

  /** Revenue per hour of the day, over 24 slots. */
  function HourlyRevenue(orders: seq<OrderRecord>): (r: seq<int>)
    ensures |r| == 24
  {
    if |orders| == 0 then Zeros(24)
    else
      var p := HourlyRevenue(orders[..|orders| - 1]);
      var o := orders[|orders| - 1];
      p[o.createdHour := p[o.createdHour] + OrderRevenue(o)]
  }

  /** Every order lands in exactly one hour slot. */
  lemma {:induction false} HourlyOrdersTotal(orders: seq<OrderRecord>)
    ensures SumOf(HourlyOrders(orders), Slot) == |orders|
    ensures forall h :: 0 <= h < 24 ==> HourlyOrders(orders)[h] >= 0
  {
    if |orders| == 0 {
      SumOfZeros(24);
    } else {
      var n := |orders| - 1;
      HourlyOrdersTotal(orders[..n]);
      var p := HourlyOrders(orders[..n]);
      var h := orders[n].createdHour;
      SumOfUpdate(p, h, p[h] + 1, Slot);
    }
  }

  /** Every order's revenue lands in its hour slot. */
  lemma {:induction false} HourlyRevenueTotal(orders: seq<OrderRecord>)
    ensures SumOf(HourlyRevenue(orders), Slot) == SumOf(orders, OrderRevenue)
  {
    if |orders| == 0 {
      SumOfZeros(24);
    } else {
      var n := |orders| - 1;
      HourlyRevenueTotal(orders[..n]);
      var q := HourlyRevenue(orders[..n]);
      var o := orders[n];
      SumOfUpdate(q, o.createdHour, q[o.createdHour] + OrderRevenue(o), Slot);
    }
  }

  /** One entry of the hourly breakdown. */
  datatype HourlyBucket = HourlyBucket(hour: Hour, hourLabel: string, orders: int, revenue: int)

  /** The hourly loop's filter, condition by condition. */
  predicate Listed(ordersAt: int, h: int, todayOnly: bool) {
    && (ordersAt > 0 || !todayOnly)
    && !(todayOnly && ordersAt == 0)
    && !(!todayOnly && h < 6)
    && !(!todayOnly && h > 21)
  }

  /** The buckets pushed for hours `0 .. n - 1`. */
  function Buckets(ho: seq<int>, hr: seq<int>, todayOnly: bool, n: nat): seq<HourlyBucket>
    requires |ho| == 24 && |hr| == 24 && n <= 24
  {
    if n == 0 then []
    else
      var h := n - 1;
      Buckets(ho, hr, todayOnly, h) +
        (if Listed(ho[h], h, todayOnly) then [HourlyBucket(h, FormatHour(h), ho[h], hr[h])] else [])
  }

  /** The hourly loop over the two 24-slot arrays. */
  method HourlyBreakdown(hourlyOrders: array<int>, hourlyRevenue: array<int>, todayOnly: bool)
    returns (buckets: seq<HourlyBucket>)
    requires hourlyOrders.Length == 24 && hourlyRevenue.Length == 24
    ensures buckets == Buckets(hourlyOrders[..], hourlyRevenue[..], todayOnly, 24)
  {
    buckets := [];
    for h := 0 to 24
      invariant buckets == Buckets(hourlyOrders[..], hourlyRevenue[..], todayOnly, h)
    {
      if hourlyOrders[h] > 0 || !todayOnly {
        if todayOnly && hourlyOrders[h] == 0 {
          continue;
        }
        if !todayOnly && h < 6 {
          continue;
        }
        if !todayOnly && h > 21 {
          continue;
        }
        buckets := buckets + [HourlyBucket(h, FormatHour(h), hourlyOrders[h], hourlyRevenue[h])];
      }
    }
  }

  /** Which hours get a bucket: in today mode the hours with orders, otherwise 6 AM to 9 PM. */
  predicate Shown(ho: seq<int>, h: Hour, todayOnly: bool)
    requires |ho| == 24
  {
    if todayOnly then ho[h] > 0 else 6 <= h <= 21
  }

  /** Hours strictly ascend. */
  predicate Ascending(b: seq<HourlyBucket>) {
    forall i, j :: 0 <= i < j < |b| ==> b[i].hour < b[j].hour
  }

  /** Every bucket is for an hour below `n`, with that hour's label and slots. */
  predicate Faithful(b: seq<HourlyBucket>, ho: seq<int>, hr: seq<int>, n: nat)
    requires |ho| == 24 && |hr| == 24
  {
    forall i :: 0 <= i < |b| ==>
      b[i].hour < n && b[i] == HourlyBucket(b[i].hour, FormatHour(b[i].hour), ho[b[i].hour], hr[b[i].hour])
  }

  /** The buckets for hours below `n` ascend and carry each hour's label and slots. */
  lemma {:induction false} BucketsOrdered(ho: seq<int>, hr: seq<int>, todayOnly: bool, n: nat)
    requires |ho| == 24 && |hr| == 24 && n <= 24
    ensures Ascending(Buckets(ho, hr, todayOnly, n))
    ensures Faithful(Buckets(ho, hr, todayOnly, n), ho, hr, n)
  {
    if n > 0 {
      var h := n - 1;
      BucketsOrdered(ho, hr, todayOnly, h);
      var prev := Buckets(ho, hr, todayOnly, h);
      if Listed(ho[h], h, todayOnly) {
        var b := prev + [HourlyBucket(h, FormatHour(h), ho[h], hr[h])];
        assert Buckets(ho, hr, todayOnly, n) == b;
        forall i, j | 0 <= i < j < |b|
          ensures b[i].hour < b[j].hour
        {
          assert b[i] == prev[i];
        }
      } else {
        assert Buckets(ho, hr, todayOnly, n) == prev;
      }
    }
  }

  /** Whether some bucket is for hour `h`. */
  predicate HasHour(b: seq<HourlyBucket>, h: Hour) {
    exists i :: 0 <= i < |b| && b[i].hour == h
  }

  lemma HasHourConcat(a: seq<HourlyBucket>, c: seq<HourlyBucket>, h: Hour)
    ensures HasHour(a + c, h) <==> HasHour(a, h) || HasHour(c, h)
  {
    if HasHour(a + c, h) {
      var i :| 0 <= i < |a + c| && (a + c)[i].hour == h;
      if i >= |a| {
        assert c[i - |a|].hour == h;
      }
    }
    if HasHour(a, h) {
      var i :| 0 <= i < |a| && a[i].hour == h;
      assert (a + c)[i].hour == h;
    }
    if HasHour(c, h) {
      var i :| 0 <= i < |c| && c[i].hour == h;
      assert (a + c)[|a| + i].hour == h;
    }
  }

  /** Which hours get a bucket: in today mode the hours with orders, otherwise 6 AM to 9 PM. */
  lemma {:induction false} BucketsCover(ho: seq<int>, hr: seq<int>, todayOnly: bool, n: nat, h: Hour)
    requires |ho| == 24 && |hr| == 24 && h < n <= 24
    ensures HasHour(Buckets(ho, hr, todayOnly, n), h) <==> Shown(ho, h, todayOnly)
  {
    var last := n - 1;
    var prev := Buckets(ho, hr, todayOnly, last);
    var extra := if Listed(ho[last], last, todayOnly) then [HourlyBucket(last, FormatHour(last), ho[last], hr[last])] else [];
    assert Buckets(ho, hr, todayOnly, n) == prev + extra;
    HasHourConcat(prev, extra, h);
    assert HasHour(extra, h) <==> h == last && Listed(ho[last], last, todayOnly) by {
      if HasHour(extra, h) {
        var i :| 0 <= i < |extra| && extra[i].hour == h;
      }
      if h == last && Listed(ho[last], last, todayOnly) {
        assert extra[0].hour == h;
      }
    }
    if h < last {
      BucketsCover(ho, hr, todayOnly, last, h);
    } else {
      BucketsOrdered(ho, hr, todayOnly, last);
      forall i | 0 <= i < |prev|
        ensures prev[i].hour != h
      {
      }
    }
  }

  /** In all-time mode the buckets are hours 6 to 21, one each, in order. */
  lemma {:induction false} AllTimeBuckets(ho: seq<int>, hr: seq<int>, n: nat)
    requires |ho| == 24 && |hr| == 24 && n <= 24
    ensures |Buckets(ho, hr, false, n)| == (if n <= 6 then 0 else if n <= 22 then n - 6 else 16)
    ensures forall i :: 0 <= i < |Buckets(ho, hr, false, n)| ==> Buckets(ho, hr, false, n)[i].hour == 6 + i
  {
    if n > 0 {
      var h := n - 1;
      AllTimeBuckets(ho, hr, h);
      var prev := Buckets(ho, hr, false, h);
      assert Listed(ho[h], h, false) <==> 6 <= h <= 21;
      if 6 <= h <= 21 {
        assert Buckets(ho, hr, false, n) == prev + [HourlyBucket(h, FormatHour(h), ho[h], hr[h])];
      } else {
        assert Buckets(ho, hr, false, n) == prev;
      }
    }
  }

  /** `buckets.reduce((best, cur) => cur.orders > best.orders ? cur : best)`. */
  function Peak(b: seq<HourlyBucket>): HourlyBucket
    requires |b| > 0
  {
    if |b| == 1 then b[0]
    else
      var best := Peak(b[..|b| - 1]);
      var cur := b[|b| - 1];
      if cur.orders > best.orders then cur else best
  }

  /** Where the peak sits. */
  function PeakAt(b: seq<HourlyBucket>): (k: nat)
    requires |b| > 0
    ensures k < |b| && Peak(b) == b[k]
  {
    if |b| == 1 then 0
    else
      var n := |b| - 1;
      var k := PeakAt(b[..n]);
      assert b[..n][k] == b[k];
      if b[n].orders > b[k].orders then n else k
  }

  /** The peak bucket, or none when there are no buckets. */
  function PeakHour(b: seq<HourlyBucket>): (r: Option<HourlyBucket>)
    ensures r.None? <==> |b| == 0
    ensures |b| > 0 ==> r == Some(b[PeakAt(b)])
  {
    if |b| == 0 then None else Some(Peak(b))
  }

  /** The peak is the first bucket with the most orders. */
  lemma {:induction false} PeakIsFirstMaximum(b: seq<HourlyBucket>)
    requires |b| > 0
    ensures forall j :: 0 <= j < |b| ==> b[j].orders <= b[PeakAt(b)].orders
    ensures forall j :: 0 <= j < PeakAt(b) ==> b[j].orders < b[PeakAt(b)].orders
  {
    if |b| > 1 {
      var n := |b| - 1;
      var p := b[..n];
      PeakIsFirstMaximum(p);
      var k := PeakAt(p);
      assert forall j :: 0 <= j < n ==> p[j] == b[j];
    }
  }

  // ---------------------------------------------------------------------------
  // Status counts
  // ---------------------------------------------------------------------------

  datatype StatusCounts = StatusCounts(pending: nat, inProgress: nat, completed: nat)

  /** The status loop: each order adds one to the first of the three statuses it has. */
  method TallyStatuses(orders: seq<OrderRecord>) returns (counts: StatusCounts)
    ensures counts == StatusCounts(CountStatus(orders, Pending), CountStatus(orders, InProgress), CountStatus(orders, Completed))
  {
    counts := StatusCounts(0, 0, 0);
    for i := 0 to |orders|
      invariant counts == StatusCounts(CountStatus(orders[..i], Pending), CountStatus(orders[..i], InProgress),
                                       CountStatus(orders[..i], Completed))
    {
      assert orders[..i + 1][..i] == orders[..i];
      var o := orders[i];
      if o.status == Pending {
        counts := counts.(pending := counts.pending + 1);
      } else if o.status == InProgress {
        counts := counts.(inProgress := counts.inProgress + 1);
      } else if o.status == Completed {
        counts := counts.(completed := counts.completed + 1);
      }
    }
    assert orders[..|orders|] == orders;
  }

  // ---------------------------------------------------------------------------
  // Breakdowns
  // ---------------------------------------------------------------------------

  datatype CategoryShare = CategoryShare(category: string, count: int, revenue: int, pct: int)

  datatype ModifierStat = ModifierStat(name: string, count: int, pct: int)

  function ShareCount(c: CategoryShare): int { c.count }
  function ShareRevenue(c: CategoryShare): int { c.revenue }
  function StatCount(m: ModifierStat): int { m.count }

  /** Each category row with its percentage of `total` units. */
  function Shares(rows: Tally, total: int): (r: seq<CategoryShare>)
    ensures |r| == |rows|
    ensures forall i :: 0 <= i < |rows| ==>
              r[i] == CategoryShare(rows[i].name, rows[i].count, rows[i].revenue, Percent(rows[i].count, total))
  {
    if |rows| == 0 then []
    else
      var e := rows[|rows| - 1];
      Shares(rows[..|rows| - 1], total) + [CategoryShare(e.name, e.count, e.revenue, Percent(e.count, total))]
  }

  /** Each modifier row with its percentage of `drinks`. */
  function Stats(rows: Tally, drinks: int): (r: seq<ModifierStat>)
    ensures |r| == |rows|
    ensures forall i :: 0 <= i < |rows| ==> r[i] == ModifierStat(rows[i].name, rows[i].count, Percent(rows[i].count, drinks))
  {
    if |rows| == 0 then []
    else
      var e := rows[|rows| - 1];
      Stats(rows[..|rows| - 1], drinks) + [ModifierStat(e.name, e.count, Percent(e.count, drinks))]
  }

  /** Adding percentages keeps the unit and revenue totals of the rows. */
  lemma {:induction false} SharesTotals(rows: Tally, total: int)
    ensures SumOf(Shares(rows, total), ShareCount) == SumOf(rows, Counted)
    ensures SumOf(Shares(rows, total), ShareRevenue) == SumOf(rows, Earned)
  {
    if |rows| > 0 {
      var n := |rows| - 1;
      SharesTotals(rows[..n], total);
      var r := Shares(rows, total);
      assert r[..n] == Shares(rows[..n], total);
    }
  }

  lemma {:induction false} StatsTotal(rows: Tally, drinks: int)
    ensures SumOf(Stats(rows, drinks), StatCount) == SumOf(rows, Counted)
  {
    if |rows| > 0 {
      var n := |rows| - 1;
      StatsTotal(rows[..n], drinks);
      var r := Stats(rows, drinks);
      assert r[..n] == Stats(rows[..n], drinks);
    }
  }
}
