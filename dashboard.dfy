/**
 * `computeDashboardMetrics`: the specification of every figure on the owner
 * dashboard as a function of the stored orders, the one-pass computation
 * that fills the tallies and the two 24-slot hour arrays, and the properties
 * the dashboard relies on.
 */
module Dashboard {
  import opened Util
  import opened OrderTypes
  import opened Pricing
  import opened Ranking
  import opened Metrics

  /** Everything the dashboard shows. Money is in cents, `avgItemsPerOrder` in tenths. */
  datatype DashboardMetrics = DashboardMetrics(
    totalOrders: nat,
    totalRevenue: int,
    avgOrderValue: int,
    avgItemsPerOrder: int,
    totalItemsSold: int,
    statusCounts: StatusCounts,
    topItems: seq<Entry>,
    topByRevenue: seq<Entry>,
    categoryBreakdown: seq<CategoryShare>,
    milkBreakdown: seq<ModifierStat>,
    popularAddOns: seq<ModifierStat>,
    tempBreakdown: seq<ModifierStat>,
    sizeBreakdown: seq<ModifierStat>,
    hourlyBreakdown: seq<HourlyBucket>,
    peakHour: Option<HourlyBucket>)

  /** The orders the report covers: all of them, or those created today. */
  function InWindow(orders: seq<OrderRecord>, todayOnly: bool): (r: seq<OrderRecord>)
    ensures |r| <= |orders|
    ensures !todayOnly ==> r == orders
    ensures forall o :: o in r <==> o in orders && (o.createdToday || !todayOnly)
  {
    if |orders| == 0 then []
    else
      var n := |orders| - 1;
      var front := InWindow(orders[..n], todayOnly);
      assert orders == orders[..n] + [orders[n]];
      if orders[n].createdToday || !todayOnly then front + [orders[n]] else front
  }

  /** `round2(total / n)` on cents, or 0 without orders. */
  function Average(total: int, n: nat): (r: int)
    ensures n == 0 ==> r == 0
    ensures n > 0 ==> 2 * n * r <= 2 * total + n < 2 * n * (r + 1)
  {
    if n == 0 then 0 else RoundDiv(total, n)
  }

  /** `Math.round(total / n * 10) / 10`, in tenths, or 0 without orders. */
  function AverageTenths(total: int, n: nat): (r: int)
    ensures n == 0 ==> r == 0
    ensures n > 0 ==> 2 * n * r <= 20 * total + n < 2 * n * (r + 1)
  {
    if n == 0 then 0 else RoundDiv(10 * total, n)
  }

  /** `toModStats`: each row with its share of the drinks, most used first. */
  function ModStats(rows: Tally, drinks: int): (r: seq<ModifierStat>)
    ensures SortedDesc(r, StatCount)
    ensures multiset(r) == multiset(Stats(rows, drinks))
  {
    SortDesc(Stats(rows, drinks), StatCount)
  }

  /** The category rows with their share of all units, most sold first. */
  function CategoryMix(rows: Tally): (r: seq<CategoryShare>)
    ensures SortedDesc(r, ShareCount)
    ensures multiset(r) == multiset(Shares(rows, SumOf(rows, Counted)))
  {
    SortDesc(Shares(rows, SumOf(rows, Counted)), ShareCount)
  }

  /** What the dashboard shows for `orders`. */
  function MetricsOf(orders: seq<OrderRecord>, todayOnly: bool): DashboardMetrics {
    var f := InWindow(orders, todayOnly);
    var t := TallyOrders(f);
    var revenue := SumOf(f, OrderRevenue);
    var buckets := Buckets(HourlyOrders(f), HourlyRevenue(f), todayOnly, 24);
    DashboardMetrics(
      |f|,
      revenue,
      Average(revenue, |f|),
      AverageTenths(t.totalItems, |f|),
      t.totalItems,
      StatusCounts(CountStatus(f, Pending), CountStatus(f, InProgress), CountStatus(f, Completed)),
      Top(SortDesc(t.items, Counted), 5),
      Top(SortDesc(t.items, Earned), 5),
      CategoryMix(t.categories),
      ModStats(t.milks, t.totalDrinks),
      ModStats(t.addOns, t.totalDrinks),
      ModStats(t.temperatures, t.totalDrinks),
      ModStats(t.sizes, t.totalDrinks),
      buckets,
      PeakHour(buckets))
  }

  // ---------------------------------------------------------------------------
  // The pass
  // ---------------------------------------------------------------------------

  /** `d.addOns?.forEach(...)`: one unit per add-on entry. */
  method CountAddOns(t: Tally, addOns: seq<string>) returns (u: Tally)
    ensures u == TallyAddOns(t, addOns)
  {
    u := t;
    for k := 0 to |addOns|
      invariant u == TallyAddOns(t, addOns[..k])
    {
      assert addOns[..k + 1][..k] == addOns[..k];
      u := Bump(u, Prettify(addOns[k]), 1, 0);
    }
    assert addOns[..|addOns|] == addOns;
  }

  /** The drink branch of the item loop. */
  method CountModifiers(t: Tallies, d: DrinkItem) returns (u: Tallies)
    ensures u == TallyModifiers(t, d)
  {
    u := t.(totalDrinks := t.totalDrinks + 1);
    if Filled(d.milk) {
      u := u.(milks := Bump(u.milks, Prettify(d.milk.value), 1, 0));
    }
    if Filled(d.temperature) {
      u := u.(temperatures := Bump(u.temperatures, d.temperature.value, 1, 0));
    }
    if Filled(d.size) {
      u := u.(sizes := Bump(u.sizes, d.size.value, 1, 0));
    }
    var addOns := CountAddOns(u.addOns, d.addOns);
    u := u.(addOns := addOns);
  }

  /** The body of the inner `items.forEach`: one line item into the tallies. */
  method CountItem(t: Tallies, item: OrderItem) returns (u: Tallies)
    ensures u == TallyItem(t, item, ItemPrice(item))
  {
    var name := Prettify(item.Name());
    var price := ItemPrice(item);
    var qty := if item.Pastry? then item.pastry.quantity else 1;
    u := t.(totalItems := t.totalItems + qty);
    u := u.(items := Bump(u.items, name, qty, price));
    var cat := CategoryOf(item);
    u := u.(categories := Bump(u.categories, cat, qty, price));
    if item.Drink? {
      u := CountModifiers(u, item.drink);
    }
  }

  /** The inner `items.forEach`. */
  method CountItems(t: Tallies, items: seq<OrderItem>) returns (u: Tallies)
    ensures u == TallyItems(t, items)
  {
    u := t;
    for j := 0 to |items|
      invariant u == TallyItems(t, items[..j])
    {
      assert items[..j + 1][..j] == items[..j];
      u := CountItem(u, items[j]);
    }
    assert items[..|items|] == items;
  }

  /** An array whose every slot is 0 holds `Zeros`. */
  lemma ZeroArray(a: seq<int>)
    requires |a| == 24 && forall h :: 0 <= h < 24 ==> a[h] == 0
    ensures a == Zeros(24)
  {
    SumOfZeros(24);
  }

  /** One more order, for the two hour arrays. */
  lemma HoursStep(done: seq<OrderRecord>, o: OrderRecord)
    ensures HourlyOrders(done + [o]) == HourlyOrders(done)[o.createdHour := HourlyOrders(done)[o.createdHour] + 1]
  {
    assert (done + [o])[..|done|] == done;
  }

  /** One more order, for the hourly revenue. */
  lemma RevenueHoursStep(done: seq<OrderRecord>, o: OrderRecord)
    ensures HourlyRevenue(done + [o]) == HourlyRevenue(done)[o.createdHour := HourlyRevenue(done)[o.createdHour] + OrderRevenue(o)]
  {
    assert (done + [o])[..|done|] == done;
  }

  /** One more order, for the tallies and the revenue total. */
  lemma TallyStep(done: seq<OrderRecord>, o: OrderRecord)
    ensures TallyOrders(done + [o]) == TallyItems(TallyOrders(done), o.items)
    ensures SumOf(done + [o], OrderRevenue) == SumOf(done, OrderRevenue) + OrderRevenue(o)
  {
    assert (done + [o])[..|done|] == done;
  }

  /** The body of the outer `filtered.forEach`: one order into the totals, its hour's slots and the tallies. */
  method CountOrder(order: OrderRecord, t: Tallies, totalRevenue: int, hourlyOrders: array<int>, hourlyRevenue: array<int>)
    returns (t': Tallies, totalRevenue': int)
    requires hourlyOrders.Length == 24 && hourlyRevenue.Length == 24 && hourlyOrders != hourlyRevenue
    modifies hourlyOrders, hourlyRevenue
    ensures t' == TallyItems(t, order.items)
    ensures totalRevenue' == totalRevenue + OrderRevenue(order)
    ensures forall h :: 0 <= h < 24 ==>
              hourlyOrders[h] == old(hourlyOrders[h]) + (if h == order.createdHour then 1 else 0)
    ensures forall h :: 0 <= h < 24 ==>
              hourlyRevenue[h] == old(hourlyRevenue[h]) + (if h == order.createdHour then OrderRevenue(order) else 0)
  {
    var items := order.items;
    var orderRev := OrderRevenue(order);
    totalRevenue' := totalRevenue + orderRev;

    var hour := order.createdHour;
    hourlyOrders[hour] := hourlyOrders[hour] + 1;
    hourlyRevenue[hour] := hourlyRevenue[hour] + orderRev;

    t' := CountItems(t, items);
  }

  /**
   * The outer `filtered.forEach`: per order, its revenue into the total and
   * into its hour's slots, then its items into the tallies.
   */
  method TallyPass(filtered: seq<OrderRecord>)
    returns (t: Tallies, totalRevenue: int, hourlyOrders: array<int>, hourlyRevenue: array<int>)
    ensures fresh(hourlyOrders) && fresh(hourlyRevenue)
    ensures t == TallyOrders(filtered)
    ensures totalRevenue == SumOf(filtered, OrderRevenue)
    ensures hourlyOrders[..] == HourlyOrders(filtered)
    ensures hourlyRevenue[..] == HourlyRevenue(filtered)
  {
    t := NoTallies;
    totalRevenue := 0;
    hourlyOrders := new int[24](_ => 0);
    hourlyRevenue := new int[24](_ => 0);
    ZeroArray(hourlyOrders[..]);
    ZeroArray(hourlyRevenue[..]);

    for i := 0 to |filtered|
      invariant t == TallyOrders(filtered[..i])
      invariant totalRevenue == SumOf(filtered[..i], OrderRevenue)
      invariant forall h :: 0 <= h < 24 ==> hourlyOrders[h] == HourlyOrders(filtered[..i])[h]
      invariant forall h :: 0 <= h < 24 ==> hourlyRevenue[h] == HourlyRevenue(filtered[..i])[h]
    {
      var order := filtered[i];
      ghost var done := filtered[..i];
      assert filtered[..i + 1] == done + [order];
      HoursStep(done, order);
      RevenueHoursStep(done, order);
      TallyStep(done, order);
      ghost var nextOrders := HourlyOrders(done + [order]);
      ghost var nextRevenue := HourlyRevenue(done + [order]);
      t, totalRevenue := CountOrder(order, t, totalRevenue, hourlyOrders, hourlyRevenue);
      assert forall h :: 0 <= h < 24 ==> hourlyOrders[h] == nextOrders[h];
      assert forall h :: 0 <= h < 24 ==> hourlyRevenue[h] == nextRevenue[h];
    }
    assert filtered[..|filtered|] == filtered;
    assert hourlyOrders[..] == HourlyOrders(filtered);
    assert hourlyRevenue[..] == HourlyRevenue(filtered);
  }

  /**
   * `computeDashboardMetrics`: the window filter, the status loop, the pass
   * over the orders, then the hourly loop, the peak and the derived figures.
   */
  method ComputeDashboardMetrics(orders: seq<OrderRecord>, todayOnly: bool) returns (m: DashboardMetrics)
    ensures m == MetricsOf(orders, todayOnly)
  {
    var filtered := orders;
    if todayOnly {
      filtered := InWindow(orders, true);
    }
    var totalOrders := |filtered|;
    var statusCounts := TallyStatuses(filtered);
    var t, totalRevenue, hourlyOrders, hourlyRevenue := TallyPass(filtered);

    var avgOrderValue := if totalOrders == 0 then 0 else RoundDiv(totalRevenue, totalOrders);
    var avgItemsPerOrder := if totalOrders == 0 then 0 else RoundDiv(10 * t.totalItems, totalOrders);

    var topItems := Top(SortDesc(t.items, Counted), 5);
    var topByRevenue := Top(SortDesc(t.items, Earned), 5);
    var categoryBreakdown := SortDesc(Shares(t.categories, SumOf(t.categories, Counted)), ShareCount);

    var hourlyBreakdown := HourlyBreakdown(hourlyOrders, hourlyRevenue, todayOnly);
    var peakHour := if |hourlyBreakdown| == 0 then None else Some(Peak(hourlyBreakdown));

    m := DashboardMetrics(
      totalOrders, totalRevenue, avgOrderValue, avgItemsPerOrder, t.totalItems, statusCounts,
      topItems, topByRevenue, categoryBreakdown,
      ModStats(t.milks, t.totalDrinks), ModStats(t.addOns, t.totalDrinks),
      ModStats(t.temperatures, t.totalDrinks), ModStats(t.sizes, t.totalDrinks),
      hourlyBreakdown, peakHour);
  }

  // ---------------------------------------------------------------------------
  // What the dashboard promises
  // ---------------------------------------------------------------------------

  /**
   * The top-line figures: the order count is the window's size; revenue is
   * the sum of every item's price, and the item rows and category rows carry
   * it too; units sold count a pastry as its quantity and a drink as one;
   * the category units add up to the units sold; the three status counts
   * never exceed the order count; and with no orders both averages are 0.
   */
  lemma {:induction false} TopLineFigures(orders: seq<OrderRecord>, todayOnly: bool)
    ensures MetricsOf(orders, todayOnly).totalOrders == |InWindow(orders, todayOnly)|
    ensures MetricsOf(orders, todayOnly).totalRevenue == SumOf(TallyOrders(InWindow(orders, todayOnly)).items, Earned)
    ensures MetricsOf(orders, todayOnly).totalItemsSold == SumOf(InWindow(orders, todayOnly), OrderUnits)
    ensures SumOf(MetricsOf(orders, todayOnly).categoryBreakdown, ShareCount) == MetricsOf(orders, todayOnly).totalItemsSold
    ensures SumOf(MetricsOf(orders, todayOnly).categoryBreakdown, ShareRevenue) == MetricsOf(orders, todayOnly).totalRevenue
    ensures MetricsOf(orders, todayOnly).statusCounts.pending + MetricsOf(orders, todayOnly).statusCounts.inProgress
              + MetricsOf(orders, todayOnly).statusCounts.completed <= MetricsOf(orders, todayOnly).totalOrders
    ensures MetricsOf(orders, todayOnly).totalOrders == 0 ==>
              MetricsOf(orders, todayOnly).avgOrderValue == 0 && MetricsOf(orders, todayOnly).avgItemsPerOrder == 0
  {
    var f := InWindow(orders, todayOnly);
    var t := TallyOrders(f);
    TallyOrdersTotals(f);
    var shares := Shares(t.categories, SumOf(t.categories, Counted));
    SharesTotals(t.categories, SumOf(t.categories, Counted));
    SumOfSortDesc(shares, ShareCount, ShareCount);
    SumOfSortDesc(shares, ShareCount, ShareRevenue);
    StatusCountsBounded(f);
  }

  /** The two top lists are the leading five rows of the two rankings. */
  lemma TopListsOf(orders: seq<OrderRecord>, todayOnly: bool)
    ensures MetricsOf(orders, todayOnly).topItems == Top(SortDesc(TallyOrders(InWindow(orders, todayOnly)).items, Counted), 5)
    ensures MetricsOf(orders, todayOnly).topByRevenue == Top(SortDesc(TallyOrders(InWindow(orders, todayOnly)).items, Earned), 5)
  {
  }

  /**
   * Both rankings hold five rows, or every row when there are at most five,
   * each in non-increasing order of its key; they are rows of the item tally,
   * and no row left out ranks above one shown.
   */
  lemma Rankings(orders: seq<OrderRecord>, todayOnly: bool)
    ensures IsTopOf(MetricsOf(orders, todayOnly).topItems, TallyOrders(InWindow(orders, todayOnly)).items, Counted, 5)
    ensures IsTopOf(MetricsOf(orders, todayOnly).topByRevenue, TallyOrders(InWindow(orders, todayOnly)).items, Earned, 5)
  {
    var rows := TallyOrders(InWindow(orders, todayOnly)).items;
    TopListsOf(orders, todayOnly);
    TopOfRanking(rows, Counted, 5);
    TopOfRanking(rows, Earned, 5);
  }

  /**
   * Modifier shares are taken over the drink count, which counts each drink
   * line once; the milk, temperature and size rows each add up to at most
   * that count.
   */
  lemma ModifierShares(orders: seq<OrderRecord>, todayOnly: bool)
    ensures TallyOrders(InWindow(orders, todayOnly)).totalDrinks == SumOf(InWindow(orders, todayOnly), OrderDrinks)
    ensures 0 <= SumOf(MetricsOf(orders, todayOnly).milkBreakdown, StatCount) <= TallyOrders(InWindow(orders, todayOnly)).totalDrinks
    ensures 0 <= SumOf(MetricsOf(orders, todayOnly).tempBreakdown, StatCount) <= TallyOrders(InWindow(orders, todayOnly)).totalDrinks
    ensures 0 <= SumOf(MetricsOf(orders, todayOnly).sizeBreakdown, StatCount) <= TallyOrders(InWindow(orders, todayOnly)).totalDrinks
  {
    var t := TallyOrders(InWindow(orders, todayOnly));
    TallyOrdersTotals(InWindow(orders, todayOnly));
    StatsTotal(t.milks, t.totalDrinks);
    StatsTotal(t.temperatures, t.totalDrinks);
    StatsTotal(t.sizes, t.totalDrinks);
    SumOfSortDesc(Stats(t.milks, t.totalDrinks), StatCount, StatCount);
    SumOfSortDesc(Stats(t.temperatures, t.totalDrinks), StatCount, StatCount);
    SumOfSortDesc(Stats(t.sizes, t.totalDrinks), StatCount, StatCount);
  }

  /**
   * The hourly breakdown ascends by hour and each bucket carries its hour's
   * label, order count and revenue. All-time mode shows exactly hours 6 to
   * 21; today mode shows exactly the hours with an order. Every order in the
   * window is counted in one hour slot.
   */
  lemma HourlyWindows(orders: seq<OrderRecord>, todayOnly: bool)
    ensures Ascending(MetricsOf(orders, todayOnly).hourlyBreakdown)
    ensures Faithful(MetricsOf(orders, todayOnly).hourlyBreakdown,
                     HourlyOrders(InWindow(orders, todayOnly)), HourlyRevenue(InWindow(orders, todayOnly)), 24)
    ensures !todayOnly ==> |MetricsOf(orders, todayOnly).hourlyBreakdown| == 16
    ensures !todayOnly ==> forall i :: 0 <= i < |MetricsOf(orders, todayOnly).hourlyBreakdown| ==>
              MetricsOf(orders, todayOnly).hourlyBreakdown[i].hour == 6 + i
    ensures todayOnly ==> forall h: Hour ::
              HasHour(MetricsOf(orders, todayOnly).hourlyBreakdown, h) <==> HourlyOrders(InWindow(orders, todayOnly))[h] > 0
    ensures SumOf(HourlyOrders(InWindow(orders, todayOnly)), Slot) == MetricsOf(orders, todayOnly).totalOrders
  {
    var f := InWindow(orders, todayOnly);
    var ho, hr := HourlyOrders(f), HourlyRevenue(f);
    assert MetricsOf(orders, todayOnly).hourlyBreakdown == Buckets(ho, hr, todayOnly, 24);
    assert MetricsOf(orders, todayOnly).totalOrders == |f|;
    BucketShape(ho, hr, todayOnly);
    HourlyOrdersTotal(f);
  }

  /** The facts about the 24-hour breakdown that `HourlyWindows` reports. */
  lemma BucketShape(ho: seq<int>, hr: seq<int>, todayOnly: bool)
    requires |ho| == 24 && |hr| == 24
    ensures Ascending(Buckets(ho, hr, todayOnly, 24))
    ensures Faithful(Buckets(ho, hr, todayOnly, 24), ho, hr, 24)
    ensures !todayOnly ==> |Buckets(ho, hr, todayOnly, 24)| == 16
    ensures !todayOnly ==> forall i :: 0 <= i < |Buckets(ho, hr, todayOnly, 24)| ==> Buckets(ho, hr, todayOnly, 24)[i].hour == 6 + i
    ensures todayOnly ==> forall h: Hour :: HasHour(Buckets(ho, hr, todayOnly, 24), h) <==> ho[h] > 0
  {
    BucketsOrdered(ho, hr, todayOnly, 24);
    AllTimeBuckets(ho, hr, 24);
    forall h: Hour
      ensures HasHour(Buckets(ho, hr, todayOnly, 24), h) <==> Shown(ho, h, todayOnly)
    {
      BucketsCover(ho, hr, todayOnly, 24, h);
    }
  }

  /**
   * The peak hour is picked from the hourly breakdown shown (so it is absent
   * exactly when no bucket is, and is otherwise the first bucket with the
   * most orders); in all-time mode there always is one.
   */
  lemma PeakHourShape(orders: seq<OrderRecord>, todayOnly: bool)
    ensures MetricsOf(orders, todayOnly).peakHour == PeakHour(MetricsOf(orders, todayOnly).hourlyBreakdown)
    ensures !todayOnly ==> MetricsOf(orders, todayOnly).peakHour.Some?
  {
    var f := InWindow(orders, todayOnly);
    var b := Buckets(HourlyOrders(f), HourlyRevenue(f), todayOnly, 24);
    assert MetricsOf(orders, todayOnly).hourlyBreakdown == b;
    if !todayOnly {
      AllTimeBuckets(HourlyOrders(f), HourlyRevenue(f), 24);
    }
  }
}
