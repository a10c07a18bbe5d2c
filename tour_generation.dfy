/**
 * `generateOptimizedTours` and `calculateTourStatistics` of
 * utils/tourOptimizer.ts: the vehicles that are available, the orders
 * grouped by delivery date, a day plan per date, and the distance and
 * duration of a tour.
 */
module TourGeneration {
  import opened Wrappers
  import opened Types
  import opened RouteCostEvaluator
  import opened CapacityPacking
  import opened TourPlanner

  // ----------------------------------------------- available vehicles

  /** `vehicles.filter(v => v.status === 'available')`. */
  function AvailableVehicles(vehicles: seq<Vehicle>): (r: seq<Vehicle>)
    ensures |r| <= |vehicles|
    ensures forall w :: w in r <==> w in vehicles && w.status == "available"
  {
    if |vehicles| == 0 then []
    else
      var rest := AvailableVehicles(vehicles[1..]);
      assert forall w :: w in vehicles <==> w == vehicles[0] || w in vehicles[1..];
      (if vehicles[0].status == "available" then [vehicles[0]] else []) + rest
  }

  // ------------------------------------------------- grouping by date

  /** One entry of `ordersByDate`. */
  datatype DateGroup = DateGroup(date: string, orders: seq<Order>)

  /** The orders of a delivery date, in input order. */
  function OrdersOn(orders: seq<Order>, date: string): (r: seq<Order>)
    ensures forall o :: o in r ==> o in orders && o.deliveryDate == date
  {
    if |orders| == 0 then []
    else
      var last := orders[|orders| - 1];
      OrdersOn(orders[..|orders| - 1], date) + (if last.deliveryDate == date then [last] else [])
  }

  /** The orders of the group for `date`, or none. */
  function Lookup(groups: seq<DateGroup>, date: string): seq<Order> {
    if |groups| == 0 then []
    else if groups[0].date == date then groups[0].orders
    else Lookup(groups[1..], date)
  }

  function Dates(groups: seq<DateGroup>): seq<string> {
    seq(|groups|, g requires 0 <= g < |groups| => groups[g].date)
  }

  predicate DistinctDates(groups: seq<DateGroup>) {
    forall g, h :: 0 <= g < h < |groups| ==> groups[g].date != groups[h].date
  }

  /** One step of the `reduce`: push the order onto the group of its date,
      creating the group (at the end) when the date is new. */
  function AddOrder(groups: seq<DateGroup>, o: Order): seq<DateGroup> {
    if |groups| == 0 then [DateGroup(o.deliveryDate, [o])]
    else if groups[0].date == o.deliveryDate then [groups[0].(orders := groups[0].orders + [o])] + groups[1..]
    else [groups[0]] + AddOrder(groups[1..], o)
  }

  /** `orders.reduce(...)` followed by `Object.entries`: the groups in the
      order their dates first appear. */
  function GroupByDate(orders: seq<Order>): seq<DateGroup> {
    if |orders| == 0 then []
    else AddOrder(GroupByDate(orders[..|orders| - 1]), orders[|orders| - 1])
  }

  lemma {:induction false} AddOrderLookup(groups: seq<DateGroup>, o: Order)
    ensures forall d :: Lookup(AddOrder(groups, o), d) == Lookup(groups, d) + (if d == o.deliveryDate then [o] else [])
    ensures forall d :: d in Dates(AddOrder(groups, o)) <==> d in Dates(groups) || d == o.deliveryDate
    ensures DistinctDates(groups) ==> DistinctDates(AddOrder(groups, o))
  {
    if |groups| > 0 && groups[0].date != o.deliveryDate {
      AddOrderLookup(groups[1..], o);
      var r := AddOrder(groups, o);
      assert r[0] == groups[0] && r[1..] == AddOrder(groups[1..], o);
      DatesSplit(r);
      DatesSplit(groups);
      DistinctSplit(r);
      DistinctSplit(groups);
    } else if |groups| > 0 {
      var r := AddOrder(groups, o);
      assert r[1..] == groups[1..];
      assert Dates(groups)[0] == o.deliveryDate;
      assert Dates(r) == Dates(groups);
      assert forall g :: 0 <= g < |r| ==> r[g].date == groups[g].date;
    } else {
      var r := AddOrder(groups, o);
      assert r[1..] == [];
      assert Dates(r) == [o.deliveryDate];
      assert Dates(groups) == [];
    }
  }

  /** The dates of a non-empty list: the first group's, then the rest's. */
  lemma DatesSplit(gs: seq<DateGroup>)
    requires |gs| > 0
    ensures forall d :: d in Dates(gs) <==> d == gs[0].date || d in Dates(gs[1..])
  {
    assert Dates(gs) == [gs[0].date] + Dates(gs[1..]);
  }

  /** A non-empty list has distinct dates exactly when its rest does and
      the first date does not recur there. */
  lemma DistinctSplit(gs: seq<DateGroup>)
    requires |gs| > 0
    ensures DistinctDates(gs) <==> DistinctDates(gs[1..]) && gs[0].date !in Dates(gs[1..])
  {
    if DistinctDates(gs) {
      forall g, h | 0 <= g < h < |gs[1..]| ensures gs[1..][g].date != gs[1..][h].date {
        assert gs[1..][g] == gs[g + 1] && gs[1..][h] == gs[h + 1];
      }
      forall i | 0 <= i < |gs| - 1 ensures Dates(gs[1..])[i] != gs[0].date {
        assert Dates(gs[1..])[i] == gs[i + 1].date;
      }
    }
    if DistinctDates(gs[1..]) && gs[0].date !in Dates(gs[1..]) {
      forall g, h | 0 <= g < h < |gs| ensures gs[g].date != gs[h].date {
        if g == 0 {
          assert Dates(gs[1..])[h - 1] == gs[h].date;
        } else {
          assert gs[1..][g - 1] == gs[g] && gs[1..][h - 1] == gs[h];
        }
      }
    }
  }

  /** Each group holds exactly the orders of its date, in input order; the
      dates are distinct; and a date has a group exactly when some order
      is for that date. */
  lemma {:induction false} GroupByDateCorrect(orders: seq<Order>)
    ensures DistinctDates(GroupByDate(orders))
    ensures forall d :: Lookup(GroupByDate(orders), d) == OrdersOn(orders, d)
    ensures forall d :: d in Dates(GroupByDate(orders)) <==> exists k :: 0 <= k < |orders| && orders[k].deliveryDate == d
  {
    if |orders| > 0 {
      var init := orders[..|orders| - 1];
      var last := orders[|orders| - 1];
      GroupByDateCorrect(init);
      AddOrderLookup(GroupByDate(init), last);
      forall d ensures d in Dates(GroupByDate(orders)) <==> exists k :: 0 <= k < |orders| && orders[k].deliveryDate == d {
        if exists k :: 0 <= k < |orders| && orders[k].deliveryDate == d {
          var k :| 0 <= k < |orders| && orders[k].deliveryDate == d;
          if k < |orders| - 1 {
            assert init[k].deliveryDate == d;
          }
        }
        if exists k :: 0 <= k < |init| && init[k].deliveryDate == d {
          var k :| 0 <= k < |init| && init[k].deliveryDate == d;
          assert orders[k].deliveryDate == d;
        }
      }
    }
  }

  /** Under distinct dates, a group's entry is what `Lookup` finds. */
  lemma {:induction false} LookupDistinct(groups: seq<DateGroup>, g: nat)
    requires DistinctDates(groups) && g < |groups|
    ensures Lookup(groups, groups[g].date) == groups[g].orders
  {
    if g > 0 {
      assert DistinctDates(groups[1..]) by {
        forall i, j | 0 <= i < j < |groups[1..]| ensures groups[1..][i].date != groups[1..][j].date {
          assert groups[1..][i] == groups[i + 1] && groups[1..][j] == groups[j + 1];
        }
      }
      assert groups[0].date != groups[g].date;
      LookupDistinct(groups[1..], g - 1);
    }
  }

  /** Every order of a group, group after group. */
  function GroupedOrders(groups: seq<DateGroup>): seq<Order> {
    if |groups| == 0 then [] else groups[0].orders + GroupedOrders(groups[1..])
  }

  lemma {:induction false} AddOrderGrouped(groups: seq<DateGroup>, o: Order)
    ensures multiset(GroupedOrders(AddOrder(groups, o))) == multiset(GroupedOrders(groups)) + multiset{o}
  {
    if |groups| > 0 {
      var r := AddOrder(groups, o);
      if groups[0].date == o.deliveryDate {
        assert r[1..] == groups[1..];
      } else {
        assert r[1..] == AddOrder(groups[1..], o);
        AddOrderGrouped(groups[1..], o);
      }
    }
  }

  /** The groups together hold every order once. */
  lemma {:induction false} GroupByDatePartition(orders: seq<Order>)
    ensures multiset(GroupedOrders(GroupByDate(orders))) == multiset(orders)
  {
    if |orders| > 0 {
      var init := orders[..|orders| - 1];
      GroupByDatePartition(init);
      AddOrderGrouped(GroupByDate(init), orders[|orders| - 1]);
      assert orders == init + [orders[|orders| - 1]];
    }
  }

  lemma {:induction false} GroupedOrdersSnoc(groups: seq<DateGroup>, g: nat)
    requires g < |groups|
    ensures GroupedOrders(groups[..g + 1]) == GroupedOrders(groups[..g]) + groups[g].orders
  {
    if g > 0 {
      assert groups[..g + 1][1..] == groups[1..][..g];
      assert groups[..g][1..] == groups[1..][..g - 1];
      GroupedOrdersSnoc(groups[1..], g - 1);
      RouteSequencer.AppendAssoc(groups[0].orders, GroupedOrders(groups[1..][..g - 1]), groups[g].orders);
    } else {
      assert groups[..1][1..] == [];
    }
  }

  // ------------------------------------------------ all dates together

  /** What every tour `generateOptimizedTours` returns satisfies. */
  predicate OptimizedTour(t: Tour, vehicles: seq<Vehicle>) {
    DayTour(t, AvailableVehicles(vehicles), t.date)
    && t.vehicle in vehicles
    && t.vehicle.status == "available"
    && forall k :: 0 <= k < |t.stops| ==> t.stops[k].order.deliveryDate == t.date
  }

  lemma {:induction false} StopInAllStopOrders(tours: seq<Tour>, k: nat, j: nat)
    requires k < |tours| && j < |tours[k].stops|
    ensures tours[k].stops[j].order in multiset(AllStopOrders(tours))
  {
    if k == 0 {
      assert StopOrders(tours[0].stops)[j] == tours[0].stops[j].order;
    } else {
      StopInAllStopOrders(tours[1..], k - 1, j);
    }
  }

  /** The tours of one date are tours of `generateOptimizedTours`. */
  lemma DateToursOptimized(dateTours: seq<Tour>, group: DateGroup, vehicles: seq<Vehicle>, left: seq<Order>)
    requires AllDayTours(dateTours, AvailableVehicles(vehicles), group.date)
    requires multiset(AllStopOrders(dateTours)) + multiset(left) == multiset(group.orders)
    requires forall o :: o in group.orders ==> o.deliveryDate == group.date
    ensures forall k :: 0 <= k < |dateTours| ==> OptimizedTour(dateTours[k], vehicles)
  {
    forall k | 0 <= k < |dateTours|
      ensures OptimizedTour(dateTours[k], vehicles)
    {
      var t := dateTours[k];
      assert DayTour(t, AvailableVehicles(vehicles), group.date);
      forall j | 0 <= j < |t.stops|
        ensures t.stops[j].order.deliveryDate == t.date
      {
        StopInAllStopOrders(dateTours, k, j);
        assert t.stops[j].order in multiset(group.orders);
      }
    }
  }

  /** The tours of several days, day after day. */
  function Flatten(days: seq<seq<Tour>>): seq<Tour> {
    if |days| == 0 then [] else Flatten(days[..|days| - 1]) + days[|days| - 1]
  }

  /** What the day plans of some groups leave unassigned, group after group. */
  function Leftovers(groups: seq<DateGroup>, vehicles: seq<Vehicle>): seq<Order> {
    if |groups| == 0 then []
    else Leftovers(groups[..|groups| - 1], vehicles) + PlanForDate(groups[|groups| - 1].orders, vehicles).second.left
  }

  /** `days[g]` holds the tours of the day plan of group `g`. */
  predicate DayPlans(days: seq<seq<Tour>>, groups: seq<DateGroup>, vehicles: seq<Vehicle>, depot: Coord, dist: Dist,
                     stamp: string) {
    |days| == |groups|
    && forall g :: 0 <= g < |groups| ==>
         ToursForPlan(days[g], PlanForDate(groups[g].orders, vehicles), depot, dist, groups[g].date, stamp)
  }

  lemma DayPlansSnoc(days: seq<seq<Tour>>, groups: seq<DateGroup>, g: nat, vehicles: seq<Vehicle>, depot: Coord,
                     dist: Dist, stamp: string, dateTours: seq<Tour>)
    requires g < |groups|
    requires DayPlans(days, groups[..g], vehicles, depot, dist, stamp)
    requires ToursForPlan(dateTours, PlanForDate(groups[g].orders, vehicles), depot, dist, groups[g].date, stamp)
    ensures DayPlans(days + [dateTours], groups[..g + 1], vehicles, depot, dist, stamp)
  {
    var upTo := groups[..g + 1];
    forall h | 0 <= h < g + 1
      ensures ToursForPlan((days + [dateTours])[h], PlanForDate(upTo[h].orders, vehicles), depot, dist, upTo[h].date, stamp)
    {
      if h < g {
        assert (days + [dateTours])[h] == days[h] && upTo[h] == groups[..g][h];
      }
    }
  }

  /** Every order of a group is for the group's date. */
  lemma GroupOnItsDate(orders: seq<Order>, g: nat)
    requires g < |GroupByDate(orders)|
    ensures forall o :: o in GroupByDate(orders)[g].orders ==> o.deliveryDate == GroupByDate(orders)[g].date
  {
    GroupByDateCorrect(orders);
    LookupDistinct(GroupByDate(orders), g);
  }

  lemma OptimizedAppend(a: seq<Tour>, b: seq<Tour>, vehicles: seq<Vehicle>)
    requires forall k :: 0 <= k < |a| ==> OptimizedTour(a[k], vehicles)
    requires forall k :: 0 <= k < |b| ==> OptimizedTour(b[k], vehicles)
    ensures forall k :: 0 <= k < |a + b| ==> OptimizedTour((a + b)[k], vehicles)
  {
    forall k | 0 <= k < |a + b|
      ensures OptimizedTour((a + b)[k], vehicles)
    {
      if k >= |a| {
        assert (a + b)[k] == b[k - |a|];
      } else {
        assert (a + b)[k] == a[k];
      }
    }
  }

  /** One date more: its tours and what its plan leaves are appended. */
  lemma AccumulateStep(groups: seq<DateGroup>, g: nat, vehicles: seq<Vehicle>, days: seq<seq<Tour>>,
                       tours: seq<Tour>, left: seq<Order>, dateTours: seq<Tour>, dateLeft: seq<Order>)
    requires g < |groups|
    requires tours == Flatten(days) && left == Leftovers(groups[..g], vehicles)
    requires multiset(AllStopOrders(tours)) + multiset(left) == multiset(GroupedOrders(groups[..g]))
    requires dateLeft == PlanForDate(groups[g].orders, vehicles).second.left
    requires multiset(AllStopOrders(dateTours)) + multiset(dateLeft) == multiset(groups[g].orders)
    ensures tours + dateTours == Flatten(days + [dateTours])
    ensures left + dateLeft == Leftovers(groups[..g + 1], vehicles)
    ensures multiset(AllStopOrders(tours + dateTours)) + multiset(left + dateLeft)
            == multiset(GroupedOrders(groups[..g + 1]))
  {
    assert (days + [dateTours])[..|days|] == days;
    var upTo := groups[..g + 1];
    assert upTo[..g] == groups[..g] && upTo[g] == groups[g];
    AllStopOrdersAppend(tours, dateTours);
    GroupedOrdersSnoc(groups, g);
    MultisetAppendSplit(AllStopOrders(tours), AllStopOrders(dateTours), left, dateLeft,
                        GroupedOrders(groups[..g]), groups[g].orders);
  }

  /** Two splits side by side make a split of the concatenation. */
  lemma MultisetAppendSplit<T>(a: seq<T>, b: seq<T>, l: seq<T>, d: seq<T>, x: seq<T>, y: seq<T>)
    requires multiset(a) + multiset(l) == multiset(x)
    requires multiset(b) + multiset(d) == multiset(y)
    ensures multiset(a + b) + multiset(l + d) == multiset(x + y)
  {
    assert multiset(a + b) == multiset(a) + multiset(b);
    assert multiset(l + d) == multiset(l) + multiset(d);
    assert multiset(x + y) == multiset(x) + multiset(y);
  }

  /** `generateOptimizedTours`: nothing without an available vehicle or
      without orders; otherwise the day plans of the dates in turn, in the
      order the dates first appear. `perDate` are the tours of each date and
      `unassigned` what the day plans drop. */
  method GenerateOptimizedTours(orders: seq<Order>, vehicles: seq<Vehicle>, settings: Settings, dist: Dist,
                                stamp: string, maxPasses: nat)
    returns (allTours: seq<Tour>, ghost perDate: seq<seq<Tour>>, ghost unassigned: seq<Order>)
    ensures |AvailableVehicles(vehicles)| == 0 || |orders| == 0 ==> allTours == [] && unassigned == orders
    ensures |AvailableVehicles(vehicles)| > 0 ==>
              && DayPlans(perDate, GroupByDate(orders), AvailableVehicles(vehicles), DepotCoord(settings.depot), dist, stamp)
              && allTours == Flatten(perDate)
              && unassigned == Leftovers(GroupByDate(orders), AvailableVehicles(vehicles))
    ensures multiset(AllStopOrders(allTours)) + multiset(unassigned) == multiset(orders)
    ensures forall k :: 0 <= k < |allTours| ==> OptimizedTour(allTours[k], vehicles)
  {
    var availableVehicles := AvailableVehicles(vehicles);
    if |availableVehicles| == 0 {
      return [], [], orders;
    }
    if |orders| == 0 {
      return [], [], orders;
    }
    var ordersByDate := GroupByDate(orders);
    GroupByDatePartition(orders);
    allTours, perDate, unassigned := [], [], [];
    var g := 0;
    while g < |ordersByDate|
      invariant 0 <= g <= |ordersByDate|
      invariant |perDate| == g && allTours == Flatten(perDate)
      invariant DayPlans(perDate, ordersByDate[..g], availableVehicles, DepotCoord(settings.depot), dist, stamp)
      invariant unassigned == Leftovers(ordersByDate[..g], availableVehicles)
      invariant forall k :: 0 <= k < |allTours| ==> OptimizedTour(allTours[k], vehicles)
      invariant multiset(AllStopOrders(allTours)) + multiset(unassigned) == multiset(GroupedOrders(ordersByDate[..g]))
    {
      var group := ordersByDate[g];
      var dateTours;
      ghost var left;
      dateTours, left := GenerateToursForDate(group.orders, availableVehicles, settings.depot, dist, group.date, stamp, maxPasses);
      GroupOnItsDate(orders, g);
      DateToursOptimized(dateTours, group, vehicles, left);
      OptimizedAppend(allTours, dateTours, vehicles);
      AccumulateStep(ordersByDate, g, availableVehicles, perDate, allTours, unassigned, dateTours, left);
      DayPlansSnoc(perDate, ordersByDate, g, availableVehicles, DepotCoord(settings.depot), dist, stamp, dateTours);
      allTours, perDate, unassigned := allTours + dateTours, perDate + [dateTours], unassigned + left;
      g := g + 1;
    }
    assert ordersByDate[..g] == ordersByDate;
  }

  // ------------------------------------------------------- statistics

  /** Distance and duration of a tour, before rounding. */
  datatype Statistics = Statistics(totalDistance: real, estimatedDuration: real)

  /** `settings?.stopDuration || 15`, minutes per stop. */
  function StopMinutes(settings: Option<Settings>): real {
    if settings.Some? && settings.value.stopDuration != 0.0 then settings.value.stopDuration else 15.0
  }

  /** `settings?.containerHandlingTime || 5`, minutes per container. */
  function ContainerMinutes(settings: Option<Settings>): real {
    if settings.Some? && settings.value.containerHandlingTime != 0.0 then settings.value.containerHandlingTime else 5.0
  }

  /** `calculateTourStatistics` without the rounding to one decimal: the
      route length, and 40 km/h of driving plus the stop and container
      handling minutes, in hours. */
  function TourStatistics(tour: Tour, depot: Coord, dist: Dist, settings: Option<Settings>): (r: Statistics)
    ensures |tour.stops| == 0 ==> r == Statistics(0.0, 0.0)
    ensures |tour.stops| > 0 ==> r.totalDistance == RouteCost(StopOrders(tour.stops), depot, dist)
    ensures |tour.stops| > 0 ==>
              r.estimatedDuration == r.totalDistance / 40.0
                                     + (|tour.stops| as real) * StopMinutes(settings) / 60.0
                                     + (TourLoad(tour) as real) * ContainerMinutes(settings) / 60.0
  {
    if |tour.stops| == 0 then Statistics(0.0, 0.0)
    else
      var route := StopOrders(tour.stops);
      var totalDistance := RouteCost(route, depot, dist);
      Statistics(totalDistance, Duration(totalDistance, |tour.stops|, Containers(route), settings))
  }

  /** Hours for a tour: 40 km/h of driving, plus the minutes per stop and
      per container. */
  function Duration(totalDistance: real, stops: nat, containers: int, settings: Option<Settings>): real {
    var drivingTime := totalDistance / 40.0;
    var stopTime := (stops as real) * (StopMinutes(settings) / 60.0);
    var containerTime := (containers as real) * (ContainerMinutes(settings) / 60.0);
    drivingTime + stopTime + containerTime
  }

  lemma ProductNonNegative(a: real, b: real)
    requires a >= 0.0 && b >= 0.0
    ensures a * b >= 0.0
  {
  }

  /** Without settings, and with settings whose durations are 0, the
      defaults of 15 minutes per stop and 5 per container apply. */
  lemma StatisticsDefaults(tour: Tour, depot: Coord, dist: Dist, s: Settings)
    requires s.stopDuration == 0.0 && s.containerHandlingTime == 0.0
    ensures TourStatistics(tour, depot, dist, Some(s)) == TourStatistics(tour, depot, dist, None)
    ensures |tour.stops| > 0 ==>
              TourStatistics(tour, depot, dist, None).estimatedDuration
              == RouteCost(StopOrders(tour.stops), depot, dist) / 40.0
                 + (|tour.stops| as real) * (15.0 / 60.0)
                 + (TourLoad(tour) as real) * (5.0 / 60.0)
  {
  }

  /** With non-negative distances, counts and settings, both figures are
      non-negative, and the duration covers at least the driving time. */
  lemma StatisticsNonNegative(tour: Tour, depot: Coord, dist: Dist, settings: Option<Settings>)
    requires NonNegative(dist)
    requires NonNegativeCounts(StopOrders(tour.stops))
    requires settings.Some? ==> settings.value.stopDuration >= 0.0 && settings.value.containerHandlingTime >= 0.0
    ensures TourStatistics(tour, depot, dist, settings).totalDistance >= 0.0
    ensures TourStatistics(tour, depot, dist, settings).estimatedDuration >= TourStatistics(tour, depot, dist, settings).totalDistance / 40.0
  {
    if |tour.stops| > 0 {
      var route := StopOrders(tour.stops);
      RouteCostNonNegative(route, depot, dist);
      ContainersNonNegative(route);
      var sm := StopMinutes(settings) / 60.0;
      var cm := ContainerMinutes(settings) / 60.0;
      assert sm >= 0.0 && cm >= 0.0;
      ProductNonNegative(|tour.stops| as real, sm);
      ProductNonNegative(Containers(route) as real, cm);
    }
  }

  lemma {:induction false} ContainersNonNegative(s: seq<Order>)
    requires NonNegativeCounts(s)
    ensures Containers(s) >= 0
  {
    if |s| > 0 {
      assert NonNegativeCounts(s[1..]) by {
        forall k | 0 <= k < |s[1..]| ensures s[1..][k].containerCount >= 0 {
          assert s[1..][k] == s[k + 1];
        }
      }
      ContainersNonNegative(s[1..]);
    }
  }

  lemma StopOrdersReverse(stops: seq<TourStop>)
    ensures StopOrders(Reverse(stops)) == Reverse(StopOrders(stops))
  {
  }

  /** Driving a tour's stops in reverse order gives the same figures when
      the distance is symmetric. */
  lemma StatisticsReverse(tour: Tour, depot: Coord, dist: Dist, settings: Option<Settings>)
    requires Symmetric(dist)
    ensures TourStatistics(tour.(stops := Reverse(tour.stops)), depot, dist, settings)
            == TourStatistics(tour, depot, dist, settings)
  {
    var route := StopOrders(tour.stops);
    var reversed := StopOrders(Reverse(tour.stops));
    StopOrdersReverse(tour.stops);
    RouteCostReverse(route, depot, dist);
    ReversePermutes(route);
    ContainersPermutation(reversed, route);
    var t := tour.(stops := Reverse(tour.stops));
    assert |t.stops| == |tour.stops|;
    assert StopOrders(t.stops) == reversed;
    assert RouteCost(reversed, depot, dist) == RouteCost(route, depot, dist);
    assert Containers(reversed) == Containers(route);
  }
}
