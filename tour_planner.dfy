/**
 * Tour generation of utils/tourOptimizer.ts: a tour per non-empty load
 * (`generateToursForDate`), the grouping by delivery date and the loop over
 * the dates (`generateOptimizedTours`), and the tour statistics
 * (`calculateTourStatistics`).
 */
module TourPlanner {
  import opened Wrappers
  import opened Types
  import opened RouteCostEvaluator
  import opened RouteSequencer
  import opened CapacityPacking

  /** Colour of a tour within capacity. */
  const Blue: string := "#2563EB"
  /** Colour of a tour of the second, over-capacity pass. */
  const Amber: string := "#F59E0B"

  // ---------------------------------------------------------- stops

  /** `tour.stops.map(stop => stop.order)`. */
  function StopOrders(stops: seq<TourStop>): (r: seq<Order>)
    ensures |r| == |stops|
    ensures forall k :: 0 <= k < |stops| ==> r[k] == stops[k].order
  {
    seq(|stops|, k requires 0 <= k < |stops| => stops[k].order)
  }

  /** Stop k (from 0) has sequence number k + 1 and the id of its order. */
  predicate IsNumbered(stops: seq<TourStop>) {
    forall k :: 0 <= k < |stops| ==> stops[k].sequence == k + 1 && stops[k].orderId == stops[k].order.id
  }

  /** `optimizedRoute.map((order, index) => ({ orderId: order.id, order,
      sequence: index + 1 }))`: the stops visit the route in order and are
      numbered 1..N. */
  function NumberStops(route: seq<Order>): (stops: seq<TourStop>)
    ensures StopOrders(stops) == route
    ensures IsNumbered(stops)
    ensures forall k :: 0 <= k < |stops| ==> stops[k].estimatedArrival.None? && stops[k].notes.None?
  {
    seq(|route|, k requires 0 <= k < |route| => TourStop(route[k].id, route[k], k + 1, None, None))
  }

  /** Containers carried on a tour. */
  function TourLoad(t: Tour): int {
    Containers(StopOrders(t.stops))
  }

  // ----------------------------------------------------- building tours

  /** What `tours.push({...})` records for a load: the route is a
      permutation of the load that is no longer than the nearest-neighbour
      route the optimisation starts from. */
  predicate BuiltFrom(t: Tour, load: Load, depot: Coord, dist: Dist, date: string, stamp: string, color: string) {
    var route := StopOrders(t.stops);
    t.id == "tour-" + load.vehicle.id + "-" + stamp
    && t.vehicleId == load.vehicle.id
    && t.vehicle == load.vehicle
    && multiset(route) == multiset(load.orders)
    && |route| == |load.orders|
    && IsNumbered(t.stops)
    && RouteCost(route, depot, dist) <= RouteCost(NearestNeighbourRoute(load.orders, depot, dist), depot, dist)
    && t.totalDistance.None? && t.estimatedDuration.None? && t.notes.None?
    && t.date == date
    && t.status == Planned
    && t.color == color
  }

  /** Nearest neighbour, then 2-opt (at most `maxPasses` passes), then the
      stop numbering. */
  method BuildTour(vehicle: Vehicle, orders: seq<Order>, depot: Depot, dist: Dist,
                   date: string, stamp: string, color: string, maxPasses: nat)
    returns (t: Tour)
    ensures BuiltFrom(t, Load(vehicle, orders), DepotCoord(depot), dist, date, stamp, color)
  {
    var optimizedRoute := OptimizeRoute(orders, DepotCoord(depot), dist);
    var improvedRoute, _ := Improve2Opt(optimizedRoute, DepotCoord(depot), dist, maxPasses);
    var stops := NumberStops(improvedRoute);
    t := Tour("tour-" + vehicle.id + "-" + stamp, vehicle.id, vehicle, stops, None, None, date, Planned, color, None);
    assert StopOrders(t.stops) == improvedRoute;
    assert multiset(improvedRoute) == multiset(orders) && |improvedRoute| == |orders| by {
      assert |optimizedRoute| == |multiset(optimizedRoute)| == |multiset(orders)| == |orders|;
    }
  }

  predicate ToursMatch(tours: seq<Tour>, loads: seq<Load>, depot: Coord, dist: Dist, date: string, stamp: string, color: string) {
    |tours| == |loads|
    && forall k :: 0 <= k < |tours| ==> BuiltFrom(tours[k], loads[k], depot, dist, date, stamp, color)
  }

  lemma ToursMatchSnoc(tours: seq<Tour>, loads: seq<Load>, t: Tour, l: Load, depot: Coord, dist: Dist,
                       date: string, stamp: string, color: string)
    requires ToursMatch(tours, loads, depot, dist, date, stamp, color)
    requires BuiltFrom(t, l, depot, dist, date, stamp, color)
    ensures ToursMatch(tours + [t], loads + [l], depot, dist, date, stamp, color)
  {
  }

  /** One vehicle of a pass: the scan over what is unassigned, then the
      pass over the remaining vehicles. */
  lemma PackStep(unassigned: seq<Order>, vehicles: seq<Vehicle>, v: nat, second: bool)
    requires v < |vehicles| && !(second && |unassigned| == 0)
    ensures var b := Fill(unassigned, Limit(vehicles[v], second), 0);
            var rest := Pack(b.kept, vehicles[v + 1..], second);
            Pack(unassigned, vehicles[v..], second)
            == Packing((if |b.taken| > 0 then [Load(vehicles[v], b.taken)] else []) + rest.loads, rest.left)
  {
    assert vehicles[v..][0] == vehicles[v];
    assert vehicles[v..][1..] == vehicles[v + 1..];
  }

  /** The color a pass gives its tours. */
  function PassColor(second: bool): string {
    if second then Amber else Blue
  }

  /** One of the two `for (const vehicle of ...)` loops: a scan per vehicle
      and a tour for every non-empty batch; the second pass breaks off once
      nothing is left. */
  method RunPass(pool: seq<Order>, vehicles: seq<Vehicle>, second: bool, depot: Depot, dist: Dist,
                 date: string, stamp: string, maxPasses: nat)
    returns (tours: seq<Tour>, unassigned: seq<Order>)
    ensures unassigned == Pack(pool, vehicles, second).left
    ensures ToursMatch(tours, Pack(pool, vehicles, second).loads, DepotCoord(depot), dist, date, stamp, PassColor(second))
  {
    tours, unassigned := [], pool;
    ghost var done: seq<Load> := [];
    var v := 0;
    while v < |vehicles|
      invariant 0 <= v <= |vehicles|
      invariant ToursMatch(tours, done, DepotCoord(depot), dist, date, stamp, PassColor(second))
      invariant Pack(pool, vehicles, second)
                == Packing(done + Pack(unassigned, vehicles[v..], second).loads, Pack(unassigned, vehicles[v..], second).left)
    {
      if second && |unassigned| == 0 {
        break;
      }
      var vehicle := vehicles[v];
      var vehicleOrders, kept, _ := FillVehicle(unassigned, Limit(vehicle, second));
      PackStep(unassigned, vehicles, v, second);
      ghost var rest := Pack(kept, vehicles[v + 1..], second);
      if |vehicleOrders| > 0 {
        var t := BuildTour(vehicle, vehicleOrders, depot, dist, date, stamp, PassColor(second), maxPasses);
        AppendAssocLoads(done, [Load(vehicle, vehicleOrders)], rest.loads);
        ToursMatchSnoc(tours, done, t, Load(vehicle, vehicleOrders), DepotCoord(depot), dist, date, stamp, PassColor(second));
        tours := tours + [t];
        done := done + [Load(vehicle, vehicleOrders)];
      } else {
        assert ([] + rest.loads) == rest.loads;
      }
      unassigned := kept;
      v := v + 1;
    }
    assert Pack(unassigned, vehicles[v..], second).loads == [];
    assert done + [] == done;
  }

  lemma AppendAssocLoads(a: seq<Load>, b: seq<Load>, c: seq<Load>)
    ensures (a + b) + c == a + (b + c)
  {
  }

  /** `vehicles.filter(v => !tours.some(t => t.vehicleId === v.id))`, with
      the tours given by their vehicle ids. */
  function RemainingVehicles(vehicles: seq<Vehicle>, usedIds: seq<string>): (r: seq<Vehicle>)
    ensures |r| <= |vehicles|
    ensures forall w :: w in r <==> w in vehicles && w.id !in usedIds
  {
    if |vehicles| == 0 then []
    else
      var rest := RemainingVehicles(vehicles[1..], usedIds);
      assert forall w :: w in vehicles <==> w == vehicles[0] || w in vehicles[1..];
      (if vehicles[0].id in usedIds then [] else [vehicles[0]]) + rest
  }

  function TourIds(tours: seq<Tour>): seq<string> {
    seq(|tours|, k requires 0 <= k < |tours| => tours[k].vehicleId)
  }

  function LoadIds(loads: seq<Load>): seq<string> {
    seq(|loads|, k requires 0 <= k < |loads| => loads[k].vehicle.id)
  }

  /** The two passes of a day. */
  datatype DayPlan = DayPlan(first: Packing, second: Packing)

  /** `generateToursForDate` on loads: sort, the strict pass over all
      vehicles, and — when orders are left and there are vehicles — the
      second pass over the vehicles without a first-pass tour. */
  function PlanForDate(orders: seq<Order>, vehicles: seq<Vehicle>): DayPlan {
    var p1 := Pack(SortOrders(orders), vehicles, false);
    var p2 :=
      if |p1.left| > 0 && |vehicles| > 0 then Pack(p1.left, RemainingVehicles(vehicles, LoadIds(p1.loads)), true)
      else Packing([], p1.left);
    DayPlan(p1, p2)
  }

  /** The pass-1 tours come first, then the pass-2 tours. */
  predicate ToursForPlan(tours: seq<Tour>, plan: DayPlan, depot: Coord, dist: Dist, date: string, stamp: string) {
    var n := |plan.first.loads|;
    n <= |tours|
    && ToursMatch(tours[..n], plan.first.loads, depot, dist, date, stamp, Blue)
    && ToursMatch(tours[n..], plan.second.loads, depot, dist, date, stamp, Amber)
  }

  /** `generateToursForDate`. `unassigned` is what the source drops. */
  method GenerateToursForDate(orders: seq<Order>, vehicles: seq<Vehicle>, depot: Depot, dist: Dist,
                              date: string, stamp: string, maxPasses: nat)
    returns (tours: seq<Tour>, ghost unassigned: seq<Order>)
    ensures ToursForPlan(tours, PlanForDate(orders, vehicles), DepotCoord(depot), dist, date, stamp)
    ensures unassigned == PlanForDate(orders, vehicles).second.left
    ensures AllDayTours(tours, vehicles, date)
    ensures multiset(AllStopOrders(tours)) + multiset(unassigned) == multiset(orders)
  {
    var sortedOrders := SortOrders(orders);
    var blue, left := RunPass(sortedOrders, vehicles, false, depot, dist, date, stamp, maxPasses);
    ghost var plan := PlanForDate(orders, vehicles);
    assert TourIds(blue) == LoadIds(plan.first.loads);
    if |left| > 0 && |vehicles| > 0 {
      var remainingVehicles := RemainingVehicles(vehicles, TourIds(blue));
      var amber, left2 := RunPass(left, remainingVehicles, true, depot, dist, date, stamp, maxPasses);
      tours := blue + amber;
      unassigned := left2;
    } else {
      tours := blue;
      unassigned := left;
    }
    assert tours[..|blue|] == blue;
    PlanDayTours(tours, orders, vehicles, DepotCoord(depot), dist, date, stamp);
    PlanOrders(tours, orders, vehicles, DepotCoord(depot), dist, date, stamp);
  }

  // ------------------------------------------------- facts about a day

  /** Every order of the tours, in tour order. */
  function AllStopOrders(tours: seq<Tour>): seq<Order> {
    if |tours| == 0 then [] else StopOrders(tours[0].stops) + AllStopOrders(tours[1..])
  }

  /** What every generated tour of a day satisfies. */
  predicate DayTour(t: Tour, vehicles: seq<Vehicle>, date: string) {
    |t.stops| > 0
    && IsNumbered(t.stops)
    && t.status == Planned
    && t.date == date
    && t.vehicle in vehicles
    && t.vehicleId == t.vehicle.id
    && ((t.color == Blue && TourLoad(t) <= t.vehicle.capacity)
        || (t.color == Amber && TourLoad(t) <= (t.vehicle.capacity * 6) / 5))
  }

  lemma {:induction false} AllStopOrdersAppend(a: seq<Tour>, b: seq<Tour>)
    ensures AllStopOrders(a + b) == AllStopOrders(a) + AllStopOrders(b)
  {
    if |a| > 0 {
      assert (a + b)[1..] == a[1..] + b;
      AllStopOrdersAppend(a[1..], b);
      RouteSequencer.AppendAssoc(StopOrders(a[0].stops), AllStopOrders(a[1..]), AllStopOrders(b));
    } else {
      assert a + b == b;
    }
  }

  /** Matched tours carry exactly the orders of their loads. */
  lemma {:induction false} ToursMatchOrders(tours: seq<Tour>, loads: seq<Load>, depot: Coord, dist: Dist,
                                            date: string, stamp: string, color: string)
    requires ToursMatch(tours, loads, depot, dist, date, stamp, color)
    ensures multiset(AllStopOrders(tours)) == multiset(LoadOrders(loads))
  {
    if |tours| > 0 {
      assert BuiltFrom(tours[0], loads[0], depot, dist, date, stamp, color);
      ToursMatchOrders(tours[1..], loads[1..], depot, dist, date, stamp, color);
    }
  }

  /** Matched tours are day tours when their loads are within limits. */
  lemma ToursMatchDayTours(tours: seq<Tour>, loads: seq<Load>, vehicles: seq<Vehicle>, second: bool,
                           depot: Coord, dist: Dist, date: string, stamp: string)
    requires ToursMatch(tours, loads, depot, dist, date, stamp, PassColor(second))
    requires LoadsWithinLimit(loads, vehicles, second)
    ensures forall k :: 0 <= k < |tours| ==> DayTour(tours[k], vehicles, date)
  {
    forall k | 0 <= k < |tours|
      ensures DayTour(tours[k], vehicles, date)
    {
      var t := tours[k];
      assert BuiltFrom(t, loads[k], depot, dist, date, stamp, PassColor(second));
      ContainersPermutation(StopOrders(t.stops), loads[k].orders);
    }
  }

  lemma LoadsWithinLimitWeaken(loads: seq<Load>, sub: seq<Vehicle>, vehicles: seq<Vehicle>, second: bool)
    requires LoadsWithinLimit(loads, sub, second)
    requires forall w :: w in sub ==> w in vehicles
    ensures LoadsWithinLimit(loads, vehicles, second)
  {
  }

  /** The two passes split the day's orders: each lands in one load or
      stays unassigned. */
  lemma PlanPartition(orders: seq<Order>, vehicles: seq<Vehicle>)
    ensures var plan := PlanForDate(orders, vehicles);
            multiset(LoadOrders(plan.first.loads)) + multiset(LoadOrders(plan.second.loads)) + multiset(plan.second.left)
            == multiset(orders)
  {
    var plan := PlanForDate(orders, vehicles);
    SortOrdersCorrect(orders);
    PackPartition(SortOrders(orders), vehicles, false);
    if |plan.first.left| > 0 && |vehicles| > 0 {
      PackPartition(plan.first.left, RemainingVehicles(vehicles, LoadIds(plan.first.loads)), true);
    }
  }

  /** First-pass loads stay within capacity, second-pass loads within
      `floor(capacity * 1.2)`, and both use the given vehicles. */
  lemma PlanWithinLimits(orders: seq<Order>, vehicles: seq<Vehicle>)
    ensures LoadsWithinLimit(PlanForDate(orders, vehicles).first.loads, vehicles, false)
    ensures LoadsWithinLimit(PlanForDate(orders, vehicles).second.loads, vehicles, true)
  {
    var plan := PlanForDate(orders, vehicles);
    PackWithinLimit(SortOrders(orders), vehicles, false);
    if |plan.first.left| > 0 && |vehicles| > 0 {
      var remaining := RemainingVehicles(vehicles, LoadIds(plan.first.loads));
      PackWithinLimit(plan.first.left, remaining, true);
      LoadsWithinLimitWeaken(plan.second.loads, remaining, vehicles, true);
    }
  }

  predicate AllDayTours(tours: seq<Tour>, vehicles: seq<Vehicle>, date: string) {
    forall k :: 0 <= k < |tours| ==> DayTour(tours[k], vehicles, date)
  }

  lemma AllDayToursAppend(a: seq<Tour>, b: seq<Tour>, vehicles: seq<Vehicle>, date: string)
    requires AllDayTours(a, vehicles, date) && AllDayTours(b, vehicles, date)
    ensures AllDayTours(a + b, vehicles, date)
  {
    forall k | 0 <= k < |a + b|
      ensures DayTour((a + b)[k], vehicles, date)
    {
      if k >= |a| {
        assert (a + b)[k] == b[k - |a|];
      } else {
        assert (a + b)[k] == a[k];
      }
    }
  }

  /** Each tour of a day is non-empty, numbered, planned, dated, uses one of
      the vehicles and stays within the ceiling of its colour. */
  lemma PlanDayTours(tours: seq<Tour>, orders: seq<Order>, vehicles: seq<Vehicle>, depot: Coord, dist: Dist,
                     date: string, stamp: string)
    requires ToursForPlan(tours, PlanForDate(orders, vehicles), depot, dist, date, stamp)
    ensures AllDayTours(tours, vehicles, date)
  {
    var plan := PlanForDate(orders, vehicles);
    var n := |plan.first.loads|;
    var blue, amber := tours[..n], tours[n..];
    PlanWithinLimits(orders, vehicles);
    ToursMatchDayTours(blue, plan.first.loads, vehicles, false, depot, dist, date, stamp);
    ToursMatchDayTours(amber, plan.second.loads, vehicles, true, depot, dist, date, stamp);
    AllDayToursAppend(blue, amber, vehicles, date);
    assert tours == blue + amber;
  }

  /** The tours of a day carry the day's orders, each at most once; what
      they do not carry is what the second pass leaves. */
  lemma PlanOrders(tours: seq<Tour>, orders: seq<Order>, vehicles: seq<Vehicle>, depot: Coord, dist: Dist,
                   date: string, stamp: string)
    requires ToursForPlan(tours, PlanForDate(orders, vehicles), depot, dist, date, stamp)
    ensures multiset(AllStopOrders(tours)) + multiset(PlanForDate(orders, vehicles).second.left) == multiset(orders)
  {
    var plan := PlanForDate(orders, vehicles);
    var n := |plan.first.loads|;
    var blue, amber := tours[..n], tours[n..];
    assert tours == blue + amber;
    AllStopOrdersAppend(blue, amber);
    assert multiset(AllStopOrders(tours)) == multiset(AllStopOrders(blue)) + multiset(AllStopOrders(amber));
    ToursMatchOrders(blue, plan.first.loads, depot, dist, date, stamp, Blue);
    ToursMatchOrders(amber, plan.second.loads, depot, dist, date, stamp, Amber);
    PlanPartition(orders, vehicles);
  }

  /** The second pass runs only when the first leaves orders and there are
      vehicles, and it uses only vehicles whose id got no first-pass load. */
  lemma PlanSecondPass(orders: seq<Order>, vehicles: seq<Vehicle>)
    ensures var plan := PlanForDate(orders, vehicles);
            (|plan.first.left| == 0 || |vehicles| == 0 ==> plan.second == Packing([], plan.first.left))
    ensures var plan := PlanForDate(orders, vehicles);
            forall k, m :: 0 <= k < |plan.second.loads| && 0 <= m < |plan.first.loads| ==>
              plan.second.loads[k].vehicle.id != plan.first.loads[m].vehicle.id
  {
    var plan := PlanForDate(orders, vehicles);
    if |plan.first.left| > 0 && |vehicles| > 0 {
      var used := LoadIds(plan.first.loads);
      var remaining := RemainingVehicles(vehicles, used);
      PackWithinLimit(plan.first.left, remaining, true);
      forall k, m | 0 <= k < |plan.second.loads| && 0 <= m < |plan.first.loads|
        ensures plan.second.loads[k].vehicle.id != plan.first.loads[m].vehicle.id
      {
        assert plan.second.loads[k].vehicle in remaining;
        assert used[m] == plan.first.loads[m].vehicle.id;
      }
    }
  }

  lemma NoLeftoverFitsSubset(loads: seq<Load>, a: seq<Order>, b: seq<Order>, second: bool)
    requires NoLeftoverFits(loads, a, second) && multiset(b) <= multiset(a)
    ensures NoLeftoverFits(loads, b, second)
  {
    forall k, y | 0 <= k < |loads| && y in b
      ensures Containers(loads[k].orders) + y.containerCount > Limit(loads[k].vehicle, second)
    {
      MultisetSubsetMember(b, a, y);
    }
  }

  /** Greedy maximality of the day: with non-negative container counts, no
      order that ends up unassigned would have fitted into any first-pass
      tour within capacity, or into any second-pass tour within its raised
      ceiling. */
  lemma PlanMaximal(orders: seq<Order>, vehicles: seq<Vehicle>)
    requires NonNegativeCounts(orders)
    ensures NoLeftoverFits(PlanForDate(orders, vehicles).first.loads, PlanForDate(orders, vehicles).second.left, false)
    ensures NoLeftoverFits(PlanForDate(orders, vehicles).second.loads, PlanForDate(orders, vehicles).second.left, true)
  {
    var plan := PlanForDate(orders, vehicles);
    var sorted := SortOrders(orders);
    SortOrdersCorrect(orders);
    NonNegativeSubset(sorted, orders);
    PackMaximal(sorted, vehicles, false);
    if |plan.first.left| > 0 && |vehicles| > 0 {
      var remaining := RemainingVehicles(vehicles, LoadIds(plan.first.loads));
      PackLeftSubset(sorted, vehicles, false);
      NonNegativeSubset(plan.first.left, sorted);
      PackMaximal(plan.first.left, remaining, true);
      PackLeftSubset(plan.first.left, remaining, true);
      NoLeftoverFitsSubset(plan.first.loads, plan.first.left, plan.second.left, false);
    }
  }

  /** A vehicle of the day that got no tour in either pass could not have
      taken any unassigned order on its own, even with the raised ceiling. */
  lemma PlanIdle(orders: seq<Order>, vehicles: seq<Vehicle>)
    ensures var plan := PlanForDate(orders, vehicles);
            forall w, y ::
              (w in vehicles && w.id !in LoadIds(plan.first.loads) && !HasLoad(plan.second.loads, w) && y in plan.second.left)
              ==> y.containerCount > Limit(w, true)
  {
    var plan := PlanForDate(orders, vehicles);
    if |plan.first.left| > 0 && |vehicles| > 0 {
      var remaining := RemainingVehicles(vehicles, LoadIds(plan.first.loads));
      PackIdle(plan.first.left, remaining, true);
    }
  }
}
