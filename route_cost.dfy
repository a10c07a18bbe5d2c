/**
 * Route cost of the tour optimizer (utils/tourOptimizer.ts): where a stop
 * is, and the length of the round trip depot -> stop 1 -> ... -> stop N ->
 * depot. The great-circle distance is a parameter `dist`; the properties
 * that need it symmetric or non-negative say so.
 */
module RouteCostEvaluator {
  import opened Wrappers
  import opened Types

  /** A distance function between two points (the Haversine formula in the
      application). */
  type Dist = (Coord, Coord) -> real

  ghost predicate Symmetric(dist: Dist) {
    forall a, b :: dist(a, b) == dist(b, a)
  }

  ghost predicate NonNegative(dist: Dist) {
    forall a, b :: dist(a, b) >= 0.0
  }

  /** The point used when a customer has no usable coordinate. */
  const FallbackLatitude: real := 52.5200
  const FallbackLongitude: real := 13.4050

  /** `value || fallback` on an optional number: an absent value and a
      value of 0 both give the fallback. */
  function OrFallback(value: Option<real>, fallback: real): (r: real)
    ensures value.Some? && value.value != 0.0 ==> r == value.value
    ensures value.None? || value.value == 0.0 ==> r == fallback
  {
    if value.Some? && value.value != 0.0 then value.value else fallback
  }

  /** Where a customer is delivered to. */
  function CustomerCoord(c: Customer): Coord {
    Coord(OrFallback(c.latitude, FallbackLatitude), OrFallback(c.longitude, FallbackLongitude))
  }

  /** Where an order is delivered to. */
  function StopCoord(o: Order): Coord {
    CustomerCoord(o.customer)
  }

  function DepotCoord(d: Depot): Coord {
    Coord(d.latitude, d.longitude)
  }

  /** A customer at latitude 0 (or longitude 0) is placed at the fallback
      latitude (or longitude), exactly like one without that coordinate. */
  lemma ZeroCoordinateIsMissing(c: Customer)
    ensures c.latitude == Some(0.0) ==> CustomerCoord(c).latitude == CustomerCoord(c.(latitude := None)).latitude == FallbackLatitude
    ensures c.longitude == Some(0.0) ==> CustomerCoord(c).longitude == CustomerCoord(c.(longitude := None)).longitude == FallbackLongitude
  {
  }

  /** Sum of the legs between consecutive stops. */
  function Legs(route: seq<Order>, dist: Dist): real {
    if |route| <= 1 then 0.0
    else Legs(route[..|route| - 1], dist) + dist(StopCoord(route[|route| - 2]), StopCoord(route[|route| - 1]))
  }

  /** depot -> first stop, the legs between stops, last stop -> depot;
      0 for an empty route. */
  function RouteCost(route: seq<Order>, depot: Coord, dist: Dist): real {
    if |route| == 0 then 0.0
    else dist(depot, StopCoord(route[0])) + Legs(route, dist) + dist(StopCoord(route[|route| - 1]), depot)
  }

  /** `calculateRouteDistance`: the loop that adds up the legs. */
  method RouteDistance(route: seq<Order>, depot: Coord, dist: Dist) returns (total: real)
    ensures total == RouteCost(route, depot, dist)
  {
    if |route| == 0 {
      return 0.0;
    }
    total := 0.0;
    total := total + dist(depot, StopCoord(route[0]));
    var i := 0;
    while i < |route| - 1
      invariant 0 <= i <= |route| - 1
      invariant total == dist(depot, StopCoord(route[0])) + Legs(route[..i + 1], dist)
    {
      assert route[..i + 2][..i + 1] == route[..i + 1];
      total := total + dist(StopCoord(route[i]), StopCoord(route[i + 1]));
      i := i + 1;
    }
    assert route[..|route|] == route;
    total := total + dist(StopCoord(route[|route| - 1]), depot);
  }

  /** With non-negative distances every route costs at least 0. */
  lemma {:induction false} LegsNonNegative(route: seq<Order>, dist: Dist)
    requires NonNegative(dist)
    ensures Legs(route, dist) >= 0.0
  {
    if |route| > 1 { LegsNonNegative(route[..|route| - 1], dist); }
  }

  lemma RouteCostNonNegative(route: seq<Order>, depot: Coord, dist: Dist)
    requires NonNegative(dist)
    ensures RouteCost(route, depot, dist) >= 0.0
  {
    LegsNonNegative(route, dist);
  }

  /** A one-stop route is the way out and back. */
  lemma SingleStopCost(o: Order, depot: Coord, dist: Dist)
    requires Symmetric(dist)
    ensures RouteCost([o], depot, dist) == 2.0 * dist(depot, StopCoord(o))
  {
  }

  // ------------------------------------------------------------ reversal

  function Reverse<T>(s: seq<T>): (r: seq<T>)
    ensures |r| == |s|
    ensures forall i :: 0 <= i < |s| ==> r[i] == s[|s| - 1 - i]
  {
    seq(|s|, i requires 0 <= i < |s| => s[|s| - 1 - i])
  }

  lemma ReverseSplit<T>(s: seq<T>)
    requires |s| > 0
    ensures Reverse(s) == [s[|s| - 1]] + Reverse(s[..|s| - 1])
  {
  }

  lemma {:induction false} ReversePermutes<T>(s: seq<T>)
    ensures multiset(Reverse(s)) == multiset(s)
  {
    if |s| > 0 {
      ReverseSplit(s);
      ReversePermutes(s[..|s| - 1]);
      assert s == s[..|s| - 1] + [s[|s| - 1]];
    }
  }

  /** Legs of a route with a stop put in front. */
  lemma {:induction false} LegsCons(x: Order, route: seq<Order>, dist: Dist)
    requires |route| > 0
    ensures Legs([x] + route, dist) == dist(StopCoord(x), StopCoord(route[0])) + Legs(route, dist)
    decreases |route|
  {
    var r := [x] + route;
    if |route| > 1 {
      assert r[..|r| - 1] == [x] + route[..|route| - 1];
      LegsCons(x, route[..|route| - 1], dist);
    } else {
      assert r[..|r| - 1] == [x];
    }
  }

  /** With a symmetric distance, the legs of the reversed route add up to
      the same. */
  lemma {:induction false} LegsReverse(route: seq<Order>, dist: Dist)
    requires Symmetric(dist)
    ensures Legs(Reverse(route), dist) == Legs(route, dist)
    decreases |route|
  {
    if |route| > 1 {
      var n := |route|;
      var init := route[..n - 1];
      ReverseSplit(route);
      LegsCons(route[n - 1], Reverse(init), dist);
      LegsReverse(init, dist);
      assert Reverse(init)[0] == route[n - 2];
    }
  }

  /** A route and its reverse cost the same when `dist` is symmetric. */
  lemma RouteCostReverse(route: seq<Order>, depot: Coord, dist: Dist)
    requires Symmetric(dist)
    ensures RouteCost(Reverse(route), depot, dist) == RouteCost(route, depot, dist)
  {
    LegsReverse(route, dist);
  }
}
