/**
 * Stop sequencing of the tour optimizer (utils/tourOptimizer.ts): the
 * nearest-neighbour construction `optimizeRoute` and the 2-opt improvement
 * `improve2Opt`.
 */
module RouteSequencer {
  import opened Types
  import opened RouteCostEvaluator

  // ------------------------------------------------ nearest neighbour

  /** The index the `forEach` scan settles on: the nearest stop to `pos`,
      and among equally near ones the first (the comparison is strict). */
  function FirstNearest(unvisited: seq<Order>, pos: Coord, dist: Dist): (k: nat)
    requires |unvisited| > 0
    ensures k < |unvisited|
    ensures forall j :: 0 <= j < |unvisited| ==> dist(pos, StopCoord(unvisited[k])) <= dist(pos, StopCoord(unvisited[j]))
    ensures forall j :: 0 <= j < k ==> dist(pos, StopCoord(unvisited[k])) < dist(pos, StopCoord(unvisited[j]))
  {
    var n := |unvisited|;
    if n == 1 then 0
    else
      var b := FirstNearest(unvisited[..n - 1], pos, dist);
      assert unvisited[b] == unvisited[..n - 1][b];
      if dist(pos, StopCoord(unvisited[n - 1])) < dist(pos, StopCoord(unvisited[b])) then n - 1 else b
  }

  /** The inner `forEach` of `optimizeRoute`. The source starts from an
      infinite best distance, so the first stop is always taken at first;
      here the scan starts with it. */
  method NearestIndex(unvisited: seq<Order>, pos: Coord, dist: Dist) returns (nearestIndex: nat)
    requires |unvisited| > 0
    ensures nearestIndex == FirstNearest(unvisited, pos, dist)
  {
    nearestIndex := 0;
    var nearestDistance := dist(pos, StopCoord(unvisited[0]));
    var index := 1;
    while index < |unvisited|
      invariant 1 <= index <= |unvisited|
      invariant nearestIndex == FirstNearest(unvisited[..index], pos, dist)
      invariant nearestDistance == dist(pos, StopCoord(unvisited[nearestIndex]))
    {
      FirstNearestStep(unvisited, pos, dist, index);
      var distance := dist(pos, StopCoord(unvisited[index]));
      if distance < nearestDistance {
        nearestDistance := distance;
        nearestIndex := index;
      }
      index := index + 1;
    }
    assert unvisited[..index] == unvisited;
  }

  /** One more stop of the scan: it is taken only when strictly nearer. */
  lemma FirstNearestStep(unvisited: seq<Order>, pos: Coord, dist: Dist, i: nat)
    requires 1 <= i < |unvisited|
    ensures var b := FirstNearest(unvisited[..i], pos, dist);
            FirstNearest(unvisited[..i + 1], pos, dist)
              == if dist(pos, StopCoord(unvisited[i])) < dist(pos, StopCoord(unvisited[b])) then i else b
  {
    assert unvisited[..i + 1][..i] == unvisited[..i];
    assert unvisited[..i + 1][i] == unvisited[i];
    var b := FirstNearest(unvisited[..i], pos, dist);
    assert unvisited[..i + 1][b] == unvisited[b];
  }

  /** The stop the scan settles on is at least as near as any stop of the
      list. */
  lemma FirstNearestBelowMembers(unvisited: seq<Order>, pos: Coord, dist: Dist, y: Order)
    requires y in multiset(unvisited)
    ensures dist(pos, StopCoord(unvisited[FirstNearest(unvisited, pos, dist)])) <= dist(pos, StopCoord(y))
  {
    var j :| 0 <= j < |unvisited| && unvisited[j] == y;
  }

  /** `unvisited.splice(k, 1)`. */
  function RemoveAt(s: seq<Order>, k: nat): (r: seq<Order>)
    requires k < |s|
    ensures |r| == |s| - 1
    ensures multiset(r) + multiset{s[k]} == multiset(s)
  {
    assert s == s[..k] + [s[k]] + s[k + 1..];
    s[..k] + s[k + 1..]
  }

  /** The route the construction builds from `pos`: the nearest unvisited
      stop, then the route from there over the others. */
  function NearestNeighbourRoute(unvisited: seq<Order>, pos: Coord, dist: Dist): seq<Order>
    decreases |unvisited|
  {
    if |unvisited| == 0 then []
    else
      var k := FirstNearest(unvisited, pos, dist);
      [unvisited[k]] + NearestNeighbourRoute(RemoveAt(unvisited, k), StopCoord(unvisited[k]), dist)
  }

  /** `optimizeRoute`: the `while (unvisited.length > 0)` loop. */
  method OptimizeRoute(orders: seq<Order>, depot: Coord, dist: Dist) returns (route: seq<Order>)
    ensures route == NearestNeighbourRoute(orders, depot, dist)
    ensures multiset(route) == multiset(orders)
  {
    NearestNeighbourPermutes(orders, depot, dist);
    if |orders| == 0 {
      return [];
    }
    var unvisited := orders;
    route := [];
    var current := depot;
    while |unvisited| > 0
      invariant route + NearestNeighbourRoute(unvisited, current, dist) == NearestNeighbourRoute(orders, depot, dist)
      decreases |unvisited|
    {
      var nearestIndex := NearestIndex(unvisited, current, dist);
      var nearestOrder := unvisited[nearestIndex];
      ghost var rest := RemoveAt(unvisited, nearestIndex);
      ghost var tail := NearestNeighbourRoute(rest, StopCoord(nearestOrder), dist);
      assert NearestNeighbourRoute(unvisited, current, dist) == [nearestOrder] + tail;
      AppendAssoc(route, [nearestOrder], tail);
      route := route + [nearestOrder];
      unvisited := unvisited[..nearestIndex] + unvisited[nearestIndex + 1..];
      assert unvisited == rest;
      current := StopCoord(nearestOrder);
    }
  }

  lemma AppendAssoc(a: seq<Order>, b: seq<Order>, c: seq<Order>)
    ensures (a + b) + c == a + (b + c)
  {
  }

  /** The construction visits every stop exactly once. */
  lemma {:induction false} NearestNeighbourPermutes(unvisited: seq<Order>, pos: Coord, dist: Dist)
    ensures multiset(NearestNeighbourRoute(unvisited, pos, dist)) == multiset(unvisited)
    decreases |unvisited|
  {
    if |unvisited| > 0 {
      var k := FirstNearest(unvisited, pos, dist);
      NearestNeighbourPermutes(RemoveAt(unvisited, k), StopCoord(unvisited[k]), dist);
    }
  }

  /** Where the vehicle stands before visiting stop `m` of `route`. */
  function PositionBefore(route: seq<Order>, m: nat, start: Coord): Coord
    requires m <= |route|
  {
    if m == 0 then start else StopCoord(route[m - 1])
  }

  /** Greedy choice: every stop of the constructed route is at least as near
      to the previous position as any stop visited after it. */
  lemma {:induction false} NearestNeighbourGreedy(unvisited: seq<Order>, pos: Coord, dist: Dist, m: nat, q: nat)
    requires m <= q < |NearestNeighbourRoute(unvisited, pos, dist)|
    ensures var r := NearestNeighbourRoute(unvisited, pos, dist);
            dist(PositionBefore(r, m, pos), StopCoord(r[m])) <= dist(PositionBefore(r, m, pos), StopCoord(r[q]))
    decreases |unvisited|
  {
    if m == 0 {
      NearestFirstGreedy(unvisited, pos, dist, q);
    } else {
      var r := NearestNeighbourRoute(unvisited, pos, dist);
      var k := FirstNearest(unvisited, pos, dist);
      var rest := RemoveAt(unvisited, k);
      var next := StopCoord(unvisited[k]);
      var tail := NearestNeighbourRoute(rest, next, dist);
      assert r == [unvisited[k]] + tail;
      NearestNeighbourGreedy(rest, next, dist, m - 1, q - 1);
      GreedyShift(r, tail, pos, next, dist, m, q);
    }
  }

  /** A comparison made on the rest of the route, seen one position later
      on the whole route. */
  lemma GreedyShift(r: seq<Order>, tail: seq<Order>, pos: Coord, next: Coord, dist: Dist, m: nat, q: nat)
    requires |r| == |tail| + 1 && r[1..] == tail && next == StopCoord(r[0])
    requires 1 <= m <= q < |r|
    requires dist(PositionBefore(tail, m - 1, next), StopCoord(tail[m - 1]))
               <= dist(PositionBefore(tail, m - 1, next), StopCoord(tail[q - 1]))
    ensures dist(PositionBefore(r, m, pos), StopCoord(r[m])) <= dist(PositionBefore(r, m, pos), StopCoord(r[q]))
  {
    assert r[m] == tail[m - 1] && r[q] == tail[q - 1];
    assert PositionBefore(tail, m - 1, next) == PositionBefore(r, m, pos);
  }

  /** The first stop of the route is the nearest to the start. */
  lemma NearestFirstGreedy(unvisited: seq<Order>, pos: Coord, dist: Dist, q: nat)
    requires q < |NearestNeighbourRoute(unvisited, pos, dist)|
    ensures var r := NearestNeighbourRoute(unvisited, pos, dist);
            dist(pos, StopCoord(r[0])) <= dist(pos, StopCoord(r[q]))
  {
    var r := NearestNeighbourRoute(unvisited, pos, dist);
    assert r[0] == unvisited[FirstNearest(unvisited, pos, dist)];
    NearestNeighbourPermutes(unvisited, pos, dist);
    assert r[q] in multiset(r);
    FirstNearestBelowMembers(unvisited, pos, dist, r[q]);
  }

  // -------------------------------------------------------------- 2-opt

  /** The route with the stops at positions i..j (inclusive) reversed. */
  function ReverseSegment(route: seq<Order>, i: nat, j: nat): (r: seq<Order>)
    requires i <= j < |route|
    ensures |r| == |route|
  {
    route[..i] + Reverse(route[i..j + 1]) + route[j + 1..]
  }

  lemma ReverseSegmentPermutes(route: seq<Order>, i: nat, j: nat)
    requires i <= j < |route|
    ensures multiset(ReverseSegment(route, i, j)) == multiset(route)
    ensures forall k :: 0 <= k < i ==> ReverseSegment(route, i, j)[k] == route[k]
  {
    ReversePermutes(route[i..j + 1]);
    assert route == route[..i] + route[i..j + 1] + route[j + 1..];
  }

  /** Reversing positions i..j does not make the route shorter. */
  ghost predicate NotImproving(route: seq<Order>, i: nat, j: nat, depot: Coord, dist: Dist)
    requires i <= j < |route|
  {
    RouteCost(ReverseSegment(route, i, j), depot, dist) >= RouteCost(route, depot, dist)
  }

  /** A move of the scan: i from 1, and j at least i + 2 (adjacent edges
      are skipped). */
  predicate IsMove(n: int, i: int, j: int) {
    1 <= i && i + 2 <= j < n
  }

  /** No move the improvement tries shortens the route. */
  ghost predicate TwoOptLocalOptimum(route: seq<Order>, depot: Coord, dist: Dist) {
    forall i, j :: IsMove(|route|, i, j) ==> NotImproving(route, i, j, depot, dist)
  }

  /** What a step of 2-opt keeps: the same stops, the same first stop. */
  predicate SameStops(r: seq<Order>, route: seq<Order>) {
    |r| == |route| && multiset(r) == multiset(route) && (|route| > 0 ==> r[0] == route[0])
  }

  /** One move (i, j): reverse the segment and keep it when it is
      strictly shorter. */
  method TryMove(route: seq<Order>, i: nat, j: nat, depot: Coord, dist: Dist)
    returns (next: seq<Order>, better: bool)
    requires 1 <= i <= j < |route|
    ensures SameStops(next, route)
    ensures better ==> RouteCost(next, depot, dist) < RouteCost(route, depot, dist)
    ensures !better ==> next == route && NotImproving(route, i, j, depot, dist)
  {
    var newRoute := ReverseSegment(route, i, j);
    ReverseSegmentPermutes(route, i, j);
    var currentDistance := RouteDistance(route, depot, dist);
    var newDistance := RouteDistance(newRoute, depot, dist);
    if newDistance < currentDistance {
      next, better := newRoute, true;
    } else {
      next, better := route, false;
    }
  }

  /** The moves (i, j') with j' < j, for one left end i. */
  method TryRightEnds(route: seq<Order>, i: nat, depot: Coord, dist: Dist)
    returns (best: seq<Order>, improved: bool)
    requires 1 <= i && i + 2 < |route|
    ensures SameStops(best, route)
    ensures RouteCost(best, depot, dist) <= RouteCost(route, depot, dist)
    ensures improved ==> RouteCost(best, depot, dist) < RouteCost(route, depot, dist)
    ensures !improved ==> best == route && forall j :: IsMove(|route|, i, j) ==> NotImproving(route, i, j, depot, dist)
  {
    best, improved := route, false;
    var j := i + 1;
    while j < |best|
      invariant i + 1 <= j <= |best|
      invariant SameStops(best, route)
      invariant RouteCost(best, depot, dist) <= RouteCost(route, depot, dist)
      invariant improved ==> RouteCost(best, depot, dist) < RouteCost(route, depot, dist)
      invariant !improved ==> best == route && forall j' :: i + 2 <= j' < j ==> NotImproving(route, i, j', depot, dist)
    {
      if j - i != 1 {
        var next, better := TryMove(best, i, j, depot, dist);
        best := next;
        improved := improved || better;
      }
      j := j + 1;
    }
  }

  /** One pass of the `for i` / `for j` loops: every improving move is
      adopted at once and the scan goes on from the new route. */
  method TwoOptPass(route: seq<Order>, depot: Coord, dist: Dist)
    returns (best: seq<Order>, improved: bool)
    requires |route| >= 4
    ensures SameStops(best, route)
    ensures RouteCost(best, depot, dist) <= RouteCost(route, depot, dist)
    ensures improved ==> RouteCost(best, depot, dist) < RouteCost(route, depot, dist)
    ensures !improved ==> best == route && TwoOptLocalOptimum(route, depot, dist)
  {
    best, improved := route, false;
    var i := 1;
    while i < |best| - 2
      invariant 1 <= i <= |best| - 2
      invariant SameStops(best, route)
      invariant RouteCost(best, depot, dist) <= RouteCost(route, depot, dist)
      invariant improved ==> RouteCost(best, depot, dist) < RouteCost(route, depot, dist)
      invariant !improved ==> best == route && forall i', j :: IsMove(|route|, i', j) && i' < i ==> NotImproving(route, i', j, depot, dist)
    {
      var next, better := TryRightEnds(best, i, depot, dist);
      best := next;
      improved := improved || better;
      i := i + 1;
    }
  }

  /** `improve2Opt`, with at most `maxPasses` passes of the `while
      (improved)` loop. `converged` is false only when the passes ran out
      while the last one still improved the route. */
  method Improve2Opt(route: seq<Order>, depot: Coord, dist: Dist, maxPasses: nat)
    returns (best: seq<Order>, converged: bool)
    ensures |route| < 4 ==> best == route && converged
    ensures multiset(best) == multiset(route) && |best| == |route|
    ensures |route| > 0 ==> best[0] == route[0]
    ensures RouteCost(best, depot, dist) <= RouteCost(route, depot, dist)
    ensures converged ==> TwoOptLocalOptimum(best, depot, dist)
  {
    if |route| < 4 {
      return route, true;
    }
    var improved := true;
    best := route;
    var passes := 0;
    while improved && passes < maxPasses
      invariant SameStops(best, route)
      invariant RouteCost(best, depot, dist) <= RouteCost(route, depot, dist)
      invariant !improved ==> TwoOptLocalOptimum(best, depot, dist)
      decreases maxPasses - passes
    {
      best, improved := TwoOptPass(best, depot, dist);
      passes := passes + 1;
    }
    converged := !improved;
  }
}
