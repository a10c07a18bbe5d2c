/**
 * Capacity packing of `generateToursForDate` (utils/tourOptimizer.ts): the
 * sort of a day's orders, the scan that fills one vehicle from the end of
 * the unassigned list, and the passes over the vehicles.
 */
module CapacityPacking {
  import opened Types
  import RouteSequencer

  // ------------------------------------------------------------ sorting

  /** `priorityOrder`: high 3, medium 2, low 1. */
  function Rank(p: Priority): (r: int)
    ensures 1 <= r <= 3
    ensures r == 3 <==> p == High
    ensures r == 1 <==> p == Low
  {
    match p
    case High => 3
    case Medium => 2
    case Low => 1
  }

  /** The comparator handed to `sort`: negative when `a` goes first, that
      is when `a` has the higher priority, or the same priority and more
      containers. */
  function Compare(a: Order, b: Order): int {
    var priorityDiff := Rank(b.priority) - Rank(a.priority);
    if priorityDiff != 0 then priorityDiff else b.containerCount - a.containerCount
  }

  /** `a` may stand before `b` in the sorted list. */
  predicate NotAfter(a: Order, b: Order) {
    Compare(a, b) <= 0
  }

  lemma CompareMeaning(a: Order, b: Order)
    ensures NotAfter(a, b) <==>
              Rank(a.priority) > Rank(b.priority)
              || (Rank(a.priority) == Rank(b.priority) && a.containerCount >= b.containerCount)
    ensures Compare(a, b) == -Compare(b, a)
  {
  }

  lemma NotAfterTransitive(a: Order, b: Order, c: Order)
    requires NotAfter(a, b) && NotAfter(b, c)
    ensures NotAfter(a, c)
  {
    CompareMeaning(a, b);
    CompareMeaning(b, c);
    CompareMeaning(a, c);
  }

  predicate SortedOrders(s: seq<Order>) {
    forall i, j :: 0 <= i < j < |s| ==> NotAfter(s[i], s[j])
  }

  /** Puts `x` after the orders that go strictly before it and before the
      ones it ties with; `x` came first in the input, so ties keep their
      input order (the sort is stable). */
  function Insert(x: Order, s: seq<Order>): seq<Order> {
    if |s| == 0 then [x]
    else if Compare(s[0], x) < 0 then [s[0]] + Insert(x, s[1..])
    else [x] + s
  }

  /** `orders.sort(...)` with the comparator above. */
  function SortOrders(s: seq<Order>): seq<Order> {
    if |s| == 0 then [] else Insert(s[0], SortOrders(s[1..]))
  }

  lemma {:induction false} InsertSorted(x: Order, s: seq<Order>)
    requires SortedOrders(s)
    ensures multiset(Insert(x, s)) == multiset(s) + multiset{x}
    ensures SortedOrders(Insert(x, s))
  {
    if |s| == 0 {
    } else if Compare(s[0], x) < 0 {
      SortedTail(s);
      var t := Insert(x, s[1..]);
      InsertSorted(x, s[1..]);
      assert forall k :: 0 <= k < |s[1..]| ==> NotAfter(s[0], s[1..][k]) by {
        forall k | 0 <= k < |s[1..]| ensures NotAfter(s[0], s[1..][k]) {
          assert s[1..][k] == s[k + 1];
        }
      }
      BoundByMembers(s[0], s[1..], x, t);
      SortedCons(s[0], t);
      assert Insert(x, s) == [s[0]] + t;
      assert multiset(Insert(x, s)) == multiset(s) + multiset{x} by {
        assert multiset([s[0]] + t) == multiset{s[0]} + multiset(t);
        assert s == [s[0]] + s[1..];
      }
    } else {
      CompareMeaning(s[0], x);
      forall j | 0 <= j < |s|
        ensures NotAfter(x, s[j])
      {
        if j > 0 {
          NotAfterTransitive(x, s[0], s[j]);
        }
      }
      SortedCons(x, s);
      assert Insert(x, s) == [x] + s;
      assert multiset([x] + s) == multiset{x} + multiset(s);
    }
  }

  /** A bound on every member of `s` and on `x` bounds every member of a
      list holding exactly those. */
  lemma BoundByMembers(h: Order, s: seq<Order>, x: Order, t: seq<Order>)
    requires forall k :: 0 <= k < |s| ==> NotAfter(h, s[k])
    requires NotAfter(h, x)
    requires multiset(t) == multiset(s) + multiset{x}
    ensures forall j :: 0 <= j < |t| ==> NotAfter(h, t[j])
  {
    forall j | 0 <= j < |t| ensures NotAfter(h, t[j]) {
      assert t[j] in multiset(t);
      if t[j] != x {
        assert t[j] in multiset(s);
        var k :| 0 <= k < |s| && s[k] == t[j];
      }
    }
  }

  lemma SortedTail(s: seq<Order>)
    requires SortedOrders(s) && |s| > 0
    ensures SortedOrders(s[1..])
  {
    forall i, j | 0 <= i < j < |s| - 1 ensures NotAfter(s[1..][i], s[1..][j]) {
      assert s[1..][i] == s[i + 1] && s[1..][j] == s[j + 1];
    }
  }

  lemma SortedCons(h: Order, t: seq<Order>)
    requires SortedOrders(t)
    requires forall j :: 0 <= j < |t| ==> NotAfter(h, t[j])
    ensures SortedOrders([h] + t)
  {
    var s := [h] + t;
    forall i, j | 0 <= i < j < |s| ensures NotAfter(s[i], s[j]) {
      assert s[j] == t[j - 1];
      if i > 0 {
        assert s[i] == t[i - 1];
      }
    }
  }

  /** The orders of `s` that compare equal to `k`, in their order in `s`. */
  function TiesWith(s: seq<Order>, k: Order): (r: seq<Order>)
    ensures forall j :: 0 <= j < |r| ==> Compare(r[j], k) == 0
  {
    if |s| == 0 then []
    else (if Compare(s[0], k) == 0 then [s[0]] else []) + TiesWith(s[1..], k)
  }

  lemma TiesWithCons(x: Order, s: seq<Order>, k: Order)
    ensures TiesWith([x] + s, k) == (if Compare(x, k) == 0 then [x] else []) + TiesWith(s, k)
  {
    assert ([x] + s)[1..] == s;
  }

  /** Inserting `x` passes only orders that go strictly before it, none of
      which ties with anything `x` ties with. */
  lemma {:induction false} InsertStable(x: Order, s: seq<Order>, k: Order)
    ensures TiesWith(Insert(x, s), k) == TiesWith([x] + s, k)
  {
    if |s| > 0 && Compare(s[0], x) < 0 {
      var rest := Insert(x, s[1..]);
      assert Insert(x, s) == [s[0]] + rest;
      var tieHead := if Compare(s[0], k) == 0 then [s[0]] else [];
      var tieX := if Compare(x, k) == 0 then [x] else [];
      var tail := TiesWith(s[1..], k);
      InsertStable(x, s[1..], k);
      TiesWithCons(x, s[1..], k);
      TiesWithCons(s[0], rest, k);
      assert TiesWith(Insert(x, s), k) == tieHead + (tieX + tail);
      assert s == [s[0]] + s[1..];
      TiesWithCons(s[0], s[1..], k);
      TiesWithCons(x, s, k);
      assert TiesWith([x] + s, k) == tieX + (tieHead + tail);
      TiesExclusive(s[0], x, k);
      SwapEmpty(tieHead, tieX, tail);
    } else {
      assert Insert(x, s) == [x] + s;
    }
  }

  lemma SwapEmpty(a: seq<Order>, b: seq<Order>, t: seq<Order>)
    requires |a| == 0 || |b| == 0
    ensures a + (b + t) == b + (a + t)
  {
    if |a| == 0 {
      assert a + (b + t) == b + t == b + (a + t);
    } else {
      assert a + (b + t) == a + t == b + (a + t);
    }
  }

  lemma TiesExclusive(a: Order, x: Order, k: Order)
    requires Compare(a, x) < 0
    ensures !(Compare(a, k) == 0 && Compare(x, k) == 0)
  {
  }

  /** The sort is stable: orders that compare equal keep their input order. */
  lemma {:induction false} SortOrdersStable(s: seq<Order>, k: Order)
    ensures TiesWith(SortOrders(s), k) == TiesWith(s, k)
  {
    if |s| > 0 {
      SortOrdersStable(s[1..], k);
      InsertStable(s[0], SortOrders(s[1..]), k);
      TiesWithCons(s[0], SortOrders(s[1..]), k);
      TiesWithCons(s[0], s[1..], k);
      assert s == [s[0]] + s[1..];
    }
  }

  /** The sorted list is a permutation of the input, in comparator order. */
  lemma {:induction false} SortOrdersCorrect(s: seq<Order>)
    ensures multiset(SortOrders(s)) == multiset(s)
    ensures SortedOrders(SortOrders(s))
  {
    if |s| > 0 {
      SortOrdersCorrect(s[1..]);
      InsertSorted(s[0], SortOrders(s[1..]));
      assert s == [s[0]] + s[1..];
    }
  }

  // ------------------------------------------------------ one vehicle

  /** Total containers of a list of orders. */
  function Containers(s: seq<Order>): int {
    if |s| == 0 then 0 else s[0].containerCount + Containers(s[1..])
  }

  predicate NonNegativeCounts(s: seq<Order>) {
    forall k :: 0 <= k < |s| ==> s[k].containerCount >= 0
  }

  /** What the scan over one vehicle produces: the orders pushed onto the
      vehicle (in push order), the orders left in the list (in list
      order) and the final container total. */
  datatype Batch = Batch(taken: seq<Order>, kept: seq<Order>, total: int)

  /** The `for (let i = unassignedOrders.length - 1; i >= 0; i--)` scan,
      starting from `used` containers: the last order is tried first and
      taken when it fits under `limit`. */
  function Fill(pool: seq<Order>, limit: int, used: int): Batch
    decreases |pool|
  {
    if |pool| == 0 then Batch([], [], used)
    else
      var x := pool[|pool| - 1];
      if used + x.containerCount <= limit then
        var b := Fill(pool[..|pool| - 1], limit, used + x.containerCount);
        Batch([x] + b.taken, b.kept, b.total)
      else
        var b := Fill(pool[..|pool| - 1], limit, used);
        Batch(b.taken, b.kept + [x], b.total)
  }

  /** The scan of utils/tourOptimizer.ts with `push` and `splice`. */
  method FillVehicle(pool: seq<Order>, limit: int)
    returns (vehicleOrders: seq<Order>, unassigned: seq<Order>, totalContainers: int)
    ensures Batch(vehicleOrders, unassigned, totalContainers) == Fill(pool, limit, 0)
  {
    vehicleOrders, unassigned, totalContainers := [], pool, 0;
    var i := |pool| - 1;
    assert pool[..i + 1] == pool;
    assert unassigned[i + 1..] == [];
    while i >= 0
      invariant -1 <= i < |pool|
      invariant i + 1 <= |unassigned| && unassigned[..i + 1] == pool[..i + 1]
      invariant var b := Fill(pool[..i + 1], limit, totalContainers);
                Fill(pool, limit, 0) == Batch(vehicleOrders + b.taken, b.kept + unassigned[i + 1..], b.total)
    {
      var order := unassigned[i];
      assert order == pool[..i + 1][i];
      assert pool[..i + 1][..i] == pool[..i];
      ghost var suffix := unassigned[i + 1..];
      if totalContainers + order.containerCount <= limit {
        ghost var b := Fill(pool[..i], limit, totalContainers + order.containerCount);
        RouteSequencer.AppendAssoc(vehicleOrders, [order], b.taken);
        vehicleOrders := vehicleOrders + [order];
        totalContainers := totalContainers + order.containerCount;
        unassigned := unassigned[..i] + unassigned[i + 1..];
        assert unassigned[i..] == suffix;
        assert unassigned[..i] == pool[..i];
      } else {
        ghost var b := Fill(pool[..i], limit, totalContainers);
        RouteSequencer.AppendAssoc(b.kept, [order], suffix);
        assert unassigned[i..] == [order] + suffix;
        assert unassigned[..i] == pool[..i];
      }
      i := i - 1;
    }
  }

  lemma {:induction false} ContainersAppend(a: seq<Order>, b: seq<Order>)
    ensures Containers(a + b) == Containers(a) + Containers(b)
  {
    if |a| > 0 {
      assert (a + b)[1..] == a[1..] + b;
      ContainersAppend(a[1..], b);
    } else {
      assert a + b == b;
    }
  }

  /** Taking out one order takes out its containers. */
  lemma {:induction false} ContainersRemove(b: seq<Order>, k: nat)
    requires k < |b|
    ensures Containers(b) == b[k].containerCount + Containers(b[..k] + b[k + 1..])
    ensures multiset(b[..k] + b[k + 1..]) == multiset(b) - multiset{b[k]}
  {
    var front, back := b[..k], b[k + 1..];
    var mid := [b[k]] + back;
    assert b == front + mid;
    assert mid[1..] == back;
    assert Containers(mid) == b[k].containerCount + Containers(back);
    ContainersAppend(front, mid);
    ContainersAppend(front, back);
    assert multiset(b) == multiset(front) + multiset{b[k]} + multiset(back);
  }

  /** The total does not depend on the order of the orders. */
  lemma {:induction false} ContainersPermutation(a: seq<Order>, b: seq<Order>)
    requires multiset(a) == multiset(b)
    ensures Containers(a) == Containers(b)
    decreases |a|
  {
    if |a| > 0 {
      var x := a[0];
      assert x in multiset(b);
      var k :| 0 <= k < |b| && b[k] == x;
      ContainersRemove(b, k);
      assert a == [x] + a[1..];
      assert multiset(a[1..]) == multiset(a) - multiset{x};
      ContainersPermutation(a[1..], b[..k] + b[k + 1..]);
    }
  }

  /** The scan splits the list: every order is either taken or kept. */
  lemma {:induction false} FillPartition(pool: seq<Order>, limit: int, used: int)
    ensures multiset(Fill(pool, limit, used).taken) + multiset(Fill(pool, limit, used).kept) == multiset(pool)
    decreases |pool|
  {
    if |pool| > 0 {
      var init, x := pool[..|pool| - 1], pool[|pool| - 1];
      if used + x.containerCount <= limit {
        var b := Fill(init, limit, used + x.containerCount);
        assert Fill(pool, limit, used) == Batch([x] + b.taken, b.kept, b.total);
        FillPartition(init, limit, used + x.containerCount);
        SplitLast(pool, b.taken, b.kept);
      } else {
        var b := Fill(init, limit, used);
        assert Fill(pool, limit, used) == Batch(b.taken, b.kept + [x], b.total);
        FillPartition(init, limit, used);
        SplitLast(pool, b.taken, b.kept);
      }
    }
  }

  /** Adding the last element to either side of a split of the rest keeps
      it a split. */
  lemma SplitLast<T>(whole: seq<T>, taken: seq<T>, kept: seq<T>)
    requires |whole| > 0
    requires multiset(taken) + multiset(kept) == multiset(whole[..|whole| - 1])
    ensures multiset([whole[|whole| - 1]] + taken) + multiset(kept) == multiset(whole)
    ensures multiset(taken) + multiset(kept + [whole[|whole| - 1]]) == multiset(whole)
  {
    var init, x := whole[..|whole| - 1], whole[|whole| - 1];
    assert whole == init + [x];
    assert multiset(whole) == multiset(init) + multiset{x};
    assert multiset([x] + taken) == multiset{x} + multiset(taken);
    assert multiset(kept + [x]) == multiset(kept) + multiset{x};
  }

  lemma FillKeptSubset(pool: seq<Order>, limit: int, used: int)
    ensures multiset(Fill(pool, limit, used).kept) <= multiset(pool)
  {
    FillPartition(pool, limit, used);
  }

  lemma FillKeptNonNegative(pool: seq<Order>, limit: int, used: int)
    requires NonNegativeCounts(pool)
    ensures NonNegativeCounts(Fill(pool, limit, used).kept)
  {
    FillKeptSubset(pool, limit, used);
    NonNegativeSubset(Fill(pool, limit, used).kept, pool);
  }

  /** The final total is the start plus the taken orders' containers, and
      it stays within the limit once something was taken (and whenever the
      start was within it). */
  lemma {:induction false} FillWithinLimit(pool: seq<Order>, limit: int, used: int)
    ensures var b := Fill(pool, limit, used);
            b.total == used + Containers(b.taken)
            && (|b.taken| > 0 || used <= limit ==> b.total <= limit)
    decreases |pool|
  {
    if |pool| > 0 {
      var x := pool[|pool| - 1];
      if used + x.containerCount <= limit {
        FillWithinLimit(pool[..|pool| - 1], limit, used + x.containerCount);
      } else {
        FillWithinLimit(pool[..|pool| - 1], limit, used);
      }
    }
  }

  /** Every kept order exceeds what `total` leaves of `limit`. */
  predicate KeptExceed(kept: seq<Order>, total: int, limit: int) {
    forall y :: y in kept ==> total + y.containerCount > limit
  }

  lemma NonNegativeInit(pool: seq<Order>)
    requires |pool| > 0 && NonNegativeCounts(pool)
    ensures NonNegativeCounts(pool[..|pool| - 1])
  {
    var init := pool[..|pool| - 1];
    forall k | 0 <= k < |init| ensures init[k].containerCount >= 0 {
      assert init[k] == pool[k];
    }
  }

  /** Greedy maximality: with non-negative counts no kept order would have
      fitted in the space the vehicle has left at the end. */
  lemma {:induction false} FillMaximal(pool: seq<Order>, limit: int, used: int)
    requires NonNegativeCounts(pool)
    ensures Fill(pool, limit, used).total >= used
    ensures KeptExceed(Fill(pool, limit, used).kept, Fill(pool, limit, used).total, limit)
    decreases |pool|
  {
    if |pool| > 0 {
      var x := pool[|pool| - 1];
      NonNegativeInit(pool);
      if used + x.containerCount <= limit {
        FillMaximal(pool[..|pool| - 1], limit, used + x.containerCount);
      } else {
        FillMaximal(pool[..|pool| - 1], limit, used);
      }
    }
  }

  /** When the scan takes nothing, every order exceeds the space on its
      own. */
  lemma {:induction false} FillNothingTaken(pool: seq<Order>, limit: int, used: int)
    requires |Fill(pool, limit, used).taken| == 0
    ensures Fill(pool, limit, used).total == used
    ensures KeptExceed(Fill(pool, limit, used).kept, used, limit)
    decreases |pool|
  {
    if |pool| > 0 {
      FillNothingTaken(pool[..|pool| - 1], limit, used);
    }
  }

  // ----------------------------------------------------------- passes

  /** The orders one vehicle gets in a pass. */
  datatype Load = Load(vehicle: Vehicle, orders: seq<Order>)

  /** A pass over the vehicles: the non-empty loads in vehicle order, and
      what stays unassigned. */
  datatype Packing = Packing(loads: seq<Load>, left: seq<Order>)

  /** The ceiling of a pass: the capacity in the first pass,
      `Math.floor(capacity * 1.2)` in the second. */
  function Limit(v: Vehicle, second: bool): (r: int)
    ensures !second ==> r == v.capacity
    ensures second ==> 5 * r <= 6 * v.capacity < 5 * r + 5
  {
    if second then (v.capacity * 6) / 5 else v.capacity
  }

  /** One pass: each vehicle in turn runs the scan over what is still
      unassigned, and gets a load when the scan took something. The second
      pass stops as soon as nothing is left. */
  function Pack(pool: seq<Order>, vehicles: seq<Vehicle>, second: bool): Packing
    decreases |vehicles|
  {
    if |vehicles| == 0 || (second && |pool| == 0) then Packing([], pool)
    else
      var b := Fill(pool, Limit(vehicles[0], second), 0);
      var rest := Pack(b.kept, vehicles[1..], second);
      Packing((if |b.taken| > 0 then [Load(vehicles[0], b.taken)] else []) + rest.loads, rest.left)
  }

  /** All orders of a list of loads, load after load. */
  function LoadOrders(loads: seq<Load>): seq<Order> {
    if |loads| == 0 then [] else loads[0].orders + LoadOrders(loads[1..])
  }

  lemma {:induction false} LoadOrdersAppend(a: seq<Load>, b: seq<Load>)
    ensures LoadOrders(a + b) == LoadOrders(a) + LoadOrders(b)
  {
    if |a| > 0 {
      assert (a + b)[1..] == a[1..] + b;
      LoadOrdersAppend(a[1..], b);
      RouteSequencer.AppendAssoc(a[0].orders, LoadOrders(a[1..]), LoadOrders(b));
    } else {
      assert a + b == b;
    }
  }

  /** Each order either lands in exactly one load or stays unassigned. */
  lemma {:induction false} PackPartition(pool: seq<Order>, vehicles: seq<Vehicle>, second: bool)
    ensures var p := Pack(pool, vehicles, second);
            multiset(LoadOrders(p.loads)) + multiset(p.left) == multiset(pool)
    decreases |vehicles|
  {
    if !(|vehicles| == 0 || (second && |pool| == 0)) {
      var b := Fill(pool, Limit(vehicles[0], second), 0);
      var rest := Pack(b.kept, vehicles[1..], second);
      FillPartition(pool, Limit(vehicles[0], second), 0);
      PackPartition(b.kept, vehicles[1..], second);
      var first := if |b.taken| > 0 then [Load(vehicles[0], b.taken)] else [];
      LoadOrdersAppend(first, rest.loads);
      assert LoadOrders(first) == b.taken by {
        if |b.taken| > 0 {
          assert first[1..] == [];
        }
      }
    }
  }

  lemma PackLeftSubset(pool: seq<Order>, vehicles: seq<Vehicle>, second: bool)
    ensures multiset(Pack(pool, vehicles, second).left) <= multiset(pool)
  {
    PackPartition(pool, vehicles, second);
  }

  /** Every load is non-empty, belongs to one of the vehicles, and stays
      within that vehicle's ceiling for the pass. */
  predicate LoadsWithinLimit(loads: seq<Load>, vehicles: seq<Vehicle>, second: bool) {
    forall k :: 0 <= k < |loads| ==>
      |loads[k].orders| > 0
      && loads[k].vehicle in vehicles
      && Containers(loads[k].orders) <= Limit(loads[k].vehicle, second)
  }

  lemma {:induction false} PackWithinLimit(pool: seq<Order>, vehicles: seq<Vehicle>, second: bool)
    ensures LoadsWithinLimit(Pack(pool, vehicles, second).loads, vehicles, second)
    decreases |vehicles|
  {
    if !(|vehicles| == 0 || (second && |pool| == 0)) {
      var b := Fill(pool, Limit(vehicles[0], second), 0);
      var rest := Pack(b.kept, vehicles[1..], second);
      var first := if |b.taken| > 0 then [Load(vehicles[0], b.taken)] else [];
      FillWithinLimit(pool, Limit(vehicles[0], second), 0);
      PackWithinLimit(b.kept, vehicles[1..], second);
      var p := Pack(pool, vehicles, second);
      assert p.loads == first + rest.loads;
      forall k | 0 <= k < |p.loads|
        ensures |p.loads[k].orders| > 0 && p.loads[k].vehicle in vehicles
                && Containers(p.loads[k].orders) <= Limit(p.loads[k].vehicle, second)
      {
        if k < |first| {
          assert p.loads[k] == Load(vehicles[0], b.taken);
        } else {
          var l := rest.loads[k - |first|];
          assert p.loads[k] == l;
          var i :| 0 <= i < |vehicles[1..]| && vehicles[1..][i] == l.vehicle;
          assert vehicles[i + 1] == l.vehicle;
        }
      }
    }
  }

  predicate HasLoad(loads: seq<Load>, v: Vehicle) {
    exists k :: 0 <= k < |loads| && loads[k].vehicle == v
  }

  /** A load in either part is a load of the concatenation. */
  lemma HasLoadAppend(first: seq<Load>, rest: seq<Load>)
    ensures forall w :: HasLoad(first, w) || HasLoad(rest, w) ==> HasLoad(first + rest, w)
  {
    forall w | HasLoad(first, w) || HasLoad(rest, w)
      ensures HasLoad(first + rest, w)
    {
      if HasLoad(first, w) {
        var k :| 0 <= k < |first| && first[k].vehicle == w;
        assert (first + rest)[k] == first[k];
      } else {
        var k :| 0 <= k < |rest| && rest[k].vehicle == w;
        assert (first + rest)[k + |first|] == rest[k];
      }
    }
  }

  lemma MultisetSubsetMember(a: seq<Order>, b: seq<Order>, y: Order)
    requires multiset(a) <= multiset(b) && y in a
    ensures y in b
  {
    assert y in multiset(a);
  }

  lemma NonNegativeSubset(a: seq<Order>, b: seq<Order>)
    requires multiset(a) <= multiset(b) && NonNegativeCounts(b)
    ensures NonNegativeCounts(a)
  {
    forall k | 0 <= k < |a| ensures a[k].containerCount >= 0 {
      MultisetSubsetMember(a, b, a[k]);
      var j :| 0 <= j < |b| && b[j] == a[k];
    }
  }

  /** No leftover order fits into what any load leaves of its ceiling. */
  predicate NoLeftoverFits(loads: seq<Load>, left: seq<Order>, second: bool) {
    forall k, y :: 0 <= k < |loads| && y in left ==>
      Containers(loads[k].orders) + y.containerCount > Limit(loads[k].vehicle, second)
  }

  /** Greedy maximality of a pass: with non-negative counts, no order left
      at the end would have fitted into any load. */
  lemma {:induction false} PackMaximal(pool: seq<Order>, vehicles: seq<Vehicle>, second: bool)
    requires NonNegativeCounts(pool)
    ensures NoLeftoverFits(Pack(pool, vehicles, second).loads, Pack(pool, vehicles, second).left, second)
    decreases |vehicles|
  {
    var p := Pack(pool, vehicles, second);
    if !(|vehicles| == 0 || (second && |pool| == 0)) {
      var limit := Limit(vehicles[0], second);
      var b := Fill(pool, limit, 0);
      var rest := Pack(b.kept, vehicles[1..], second);
      var first := if |b.taken| > 0 then [Load(vehicles[0], b.taken)] else [];
      assert p.loads == first + rest.loads;
      assert p.left == rest.left;
      forall k, y | 0 <= k < |p.loads| && y in p.left
        ensures Containers(p.loads[k].orders) + y.containerCount > Limit(p.loads[k].vehicle, second)
      {
        if k < |first| {
          assert p.loads[k] == Load(vehicles[0], b.taken);
          PackLeftSubset(b.kept, vehicles[1..], second);
          MultisetSubsetMember(rest.left, b.kept, y);
          FillWithinLimit(pool, limit, 0);
          FillMaximal(pool, limit, 0);
        } else {
          assert p.loads[k] == rest.loads[k - |first|];
          FillKeptNonNegative(pool, limit, 0);
          PackMaximal(b.kept, vehicles[1..], second);
        }
      }
    }
  }

  /** A vehicle that got no load in a pass could not take any of the
      leftover orders even when empty. */
  predicate IdleCannotTake(vehicles: seq<Vehicle>, loads: seq<Load>, left: seq<Order>, second: bool) {
    forall w, y :: w in vehicles && y in left && !HasLoad(loads, w) ==> y.containerCount > Limit(w, second)
  }

  lemma {:induction false} PackIdle(pool: seq<Order>, vehicles: seq<Vehicle>, second: bool)
    ensures IdleCannotTake(vehicles, Pack(pool, vehicles, second).loads, Pack(pool, vehicles, second).left, second)
    decreases |vehicles|
  {
    var p := Pack(pool, vehicles, second);
    if !(|vehicles| == 0 || (second && |pool| == 0)) {
      var limit := Limit(vehicles[0], second);
      var b := Fill(pool, limit, 0);
      var rest := Pack(b.kept, vehicles[1..], second);
      var first := if |b.taken| > 0 then [Load(vehicles[0], b.taken)] else [];
      assert p.loads == first + rest.loads;
      if |b.taken| == 0 {
        FillNothingTaken(pool, limit, 0);
      }
      PackIdle(b.kept, vehicles[1..], second);
      PackPartition(b.kept, vehicles[1..], second);
      HasLoadAppend(first, rest.loads);
      assert |b.taken| > 0 ==> HasLoad(first, vehicles[0]) by {
        if |b.taken| > 0 {
          assert first[0].vehicle == vehicles[0];
        }
      }
      forall w, y | w in vehicles && y in p.left && !HasLoad(p.loads, w)
        ensures y.containerCount > Limit(w, second)
      {
        if w == vehicles[0] {
          MultisetSubsetMember(rest.left, b.kept, y);
        } else {
          var i :| 0 <= i < |vehicles| && vehicles[i] == w;
          assert vehicles[1..][i - 1] == w;
        }
      }
    }
  }
}
