/**
 * The data hook (hooks/useData.ts): the collections in memory, their
 * stored copies, and the rules that refresh the customer, vehicle and order
 * snapshots that orders and tours carry, by id.
 */
module DataStore {
  import opened Wrappers
  import opened Types

  // ------------------------------------------------------------- lookup

  /** The index of the first element whose key is `id`, or `|xs|`. */
  function FirstIndex<T>(xs: seq<T>, key: T -> string, id: string): (k: nat)
    ensures k <= |xs|
    ensures forall j :: 0 <= j < k ==> key(xs[j]) != id
    ensures k < |xs| ==> key(xs[k]) == id
  {
    if |xs| == 0 then 0
    else if key(xs[0]) == id then 0
    else 1 + FirstIndex(xs[1..], key, id)
  }

  /** `xs.find(x => key(x) === id)`. */
  function Find<T>(xs: seq<T>, key: T -> string, id: string): (r: Option<T>)
    ensures r.None? <==> forall j :: 0 <= j < |xs| ==> key(xs[j]) != id
    ensures r.Some? ==> FirstIndex(xs, key, id) < |xs| && r.value == xs[FirstIndex(xs, key, id)]
  {
    var k := FirstIndex(xs, key, id);
    if k < |xs| then Some(xs[k]) else None
  }

  function CustomerId(c: Customer): string { c.id }
  function VehicleId(v: Vehicle): string { v.id }
  function OrderId(o: Order): string { o.id }

  // ------------------------------------------------------------- resync

  /** An order with its customer snapshot replaced by the first customer
      with its `customerId`; an order with no such customer is unchanged. */
  function ResyncOrder(customers: seq<Customer>, o: Order): (r: Order)
    ensures r.(customer := o.customer) == o
    ensures Find(customers, CustomerId, o.customerId).None? ==> r == o
    ensures Find(customers, CustomerId, o.customerId).Some? ==>
      r.customer == customers[FirstIndex(customers, CustomerId, o.customerId)] && r.customer.id == o.customerId
  {
    match Find(customers, CustomerId, o.customerId)
    case Some(c) => o.(customer := c)
    case None => o
  }

  /** The order mapping of `loadData` and `saveCustomers`. */
  function ResyncOrders(customers: seq<Customer>, orders: seq<Order>): (r: seq<Order>)
    ensures |r| == |orders|
    ensures forall i :: 0 <= i < |orders| ==> r[i] == ResyncOrder(customers, orders[i])
  {
    seq(|orders|, i requires 0 <= i < |orders| => ResyncOrder(customers, orders[i]))
  }

  /** The orders keep their ids, customer ids and order. */
  lemma ResyncOrdersKeepIds(customers: seq<Customer>, orders: seq<Order>, i: int)
    requires 0 <= i < |orders|
    ensures ResyncOrders(customers, orders)[i].id == orders[i].id
    ensures ResyncOrders(customers, orders)[i].customerId == orders[i].customerId
  {
    assert ResyncOrders(customers, orders)[i].(customer := orders[i].customer) == orders[i];
  }

  /** Refreshing twice is refreshing once. */
  lemma ResyncOrdersIdempotent(customers: seq<Customer>, orders: seq<Order>)
    ensures ResyncOrders(customers, ResyncOrders(customers, orders)) == ResyncOrders(customers, orders)
  {
    var once := ResyncOrders(customers, orders);
    forall i | 0 <= i < |orders| ensures ResyncOrder(customers, once[i]) == once[i] {
      assert once[i].customerId == orders[i].customerId by {
        ResyncOrdersKeepIds(customers, orders, i);
      }
    }
  }

  /** A stop with its order replaced by the first order with its `orderId`,
      that order's customer refreshed; a stop with no such order is
      unchanged. */
  function ResyncStop(customers: seq<Customer>, orders: seq<Order>, s: TourStop): (r: TourStop)
    ensures r.(order := s.order) == s
    ensures Find(orders, OrderId, s.orderId).None? ==> r == s
    ensures Find(orders, OrderId, s.orderId).Some? ==>
      r.order == ResyncOrder(customers, orders[FirstIndex(orders, OrderId, s.orderId)])
  {
    match Find(orders, OrderId, s.orderId)
    case Some(o) => s.(order := ResyncOrder(customers, o))
    case None => s
  }

  function ResyncStops(customers: seq<Customer>, orders: seq<Order>, stops: seq<TourStop>): (r: seq<TourStop>)
    ensures |r| == |stops|
    ensures forall i :: 0 <= i < |stops| ==> r[i] == ResyncStop(customers, orders, stops[i])
  {
    seq(|stops|, i requires 0 <= i < |stops| => ResyncStop(customers, orders, stops[i]))
  }

  /** A tour with its vehicle replaced by the first vehicle with its
      `vehicleId` and its stops refreshed; a tour with no such vehicle is
      returned whole, its stops not refreshed. */
  function ResyncTour(vehicles: seq<Vehicle>, orders: seq<Order>, customers: seq<Customer>, t: Tour): (r: Tour)
    ensures r.(vehicle := t.vehicle, stops := t.stops) == t
    ensures Find(vehicles, VehicleId, t.vehicleId).None? ==> r == t
    ensures Find(vehicles, VehicleId, t.vehicleId).Some? ==>
      && r.vehicle == vehicles[FirstIndex(vehicles, VehicleId, t.vehicleId)]
      && r.stops == ResyncStops(customers, orders, t.stops)
  {
    match Find(vehicles, VehicleId, t.vehicleId)
    case Some(v) => t.(vehicle := v, stops := ResyncStops(customers, orders, t.stops))
    case None => t
  }

  /** The tour mapping of `loadData`. */
  function ResyncTours(vehicles: seq<Vehicle>, orders: seq<Order>, customers: seq<Customer>, tours: seq<Tour>): (r: seq<Tour>)
    ensures |r| == |tours|
    ensures forall i :: 0 <= i < |tours| ==> r[i] == ResyncTour(vehicles, orders, customers, tours[i])
  {
    seq(|tours|, i requires 0 <= i < |tours| => ResyncTour(vehicles, orders, customers, tours[i]))
  }

  /** A refreshed tour has the stops it had, in order, each for the same
      order id. */
  lemma ResyncTourKeepsStops(vehicles: seq<Vehicle>, orders: seq<Order>, customers: seq<Customer>, t: Tour, k: int)
    requires 0 <= k < |t.stops|
    ensures |ResyncTour(vehicles, orders, customers, t).stops| == |t.stops|
    ensures ResyncTour(vehicles, orders, customers, t).stops[k].orderId == t.stops[k].orderId
    ensures ResyncTour(vehicles, orders, customers, t).stops[k].sequence == t.stops[k].sequence
  {
    var r := ResyncTour(vehicles, orders, customers, t);
    if Find(vehicles, VehicleId, t.vehicleId).Some? {
      assert r.stops[k] == ResyncStop(customers, orders, t.stops[k]);
      assert r.stops[k].(order := t.stops[k].order) == t.stops[k];
    }
  }

  /** Refreshing a tour twice is refreshing it once: the second pass finds
      the same vehicle and the same orders by the ids the first kept. */
  lemma ResyncTourIdempotent(vehicles: seq<Vehicle>, orders: seq<Order>, customers: seq<Customer>, t: Tour)
    ensures ResyncTour(vehicles, orders, customers, ResyncTour(vehicles, orders, customers, t))
      == ResyncTour(vehicles, orders, customers, t)
  {
    var once := ResyncTour(vehicles, orders, customers, t);
    assert once.vehicleId == t.vehicleId;
    if Find(vehicles, VehicleId, t.vehicleId).Some? {
      var stops := once.stops;
      forall k | 0 <= k < |stops| ensures ResyncStop(customers, orders, stops[k]) == stops[k] {
        assert stops[k] == ResyncStop(customers, orders, t.stops[k]);
        assert stops[k].orderId == t.stops[k].orderId;
      }
      assert ResyncStops(customers, orders, stops) == stops;
    }
  }

  /** The refresh of the sample tours: each stop's order gets the first
      customer with its `customerId`, or keeps its own; the vehicle stays. */
  function RefreshSampleTour(customers: seq<Customer>, t: Tour): (r: Tour)
    ensures r.(stops := t.stops) == t
    ensures |r.stops| == |t.stops|
    ensures forall k :: 0 <= k < |t.stops| ==>
      r.stops[k] == t.stops[k].(order := ResyncOrder(customers, t.stops[k].order))
  {
    t.(stops := seq(|t.stops|, k requires 0 <= k < |t.stops| =>
      t.stops[k].(order := ResyncOrder(customers, t.stops[k].order))))
  }

  function RefreshSampleTours(customers: seq<Customer>, tours: seq<Tour>): (r: seq<Tour>)
    ensures |r| == |tours|
    ensures forall i :: 0 <= i < |tours| ==> r[i] == RefreshSampleTour(customers, tours[i])
  {
    seq(|tours|, i requires 0 <= i < |tours| => RefreshSampleTour(customers, tours[i]))
  }

  // -------------------------------------------------------- change test

  /** `hasChanges`: some refreshed order shows its customer under another
      name or address than before (or has no counterpart before). */
  predicate HasChanges(before: seq<Order>, after: seq<Order>) {
    exists i :: 0 <= i < |after| &&
      (i >= |before| || after[i].customer.name != before[i].customer.name
        || after[i].customer.address != before[i].customer.address)
  }

  /** The customer stored under the order's customer id now has another
      name or address than the order's snapshot of it. */
  predicate CustomerMoved(customers: seq<Customer>, o: Order) {
    var found := Find(customers, CustomerId, o.customerId);
    found.Some? && (found.value.name != o.customer.name || found.value.address != o.customer.address)
  }

  /** After a customer save the refreshed orders count as changed exactly
      when some order's customer changed name or address; a change of
      coordinates, phone, mail or notes alone is not a change. */
  lemma HasChangesIff(customers: seq<Customer>, orders: seq<Order>)
    ensures HasChanges(orders, ResyncOrders(customers, orders))
      <==> exists i :: 0 <= i < |orders| && CustomerMoved(customers, orders[i])
  {
    var after := ResyncOrders(customers, orders);
    if HasChanges(orders, after) {
      var i :| 0 <= i < |after| && (i >= |orders| || after[i].customer.name != orders[i].customer.name
        || after[i].customer.address != orders[i].customer.address);
      assert CustomerMoved(customers, orders[i]);
    }
    if exists i :: 0 <= i < |orders| && CustomerMoved(customers, orders[i]) {
      var i :| 0 <= i < |orders| && CustomerMoved(customers, orders[i]);
      assert after[i] == ResyncOrder(customers, orders[i]);
    }
  }

  // -------------------------------------------------------------- store

  /** `DEFAULT_SETTINGS`. */
  const DefaultSettings: Settings := Settings(
    Depot("Hauptlager Berlin", "Alexanderplatz 1, 10178 Berlin", 52.5200, 13.4050),
    8.0, TimeWindow("08:00", "17:00"), "km", 15.0, 5.0, true, 30.0)

  /** The sample collections used when nothing is stored. */
  datatype Samples = Samples(customers: seq<Customer>, vehicles: seq<Vehicle>, orders: seq<Order>, tours: seq<Tour>)

  /** The hook's state and the store it reads and writes: `savedX` is what
      the store holds under key `x` (`None` when the key is missing). */
  class Store {
    const samples: Samples
    var customers: seq<Customer>
    var orders: seq<Order>
    var vehicles: seq<Vehicle>
    var tours: seq<Tour>
    var settings: Settings
    var loading: bool
    var savedCustomers: Option<seq<Customer>>
    var savedOrders: Option<seq<Order>>
    var savedVehicles: Option<seq<Vehicle>>
    var savedTours: Option<seq<Tour>>
    var savedSettings: Option<Settings>

    /** The hook's initial state over a store with the given contents. */
    constructor(samples: Samples, savedCustomers: Option<seq<Customer>>, savedOrders: Option<seq<Order>>,
                savedVehicles: Option<seq<Vehicle>>, savedTours: Option<seq<Tour>>, savedSettings: Option<Settings>)
      ensures this.samples == samples
      ensures customers == [] && orders == [] && vehicles == [] && tours == []
      ensures settings == DefaultSettings && loading
      ensures this.savedCustomers == savedCustomers && this.savedOrders == savedOrders
      ensures this.savedVehicles == savedVehicles && this.savedTours == savedTours
      ensures this.savedSettings == savedSettings
    {
      this.samples := samples;
      customers, orders, vehicles, tours := [], [], [], [];
      settings := DefaultSettings;
      loading := true;
      this.savedCustomers := savedCustomers;
      this.savedOrders := savedOrders;
      this.savedVehicles := savedVehicles;
      this.savedTours := savedTours;
      this.savedSettings := savedSettings;
    }

    /** `loadData`: each collection comes from the store, or from the
        samples (which are then stored) when its key is missing. Stored
        orders get their customers refreshed, stored tours their vehicles and
        stops, against the stored (or sample) collections as read. */
    method LoadData()
      modifies this
      ensures customers == old(savedCustomers).GetOr(samples.customers)
      ensures vehicles == old(savedVehicles).GetOr(samples.vehicles)
      ensures old(savedOrders).Some? ==> orders == ResyncOrders(customers, old(savedOrders).value)
      ensures old(savedOrders).None? ==> orders == samples.orders
      ensures old(savedTours).Some? ==>
        tours == ResyncTours(vehicles, old(savedOrders).GetOr(samples.orders), customers, old(savedTours).value)
      ensures old(savedTours).None? ==> tours == RefreshSampleTours(samples.customers, samples.tours)
      ensures settings == old(savedSettings).GetOr(DefaultSettings)
      ensures !loading
      ensures savedCustomers == Some(customers) && savedVehicles == Some(vehicles)
      ensures savedOrders == Some(old(savedOrders).GetOr(samples.orders))
      ensures savedTours == Some(old(savedTours).GetOr(tours))
      ensures savedSettings == Some(settings)
    {
      // A missing key is filled with the sample; a present one is kept,
      // so the store ends up holding `Some(what was read)` either way.
      var currentCustomers := savedCustomers.GetOr(samples.customers);
      var currentVehicles := savedVehicles.GetOr(samples.vehicles);
      var currentOrders := savedOrders.GetOr(samples.orders);
      var currentTours := if savedTours.Some? then ResyncTours(currentVehicles, currentOrders, currentCustomers, savedTours.value)
        else RefreshSampleTours(samples.customers, samples.tours);
      var currentSettings := savedSettings.GetOr(DefaultSettings);
      customers, vehicles, tours, settings := currentCustomers, currentVehicles, currentTours, currentSettings;
      orders := if savedOrders.Some? then ResyncOrders(currentCustomers, currentOrders) else samples.orders;
      savedCustomers, savedVehicles, savedOrders := Some(currentCustomers), Some(currentVehicles), Some(currentOrders);
      savedTours, savedSettings := Some(savedTours.GetOr(currentTours)), Some(currentSettings);
      loading := false;
    }

    /** `saveCustomers`: the customers are stored and set; when there are
        orders, their refreshed form is stored and set only if it shows a
        change of some customer's name or address. */
    method SaveCustomers(newCustomers: seq<Customer>)
      modifies this
      ensures customers == newCustomers && savedCustomers == Some(newCustomers)
      ensures var updated := ResyncOrders(newCustomers, old(orders));
        if |old(orders)| > 0 && HasChanges(old(orders), updated)
        then orders == updated && savedOrders == Some(updated)
        else orders == old(orders) && savedOrders == old(savedOrders)
      ensures vehicles == old(vehicles) && tours == old(tours) && settings == old(settings) && loading == old(loading)
      ensures savedVehicles == old(savedVehicles) && savedTours == old(savedTours) && savedSettings == old(savedSettings)
    {
      savedCustomers := Some(newCustomers);
      customers := newCustomers;
      if |orders| > 0 {
        var updated := ResyncOrders(newCustomers, orders);
        if HasChanges(orders, updated) {
          savedOrders := Some(updated);
          orders := updated;
        }
      }
    }

    /** `saveOrders`. */
    method SaveOrders(newOrders: seq<Order>)
      modifies this
      ensures orders == newOrders && savedOrders == Some(newOrders)
      ensures customers == old(customers) && vehicles == old(vehicles) && tours == old(tours)
      ensures settings == old(settings) && loading == old(loading)
      ensures savedCustomers == old(savedCustomers) && savedVehicles == old(savedVehicles)
      ensures savedTours == old(savedTours) && savedSettings == old(savedSettings)
    {
      savedOrders := Some(newOrders);
      orders := newOrders;
    }

    /** `saveVehicles`. */
    method SaveVehicles(newVehicles: seq<Vehicle>)
      modifies this
      ensures vehicles == newVehicles && savedVehicles == Some(newVehicles)
      ensures customers == old(customers) && orders == old(orders) && tours == old(tours)
      ensures settings == old(settings) && loading == old(loading)
      ensures savedCustomers == old(savedCustomers) && savedOrders == old(savedOrders)
      ensures savedTours == old(savedTours) && savedSettings == old(savedSettings)
    {
      savedVehicles := Some(newVehicles);
      vehicles := newVehicles;
    }

    /** `saveTours`. */
    method SaveTours(newTours: seq<Tour>)
      modifies this
      ensures tours == newTours && savedTours == Some(newTours)
      ensures customers == old(customers) && orders == old(orders) && vehicles == old(vehicles)
      ensures settings == old(settings) && loading == old(loading)
      ensures savedCustomers == old(savedCustomers) && savedOrders == old(savedOrders)
      ensures savedVehicles == old(savedVehicles) && savedSettings == old(savedSettings)
    {
      savedTours := Some(newTours);
      tours := newTours;
    }

    /** `saveSettings`. */
    method SaveSettings(newSettings: Settings)
      modifies this
      ensures settings == newSettings && savedSettings == Some(newSettings)
      ensures customers == old(customers) && orders == old(orders) && vehicles == old(vehicles)
      ensures tours == old(tours) && loading == old(loading)
      ensures savedCustomers == old(savedCustomers) && savedOrders == old(savedOrders)
      ensures savedVehicles == old(savedVehicles) && savedTours == old(savedTours)
    {
      savedSettings := Some(newSettings);
      settings := newSettings;
    }

    /** `resetAllData`: the samples and the default settings, in memory and
        in the store. The sample tours are taken as they are, without the
        customer refresh `loadData` gives them. */
    method ResetAllData()
      modifies this
      ensures customers == samples.customers && vehicles == samples.vehicles
      ensures orders == samples.orders && tours == samples.tours && settings == DefaultSettings
      ensures savedCustomers == Some(samples.customers) && savedVehicles == Some(samples.vehicles)
      ensures savedOrders == Some(samples.orders) && savedTours == Some(samples.tours)
      ensures savedSettings == Some(DefaultSettings)
      ensures loading == old(loading)
    {
      savedCustomers, savedOrders, savedVehicles, savedTours, savedSettings := None, None, None, None, None;
      customers, vehicles, orders, tours, settings := samples.customers, samples.vehicles, samples.orders, samples.tours, DefaultSettings;
      savedCustomers, savedVehicles, savedOrders := Some(samples.customers), Some(samples.vehicles), Some(samples.orders);
      savedTours, savedSettings := Some(samples.tours), Some(DefaultSettings);
    }
  }

  /** Loading an empty store stores the samples: a second load then reads
      back the same customers, vehicles, orders and settings. */
  method LoadTwice(samples: Samples) returns (store: Store)
    ensures store.savedCustomers == Some(samples.customers) && store.savedOrders == Some(samples.orders)
    ensures store.customers == samples.customers && store.vehicles == samples.vehicles
    ensures store.settings == DefaultSettings
    ensures store.orders == ResyncOrders(samples.customers, samples.orders)
  {
    store := new Store(samples, None, None, None, None, None);
    store.LoadData();
    store.LoadData();
  }
}
