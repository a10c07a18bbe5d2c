/**
 * The application's records (customers, orders, vehicles, tours and the
 * settings with the depot), as values. Optional properties are `Option`s;
 * numbers that hold counts are `int`, coordinates and durations `real`.
 */
module Types {
  import opened Wrappers

  datatype Customer = Customer(
    id: string,
    name: string,
    address: string,
    latitude: Option<real>,
    longitude: Option<real>,
    phone: Option<string>,
    email: Option<string>,
    notes: Option<string>)

  datatype TimeWindow = TimeWindow(start: string, end: string)

  datatype Priority = Low | Medium | High

  datatype OrderStatus = Pending | Assigned | Completed

  datatype Order = Order(
    id: string,
    customerId: string,
    customer: Customer,
    containerCount: int,
    timeWindow: Option<TimeWindow>,
    priority: Priority,
    orderDate: string,
    deliveryDate: string,
    status: OrderStatus,
    notes: Option<string>)

  /** `status` is one of "available", "out-of-service", "in-repair" by the
      declared type, but records read from storage or a CSV import carry
      whatever string they held, so it stays a string here. */
  datatype Vehicle = Vehicle(
    id: string,
    name: string,
    capacity: int,
    status: string,
    licensePlate: Option<string>,
    driverName: Option<string>,
    notes: Option<string>)

  datatype TourStop = TourStop(
    orderId: string,
    order: Order,
    sequence: int,
    estimatedArrival: Option<string>,
    notes: Option<string>)

  datatype TourStatus = Planned | InProgress | Completed

  datatype Tour = Tour(
    id: string,
    vehicleId: string,
    vehicle: Vehicle,
    stops: seq<TourStop>,
    totalDistance: Option<real>,
    estimatedDuration: Option<real>,
    date: string,
    status: TourStatus,
    color: string,
    notes: Option<string>)

  /** A point given by latitude and longitude in degrees. */
  datatype Coord = Coord(latitude: real, longitude: real)

  datatype Depot = Depot(name: string, address: string, latitude: real, longitude: real)

  datatype Settings = Settings(
    depot: Depot,
    maxTourDuration: real,
    workingHours: TimeWindow,
    distanceUnit: string,
    stopDuration: real,
    containerHandlingTime: real,
    autoOptimization: bool,
    optimizationInterval: real)

  /** The name a tour status has in the records. */
  function TourStatusName(s: TourStatus): string {
    match s
    case Planned => "planned"
    case InProgress => "in-progress"
    case Completed => "completed"
  }
}
