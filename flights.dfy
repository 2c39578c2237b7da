/** The flight record shared by the flight-service revisions, and the
    exceptions their stores throw. */
module Flights {
  import opened Results
  import Decimal

  /** Only the two states the services set. The timestamp-derived windows
      (future, ongoing, past) are computed from the dates, not stored. */
  datatype FlightStatus = Active | Cancelled

  /** `Flight` (revision 02) and `FlightDto` (revision 04). Dates are
      milliseconds since the epoch. */
  datatype Flight = Flight(
    id: int,
    name: string,
    airportFrom: string,
    airportTo: string,
    departureTime: int,
    arrivalTime: int,
    capacity: int,
    status: FlightStatus)

  /** The in-memory `HashMap` from flight id to flight. */
  type FlightMap = map<int, Flight>

  /** Every flight is stored under its own id: the store invariant that
      create, update and delete keep, since they all `put(flight.id, flight)`. */
  ghost predicate KeyedById(m: FlightMap) {
    forall k :: k in m ==> m[k].id == k
  }

  /** The exception thrown when no flight is stored under `id`. */
  function NoSuchFlight(id: int): Exception {
    IllegalArgument("Flight with id " + Decimal.IntToString(id) + " does not exist")
  }

  /** The exception thrown when a flight is already stored under `id`. */
  function FlightExists(id: int): Exception {
    IllegalArgument("Flight with id " + Decimal.IntToString(id) + " already exists")
  }
}
