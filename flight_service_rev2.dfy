/** Revision 02 of the flight service: a `HashMap` of flights that the
    methods update in place, throwing IllegalArgumentException on a bad id. */
module FlightServiceRev2 {
  import opened Results
  import opened Flights
  import FlightStore

  class FlightService {
    var flights: FlightMap

    ghost predicate Valid()
      reads this
    {
      KeyedById(flights)
    }

    constructor()
      ensures Valid() && flights == map[]
    {
      flights := map[];
    }

    /** `listAll`: every stored flight once, in no promised order. */
    method ListAll() returns (r: seq<Flight>)
      requires Valid()
      ensures FlightStore.Lists(r, flights)
    {
      r := FlightStore.ValuesToList(flights);
    }

    /** `getFlight`: the stored flight, or IllegalArgumentException iff the id is absent. */
    method GetFlight(id: int) returns (r: Result<Flight, Exception>)
      ensures r.Err? <==> id !in flights
      ensures r.Ok? ==> r.value == flights[id]
      ensures r.Err? ==> r.error == NoSuchFlight(id)
    {
      if id !in flights {
        return Err(NoSuchFlight(id));
      }
      r := Ok(flights[id]);
    }

    /** `createFlight`: stores and returns the flight unless its id is taken. */
    method CreateFlight(flight: Flight) returns (r: Result<Flight, Exception>)
      requires Valid()
      modifies this
      ensures Valid()
      ensures match FlightStore.Create(old(flights), flight)
              case Ok(m) => r == Ok(flight) && flights == m
              case Err(e) => r == Err(e) && flights == old(flights)
    {
      if flight.id in flights {
        return Err(FlightExists(flight.id));
      }
      flights := flights[flight.id := flight];
      r := Ok(flight);
    }

    /** `updateFlight`: replaces the stored flight with the same id, if any. */
    method UpdateFlight(flight: Flight) returns (r: Result<Flight, Exception>)
      requires Valid()
      modifies this
      ensures Valid()
      ensures match FlightStore.Update(old(flights), flight)
              case Ok(m) => r == Ok(flight) && flights == m
              case Err(e) => r == Err(e) && flights == old(flights)
    {
      if flight.id !in flights {
        return Err(NoSuchFlight(flight.id));
      }
      flights := flights[flight.id := flight];
      r := Ok(flight);
    }

    /** `deleteFlight`: removes the flight stored under `id`, if any. */
    method DeleteFlight(id: int) returns (r: Outcome<Exception>)
      requires Valid()
      modifies this
      ensures Valid()
      ensures match FlightStore.Delete(old(flights), id)
              case Ok(m) => r == Pass && flights == m
              case Err(e) => r == Fail(e) && flights == old(flights)
    {
      if id !in flights {
        return Fail(NoSuchFlight(id));
      }
      flights := flights - {id};
      r := Pass;
    }

    /** `deleteAllFlights`: empties the store, so a later listing is empty. */
    method DeleteAllFlights()
      modifies this
      ensures Valid() && flights == map[]
    {
      flights := map[];
    }
  }
}
