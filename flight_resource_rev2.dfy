/** Revision 02's REST resource on /flight: it owns its own flight map and
    answers each request with an HTTP status instead of throwing. */
module FlightResourceRev2 {
  import opened Results
  import opened Flights
  import FlightStore

  /** The `Response.Status` values the resource returns (HTTP 200, 201, 400, 404, 409). */
  datatype Status = OK | Created | BadRequest | NotFound | Conflict

  /** `RestResponse<Flight>`: a status and, for some answers, a flight. */
  datatype RestResponse = RestResponse(status: Status, entity: Option<Flight>)

  class FlightResource {
    var flights: FlightMap

    ghost predicate Valid()
      reads this
    {
      KeyedById(flights)
    }

    constructor()
      ensures Valid() && flights == map[]
    {
      flights := map[];
    }

    /** GET /flight: every stored flight once; empty on an empty store. */
    method List() returns (r: seq<Flight>)
      requires Valid()
      ensures FlightStore.Lists(r, flights)
    {
      r := FlightStore.ValuesToList(flights);
    }

    /** POST /flight: CONFLICT when the id is taken, else CREATED with the flight. */
    method Create(flight: Flight) returns (r: RestResponse)
      requires Valid()
      modifies this
      ensures Valid()
      ensures match FlightStore.Create(old(flights), flight)
              case Ok(m) => r == RestResponse(Created, Some(flight)) && flights == m
              case Err(_) => r == RestResponse(Conflict, None) && flights == old(flights)
    {
      if flight.id in flights {
        return RestResponse(Conflict, None);
      }
      flights := flights[flight.id := flight];
      r := RestResponse(Created, Some(flight));
    }

    /** GET /flight/{id}: NOT_FOUND iff the id is absent, else OK with the flight. */
    method Get(id: int) returns (r: RestResponse)
      ensures r.status == NotFound <==> id !in flights
      ensures r.status == NotFound ==> r.entity == None
      ensures r.status != NotFound ==> r == RestResponse(OK, Some(flights[id]))
    {
      if id !in flights {
        return RestResponse(NotFound, None);
      }
      r := RestResponse(OK, Some(flights[id]));
    }

    /** PUT /flight/{id}: BAD_REQUEST when the body's id differs from the path's,
        checked before existence; then NOT_FOUND when absent; else OK and
        only that entry is replaced. */
    method Update(id: int, flight: Flight) returns (r: RestResponse)
      requires Valid()
      modifies this
      ensures Valid()
      ensures flight.id != id ==> r == RestResponse(BadRequest, None) && flights == old(flights)
      ensures flight.id == id ==>
                match FlightStore.Update(old(flights), flight)
                case Ok(m) => r == RestResponse(OK, Some(flight)) && flights == m
                case Err(_) => r == RestResponse(NotFound, None) && flights == old(flights)
    {
      if flight.id != id {
        return RestResponse(BadRequest, None);
      }
      if id !in flights {
        return RestResponse(NotFound, None);
      }
      flights := flights[id := flight];
      r := RestResponse(OK, Some(flight));
    }

    /** DELETE /flight/{id}: NOT_FOUND when absent, else OK and the key is removed. */
    method Delete(id: int) returns (r: RestResponse)
      requires Valid()
      modifies this
      ensures Valid()
      ensures match FlightStore.Delete(old(flights), id)
              case Ok(m) => r == RestResponse(OK, None) && flights == m
              case Err(_) => r == RestResponse(NotFound, None) && flights == old(flights)
    {
      if id !in flights {
        return RestResponse(NotFound, None);
      }
      flights := flights - {id};
      r := RestResponse(OK, None);
    }
  }
}
