/** Revision 04 of the flight service: the same keyed store behind `Uni`
    results, plus cancellation, which marks the flight and then asks the
    passenger service to notify its passengers. */
module FlightServiceRev4 {
  import opened Results
  import opened Flights
  import opened CancellationRpc
  import FlightStore

  /** The reason every cancellation request carries. */
  const UnknownReason: string := "Unknown"

  /** Thrown when the passenger service does not answer `Cancelled`. */
  const CancellationFailed: Exception := Runtime("Flight cancellation failed")

  /** Thrown by `Math.toIntExact` for an id outside the `int` range. */
  const IntegerOverflow: Exception := Arithmetic("integer overflow")

  /** How the outcome of `cancelFlight` follows from the remote reply: it
      succeeds exactly when the passenger service answered `Cancelled`. */
  function ReplyOutcome(reply: RemoteReply): (r: Outcome<Exception>)
    ensures r.Pass? <==> reply == Replied(CancellationResponse(ResponseStatus.Cancelled))
    ensures reply.Unreachable? ==> r == Fail(reply.failure)
    ensures reply.Replied? && reply.response.status != ResponseStatus.Cancelled ==> r == Fail(CancellationFailed)
  {
    match reply
    case Unreachable(e) => Fail(e)
    case Replied(response) =>
      if response.status != ResponseStatus.Cancelled then Fail(CancellationFailed) else Pass
  }

  class FlightService {
    var flights: FlightMap

    ghost predicate Valid()
      reads this
    {
      KeyedById(flights)
    }

    constructor()
      ensures Valid() && flights == map[]
    {
      flights := map[];
    }

    /** `listAll`: every stored flight once, in no promised order. */
    method ListAll() returns (r: seq<Flight>)
      requires Valid()
      ensures FlightStore.Lists(r, flights)
    {
      r := FlightStore.ValuesToList(flights);
    }

    /** `getFlight`: the stored flight, or IllegalArgumentException iff the id is absent. */
    method GetFlight(id: int) returns (r: Result<Flight, Exception>)
      ensures r.Err? <==> id !in flights
      ensures r.Ok? ==> r.value == flights[id]
      ensures r.Err? ==> r.error == NoSuchFlight(id)
    {
      if id !in flights {
        return Err(NoSuchFlight(id));
      }
      r := Ok(flights[id]);
    }

    /** `createFlight`: stores and returns the flight unless its id is taken. */
    method CreateFlight(flight: Flight) returns (r: Result<Flight, Exception>)
      requires Valid()
      modifies this
      ensures Valid()
      ensures match FlightStore.Create(old(flights), flight)
              case Ok(m) => r == Ok(flight) && flights == m
              case Err(e) => r == Err(e) && flights == old(flights)
    {
      if flight.id in flights {
        return Err(FlightExists(flight.id));
      }
      flights := flights[flight.id := flight];
      r := Ok(flight);
    }

    /** `updateFlight`: replaces the stored flight with the same id, if any. */
    method UpdateFlight(flight: Flight) returns (r: Result<Flight, Exception>)
      requires Valid()
      modifies this
      ensures Valid()
      ensures match FlightStore.Update(old(flights), flight)
              case Ok(m) => r == Ok(flight) && flights == m
              case Err(e) => r == Err(e) && flights == old(flights)
    {
      if flight.id !in flights {
        return Err(NoSuchFlight(flight.id));
      }
      flights := flights[flight.id := flight];
      r := Ok(flight);
    }

    /** `deleteFlight`: removes the flight stored under `id`, if any. */
    method DeleteFlight(id: int) returns (r: Outcome<Exception>)
      requires Valid()
      modifies this
      ensures Valid()
      ensures match FlightStore.Delete(old(flights), id)
              case Ok(m) => r == Pass && flights == m
              case Err(e) => r == Fail(e) && flights == old(flights)
    {
      if id !in flights {
        return Fail(NoSuchFlight(id));
      }
      flights := flights - {id};
      r := Pass;
    }

    /** `deleteAllFlights`: empties the store, so a later listing is empty. */
    method DeleteAllFlights()
      modifies this
      ensures Valid() && flights == map[]
    {
      flights := map[];
    }

    /** `cancelFlight`. `reply` is what the passenger service's stub returns
        if it is called; `sent` is the request passed to it, None when no
        call is made. An absent id fails before anything happens. Otherwise
        the flight is marked Cancelled first, whatever its status was, and
        stays Cancelled whatever follows: an id outside the `int` range then
        fails in `Math.toIntExact` before any call; else one request carrying
        the id and the reason "Unknown" is sent, and the outcome is the reply's. */
    method CancelFlight(id: int, reply: RemoteReply) returns (sent: Option<CancellationRequest>, r: Outcome<Exception>)
      requires Valid()
      modifies this
      ensures Valid()
      ensures id !in old(flights) ==>
                flights == old(flights) && sent == None && r == Fail(NoSuchFlight(id))
      ensures id in old(flights) ==> flights == FlightStore.MarkCancelled(old(flights), id)
      ensures id in old(flights) && !IsInt32(id) ==> sent == None && r == Fail(IntegerOverflow)
      ensures id in old(flights) && IsInt32(id) ==>
                sent == Some(CancellationRequest(id, UnknownReason)) && r == ReplyOutcome(reply)
    {
      if id !in flights {
        return None, Fail(NoSuchFlight(id));
      }
      flights := flights[id := flights[id].(status := FlightStatus.Cancelled)];
      if !IsInt32(id) {
        return None, Fail(IntegerOverflow);
      }
      var request := CancellationRequest(id, UnknownReason);
      sent := Some(request);
      r := ReplyOutcome(reply);
    }
  }
}
