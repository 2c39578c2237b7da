# Airport manager: flight store, cancellation fan-out and baggage notifications

A Dafny model of the core of a teaching airport-management system built from small services.

- **Flight service.** It keeps flights in an in-memory `HashMap` keyed by flight id. Revision 02 has a service class that throws `IllegalArgumentException` and a REST resource that answers with HTTP statuses. Revision 04 has a service class that also cancels flights.
- **Cancelling a flight** (revision 04). The service marks the flight `CANCELLED` and then makes one blocking gRPC call to the passenger service.
- **Passenger service, cancellation side** (two revisions of the endpoint). It looks up the flight's passengers, appends one notification per passenger to the notification store, and always answers with success.
- **Passenger service, baggage side** (revision 07). A consumer turns each baggage-state-change event into one notification for the event's passenger.

Layout, one module per file:

- `results.dfy` (`Results`): `Option`, `Result`, `Outcome`, and the Java exceptions with their messages.
- `decimal.dfy` (`Decimal`): how Java renders an `int`/`long` inside string concatenation. A parser reads the rendering back, which proves that distinct ids give distinct strings.
- `flights.dfy` (`Flights`): the `Flight` record, the store invariant `KeyedById` (every flight is stored under its own id), and the two store exceptions ("Flight with id N does not exist" and "Flight with id N already exists").
- `flight_store.dfy` (`FlightStore`): what each store operation does to the map, as functions whose contracts state the meaning. It also holds `ValuesToList`, which models `values().stream().toList()`. All three store classes are proved against this module.
- `flight_service_rev2.dfy`, `flight_resource_rev2.dfy`, `flight_service_rev4.dfy`: the three store classes. Each has a `flights: map` field that its methods reassign.
- `cancellation_rpc.dfy` (`CancellationRpc`): the gRPC request, the response and the reply the client sees.
- `notifications.dfy` (`Notifications`): passengers, notifications, the cancellation message, the `FanOut` specification, and the append-only notification store.
- `passenger_grpc.dfy`, `passenger_grpc_early.dfy`: the two cancellation endpoints. Each is a loop proved to append exactly `FanOut` of the passengers.
- `baggage_processor.dfy` (`BaggageProcessor`): the baggage message, each passenger's notification list, and the event processor.

Inputs stand in for code that is not visible or not deterministic:
- the passenger lookup `getPassengersForFlight` is the sequence it returns;
- the gRPC stub's reply is a `RemoteReply` parameter, and `CancelFlight` returns the request it sent (`None` when no call is made);
- a failure of `addNotificationForPassenger` is a `fault` parameter.

## Model

| member | source | states |
|---|---|---|
| `Decimal.NatToString` | 03/passenger-service/src/main/java/cz/muni/fi/airportmanager/passengerservice/grpc/FlightCancellationService.java:32 | a natural number renders as a non-empty string of digits with no leading zero |
| `Decimal.IntToString` | 04/flight-service/src/main/java/cz/muni/fi/airportmanager/flightservice/service/FlightService.java:46 | an id renders with a leading minus exactly when it is negative; every other character is a digit |
| `Decimal.ParseNatToString` | 03/passenger-service/src/main/java/cz/muni/fi/airportmanager/passengerservice/grpc/FlightCancellationService.java:32 | reading the rendering of n back gives n (a round trip) |
| `Decimal.IntToStringInjective` | 04/flight-service/src/main/java/cz/muni/fi/airportmanager/flightservice/service/FlightService.java:46 | different ids render differently, so a message names exactly one id |
| `FlightStore.Create` | 02/flight-service/src/main/java/cz/muni/fi/service/FlightService.java:45-51 | fails with IllegalArgumentException("Flight with id N already exists") (`Flights.FlightExists`) iff the id is a key; otherwise adds exactly that entry and leaves every old entry alone; a lookup then returns the flight; deleting it gives back the old map; keeps KeyedById |
| `FlightStore.Update` | 02/flight-service/src/main/java/cz/muni/fi/service/FlightService.java:59-65 | fails with IllegalArgumentException("Flight with id N does not exist") (`Flights.NoSuchFlight`) iff the id is absent; otherwise the key set is unchanged, the entry at the flight's id becomes the flight, and every other entry is unchanged; keeps KeyedById |
| `FlightStore.Delete` | 02/flight-service/src/main/java/cz/muni/fi/service/FlightService.java:72-77 | fails with `Flights.NoSuchFlight` ("Flight with id N does not exist") iff the id is absent; otherwise removes exactly that key, leaves the rest, and a later lookup (`FlightStore.Get`, the check in `getFlight`) of the id fails; keeps KeyedById |
| `FlightStore.MarkCancelled` | 04/flight-service/src/main/java/cz/muni/fi/airportmanager/flightservice/service/FlightService.java:124 | the flight's status becomes Cancelled whatever it was; its other fields, the key set and every other flight stay the same; keeps KeyedById |
| `FlightStore.MarkCancelledIdempotent` | 04/flight-service/src/main/java/cz/muni/fi/airportmanager/flightservice/service/FlightService.java:124 | cancelling an already cancelled flight leaves the store exactly as it was |
| `FlightStore.ValuesToList` | 02/flight-service/src/main/java/cz/muni/fi/service/FlightService.java:22-24 | the list has one element per entry, each the flight stored under its id, with no id twice; the order is not specified |
| `FlightStore.ListsExactlyValues` | 02/flight-service/src/main/java/cz/muni/fi/resources/FlightResource.java:39-41 | such a list contains a flight iff the map stores it: nothing extra, nothing missing |
| `FlightStore.ListsEmpty` | 02/flight-service/src/test/java/cz/muni/fi/resources/FlightResourceTest.java:43-47 | listing an empty store gives the empty list |
| `FlightServiceRev2.FlightService.constructor` | 02/flight-service/src/main/java/cz/muni/fi/service/FlightService.java:15 | the store starts empty |
| `FlightServiceRev2.FlightService.ListAll` | 02/flight-service/src/main/java/cz/muni/fi/service/FlightService.java:22-24 | returns a listing of exactly the stored flights |
| `FlightServiceRev2.FlightService.GetFlight` | 02/flight-service/src/main/java/cz/muni/fi/service/FlightService.java:32-37 | throws IllegalArgumentException("Flight with id N does not exist") iff the id is absent; otherwise returns the stored flight, as `FlightStore.Get` describes; the store is not changed |
| `FlightServiceRev2.FlightService.CreateFlight` | 02/flight-service/src/main/java/cz/muni/fi/service/FlightService.java:45-51 | on failure the store is unchanged and the exception is thrown; on success the new store is Create's and the flight is returned |
| `FlightServiceRev2.FlightService.UpdateFlight` | 02/flight-service/src/main/java/cz/muni/fi/service/FlightService.java:59-65 | on failure the store is unchanged; on success the new store is Update's and the flight is returned |
| `FlightServiceRev2.FlightService.DeleteFlight` | 02/flight-service/src/main/java/cz/muni/fi/service/FlightService.java:72-77 | on failure the store is unchanged; on success the new store is Delete's |
| `FlightServiceRev2.FlightService.DeleteAllFlights` | 02/flight-service/src/main/java/cz/muni/fi/service/FlightService.java:82-84 | the store becomes empty, so a later listing is empty |
| `FlightServiceRev4.ReplyOutcome` | 04/flight-service/src/main/java/cz/muni/fi/airportmanager/flightservice/service/FlightService.java:130-135 | cancellation succeeds iff the passenger service answered `Cancelled`; any other status gives "Flight cancellation failed"; a call that cannot complete fails with its own exception |
| `FlightServiceRev4.FlightService.constructor` | 04/flight-service/src/main/java/cz/muni/fi/airportmanager/flightservice/service/FlightService.java:22 | the store starts empty |
| `FlightServiceRev4.FlightService.ListAll` | 04/flight-service/src/main/java/cz/muni/fi/airportmanager/flightservice/service/FlightService.java:32-34 | returns a listing of exactly the stored flights, in no promised order |
| `FlightServiceRev4.FlightService.GetFlight` | 04/flight-service/src/main/java/cz/muni/fi/airportmanager/flightservice/service/FlightService.java:43-50 | fails with IllegalArgumentException("Flight with id N does not exist") iff the id is absent; otherwise returns the stored flight, as `FlightStore.Get` describes; the store is not changed |
| `FlightServiceRev4.FlightService.CreateFlight` | 04/flight-service/src/main/java/cz/muni/fi/airportmanager/flightservice/service/FlightService.java:59-67 | on failure the store is unchanged; on success the new store is Create's and the flight is returned |
| `FlightServiceRev4.FlightService.UpdateFlight` | 04/flight-service/src/main/java/cz/muni/fi/airportmanager/flightservice/service/FlightService.java:77-85 | on failure the store is unchanged; on success the new store is Update's (same keys, only that entry replaced) |
| `FlightServiceRev4.FlightService.DeleteFlight` | 04/flight-service/src/main/java/cz/muni/fi/airportmanager/flightservice/service/FlightService.java:93-101 | on failure the store is unchanged; on success the new store is Delete's, so a later GetFlight of the id fails |
| `FlightServiceRev4.FlightService.DeleteAllFlights` | 04/flight-service/src/main/java/cz/muni/fi/airportmanager/flightservice/service/FlightService.java:106-111 | the store becomes empty, so a later ListAll returns the empty list |
| `FlightServiceRev4.FlightService.CancelFlight` | 04/flight-service/src/main/java/cz/muni/fi/airportmanager/flightservice/service/FlightService.java:119-137 | absent id: "does not exist", no remote call, store unchanged. Present id: MarkCancelled is applied first and stays in every outcome. Then an id outside `int` gives ArithmeticException and no call; otherwise exactly one request (id, "Unknown") is sent and the result is ReplyOutcome of the reply |
| `FlightResourceRev2.FlightResource.constructor` | 02/flight-service/src/main/java/cz/muni/fi/resources/FlightResource.java:30 | the map starts empty |
| `FlightResourceRev2.FlightResource.List` | 02/flight-service/src/main/java/cz/muni/fi/resources/FlightResource.java:39-41 | returns a listing of exactly the stored flights |
| `FlightResourceRev2.FlightResource.Create` | 02/flight-service/src/main/java/cz/muni/fi/resources/FlightResource.java:52-58 | CONFLICT with no entity and the map unchanged iff the id is taken; otherwise CREATED with the flight as entity, and the new map is Create's |
| `FlightResourceRev2.FlightResource.Get` | 02/flight-service/src/main/java/cz/muni/fi/resources/FlightResource.java:70-75 | NOT_FOUND with no entity iff the id is absent; otherwise OK with the stored flight |
| `FlightResourceRev2.FlightResource.Update` | 02/flight-service/src/main/java/cz/muni/fi/resources/FlightResource.java:88-97 | BAD_REQUEST with the map unchanged whenever the body's id differs from the path id, even if the id exists; otherwise NOT_FOUND with the map unchanged iff absent; otherwise OK with the flight, and the new map is Update's |
| `FlightResourceRev2.FlightResource.Delete` | 02/flight-service/src/main/java/cz/muni/fi/resources/FlightResource.java:106-112 | NOT_FOUND with the map unchanged iff the id is absent; otherwise OK, and exactly that key is removed |
| `Notifications.CancellationMessageInjective` | 03/passenger-service/src/main/java/cz/muni/fi/airportmanager/passengerservice/grpc/FlightCancellationService.java:32 | `Notifications.CancellationMessage` is the template "Your flight " + N + " has been cancelled.", and that message determines N |
| `Notifications.FanOut` | 03/passenger-service/src/main/java/cz/muni/fi/airportmanager/passengerservice/grpc/FlightCancellationService.java:29-35 | one notification per looked-up passenger, in lookup order; the i-th is `CancellationNotice` of the i-th passenger, built as in lines 30-33: that passenger's id and email and the flight's `CancellationMessage` |
| `Notifications.FanOutAddressesEachPassenger` | 03/passenger-service/src/main/java/cz/muni/fi/airportmanager/passengerservice/grpc/FlightCancellationService.java:29-35 | each passenger gets as many notifications as the lookup lists them, and a passenger not looked up gets none |
| `Notifications.OneNoticePerPassenger` | 03/passenger-service/src/main/java/cz/muni/fi/airportmanager/passengerservice/grpc/FlightCancellationService.java:29-35 | when the lookup lists no passenger twice, every passenger of the flight gets exactly one notification |
| `Notifications.FanOutsDoNotMix` | 03/passenger-service/src/main/java/cz/muni/fi/airportmanager/passengerservice/grpc/FlightCancellationService.java:32 | the notifications for two different flights never share a message |
| `Notifications.NotificationService.CreateNotification` | 03/passenger-service/src/main/java/cz/muni/fi/airportmanager/passengerservice/grpc/FlightCancellationService.java:34 | appends the notification after the existing ones and changes nothing else |
| `PassengerGrpc.FlightCancellationService.CancelFlight` | 03/passenger-service/src/main/java/cz/muni/fi/airportmanager/passengerservice/grpc/FlightCancellationService.java:26-37 | the store becomes old notifications + FanOut(request id, passengers). So it grows by one per passenger, nothing for an empty flight, earlier entries untouched, the reason unused. The response is always `Cancelled` |
| `PassengerGrpcEarly.FlightCancellationService.CancelFlight` | 03/passenger-service/src/main/java/cz/muni/fi/grpc/FlightCancellationService.java:22-33 | the same append of FanOut(request id, passengers) in lookup order, each notification built at lines 26-29 with the same `CancellationMessage` template (line 28); the status is always "Successfully notified" |
| `BaggageProcessor.BaggageMessageInjective` | 07/passenger-service/src/main/java/cz/muni/fi/airportmanager/passengerservice/kafka/processor/BaggageStateChangeProcessor.java:32 | `BaggageProcessor.BaggageMessage` is the template "Baggage state changed to " + S + " for baggage " + B (line 32), and that message determines both S and B |
| `BaggageProcessor.Filed` | 07/passenger-service/src/main/java/cz/muni/fi/airportmanager/passengerservice/kafka/processor/BaggageStateChangeProcessor.java:33 | adding a notification for a passenger appends it to that passenger's list and leaves every other passenger's list unchanged |
| `BaggageProcessor.ProcessingTwiceFilesTwice` | 07/passenger-service/src/main/java/cz/muni/fi/airportmanager/passengerservice/kafka/processor/BaggageStateChangeProcessor.java:27-34 | no deduplication: the same event filed twice appends its notification twice |
| `BaggageProcessor.PassengerService.AddNotificationForPassenger` | 07/passenger-service/src/main/java/cz/muni/fi/airportmanager/passengerservice/kafka/processor/BaggageStateChangeProcessor.java:33 | without a fault it files the notification for the given passenger and passes; with one it fails with that exception and files nothing |
| `BaggageProcessor.BaggageStateChangeProcessor.Process` | 07/passenger-service/src/main/java/cz/muni/fi/airportmanager/passengerservice/kafka/processor/BaggageStateChangeProcessor.java:27-34 | files exactly one notification for the event's passenger: `BaggageNotification` of the event (lines 30-32), holding that passenger id, no email, and `BaggageMessage` of the event. Returns the passenger service's result unchanged, a failure included |

## Left out

- The Mutiny `Uni` wrappers, `Unchecked.supplier` and `await().indefinitely()` are not modelled. Every call runs synchronously and ends in a value or an exception.
- The gRPC stub and server plumbing and Kafka's `@Incoming` are not modelled. The stub's reply is an input.
- Flights are values, not shared objects. In the source, `cancelFlight` changes the status on the very `FlightDto` object the map holds, so a caller that kept a reference also sees the change. The model replaces the stored value instead, so such aliasing is not captured. The tests' edits to a flight after storing it are not captured either.
- `FlightResource.flights` is `static` in the source and shared by all instances. The model keeps it as a field of one resource object.
- Ids are unbounded integers. Java's `int` and `long` widths are modelled only where they decide behaviour: `Math.toIntExact` in `cancelFlight`. Null ids, null flights and null map values are not modelled.
- Dates are whole milliseconds. No operation in the core reads them.
- `getPassengersForFlight` is not part of this model. Its result is an input sequence.
- `NotificationService.createNotification` is not part of this model. It is modelled as an append that cannot fail. Notification ids and creation times assigned by the store are not modelled.
- `PassengerService.addNotificationForPassenger` is not part of this model. Its failure is an input, and a failed call is taken to file nothing.
- The 03 REST resources and the 03 flight-side gRPC service are thin wrappers over service revisions that are not part of this model. The same holds for the repository's time-window queries, the health checks, the `BaggageResource` client and the entity getters and setters.
- Concurrency is out of scope: concurrent requests on the shared map, and interleaving of fan-out and baggage appends. The model covers single-threaded sequences of calls.
- Four behaviours of the code are modelled as written, with no stronger policy added:
  - The cancellation message embeds only the flight id; the request's reason is never read.
  - A flight's status is not monotone: `updateFlight` can store an `ACTIVE` flight over a cancelled one.
  - Neither fan-out endpoint rejects unknown passengers or makes its appends all-or-nothing.
  - The cancellation response has no failure variant.
- `FlightResourceTest.java:74,81` treats `get` as returning a bare flight or null. The model follows the resource's `RestResponse`.
