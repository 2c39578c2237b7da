/** The passenger service's gRPC endpoint for flight cancellation (package
    `cz.muni.fi.airportmanager.passengerservice.grpc`): one notification per
    passenger of the flight, then the enum status `Cancelled`. */
module PassengerGrpc {
  import opened Results
  import opened CancellationRpc
  import opened Notifications

  class FlightCancellationService {
    const notificationService: NotificationService

    constructor(notificationService: NotificationService)
      ensures this.notificationService == notificationService
    {
      this.notificationService := notificationService;
    }

    /** `cancelFlight`. `passengersOnFlight` is what the passenger lookup
        returns for the request's id. Appends FanOut of them to the ledger,
        in lookup order and after what was there; the reason is never read;
        the answer is always `Cancelled`, also for an empty flight. */
    method CancelFlight(request: CancellationRequest, passengersOnFlight: seq<Passenger>)
      returns (response: CancellationResponse)
      modifies notificationService
      ensures notificationService.notifications
              == old(notificationService.notifications) + FanOut(request.id, passengersOnFlight)
      ensures response == CancellationResponse(Cancelled)
    {
      var flightId := request.id;
      for i := 0 to |passengersOnFlight|
        invariant notificationService.notifications
                  == old(notificationService.notifications) + FanOut(flightId, passengersOnFlight[..i])
      {
        var passenger := passengersOnFlight[i];
        var notification := Notification(passenger.id, Some(passenger.email), CancellationMessage(flightId));
        notificationService.CreateNotification(notification);
        assert passengersOnFlight[..i + 1][..i] == passengersOnFlight[..i];
      }
      assert passengersOnFlight[..|passengersOnFlight|] == passengersOnFlight;
      response := CancellationResponse(Cancelled);
    }
  }
}
