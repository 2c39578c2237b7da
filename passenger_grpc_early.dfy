/** The earlier revision of the passenger service's cancellation endpoint
    (package `cz.muni.fi.grpc`): the same fan-out, answered with a status
    string instead of an enum. */
module PassengerGrpcEarly {
  import opened Results
  import opened CancellationRpc
  import opened Notifications

  /** The string-typed response of the earlier contract. */
  datatype NotifiedResponse = NotifiedResponse(status: string)

  const SuccessfullyNotified: string := "Successfully notified"

  class FlightCancellationService {
    const notificationService: NotificationService

    constructor(notificationService: NotificationService)
      ensures this.notificationService == notificationService
    {
      this.notificationService := notificationService;
    }

    /** `cancelFlight`: appends FanOut of the passengers the lookup returns,
        in order, and always answers "Successfully notified". */
    method CancelFlight(request: CancellationRequest, passengersOnFlight: seq<Passenger>)
      returns (response: NotifiedResponse)
      modifies notificationService
      ensures notificationService.notifications
              == old(notificationService.notifications) + FanOut(request.id, passengersOnFlight)
      ensures response == NotifiedResponse(SuccessfullyNotified)
    {
      var flightId := request.id;
      for i := 0 to |passengersOnFlight|
        invariant notificationService.notifications
                  == old(notificationService.notifications) + FanOut(flightId, passengersOnFlight[..i])
      {
        var passenger := passengersOnFlight[i];
        var notification := Notification(passenger.id, Some(passenger.email), CancellationMessage(flightId));
        notificationService.CreateNotification(notification);
        assert passengersOnFlight[..i + 1][..i] == passengersOnFlight[..i];
      }
      assert passengersOnFlight[..|passengersOnFlight|] == passengersOnFlight;
      response := NotifiedResponse(SuccessfullyNotified);
    }
  }
}
