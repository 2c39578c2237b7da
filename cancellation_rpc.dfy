/** The flight-cancellation gRPC contract between the flight service and the
    passenger service. */
module CancellationRpc {
  import opened Results

  /** `FlightCancellationRequest`: a 32-bit flight id and a free-text reason. */
  datatype CancellationRequest = CancellationRequest(id: int, reason: string)

  /** The response status enum. `Cancelled` is its one declared value; any
      other number the client may read back is `Unrecognized`. */
  datatype ResponseStatus = Cancelled | Unrecognized(number: int)

  /** `FlightCancellationResponse` of the enum-typed contract. */
  datatype CancellationResponse = CancellationResponse(status: ResponseStatus)

  /** What a blocking client call yields: a response, or the failure raised
      when the call cannot complete. */
  datatype RemoteReply = Replied(response: CancellationResponse) | Unreachable(failure: Exception)

  /** The range of a Java `int`, which the request's id field has. */
  predicate IsInt32(x: int) {
    -0x8000_0000 <= x < 0x8000_0000
  }
}
