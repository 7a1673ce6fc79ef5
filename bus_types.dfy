/** Record shapes of the bus-tracking backend: the report a vehicle sends,
    the status record the registry stores, and the HTTP-style results the
    handlers return. */
module BusTypes {

  datatype Option<+T> = None | Some(value: T)

  /** Wall-clock time as the backend formats it ("%Y-%m-%d %H:%M:%S").
      The clock is outside the model: callers pass the current time in. */
  type Timestamp = string

  /** Latitude or longitude. Pass-through data; floating-point rounding is
      not modelled. */
  type Coordinate = real

  /** A report from a driver app (the request body of POST /update). */
  datatype BusUpdate = BusUpdate(
    busId: string,
    count: int,
    lat: Coordinate,
    lng: Coordinate,
    route: Option<string>,
    destination: Option<string>)

  /** The record stored per vehicle and returned to clients. */
  datatype BusStatus = BusStatus(
    busId: string,
    count: int,
    lat: Coordinate,
    lng: Coordinate,
    crowdLevel: string,
    timestamp: Timestamp,
    route: Option<string>,
    destination: Option<string>)

  /** An HTTP error raised by a handler: its status code and detail text. */
  datatype HttpError = HttpError(statusCode: int, detail: string)

  /** The 404 raised when a bus id is not in the registry. */
  function NotFound(busId: string): (e: HttpError)
    ensures e.statusCode == 404
  {
    HttpError(404, "Bus " + busId + " not found")
  }

  /** The success body of the mutating handlers. */
  datatype Response = Response(status: string, message: string, data: BusStatus)

  datatype Result<+T> = Ok(value: T) | Err(error: HttpError)
}
