/**
 * What travels on the message bus: waypoints, positions, the decoded shape
 * of a JSON payload and the topic names of a vehicle.
 */
module Bus {
  import opened Wrappers
  import opened Text

  /** A latitude or longitude in degrees; the model never computes with one. */
  type Coord = real

  datatype Position = Position(lat: Coord, lng: Coord)

  /** A stop of a route. A missing title is decoded as the empty string (both are falsy). */
  datatype Waypoint = Waypoint(id: string, title: string, lat: Coord, lng: Coord)

  /**
   * One array-valued field of a decoded payload object:
   * Missing stands for an absent or falsy value (`undefined`, `null`, `0`,
   * `""`, `false`), NotArray for any other value that is not an array.
   */
  datatype Field<T> = Missing | NotArray | Items(items: seq<T>)

  /**
   * The result of `JSON.parse` on a payload. A text that parses to `null`
   * or to a primitive is a Json with every field missing.
   */
  datatype Payload =
    | BadJson
    | Json(route: Field<Waypoint>, statusArr: Field<int>, position: Option<Position>)

  datatype Message = Message(topic: string, payload: Payload)

  /** Status codes of one waypoint. */
  const PENDING := 0
  const EN_ROUTE := 1
  const ARRIVED := 2

  /** Every entry of `s` is `v` (JavaScript's `every`, true of the empty array). */
  predicate AllEqual(s: seq<int>, v: int) {
    forall i :: 0 <= i < |s| ==> s[i] == v
  }

  /** A fresh status array: `Array(n).fill(0)` or `route.map(() => 0)`. */
  function Zeros(n: nat): (z: seq<int>)
    ensures |z| == n && AllEqual(z, PENDING)
  {
    seq(n, _ => PENDING)
  }

  /** A vehicle id as the topic patterns capture it: non-empty, on one line. */
  predicate ValidId(id: string) {
    |id| > 0 && NoLineTerminator(id)
  }

  function RouteTopic(id: string): string {
    "car/" + id + "/route"
  }

  function TelemetryTopic(id: string): string {
    "car/" + id + "/telemetry"
  }

  /** The payload `{ route, statusArr }` that route publishes carry. */
  function RoutePayload(route: seq<Waypoint>, statusArr: seq<int>): Payload {
    Json(Items(route), Items(statusArr), None)
  }
}
