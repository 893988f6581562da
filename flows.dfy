/**
 * How the parts meet on the bus: a booking as the dashboard receives it,
 * the echo of the dashboard's own publishes, the map view of a listed
 * vehicle, and a few concrete runs of the handler.
 */
module Flows {
  import opened Wrappers
  import opened Text
  import opened Bus
  import opened Reconciler
  import Booking
  import Progress

  /** Booking a vehicle of the dashboard stores the built route with pending stops and plays the sound. */
  lemma BookingArrives(f: Fleet, carId: string, points: seq<Booking.Point>, clock: nat -> nat)
    requires Consistent(f) && carId in f.drivers && |points| >= 2
    ensures var sent := Booking.Submission(carId, points, clock);
            var o := Step(f, sent.value);
            var v := o.fleet.drivers[carId];
            && v.route == Booking.BuildRoute(points, clock)
            && v.statusArr == Zeros(|points|) && |v.statusArr| == |v.route|
            && o.fleet.prevStatus[carId] == v.statusArr
            && o.events == [NewBooking(carId)]
  {
    Dispatch(f, carId, Booking.Submission(carId, points, clock).value.payload);
  }

  /**
   * The echo of an auto-clear converges: the cleared entry keeps its
   * position and gains its id, and, since the empty array counts as all
   * pending, the echo plays the new-booking sound.
   */
  lemma AutoClearEcho(f: Fleet, id: string, p: Payload)
    requires ValidId(id) && Readable(p) && Completed(StatusOf(p))
    ensures var o := OnTelemetry(f, id, p);
            var echo := Step(o.fleet, o.published[0]);
            && echo.fleet.drivers == o.fleet.drivers[id := Vehicle(Some(id), [], [], p.position)]
            && echo.fleet.prevStatus == o.fleet.prevStatus
            && echo.events == [NewBooking(id)]
            && echo.published == []
  {
    var o := OnTelemetry(f, id, p);
    Dispatch(o.fleet, id, RoutePayload([], []));
  }

  /** The echo of a button press moves the row one status forward and keeps its route and position. */
  lemma ButtonEcho(f: Fleet, key: string)
    requires Consistent(f) && key in f.drivers && NextStatus(f.drivers[key].statusArr).Some?
    ensures var d := f.drivers[key];
            var next := NextStatus(d.statusArr).value;
            var echo := Step(f, Message(RouteTopic(key), RoutePayload(d.route, next)));
            && echo.fleet.drivers == f.drivers[key := Vehicle(Some(key), d.route, next, d.position)]
            && echo.fleet.prevStatus == f.prevStatus[key := next]
            && echo.published == []
  {
    var d := f.drivers[key];
    Dispatch(f, key, RoutePayload(d.route, NextStatus(d.statusArr).value));
  }

  function StopsOf(route: seq<Waypoint>): (stops: seq<Progress.Stop<Position>>)
    ensures |stops| == |route|
  {
    seq(|route|, i requires 0 <= i < |route| => Progress.Stop(Position(route[i].lat, route[i].lng), route[i].title))
  }

  /** A vehicle listed under "Route Details" is drawn straight away, with some stop still ahead or next. */
  lemma ListedVehicleIsDrawn(v: Vehicle)
    requires ShowsRouteDetails(v)
    ensures var view := Progress.Render(StopsOf(v.route), v.statusArr, Progress.InitialPos(v.position, Progress.Points(StopsOf(v.route))));
            view.Drawn? && view.drawUpcoming == (Progress.DoneCount(v.statusArr) < |v.route|)
  {
    Progress.FirstRender(StopsOf(v.route), v.statusArr, v.position);
  }

  /** Previous [0,0,1], incoming [0,1,1]: exactly one en-route notification, for index 1. */
  lemma DiffExample(id: string, route: seq<Waypoint>)
    ensures Transitions(id, [0, 0, 1], [0, 1, 1], route, 3) == [EnRoute(id, 1, Label(route, 1))]
  {
  }

  /** The state after "v1" is booked for stops A and B. */
  function Booked(a: Waypoint, b: Waypoint): Fleet {
    Fleet(map["v1" := Vehicle(Some("v1"), [a, b], [0, 0], None)], map["v1" := [0, 0]])
  }

  /** After that, telemetry at (1,1) with [1,0]. */
  function Started(a: Waypoint, b: Waypoint): Fleet {
    Fleet(map["v1" := Vehicle(Some("v1"), [a, b], [1, 0], Some(Position(1.0, 1.0)))], map["v1" := [1, 0]])
  }

  lemma ScenarioIds()
    ensures ValidId("v1")
    ensures "car/v1/route" == RouteTopic("v1") && "car/v1/telemetry" == TelemetryTopic("v1")
  {
  }

  /** The diff `[0,0]` to `[1,0]` without a route reports the first stop as en-route, labelled `#1`. */
  lemma FirstStopStarts()
    ensures Transitions("v1", [0, 0], [1, 0], [], 2) == [EnRoute("v1", 0, "#1")]
  {
    assert Label([], 0) == "#1";
    assert Transitions("v1", [0, 0], [1, 0], [], 1) == [EnRoute("v1", 0, "#1")];
  }

  /** The diff `[1,0]` to `[2,2]` without a route reports the first stop as arrived and nothing for the second. */
  lemma FirstStopArrives()
    ensures Transitions("v1", [1, 0], [2, 2], [], 2) == [Arrived("v1", 0, "#1")]
  {
    assert Label([], 0) == "#1";
    assert Transitions("v1", [1, 0], [2, 2], [], 1) == [Arrived("v1", 0, "#1")];
  }

  /** A route `{route: [A,B], statusArr: [0,0]}` for "v1" is stored and plays the sound. */
  lemma ScenarioBooking(a: Waypoint, b: Waypoint)
    ensures var o := Step(Fleet(map[], map[]), Message("car/v1/route", Json(Items([a, b]), Items([0, 0]), None)));
            o.events == [NewBooking("v1")] && o.fleet == Booked(a, b)
  {
    ScenarioIds();
    Dispatch(Fleet(map[], map[]), "v1", Json(Items([a, b]), Items([0, 0]), None));
  }

  /**
   * Then telemetry [1,0] at (1,1): exactly one en-route notice, for the first
   * stop, labelled "#1" because the telemetry carries no route of its own.
   */
  lemma ScenarioEnRoute(a: Waypoint, b: Waypoint)
    ensures var o := Step(Booked(a, b), Message("car/v1/telemetry", Json(Missing, Items([1, 0]), Some(Position(1.0, 1.0)))));
            o.events == [EnRoute("v1", 0, "#1")] && o.fleet == Started(a, b) && o.published == []
  {
    var f := Booked(a, b);
    ScenarioIds();
    Dispatch(f, "v1", Json(Missing, Items([1, 0]), Some(Position(1.0, 1.0))));
    FirstStopStarts();
    assert PreviousStatus(f, "v1") == [0, 0];
  }

  /** Then telemetry [2,2] at (2,2): the first stop is arrived, and the route is cleared locally and on the bus. */
  lemma ScenarioCompletion(a: Waypoint, b: Waypoint)
    ensures var o := Step(Started(a, b), Message("car/v1/telemetry", Json(Missing, Items([2, 2]), Some(Position(2.0, 2.0)))));
            && o.published == [ClearRoute("v1")]
            && o.fleet.drivers["v1"] == Vehicle(Some("v1"), [], [], Some(Position(2.0, 2.0)))
            && o.events == [Arrived("v1", 0, "#1"), TripCompleted("v1")]
  {
    var f := Started(a, b);
    ScenarioIds();
    Dispatch(f, "v1", Json(Missing, Items([2, 2]), Some(Position(2.0, 2.0))));
    FirstStopArrives();
    assert PreviousStatus(f, "v1") == [1, 0];
  }
}
