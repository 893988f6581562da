/**
 * The dashboard's message handler: it dispatches on the topic, merges route
 * and telemetry messages into the per-vehicle state, reports status
 * transitions and clears a route once every stop is arrived. The operator's
 * Go / Arrived buttons, which publish an advanced status array without
 * touching local state, live here too.
 *
 * `Step` is the specification of one message; the class `Dashboard` holds
 * the two mutable maps and carries it out statement by statement.
 */
module Reconciler {
  import opened Wrappers
  import opened Text
  import opened Bus

  /**
   * The record kept for one vehicle. The id is missing only when a
   * completion message created the entry (`{...undefined, route: [], ...}`).
   */
  datatype Vehicle = Vehicle(id: Option<string>, route: seq<Waypoint>, statusArr: seq<int>, position: Option<Position>)

  /** The fleet map and the status array each vehicle's next diff starts from. */
  datatype Fleet = Fleet(drivers: map<string, Vehicle>, prevStatus: map<string, seq<int>>)

  /** Notifications; NewBooking is the one that also plays a sound. */
  datatype Event =
    | NewBooking(vehicle: string)
    | RouteReceived(vehicle: string)
    | EnRoute(vehicle: string, index: nat, title: string)
    | Arrived(vehicle: string, index: nat, title: string)
    | TripCompleted(vehicle: string)

  /** What one message does: the new state, the notifications, the publishes. */
  datatype Outcome = Outcome(fleet: Fleet, events: seq<Event>, published: seq<Message>)

  datatype Topic = RouteOf(id: string) | TelemetryOf(id: string) | Unrecognized

  // ---------------------------------------------------------------------
  // Topic dispatch

  /** `topic.match(/^car\/(.+)SUFFIX$/)`: the captured id, if any. */
  function Capture(topic: string, suffix: string): (r: Option<string>)
    ensures r.Some? ==> ValidId(r.value) && topic == "car/" + r.value + suffix
  {
    if |topic| >= 5 + |suffix| && topic[..4] == "car/" && topic[|topic| - |suffix|..] == suffix
       && NoLineTerminator(topic[4..|topic| - |suffix|])
    then
      assert topic == topic[..4] + topic[4..|topic| - |suffix|] + topic[|topic| - |suffix|..];
      Some(topic[4..|topic| - |suffix|])
    else None
  }

  /** The route pattern is tried first, then the telemetry pattern. */
  function ParseTopic(topic: string): (t: Topic)
    ensures t.RouteOf? ==> topic == RouteTopic(t.id) && ValidId(t.id)
    ensures t.TelemetryOf? ==> topic == TelemetryTopic(t.id) && ValidId(t.id)
  {
    match Capture(topic, "/route")
    case Some(id) => RouteOf(id)
    case None =>
      match Capture(topic, "/telemetry")
      case Some(id) => TelemetryOf(id)
      case None => Unrecognized
  }

  /** A pattern captures `id` exactly when the topic is `car/` + id + suffix for a valid id. */
  lemma CaptureExactly(topic: string, suffix: string, id: string)
    ensures Capture(topic, suffix) == Some(id) <==> topic == "car/" + id + suffix && ValidId(id)
  {
    if topic == "car/" + id + suffix && ValidId(id) {
      assert topic[..4] == "car/";
      assert topic[|topic| - |suffix|..] == suffix;
      assert topic[4..|topic| - |suffix|] == id;
    }
  }

  lemma TopicRoundTrip(id: string)
    requires ValidId(id)
    ensures ParseTopic(RouteTopic(id)) == RouteOf(id)
    ensures ParseTopic(TelemetryTopic(id)) == TelemetryOf(id)
  {
    CaptureExactly(RouteTopic(id), "/route", id);
    var t := TelemetryTopic(id);
    assert t[|t| - 1] == 'y';
    assert Capture(t, "/route") == None;
    CaptureExactly(t, "/telemetry", id);
  }

  /** Every topic is a route topic, a telemetry topic, or neither, and parses as such. */
  lemma ParseTopicSound(topic: string)
    ensures match ParseTopic(topic)
            case RouteOf(id) => topic == RouteTopic(id) && ValidId(id)
            case TelemetryOf(id) => topic == TelemetryTopic(id) && ValidId(id)
            case Unrecognized => forall id :: ValidId(id) ==> topic != RouteTopic(id) && topic != TelemetryTopic(id)
  {
    match ParseTopic(topic)
    case RouteOf(id) => CaptureExactly(topic, "/route", id);
    case TelemetryOf(id) => CaptureExactly(topic, "/telemetry", id);
    case Unrecognized =>
      forall id | ValidId(id) ensures topic != RouteTopic(id) && topic != TelemetryTopic(id) {
        TopicRoundTrip(id);
      }
  }

  // ---------------------------------------------------------------------
  // Route messages

  function PreviousStatus(f: Fleet, id: string): seq<int> {
    if id in f.prevStatus then f.prevStatus[id] else []
  }

  /** `Array.isArray(payload.statusArr) ? payload.statusArr : payload.route.map(() => 0)` */
  function InitialStatus(route: seq<Waypoint>, statusArr: Field<int>): seq<int> {
    if statusArr.Items? then statusArr.items else Zeros(|route|)
  }

  /**
   * The route handler never publishes and notifies at most once; without a
   * notification nothing changed, with one the sender has both entries.
   */
  function OnRoute(f: Fleet, id: string, p: Payload): (o: Outcome)
    ensures o.published == [] && |o.events| <= 1
    ensures o.events == [] ==> o.fleet == f
    ensures o.events != [] ==> id in o.fleet.drivers && id in o.fleet.prevStatus
  {
    if p.BadJson? || !p.route.Items? then Outcome(f, [], [])
    else
      var init := InitialStatus(p.route.items, p.statusArr);
      var position :=
        if p.position.Some? then p.position
        else if id in f.drivers then f.drivers[id].position
        else None;
      Outcome(
        Fleet(f.drivers[id := Vehicle(Some(id), p.route.items, init, position)], f.prevStatus[id := init]),
        [if AllEqual(init, PENDING) then NewBooking(id) else RouteReceived(id)],
        [])
  }

  // ---------------------------------------------------------------------
  // Telemetry messages

  /** `prevArr[i] ?? 0` */
  function PrevAt(prev: seq<int>, i: nat): int {
    if i < |prev| then prev[i] else PENDING
  }

  /** `route[i]?.title || "#" + (i + 1)` */
  function Label(route: seq<Waypoint>, i: nat): string
  {
    if i < |route| && route[i].title != "" then route[i].title else "#" + NatToString(i + 1)
  }

  /**
   * A stop without a title is named `#` and its 1-based position, so two
   * untitled stops never share a label.
   */
  lemma LabelFallback(route: seq<Waypoint>, i: nat, j: nat)
    requires !(i < |route| && route[i].title != "") && !(j < |route| && route[j].title != "")
    ensures Label(route, i) == "#" + NatToString(i + 1)
    ensures |Label(route, i)| > 1 && Label(route, i)[0] == '#' && AllDigits(Label(route, i)[1..])
    ensures Label(route, i) == Label(route, j) <==> i == j
  {
    var di, dj := NatToString(i + 1), NatToString(j + 1);
    var li, lj := "#" + di, "#" + dj;
    assert Label(route, i) == li;
    assert Label(route, j) == lj;
    assert li[1..] == di;
    assert lj[1..] == dj;
    if li == lj {
      assert di == dj;
      NatToStringInjective(i + 1, j + 1);
    }
  }

  /** The notification, if any, for index `i` of the incoming status array. */
  function TransitionAt(id: string, prev: seq<int>, cur: seq<int>, route: seq<Waypoint>, i: nat): seq<Event>
    requires i < |cur|
  {
    var pv := PrevAt(prev, i);
    if pv == PENDING && cur[i] == EN_ROUTE then [EnRoute(id, i, Label(route, i))]
    else if pv == EN_ROUTE && cur[i] == ARRIVED then [Arrived(id, i, Label(route, i))]
    else []
  }

  /** The notifications for indices `0 .. k-1`, in index order. */
  function Transitions(id: string, prev: seq<int>, cur: seq<int>, route: seq<Waypoint>, k: nat): (evs: seq<Event>)
    requires k <= |cur|
    ensures |evs| <= k
    decreases k
  {
    if k == 0 then [] else Transitions(id, prev, cur, route, k - 1) + TransitionAt(id, prev, cur, route, k - 1)
  }

  /** `statusArr.length && statusArr.every((s) => s === 2)` */
  predicate Completed(s: seq<int>) {
    |s| > 0 && AllEqual(s, ARRIVED)
  }

  /** The self-correcting publish of an empty route. */
  function ClearRoute(id: string): Message {
    Message(RouteTopic(id), RoutePayload([], []))
  }

  /** A telemetry payload the handler gets past: it has a position and an array-or-falsy statusArr. */
  predicate Readable(p: Payload) {
    p.Json? && p.position.Some? && !p.statusArr.NotArray?
  }

  function StatusOf(p: Payload): seq<int> requires p.Json? {
    if p.statusArr.Items? then p.statusArr.items else []
  }

  function RouteFieldOf(p: Payload): seq<Waypoint> requires p.Json? {
    if p.route.Items? then p.route.items else []
  }

  /**
   * The telemetry handler publishes nothing but, at most once, the empty
   * route for the sender; a message it cannot read changes nothing, and any
   * other leaves the sender with both entries.
   */
  function OnTelemetry(f: Fleet, id: string, p: Payload): (o: Outcome)
    ensures o.published == [] || o.published == [ClearRoute(id)]
    ensures !Readable(p) ==> o == Outcome(f, [], [])
    ensures Readable(p) ==> id in o.fleet.drivers && id in o.fleet.prevStatus
  {
    if !Readable(p) then Outcome(f, [], [])
    else
      var statusArr := StatusOf(p);
      var events := Transitions(id, PreviousStatus(f, id), statusArr, RouteFieldOf(p), |statusArr|);
      if Completed(statusArr) then
        var known := if id in f.drivers then f.drivers[id].id else None;
        Outcome(
          Fleet(f.drivers[id := Vehicle(known, [], [], p.position)], f.prevStatus[id := []]),
          events + [TripCompleted(id)],
          [ClearRoute(id)])
      else
        var kept := if id in f.drivers then f.drivers[id].route else [];
        Outcome(
          Fleet(f.drivers[id := Vehicle(Some(id), kept, statusArr, p.position)], f.prevStatus[id := statusArr]),
          events,
          [])
  }

  /** One inbound message. */
  function Step(f: Fleet, m: Message): (o: Outcome)
    ensures ParseTopic(m.topic).Unrecognized? ==> o == Outcome(f, [], [])
    ensures !ParseTopic(m.topic).Unrecognized? ==>
              forall msg :: msg in o.published ==> msg == ClearRoute(ParseTopic(m.topic).id)
  {
    match ParseTopic(m.topic)
    case RouteOf(id) => OnRoute(f, id, m.payload)
    case TelemetryOf(id) => OnTelemetry(f, id, m.payload)
    case Unrecognized => Outcome(f, [], [])
  }

  // ---------------------------------------------------------------------
  // What a message does

  /** A route topic reaches the route handler with its id, a telemetry topic the telemetry handler. */
  lemma Dispatch(f: Fleet, id: string, p: Payload)
    requires ValidId(id)
    ensures Step(f, Message(RouteTopic(id), p)) == OnRoute(f, id, p)
    ensures Step(f, Message(TelemetryTopic(id), p)) == OnTelemetry(f, id, p)
  {
    TopicRoundTrip(id);
  }

  /** Any other topic changes nothing and says nothing. */
  lemma OtherTopicIgnored(f: Fleet, m: Message)
    requires forall id :: ValidId(id) ==> m.topic != RouteTopic(id) && m.topic != TelemetryTopic(id)
    ensures Step(f, m) == Outcome(f, [], [])
  {
    ParseTopicSound(m.topic);
  }

  /** A route message is acted on exactly when it parsed and its `route` is an array. */
  lemma RouteMessageAccepted(f: Fleet, id: string, p: Payload)
    ensures var o := OnRoute(f, id, p);
            (o.events != [] <==> p.Json? && p.route.Items?) &&
            (o.events == [] ==> o.fleet == f) &&
            o.published == []
  {
  }

  /** The state after an accepted route message. */
  lemma RouteMessageStored(f: Fleet, id: string, p: Payload)
    requires p.Json? && p.route.Items?
    ensures var g := OnRoute(f, id, p).fleet;
            var v := g.drivers[id];
            && v.id == Some(id) && v.route == p.route.items
            && (p.statusArr.Items? ==> v.statusArr == p.statusArr.items)
            && (!p.statusArr.Items? ==> |v.statusArr| == |v.route| && AllEqual(v.statusArr, PENDING))
            && g.prevStatus[id] == v.statusArr
            && v.position == (if p.position.Some? then p.position
                              else if id in f.drivers then f.drivers[id].position else None)
            && g.drivers.Keys == f.drivers.Keys + {id}
            && g.prevStatus.Keys == f.prevStatus.Keys + {id}
            && (forall k :: k in f.drivers && k != id ==> g.drivers[k] == f.drivers[k])
            && (forall k :: k in f.prevStatus && k != id ==> k in g.prevStatus && g.prevStatus[k] == f.prevStatus[k])
  {
  }

  /** The sound plays exactly when the stored array is all zeros, the empty array included. */
  lemma RouteNotification(f: Fleet, id: string, p: Payload)
    requires p.Json? && p.route.Items?
    ensures var o := OnRoute(f, id, p);
            var stored := o.fleet.drivers[id].statusArr;
            (o.events == [NewBooking(id)] <==> AllEqual(stored, PENDING)) &&
            (o.events == [RouteReceived(id)] <==> !AllEqual(stored, PENDING))
  {
  }

  /** Index i contributes at most one notification, about index i, and which one depends on its two values. */
  lemma TransitionAtFacts(id: string, prev: seq<int>, cur: seq<int>, route: seq<Waypoint>, i: nat)
    requires i < |cur|
    ensures var t := TransitionAt(id, prev, cur, route, i);
            && |t| <= 1
            && (forall e :: e in t ==>
                  (e.EnRoute? || e.Arrived?) && e.vehicle == id && e.index == i && e.title == Label(route, i))
            && (EnRoute(id, i, Label(route, i)) in t <==> PrevAt(prev, i) == PENDING && cur[i] == EN_ROUTE)
            && (Arrived(id, i, Label(route, i)) in t <==> PrevAt(prev, i) == EN_ROUTE && cur[i] == ARRIVED)
  {
  }

  /** Every notification of a diff is an en-route or arrived one for an index below `k`, labelled from the route. */
  lemma {:induction false} TransitionsShape(id: string, prev: seq<int>, cur: seq<int>, route: seq<Waypoint>, k: nat)
    requires k <= |cur|
    ensures forall e :: e in Transitions(id, prev, cur, route, k) ==>
              && (e.EnRoute? || e.Arrived?)
              && e.vehicle == id && e.index < k && e.title == Label(route, e.index)
    decreases k
  {
    if k > 0 {
      TransitionsShape(id, prev, cur, route, k - 1);
      TransitionAtFacts(id, prev, cur, route, k - 1);
      var before := Transitions(id, prev, cur, route, k - 1);
      var t := TransitionAt(id, prev, cur, route, k - 1);
      assert Transitions(id, prev, cur, route, k) == before + t;
    }
  }

  /** Every event is a per-stop notification, and their indices strictly increase. */
  predicate Ordered(evs: seq<Event>) {
    forall a, b :: 0 <= a < b < |evs| ==>
      && (evs[a].EnRoute? || evs[a].Arrived?) && (evs[b].EnRoute? || evs[b].Arrived?)
      && evs[a].index < evs[b].index
  }

  /** Appending notifications for a later index to an ordered sequence keeps it ordered. */
  lemma OrderedAppend(before: seq<Event>, t: seq<Event>, m: int)
    requires Ordered(before)
    requires forall e :: e in before ==> (e.EnRoute? || e.Arrived?) && e.index < m
    requires |t| <= 1 && forall e :: e in t ==> (e.EnRoute? || e.Arrived?) && e.index == m
    ensures Ordered(before + t)
  {
    var evs := before + t;
    forall a, b | 0 <= a < b < |evs|
      ensures && (evs[a].EnRoute? || evs[a].Arrived?) && (evs[b].EnRoute? || evs[b].Arrived?)
              && evs[a].index < evs[b].index
    {
      assert evs[a] == before[a] && before[a] in before;
      if |before| <= b {
        assert evs[b] == t[b - |before|] && t[b - |before|] in t;
      } else {
        assert evs[b] == before[b];
      }
    }
  }

  /** The notifications of a diff come in strictly increasing index order. */
  lemma {:induction false} TransitionsOrdered(id: string, prev: seq<int>, cur: seq<int>, route: seq<Waypoint>, k: nat)
    requires k <= |cur|
    ensures Ordered(Transitions(id, prev, cur, route, k))
    decreases k
  {
    if k > 0 {
      TransitionsOrdered(id, prev, cur, route, k - 1);
      TransitionsShape(id, prev, cur, route, k - 1);
      TransitionAtFacts(id, prev, cur, route, k - 1);
      var t := TransitionAt(id, prev, cur, route, k - 1);
      OrderedAppend(Transitions(id, prev, cur, route, k - 1), t, k - 1);
    }
  }

  /** Index i is reported en-route for a 0 -> 1 change and arrived for a 1 -> 2 change, and only then. */
  lemma {:induction false} TransitionReported(id: string, prev: seq<int>, cur: seq<int>, route: seq<Waypoint>, k: nat, i: nat)
    requires i < k <= |cur|
    ensures EnRoute(id, i, Label(route, i)) in Transitions(id, prev, cur, route, k)
            <==> PrevAt(prev, i) == PENDING && cur[i] == EN_ROUTE
    ensures Arrived(id, i, Label(route, i)) in Transitions(id, prev, cur, route, k)
            <==> PrevAt(prev, i) == EN_ROUTE && cur[i] == ARRIVED
    decreases k
  {
    TransitionAtFacts(id, prev, cur, route, k - 1);
    var before := Transitions(id, prev, cur, route, k - 1);
    var t := TransitionAt(id, prev, cur, route, k - 1);
    assert Transitions(id, prev, cur, route, k) == before + t;
    if i == k - 1 {
      TransitionsShape(id, prev, cur, route, k - 1);
      assert EnRoute(id, i, Label(route, i)) !in before;
      assert Arrived(id, i, Label(route, i)) !in before;
    } else {
      TransitionReported(id, prev, cur, route, k - 1, i);
      assert EnRoute(id, i, Label(route, i)) !in t;
      assert Arrived(id, i, Label(route, i)) !in t;
    }
  }

  /** Which indices are reported: a 0 -> 1 change as en-route, a 1 -> 2 change as arrived. */
  lemma TransitionsDetect(id: string, prev: seq<int>, cur: seq<int>, route: seq<Waypoint>, k: nat)
    requires k <= |cur|
    ensures var evs := Transitions(id, prev, cur, route, k);
            && (forall i :: 0 <= i < k ==>
                  (EnRoute(id, i, Label(route, i)) in evs <==> PrevAt(prev, i) == PENDING && cur[i] == EN_ROUTE))
            && (forall i :: 0 <= i < k ==>
                  (Arrived(id, i, Label(route, i)) in evs <==> PrevAt(prev, i) == EN_ROUTE && cur[i] == ARRIVED))
  {
    forall i | 0 <= i < k
      ensures EnRoute(id, i, Label(route, i)) in Transitions(id, prev, cur, route, k)
              <==> PrevAt(prev, i) == PENDING && cur[i] == EN_ROUTE
      ensures Arrived(id, i, Label(route, i)) in Transitions(id, prev, cur, route, k)
              <==> PrevAt(prev, i) == EN_ROUTE && cur[i] == ARRIVED
    {
      TransitionReported(id, prev, cur, route, k, i);
    }
  }

  /**
   * The notifications of a diff: "en-route" for index i exactly when the
   * previous value (0 when missing) is 0 and the new one 1, "arrived" exactly
   * when they are 1 and 2, nothing else, at most one per index and in index order.
   */
  lemma TransitionsExactly(id: string, prev: seq<int>, cur: seq<int>, route: seq<Waypoint>, k: nat)
    requires k <= |cur|
    ensures var evs := Transitions(id, prev, cur, route, k);
            && (forall i :: 0 <= i < k ==>
                  (EnRoute(id, i, Label(route, i)) in evs <==> PrevAt(prev, i) == PENDING && cur[i] == EN_ROUTE))
            && (forall i :: 0 <= i < k ==>
                  (Arrived(id, i, Label(route, i)) in evs <==> PrevAt(prev, i) == EN_ROUTE && cur[i] == ARRIVED))
            && (forall e :: e in evs ==>
                  && (e.EnRoute? || e.Arrived?)
                  && e.vehicle == id && e.index < k && e.title == Label(route, e.index))
            && (forall a, b :: 0 <= a < b < |evs| ==> evs[a].index < evs[b].index)
  {
    TransitionsDetect(id, prev, cur, route, k);
    TransitionsShape(id, prev, cur, route, k);
    TransitionsOrdered(id, prev, cur, route, k);
  }

  /** Delivering the array the diff starts from reports nothing: transitions are edge-triggered. */
  lemma {:induction false} RepeatIsSilent(id: string, s: seq<int>, route: seq<Waypoint>, k: nat)
    requires k <= |s|
    ensures Transitions(id, s, s, route, k) == []
    decreases k
  {
    if k > 0 {
      RepeatIsSilent(id, s, route, k - 1);
    }
  }

  /** Against an empty baseline an all-arrived array reports nothing (0 to 2 is not a transition). */
  lemma {:induction false} SkippedStopsAreSilent(id: string, s: seq<int>, route: seq<Waypoint>, k: nat)
    requires k <= |s| && AllEqual(s, ARRIVED)
    ensures Transitions(id, [], s, route, k) == []
    decreases k
  {
    if k > 0 {
      SkippedStopsAreSilent(id, s, route, k - 1);
    }
  }

  /** A telemetry message is acted on exactly when the handler can read it. */
  lemma TelemetryAccepted(f: Fleet, id: string, p: Payload)
    ensures !Readable(p) ==> OnTelemetry(f, id, p) == Outcome(f, [], [])
    ensures Readable(p) ==> id in OnTelemetry(f, id, p).fleet.drivers
  {
  }

  /**
   * Completion: a non-empty all-arrived array clears the route locally and
   * publishes an empty route for the vehicle.
   */
  lemma TelemetryCompletes(f: Fleet, id: string, p: Payload)
    requires Readable(p) && Completed(StatusOf(p))
    ensures var o := OnTelemetry(f, id, p);
            var v := o.fleet.drivers[id];
            && o.published == [ClearRoute(id)]
            && o.fleet.prevStatus[id] == []
            && v == Vehicle(if id in f.drivers then f.drivers[id].id else None, [], [], p.position)
            && o.events == Transitions(id, PreviousStatus(f, id), StatusOf(p), RouteFieldOf(p), |StatusOf(p)|) + [TripCompleted(id)]
            && |o.events| > 0 && o.events[|o.events| - 1] == TripCompleted(id)
            && o.fleet.drivers.Keys == f.drivers.Keys + {id}
            && o.fleet.prevStatus.Keys == f.prevStatus.Keys + {id}
            && (forall k :: k in f.drivers && k != id ==> o.fleet.drivers[k] == f.drivers[k])
            && (forall k :: k in f.prevStatus && k != id ==> o.fleet.prevStatus[k] == f.prevStatus[k])
  {
  }

  /** The normal update: new status and position, the route kept (or `[]` for a new vehicle). */
  lemma TelemetryUpdates(f: Fleet, id: string, p: Payload)
    requires Readable(p) && !Completed(StatusOf(p))
    ensures var o := OnTelemetry(f, id, p);
            var v := o.fleet.drivers[id];
            && o.published == []
            && o.fleet.prevStatus[id] == StatusOf(p)
            && v.id == Some(id) && v.statusArr == StatusOf(p) && v.position == p.position
            && v.route == (if id in f.drivers then f.drivers[id].route else [])
            && o.events == Transitions(id, PreviousStatus(f, id), StatusOf(p), RouteFieldOf(p), |StatusOf(p)|)
            && (forall e :: e in o.events ==> e.EnRoute? || e.Arrived?)
            && o.fleet.drivers.Keys == f.drivers.Keys + {id}
            && o.fleet.prevStatus.Keys == f.prevStatus.Keys + {id}
            && (forall k :: k in f.drivers && k != id ==> o.fleet.drivers[k] == f.drivers[k])
            && (forall k :: k in f.prevStatus && k != id ==> o.fleet.prevStatus[k] == f.prevStatus[k])
  {
    TransitionsExactly(id, PreviousStatus(f, id), StatusOf(p), RouteFieldOf(p), |StatusOf(p)|);
  }

  // ---------------------------------------------------------------------
  // The invariant the two maps keep

  /**
   * Every key is an id the topic patterns can capture; the snapshot has the
   * same keys as the fleet and always equals the stored status array; an
   * entry without an id has no route.
   */
  ghost predicate Consistent(f: Fleet) {
    && f.prevStatus.Keys == f.drivers.Keys
    && forall k :: k in f.drivers ==>
         && ValidId(k)
         && f.prevStatus[k] == f.drivers[k].statusArr
         && (f.drivers[k].id == Some(k) || (f.drivers[k].id == None && f.drivers[k].route == [] && f.drivers[k].statusArr == []))
  }

  /** The route handler keeps the invariant for an id the topic patterns can capture. */
  lemma RouteKeepsConsistent(f: Fleet, id: string, p: Payload)
    requires Consistent(f) && ValidId(id)
    ensures Consistent(OnRoute(f, id, p).fleet)
  {
  }

  /** The telemetry handler keeps the invariant for an id the topic patterns can capture. */
  lemma TelemetryKeepsConsistent(f: Fleet, id: string, p: Payload)
    requires Consistent(f) && ValidId(id)
    ensures Consistent(OnTelemetry(f, id, p).fleet)
  {
  }

  lemma StepKeepsConsistent(f: Fleet, m: Message)
    requires Consistent(f)
    ensures Consistent(Step(f, m).fleet)
  {
    match ParseTopic(m.topic)
    case RouteOf(id) => RouteKeepsConsistent(f, id, m.payload);
    case TelemetryOf(id) => TelemetryKeepsConsistent(f, id, m.payload);
    case Unrecognized =>
  }

  /** Delivering the same message twice leaves the state of delivering it once. */
  lemma StepIdempotent(f: Fleet, m: Message)
    ensures Step(Step(f, m).fleet, m).fleet == Step(f, m).fleet
  {
    var g := Step(f, m).fleet;
    match ParseTopic(m.topic)
    case RouteOf(id) =>
    case TelemetryOf(id) =>
      if Readable(m.payload) {
        var s := StatusOf(m.payload);
        if Completed(s) {
          assert g.drivers[id].id == (if id in f.drivers then f.drivers[id].id else None);
        }
      }
    case Unrecognized =>
  }

  /** A repeated telemetry message reports no en-route or arrived notification the second time. */
  lemma ReplayReportsNoProgress(f: Fleet, id: string, p: Payload)
    ensures var o := OnTelemetry(OnTelemetry(f, id, p).fleet, id, p);
            forall e :: e in o.events ==> e == TripCompleted(id)
  {
    if Readable(p) {
      var s := StatusOf(p);
      var g := OnTelemetry(f, id, p).fleet;
      if Completed(s) {
        assert PreviousStatus(g, id) == [];
        SkippedStopsAreSilent(id, s, RouteFieldOf(p), |s|);
      } else {
        assert PreviousStatus(g, id) == s;
        RepeatIsSilent(id, s, RouteFieldOf(p), |s|);
      }
    }
  }

  // ---------------------------------------------------------------------
  // The Go / Arrived buttons of the fleet table

  datatype Action = NoAction | Go | Arrive

  /** Which button a row with this status array shows. */
  function OfferedAction(s: seq<int>): (a: Action)
    ensures a == Go <==> |s| > 0 && EN_ROUTE !in s && PENDING in s
    ensures a == Arrive <==> EN_ROUTE in s
  {
    if |s| > 0 then
      if EN_ROUTE !in s && PENDING in s then Go
      else if EN_ROUTE in s then Arrive
      else NoAction
    else NoAction
  }

  /** `s.findIndex((x) => x === v)`: the first index holding v, or -1. */
  function FindIndex(s: seq<int>, v: int): (r: int)
    ensures -1 <= r < |s|
    ensures r == -1 <==> v !in s
    ensures r >= 0 ==> s[r] == v && forall j :: 0 <= j < r ==> s[j] != v
  {
    if s == [] then -1
    else if s[0] == v then 0
    else
      var k := FindIndex(s[1..], v);
      if k == -1 then -1 else k + 1
  }

  /** The array a button publishes: a copy whose first `from` becomes `from + 1`. */
  function Promote(s: seq<int>, from: int): (r: seq<int>)
    requires from in s
    ensures |r| == |s|
    ensures exists j :: 0 <= j < |s| && s[j] == from && r[j] == from + 1 && (forall i :: 0 <= i < j ==> s[i] != from)
                     && (forall i :: 0 <= i < |s| && i != j ==> r[i] == s[i])
  {
    var j := FindIndex(s, from);
    s[j := from + 1]
  }

  /** The status array published by the row's button, if it has one. */
  function NextStatus(s: seq<int>): (r: Option<seq<int>>)
    ensures r.Some? <==> OfferedAction(s) != NoAction
    ensures r.Some? ==> |r.value| == |s|
    ensures r.Some? ==> exists j :: 0 <= j < |s| && r.value[j] == s[j] + 1 &&
                                   (forall i :: 0 <= i < |s| && i != j ==> r.value[i] == s[i])
  {
    match OfferedAction(s)
    case Go => Some(Promote(s, PENDING))
    case Arrive => Some(Promote(s, EN_ROUTE))
    case NoAction => None
  }

  /** `publishRoute(id, next)`: the vehicle's stored route with the new array, or nothing for an unknown id. */
  function PublishRoute(drivers: map<string, Vehicle>, id: string, next: seq<int>): (r: Option<Message>)
    ensures r.None? <==> id !in drivers
    ensures r.Some? ==> r.value.topic == RouteTopic(id) && r.value.payload == RoutePayload(drivers[id].route, next)
  {
    if id in drivers then Some(Message(RouteTopic(id), RoutePayload(drivers[id].route, next))) else None
  }

  /** A status array that follows the 0 -> 1 -> 2 convention: arrived stops first, at most one en route. */
  predicate InOrder(s: seq<int>) {
    && (forall i :: 0 <= i < |s| ==> PENDING <= s[i] <= ARRIVED)
    && (forall i, j :: 0 <= i < j < |s| ==> s[i] >= s[j] && (s[i] == EN_ROUTE ==> s[j] != EN_ROUTE))
  }

  function Sum(s: seq<int>): int {
    if s == [] then 0 else s[0] + Sum(s[1..])
  }

  /** Button presses still needed to finish the route. */
  function Remaining(s: seq<int>): int {
    ARRIVED * |s| - Sum(s)
  }

  lemma {:induction false} SumUpdate(s: seq<int>, j: nat, v: int)
    requires j < |s|
    ensures Sum(s[j := v]) == Sum(s) - s[j] + v
  {
    if j > 0 {
      SumUpdate(s[1..], j - 1, v);
      assert s[j := v][1..] == s[1..][j - 1 := v];
    }
  }

  lemma {:induction false} SumBounds(s: seq<int>)
    requires forall i :: 0 <= i < |s| ==> PENDING <= s[i] <= ARRIVED
    ensures 0 <= Sum(s) <= ARRIVED * |s|
    ensures Sum(s) == ARRIVED * |s| <==> AllEqual(s, ARRIVED)
  {
    if s != [] {
      SumBounds(s[1..]);
      assert AllEqual(s, ARRIVED) <==> s[0] == ARRIVED && AllEqual(s[1..], ARRIVED);
    }
  }

  /**
   * The buttons drive an in-order array to completion: a row shows no button
   * exactly when its route is complete, and otherwise the published array is
   * still in order and one press closer to the end.
   */
  lemma ButtonsMakeProgress(s: seq<int>)
    requires InOrder(s) && |s| > 0
    ensures 0 <= Remaining(s)
    ensures NextStatus(s).None? <==> Completed(s)
    ensures Completed(s) <==> Remaining(s) == 0
    ensures NextStatus(s).Some? ==> InOrder(NextStatus(s).value) && Remaining(NextStatus(s).value) == Remaining(s) - 1
  {
    SumBounds(s);
    if NextStatus(s).Some? {
      var from := if OfferedAction(s) == Go then PENDING else EN_ROUTE;
      var j := FindIndex(s, from);
      var r := s[j := from + 1];
      assert NextStatus(s).value == r;
      SumUpdate(s, j, from + 1);
      forall a, b | 0 <= a < b < |r| ensures r[a] >= r[b] && (r[a] == EN_ROUTE ==> r[b] != EN_ROUTE) {
        if from == EN_ROUTE && b == j {
          assert s[a] >= s[j] && s[a] != EN_ROUTE;
        }
      }
    } else {
      assert forall i :: 0 <= i < |s| ==> s[i] == ARRIVED by {
        forall i | 0 <= i < |s| ensures s[i] == ARRIVED {
          assert s[i] != PENDING && s[i] != EN_ROUTE;
        }
      }
    }
  }

  /** The "Route Details" list shows a vehicle with a route that is not yet complete. */
  predicate ShowsRouteDetails(v: Vehicle) {
    |v.route| > 0 && !Completed(v.statusArr)
  }

  // ---------------------------------------------------------------------
  // The component's state

  /** The fleet map and the previous-status snapshot, updated in place by each message. */
  class Dashboard {
    var drivers: map<string, Vehicle>
    var prevStatus: map<string, seq<int>>

    ghost function State(): Fleet
      reads this
    {
      Fleet(drivers, prevStatus)
    }

    ghost predicate Valid()
      reads this
    {
      Consistent(State())
    }

    constructor ()
      ensures Valid() && drivers == map[] && prevStatus == map[]
    {
      drivers := map[];
      prevStatus := map[];
    }

    /** The `message` handler. */
    method HandleMessage(m: Message) returns (events: seq<Event>, published: seq<Message>)
      modifies this
      ensures State() == Step(old(State()), m).fleet
      ensures events == Step(old(State()), m).events
      ensures published == Step(old(State()), m).published
      ensures old(Valid()) ==> Valid()
    {
      ghost var before := State();
      match ParseTopic(m.topic) {
        case RouteOf(id) =>
          events, published := HandleRoute(id, m.payload);
        case TelemetryOf(id) =>
          events, published := HandleTelemetry(id, m.payload);
        case Unrecognized =>
          events, published := [], [];
      }
      if Consistent(before) {
        StepKeepsConsistent(before, m);
      }
    }

    /** The route branch of the handler. */
    method HandleRoute(id: string, p: Payload) returns (events: seq<Event>, published: seq<Message>)
      modifies this
      ensures State() == OnRoute(old(State()), id, p).fleet
      ensures events == OnRoute(old(State()), id, p).events
      ensures published == []
      ensures old(Valid()) && ValidId(id) ==> Valid()
    {
      ghost var before := State();
      events, published := [], [];
      if p.Json? && p.route.Items? {
        var route := p.route.items;
        var init := if p.statusArr.Items? then p.statusArr.items else Zeros(|route|);
        var position := p.position;
        if position.None? && id in drivers {
          position := drivers[id].position;
        }
        drivers := drivers[id := Vehicle(Some(id), route, init, position)];
        prevStatus := prevStatus[id := init];
        if AllEqual(init, PENDING) {
          events := [NewBooking(id)];
        } else {
          events := [RouteReceived(id)];
        }
      }
      if Consistent(before) && ValidId(id) {
        RouteKeepsConsistent(before, id, p);
      }
    }

    /** The telemetry branch of the handler. */
    method HandleTelemetry(id: string, p: Payload) returns (events: seq<Event>, published: seq<Message>)
      modifies this
      ensures State() == OnTelemetry(old(State()), id, p).fleet
      ensures events == OnTelemetry(old(State()), id, p).events
      ensures published == OnTelemetry(old(State()), id, p).published
      ensures old(Valid()) && ValidId(id) ==> Valid()
    {
      ghost var before := State();
      events, published := [], [];
      if p.Json? && p.position.Some? && !p.statusArr.NotArray? {
        var statusArr := if p.statusArr.Items? then p.statusArr.items else [];
        var route := if p.route.Items? then p.route.items else [];
        var prevArr := if id in prevStatus then prevStatus[id] else [];
        events := DetectTransitions(id, prevArr, statusArr, route);
        if |statusArr| > 0 && AllEqual(statusArr, ARRIVED) {
          events := events + [TripCompleted(id)];
          published := [ClearRoute(id)];
          prevStatus := prevStatus[id := []];
          var known := if id in drivers then drivers[id].id else None;
          drivers := drivers[id := Vehicle(known, [], [], p.position)];
        } else {
          prevStatus := prevStatus[id := statusArr];
          var kept := if id in drivers then drivers[id].route else [];
          drivers := drivers[id := Vehicle(Some(id), kept, statusArr, p.position)];
        }
      }
      assert State() == OnTelemetry(before, id, p).fleet;
      if Consistent(before) && ValidId(id) {
        TelemetryKeepsConsistent(before, id, p);
      }
    }

    /**
     * A click on the row's button: the advanced array is published for the
     * vehicle; the local state is left to the echo from the bus.
     */
    method Press(key: string) returns (published: seq<Message>)
      requires Valid()
      ensures |published| <= 1
      ensures published != [] <==> key in drivers && OfferedAction(drivers[key].statusArr) != NoAction
      ensures published != [] ==>
                published[0] == Message(RouteTopic(key), RoutePayload(drivers[key].route, NextStatus(drivers[key].statusArr).value))
    {
      published := [];
      if key in drivers {
        var d := drivers[key];
        var action := OfferedAction(d.statusArr);
        if action != NoAction {
          var from, to := if action == Go then PENDING else EN_ROUTE, if action == Go then EN_ROUTE else ARRIVED;
          var idx := FindIndex(d.statusArr, from);
          var next := d.statusArr[idx := to];
          // a row that shows a button belongs to a vehicle whose id is its key
          assert d.id == Some(key);
          var sent := PublishRoute(drivers, d.id.value, next);
          if sent.Some? {
            published := [sent.value];
          }
        }
      }
    }
  }

  /** The `statusArr.forEach` diff against the previous array. */
  method DetectTransitions(id: string, prevArr: seq<int>, statusArr: seq<int>, route: seq<Waypoint>) returns (events: seq<Event>)
    ensures events == Transitions(id, prevArr, statusArr, route, |statusArr|)
  {
    events := [];
    var i := 0;
    while i < |statusArr|
      invariant 0 <= i <= |statusArr|
      invariant events == Transitions(id, prevArr, statusArr, route, i)
    {
      var st := statusArr[i];
      var pv := if i < |prevArr| then prevArr[i] else PENDING;
      if pv != st {
        var t := if i < |route| && route[i].title != "" then route[i].title else "#" + NatToString(i + 1);
        if pv == PENDING && st == EN_ROUTE {
          events := events + [EnRoute(id, i, t)];
        }
        if pv == EN_ROUTE && st == ARRIVED {
          events := events + [Arrived(id, i, t)];
        }
      }
      i := i + 1;
    }
  }
}
