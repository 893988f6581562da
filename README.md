# Ride-dispatch dashboard: a Dafny model of its route/telemetry reconciler

The dashboard is a browser UI. An operator books multi-stop routes for vehicles there, and follows them as they move. State is shared over an MQTT bus.
This project models three parts of it in Dafny:

- **Reconciler** (`reconciler.dfy`, module `Reconciler`). This is the dashboard's `message` handler.
  - It dispatches `car/{id}/route` and `car/{id}/telemetry` topics.
  - It merges route and telemetry payloads into the fleet map (`drivers`) and into the previous-status snapshot (`prevStatus`).
  - It reports a 0→1 change as "en-route" and a 1→2 change as "arrived".
  - Once a non-empty status array is all 2s, it publishes an empty route for the vehicle and clears it locally.
  - It also holds the operator's Go / Arrived buttons. They publish an advanced status array and leave local state to the echo from the bus.
  - `Step` is the pure specification of one message. The class `Dashboard` keeps the two maps and updates them in place, proved equal to `Step`. The `forEach` diff is the loop method `DetectTransitions`.
- **Booking** (`booking.dfy`, module `Booking`). This is the booking form.
  - It keeps a list of pending points. Points are added by map click or from a search result, at most five, and removed by id.
  - Submitting builds the route payload: indexed waypoint ids, a title fallback, and a zero-filled status array. It publishes to `car/{carId}/route`.
- **Progress** (`progress.dfy`, module `Progress`). This is the per-vehicle map view.
  - It counts the done stops and chooses the initial marker position.
  - It builds the "completed" and "upcoming" polylines and classifies each stop as done, next or upcoming. Positions are a type parameter.

The other files:
- `bus.dfy`: the shared data model. This covers waypoints, positions, the decoded JSON payload and topic names.
- `text.dfy`: decimal printing of numbers and the regular-expression line terminators.
- `wrappers.dfy`: `Option`.
- `flows.dfy`: lemmas that connect the parts.
  - A submitted booking arrives at the dashboard as a new booking.
  - The echo of the auto-clear publish, and of a button press, converges.
  - A vehicle listed under "Route Details" is drawn at once.
  - Concrete runs of the handler.

A JSON payload is modelled as already decoded (`Bus.Payload`). `BadJson` stands for a parse failure. Each array field is `Missing` (absent or falsy), `NotArray` (some other value) or `Items`. The position is optional.

The model follows the code on these points:
- Topics start with `car/`, not `vehicle/`. The id is whatever the greedy `(.+)` captures: a non-empty string without line terminators. It may contain `/`.
- Notification labels come from the `route` field of the telemetry payload, not from the stored route. A telemetry message without `route` labels stop *i* as `#i+1` (see `Flows.ScenarioEnRoute`).
- A route message that carries its own `statusArr` is stored without a length check. The status array and the route are guaranteed equal in length only when the array is zero-filled (`RouteMessageStored`).
- A telemetry message without a position, or with a truthy non-array `statusArr`, makes the handler throw before it changes anything. So does any message whose JSON text is `null`: the route branch reads `payload.route` (`src/components/DriverList.js:86`) and the telemetry branch reads `data.position`. The model represents a `null` or primitive payload as one with every field missing. That leads to the same effect as the throw: no change, no notification, no publish.
- Re-delivering any message, route or telemetry, yields the state of delivering it once (`StepIdempotent`).
- The empty array counts as all-zero. So the echo of the handler's own auto-clear publish plays the "new booking" sound (`Flows.AutoClearEcho`).

## Model

| member | source | states |
|---|---|---|
| Reconciler.Capture | src/components/DriverList.js:74 | a captured id is non-empty, free of line terminators, and rebuilds the topic as `car/` + id + suffix |
| Reconciler.ParseTopic | src/components/DriverList.js:74-116 | a route result rebuilds the topic as `car/{id}/route`, a telemetry result as `car/{id}/telemetry`, with a valid id in both |
| Reconciler.CaptureExactly | src/components/DriverList.js:74 | the route/telemetry pattern captures `id` exactly when the topic is `car/` + id + suffix and id is non-empty and free of line terminators |
| Reconciler.TopicRoundTrip | src/components/DriverList.js:72-116 | for any valid (non-empty, single-line) id X, `car/X/route` parses as a route topic for X and `car/X/telemetry` as a telemetry topic for X |
| Reconciler.ParseTopicSound | src/components/DriverList.js:72-116 | every parse result is justified: a route or telemetry id is valid and rebuilds the topic, and an unrecognized topic is neither form for any valid (non-empty, single-line) id |
| Reconciler.Dispatch | src/components/DriverList.js:72-116 | for any valid (non-empty, single-line) id X, a message on `car/X/route` is handled as a route message for X, and one on `car/X/telemetry` as telemetry for X |
| Reconciler.OtherTopicIgnored | src/components/DriverList.js:113-115 | any other topic leaves the state unchanged, with no notification and no publish |
| Reconciler.OnRoute | src/components/DriverList.js:79-110 | the route branch never publishes and notifies at most once; without a notification the state is unchanged, with one the sender has an entry in both maps |
| Reconciler.RouteMessageAccepted | src/components/DriverList.js:79-110 | a route message acts (and notifies) exactly when it parses and its `route` is an array; otherwise the state is unchanged; it never publishes |
| Reconciler.RouteMessageStored | src/components/DriverList.js:86-100 | the vehicle gets its id, the payload route and the payload `statusArr` verbatim, or zeros of the route's length; the snapshot equals the stored array; position is payload, else previous, else none; both maps gain exactly the key `id`, and other vehicles' entries in both are unchanged |
| Reconciler.RouteNotification | src/components/DriverList.js:102-108 | the audible "new booking" fires exactly when the stored array is all zeros (the empty one included); otherwise the silent notice fires |
| Reconciler.Transitions | src/components/DriverList.js:135-149 | the diff of the first `k` indices yields at most `k` notifications |
| Reconciler.LabelFallback | src/components/DriverList.js:139 | an untitled stop is labelled `#` and its 1-based position in decimal, so two untitled stops never share a label |
| Reconciler.TransitionAtFacts | src/components/DriverList.js:137-148 | index i yields at most one notification, about index i with its label: en-route exactly for previous 0 (or missing) and new 1, arrived exactly for 1 then 2 |
| Reconciler.TransitionsShape | src/components/DriverList.js:135-149 | every diff notification is en-route or arrived, for this vehicle, an index below `k` and that index's label |
| Reconciler.TransitionsOrdered | src/components/DriverList.js:136 | the diff's notifications come in strictly increasing index order |
| Reconciler.TransitionReported | src/components/DriverList.js:136-148 | for each index below `k`, it is reported en-route exactly when previous (0 if missing) is 0 and new is 1, arrived exactly for 1 then 2 |
| Reconciler.TransitionsDetect | src/components/DriverList.js:136-148 | the same, for all indices below `k` at once |
| Reconciler.TransitionsExactly | src/components/DriverList.js:134-149 | "en-route" for index i exactly when previous (0 if missing) is 0 and new is 1; "arrived" exactly for 1 then 2; no other event; indices strictly increase |
| Reconciler.RepeatIsSilent | src/components/DriverList.js:135-149 | diffing an array against itself reports nothing |
| Reconciler.SkippedStopsAreSilent | src/components/DriverList.js:135-149 | an all-2 array against an empty baseline reports nothing (0 to 2 is not a transition) |
| Reconciler.OnTelemetry | src/components/DriverList.js:118-188 | the telemetry branch publishes nothing or only the empty route for the sender; a payload it cannot read changes nothing and reports nothing; any other leaves the sender with an entry in both maps |
| Reconciler.Step | src/components/DriverList.js:72-189 | an unrecognized topic changes nothing, notifies nothing and publishes nothing; otherwise the only possible publish is the empty route of the captured vehicle |
| Reconciler.TelemetryAccepted | src/components/DriverList.js:118-132 | bad JSON, a missing position or a non-array truthy `statusArr` changes nothing; any other telemetry creates or updates the vehicle |
| Reconciler.TelemetryCompletes | src/components/DriverList.js:134-173 | a non-empty all-2 array publishes the empty route to `car/{id}/route`, sets the snapshot to `[]` and the vehicle to empty route and status with the new position, keeping its id; the events are the diff's notifications followed by trip completed; both maps gain exactly the key `id`, and every other vehicle's entry in each is unchanged |
| Reconciler.TelemetryUpdates | src/components/DriverList.js:134-188 | otherwise snapshot and status become the incoming array, position the incoming one, the route is the stored route or `[]`, nothing is published and the events are exactly the diff's notifications; both maps gain exactly the key `id`, and every other vehicle's entry in each is unchanged |
| Reconciler.RouteKeepsConsistent | src/components/DriverList.js:79-110 | the route branch, for an id the topic patterns can capture, keeps the invariant below |
| Reconciler.TelemetryKeepsConsistent | src/components/DriverList.js:118-188 | the telemetry branch, for an id the topic patterns can capture, keeps the invariant below |
| Reconciler.StepKeepsConsistent | src/components/DriverList.js:72-189 | every message keeps the invariant: valid ids as keys, snapshot keys equal fleet keys, snapshot equals the stored status array, an entry without id has no route |
| Reconciler.StepIdempotent | src/components/DriverList.js:72-189 | delivering any message twice leaves the state of delivering it once |
| Reconciler.ReplayReportsNoProgress | src/components/DriverList.js:135-176 | a repeated telemetry message reports no en-route or arrived event the second time |
| Reconciler.OfferedAction | src/components/DriverList.js:330-365 | Go is offered exactly when the array is non-empty, has no 1 and has a 0; Arrived exactly when it has a 1 |
| Reconciler.FindIndex | src/components/DriverList.js:341 | `findIndex`: -1 exactly when the value is absent, else the first index holding it |
| Reconciler.Promote | src/components/DriverList.js:341-343 | the button's copy differs from the array at exactly one index: the first holding `from`, which becomes `from + 1` |
| Reconciler.NextStatus | src/components/DriverList.js:335-363 | a row publishes an array exactly when it shows a button; that array has the same length and is one higher at exactly one index |
| Reconciler.PublishRoute | src/components/DriverList.js:198-206 | nothing for an unknown id; otherwise the vehicle's stored route with the new array, on `car/{id}/route` |
| Reconciler.ButtonsMakeProgress | src/components/DriverList.js:335-363 | on a non-empty in-order array (2s, at most one 1, then 0s) a row shows no button exactly when complete; a press keeps the array in order and takes it one press closer to completion |
| Reconciler.DetectTransitions | src/components/DriverList.js:134-149 | the `forEach` loop emits exactly the diff's notifications in index order |
| Reconciler.Dashboard.constructor | src/components/DriverList.js:12-17 | both maps start empty, and the invariant holds |
| Reconciler.Dashboard.HandleMessage | src/components/DriverList.js:72-189 | the maps, events and publishes are those of `Step` on the old state; the invariant is kept |
| Reconciler.Dashboard.HandleRoute | src/components/DriverList.js:73-111 | the route branch updates the maps in place as `OnRoute` specifies, and keeps the invariant for an id the pattern can capture |
| Reconciler.Dashboard.HandleTelemetry | src/components/DriverList.js:113-189 | the telemetry branch updates the maps in place as `OnTelemetry` specifies, and keeps the invariant for an id the pattern can capture |
| Reconciler.Dashboard.Press | src/components/DriverList.js:329-363 | at most one publish; one exactly when the row exists and shows a button; it carries the stored route and the advanced array to `car/{key}/route`; state unchanged |
| Bus.Zeros | src/components/DriverList.js:87-89 | the zero-filled status array has the requested length and only pending entries |
| Booking.BuildRoute | src/components/BookRide.js:96-101 | one waypoint per pending point |
| Booking.BuildRouteFaithful | src/components/BookRide.js:96-101 | waypoint i copies point i's coordinates and its title, or is titled `Điểm i+1` when the title is empty |
| Booking.WaypointIdsDistinct | src/components/BookRide.js:96-97 | the `${Date.now()}-${i}` ids of one submission are pairwise distinct whatever the clock returns |
| Booking.Submission | src/components/BookRide.js:90-110 | nothing without a vehicle or with fewer than 2 points; otherwise the route with a zero status array of the same length, on `car/{carId}/route` |
| Booking.WithoutId | src/components/BookRide.js:232 | removal keeps exactly the points whose id differs, each as often as it occurred, and drops every occurrence of the others |
| Booking.WithoutIdKeepsOrder | src/components/BookRide.js:232 | the remaining points keep their original order (a subsequence) |
| Booking.BookingForm.constructor | src/components/BookRide.js:53-58 | the form starts with no vehicle, no points, no search, closed |
| Booking.BookingForm.ToggleForm | src/components/BookRide.js:146 | the button flips whether the form is shown |
| Booking.BookingForm.SelectCar | src/components/BookRide.js:158 | choosing a vehicle sets the form's vehicle id |
| Booking.BookingForm.ClickMap | src/components/BookRide.js:35-47 | refused at 5 points; otherwise the list grows by one, the new point last and titled `Điểm n+1` |
| Booking.BookingForm.ChooseSuggestion | src/components/BookRide.js:199-208 | the chosen suggestion is held as search result and its name fills the search box |
| Booking.BookingForm.AddSearchResult | src/components/BookRide.js:326-336 | refused at 5 points (or without a result); otherwise the result is appended with the new id and cleared |
| Booking.BookingForm.RemovePoint | src/components/BookRide.js:230-233 | the list becomes the points whose id differs |
| Booking.BookingForm.Submit | src/components/BookRide.js:90-111 | publishes nothing without a vehicle or with fewer than 2 points, else the built route with zeros on the vehicle's route topic |
| Booking.BookingForm.Acknowledge | src/components/BookRide.js:112-123 | on success points, vehicle, search text and result are reset and the form closed; on failure nothing changes |
| Progress.DoneCount | src/components/RouteSimulator.js:46-49 | the count never exceeds the array's length |
| Progress.DoneCountCounts | src/components/RouteSimulator.js:46-49 | `doneCount` is the number of 2s, and equals the length exactly when all entries are 2 |
| Progress.InitialPos | src/components/RouteSimulator.js:52 | the given position if any, else the first waypoint, and none only when both are missing |
| Progress.SliceTo | src/components/RouteSimulator.js:87 | `slice(0, k)` is the first `min(k, n)` elements |
| Progress.SliceFrom | src/components/RouteSimulator.js:90 | `slice(k)` is the last `max(0, n - k)` elements |
| Progress.Render | src/components/RouteSimulator.js:82-169 | the placeholder shows exactly without a marker position or without stops; otherwise the view has the marker, one dot per stop, and an upcoming line starting at the marker |
| Progress.Dots | src/components/RouteSimulator.js:147-169 | one dot per stop, and stop i's dot is the next one exactly when `i` equals the done count |
| Progress.LoadingGuard | src/components/RouteSimulator.js:82-84 | only the placeholder is rendered exactly when there is no marker position or no waypoint |
| Progress.FirstRender | src/components/RouteSimulator.js:52-84 | with the marker at its initial position, the placeholder shows exactly when the route is empty |
| Progress.Paths | src/components/RouteSimulator.js:86-144 | completed is empty when nothing is done, else the first `min(done, n)` stops then the vehicle; upcoming is the vehicle then stops from `done` on, `1 + max(0, n - done)` long, and equal to the bounds; each is drawn exactly when longer than one |
| Progress.PathsSplitRoute | src/components/RouteSimulator.js:86-90 | with `0 < done <= n`, both lines meet at the vehicle and together cover the route in order |
| Progress.StopMarkers | src/components/RouteSimulator.js:147-169 | stop i is done iff `i < done` and next iff `i == done`, at most one is next, next has radius 12 and others 8, colour by kind |
| Flows.BookingArrives | src/components/BookRide.js:96-110 | a booking of a listed vehicle arrives as its route with zeros of equal length, the matching snapshot and one "new booking" |
| Flows.AutoClearEcho | src/components/DriverList.js:156-160 | the echo of the clearing publish leaves the cleared vehicle (now with its id) and the snapshot in place, and plays the new-booking sound |
| Flows.ButtonEcho | src/components/DriverList.js:198-206 | the echo of a button's publish advances the row's array and keeps its route and position |
| Flows.ListedVehicleIsDrawn | src/components/DriverList.js:399-461 | a vehicle listed under Route Details is drawn at once, with the upcoming line drawn while stops remain |
| Flows.DiffExample | src/components/DriverList.js:134-149 | previous `[0,0,1]` and new `[0,1,1]` give exactly one en-route, for index 1 |
| Flows.FirstStopStarts | src/components/DriverList.js:136-142 | previous `[0,0]` and new `[1,0]` without a route give exactly one en-route, for the first stop, labelled `#1` |
| Flows.FirstStopArrives | src/components/DriverList.js:136-148 | previous `[1,0]` and new `[2,2]` without a route give exactly one arrived, for the first stop, labelled `#1` |
| Flows.ScenarioBooking | src/components/DriverList.js:86-108 | `{route:[A,B], statusArr:[0,0]}` for v1 stores it and plays the sound |
| Flows.ScenarioEnRoute | src/components/DriverList.js:134-188 | then `[1,0]` at (1,1) gives exactly one en-route for the first stop, labelled `#1`, and the new position |
| Flows.ScenarioCompletion | src/components/DriverList.js:134-173 | then `[2,2]` at (2,2) gives arrived for the first stop, trip completed, the clearing publish and an empty route at (2,2) |

## Left out

- MQTT connection setup, credentials, subscriptions, and connect/error/close handling. They belong to the external broker client. A publish is modelled as an emitted `Message`.
- Publish acknowledgements of the dashboard's own publishes. They only write a log line.
- The BookRide acknowledgement is modelled as `Acknowledge(failed)` and its alert is left out.
- Logging (`addLog`), banners with their `setTimeout`, audio playback and `toFixed` formatting. Notifications are abstract `Event`s, and `NewBooking` is the audible one.
- JSON text. `JSON.parse` and `JSON.stringify` are replaced by the decoded `Payload`, so a published message reaches the handler as the same value.
- Decoding corners:
  - a status entry that is not a number;
  - a position that is not a `{lat, lng}` pair of numbers;
  - a truthy non-object `position` in a route payload;
  - a `null` entry in a route array (its label would fall back to `#i+1`);
  - a non-array telemetry `route` that is an object with numeric keys, whose entries would supply titles (the model labels such stops `#i+1`).
- The geocoding fetch, its `AbortController`, and the suggestions list it fills. This is network I/O. A chosen suggestion enters as `ChooseSuggestion`.
- Map zooming (`ZoomTo`, `mapCenter`), `FitBoundsOnce`, tiles, styles and all other rendering.
- The marker tween (`requestAnimationFrame`, float interpolation). The tweened marker position is a parameter of `Progress.Render`.
- `src/services/api.js` `getDrivers`, a thin `fetch` wrapper.
- `Date.now()` and `Math.random()`, which are nondeterministic. The clock is a parameter and new point ids are inputs.
- React's batching of state updates. The handler is modelled as running to completion on the current state, and a button press reads the state its row was rendered from.
- The `drivers[undefined]` lookup that a row without an id would make. The model does not cover it, because the invariant guarantees such a row never shows a button.
