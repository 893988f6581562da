/**
 * The per-vehicle map view: how many stops are done, where the vehicle
 * marker starts, the grey "completed" and blue "upcoming" polylines and the
 * classification of each stop marker. Positions are an element type `T`.
 */
module Progress {
  import opened Wrappers
  import opened Bus

  /** A stop of the route as the view sees it: where it is and its title. */
  datatype Stop<T> = Stop(at: T, title: string)

  datatype Kind = Done | Next | Upcoming

  /** A circle marker of one stop. */
  datatype Dot<T> = Dot(center: T, title: string, kind: Kind, color: string, radius: nat)

  datatype View<T> =
    | Loading
    | Drawn(completed: seq<T>, upcoming: seq<T>, bounds: seq<T>,
            drawCompleted: bool, drawUpcoming: bool, dots: seq<Dot<T>>, vehicle: T)

  const DONE_COLOR := "#aaa"
  const NEXT_COLOR := "#28a745"
  const UPCOMING_COLOR := "#007bff"
  const NEXT_RADIUS := 12
  const RADIUS := 8

  /** `statusArr.filter((s) => s === 2).length` */
  function DoneCount(s: seq<int>): (r: nat)
    ensures r <= |s|
  {
    if s == [] then 0 else (if s[0] == ARRIVED then 1 else 0) + DoneCount(s[1..])
  }

  /** The count is the multiplicity of 2 in the array; it is the whole length exactly when all are 2. */
  lemma {:induction false} DoneCountCounts(s: seq<int>)
    ensures DoneCount(s) == multiset(s)[ARRIVED]
    ensures DoneCount(s) == |s| <==> AllEqual(s, ARRIVED)
  {
    if s != [] {
      DoneCountCounts(s[1..]);
      assert s == [s[0]] + s[1..];
      assert multiset(s) == multiset([s[0]]) + multiset(s[1..]);
      assert AllEqual(s, ARRIVED) <==> s[0] == ARRIVED && AllEqual(s[1..], ARRIVED);
    }
  }

  function Points<T>(stops: seq<Stop<T>>): (pts: seq<T>)
    ensures |pts| == |stops| && forall i :: 0 <= i < |stops| ==> pts[i] == stops[i].at
  {
    seq(|stops|, i requires 0 <= i < |stops| => stops[i].at)
  }

  /** `position ? position : pts[0]`, where `pts[0]` of an empty route is undefined. */
  function InitialPos<T>(position: Option<T>, pts: seq<T>): (r: Option<T>)
    ensures position.Some? ==> r == position
    ensures position.None? && |pts| > 0 ==> r == Some(pts[0])
    ensures r.None? <==> position.None? && pts == []
  {
    if position.Some? then position else if |pts| > 0 then Some(pts[0]) else None
  }

  function Min(a: int, b: int): int { if a <= b then a else b }
  function Max(a: int, b: int): int { if a >= b then a else b }

  /** `s.slice(0, k)`: the slice clamps an end past the array. */
  function SliceTo<T>(s: seq<T>, k: nat): (r: seq<T>)
    ensures |r| == Min(k, |s|) && r == s[..|r|]
  {
    if k <= |s| then s[..k] else s
  }

  /** `s.slice(k)` */
  function SliceFrom<T>(s: seq<T>, k: nat): (r: seq<T>)
    ensures |r| == Max(0, |s| - k) && r == s[|s| - |r|..]
  {
    if k <= |s| then s[k..] else []
  }

  function Classify(i: nat, done: nat): Kind {
    if i < done then Done else if i == done then Next else Upcoming
  }

  function ColorOf(k: Kind): string {
    match k
    case Done => DONE_COLOR
    case Next => NEXT_COLOR
    case Upcoming => UPCOMING_COLOR
  }

  function Dots<T>(stops: seq<Stop<T>>, done: nat): (d: seq<Dot<T>>)
    ensures |d| == |stops|
    ensures forall i :: 0 <= i < |d| ==> (d[i].kind == Next <==> i == done)
  {
    seq(|stops|, i requires 0 <= i < |stops| =>
      var k := Classify(i, done);
      Dot(stops[i].at, stops[i].title, k, ColorOf(k), if k == Next then NEXT_RADIUS else RADIUS))
  }

  /** One render, given the (tweened) vehicle marker position. */
  function Render<T>(stops: seq<Stop<T>>, statusArr: seq<int>, animPos: Option<T>): (v: View<T>)
    ensures v.Loading? <==> animPos.None? || stops == []
    ensures v.Drawn? ==> v.vehicle == animPos.value && |v.dots| == |stops| && |v.upcoming| > 0 && v.upcoming[0] == v.vehicle
  {
    if animPos.None? || |stops| == 0 then Loading
    else
      var pts := Points(stops);
      var done := DoneCount(statusArr);
      var v := animPos.value;
      var completed := if done > 0 then SliceTo(pts, done) + [v] else [];
      var upcoming := [v] + SliceFrom(pts, done);
      Drawn(completed, upcoming, upcoming, |completed| > 1, |upcoming| > 1, Dots(stops, done), v)
  }

  /** Only the placeholder is shown without a marker position or without stops. */
  lemma LoadingGuard<T>(stops: seq<Stop<T>>, statusArr: seq<int>, animPos: Option<T>)
    ensures Render(stops, statusArr, animPos).Loading? <==> animPos.None? || stops == []
  {
  }

  /** On the first render the marker is at the initial position, so only an empty route shows the placeholder. */
  lemma FirstRender<T>(stops: seq<Stop<T>>, statusArr: seq<int>, position: Option<T>)
    ensures Render(stops, statusArr, InitialPos(position, Points(stops))).Loading? <==> stops == []
  {
  }

  /**
   * The two polylines: "completed" is the done stops (as many as exist)
   * followed by the vehicle, or empty when nothing is done; "upcoming" is the
   * vehicle followed by the stops from the done count on; the bounds are
   * the upcoming line. Each is drawn when it has more than one point.
   */
  lemma Paths<T>(stops: seq<Stop<T>>, statusArr: seq<int>, v: T)
    requires stops != []
    ensures var view := Render(stops, statusArr, Some(v));
            var pts := Points(stops);
            var done := DoneCount(statusArr);
            && view.Drawn?
            && (done == 0 ==> view.completed == [])
            && (done > 0 ==> view.completed == pts[..Min(done, |pts|)] + [v])
            && view.upcoming == [v] + pts[Min(done, |pts|)..]
            && |view.upcoming| == 1 + Max(0, |pts| - done)
            && view.bounds == view.upcoming
            && (view.drawCompleted <==> done > 0)
            && (view.drawUpcoming <==> done < |pts|)
  {
  }

  /** When no more stops are done than exist, the two lines share the vehicle and together cover the route. */
  lemma PathsSplitRoute<T>(stops: seq<Stop<T>>, statusArr: seq<int>, v: T)
    requires stops != [] && 0 < DoneCount(statusArr) <= |stops|
    ensures var view := Render(stops, statusArr, Some(v));
            && view.completed[|view.completed| - 1] == v == view.upcoming[0]
            && view.completed[..|view.completed| - 1] + view.upcoming[1..] == Points(stops)
  {
    var pts := Points(stops);
    var done := DoneCount(statusArr);
    var c := SliceTo(pts, done) + [v];
    var u := [v] + SliceFrom(pts, done);
    assert Render(stops, statusArr, Some(v)).completed == c;
    assert Render(stops, statusArr, Some(v)).upcoming == u;
    assert c[..|c| - 1] == pts[..done];
    assert u[1..] == pts[done..];
    assert pts[..done] + pts[done..] == pts;
  }

  /**
   * Stop i is done exactly when i is below the done count and next exactly
   * when it equals it, so at most one stop is next; the next stop is drawn
   * larger than every other.
   */
  lemma StopMarkers<T>(stops: seq<Stop<T>>, statusArr: seq<int>, v: T)
    requires stops != []
    ensures var dots := Render(stops, statusArr, Some(v)).dots;
            var done := DoneCount(statusArr);
            && |dots| == |stops|
            && (forall i :: 0 <= i < |dots| ==> dots[i].center == stops[i].at && dots[i].title == stops[i].title)
            && (forall i :: 0 <= i < |dots| ==> (dots[i].kind == Done <==> i < done))
            && (forall i :: 0 <= i < |dots| ==> (dots[i].kind == Next <==> i == done))
            && (forall i, j :: 0 <= i < j < |dots| ==> !(dots[i].kind == Next && dots[j].kind == Next))
            && (forall i :: 0 <= i < |dots| ==> dots[i].radius == (if dots[i].kind == Next then NEXT_RADIUS else RADIUS))
            && (forall i :: 0 <= i < |dots| ==> dots[i].color == ColorOf(dots[i].kind))
  {
  }
}
