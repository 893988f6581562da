/**
 * The booking form: the list of pending points (added by map click or from
 * a search result, capped at five, removable by id) and the submission that
 * publishes a new route with a zero-filled status array.
 *
 * The clock and the random number behind fresh ids are parameters: `clock(i)`
 * is what `Date.now()` returns when the i-th waypoint is built, and a new
 * point's id is passed in whole.
 */
module Booking {
  import opened Wrappers
  import opened Text
  import opened Bus

  const MAX_POINTS := 5

  /** A point of the pending list. */
  datatype Point = Point(lat: Coord, lng: Coord, title: string, id: string)

  /** A chosen geocoding suggestion, not yet added. */
  datatype SearchHit = SearchHit(lat: Coord, lng: Coord, title: string)

  /** `Điểm ${n}` */
  function DefaultTitle(n: nat): string {
    "Điểm " + NatToString(n)
  }

  /** `${Date.now()}-${i}` */
  function StampId(t: nat, i: nat): string {
    NatToString(t) + "-" + NatToString(i)
  }

  /** `points.map((pt, i) => ({ id, title: pt.title || "Điểm i+1", lat, lng }))` */
  function BuildRoute(points: seq<Point>, clock: nat -> nat): (route: seq<Waypoint>)
    ensures |route| == |points|
  {
    seq(|points|, i requires 0 <= i < |points| =>
      Waypoint(StampId(clock(i), i),
               if points[i].title != "" then points[i].title else DefaultTitle(i + 1),
               points[i].lat, points[i].lng))
  }

  /** Each built waypoint keeps its point's coordinates and title, or takes the positional title. */
  lemma BuildRouteFaithful(points: seq<Point>, clock: nat -> nat, i: nat)
    requires i < |points|
    ensures var w := BuildRoute(points, clock)[i];
            && w.lat == points[i].lat && w.lng == points[i].lng
            && (points[i].title != "" ==> w.title == points[i].title)
            && (points[i].title == "" ==> w.title == DefaultTitle(i + 1))
            && w.title != ""
  {
  }

  /** Waypoint ids within one submission are pairwise distinct, whatever the clock does. */
  lemma WaypointIdsDistinct(points: seq<Point>, clock: nat -> nat)
    ensures var route := BuildRoute(points, clock);
            forall i, j :: 0 <= i < j < |route| ==> route[i].id != route[j].id
  {
    var route := BuildRoute(points, clock);
    forall i, j | 0 <= i < j < |route| ensures route[i].id != route[j].id {
      if route[i].id == route[j].id {
        DashSplitUnique(NatToString(clock(i)), NatToString(i), NatToString(clock(j)), NatToString(j));
        NatToStringInjective(i, j);
      }
    }
  }

  /** `handleSubmit`: the route message to publish, or nothing without a vehicle or with fewer than two points. */
  function Submission(carId: string, points: seq<Point>, clock: nat -> nat): (r: Option<Message>)
    ensures r.None? <==> carId == "" || |points| < 2
    ensures r.Some? ==> r.value.topic == RouteTopic(carId)
    ensures r.Some? ==> r.value.payload == RoutePayload(BuildRoute(points, clock), Zeros(|points|))
  {
    if carId == "" || |points| < 2 then None
    else Some(Message(RouteTopic(carId), RoutePayload(BuildRoute(points, clock), Zeros(|points|))))
  }

  /** `points.filter((p) => p.id !== id)` */
  function WithoutId(points: seq<Point>, id: string): (r: seq<Point>)
    ensures |r| <= |points|
    ensures forall p :: p in r <==> p in points && p.id != id
    ensures forall p :: multiset(r)[p] == (if p.id != id then multiset(points)[p] else 0)
  {
    if points == [] then []
    else
      assert points == [points[0]] + points[1..];
      if points[0].id == id then WithoutId(points[1..], id)
      else [points[0]] + WithoutId(points[1..], id)
  }

  /** Removal keeps the surviving points in their original order: it is a subsequence of the list. */
  predicate IsSubsequence(r: seq<Point>, s: seq<Point>) {
    if r == [] then true
    else if s == [] then false
    else if r[0] == s[0] then IsSubsequence(r[1..], s[1..])
    else IsSubsequence(r, s[1..])
  }

  lemma {:induction false} WithoutIdKeepsOrder(points: seq<Point>, id: string)
    ensures IsSubsequence(WithoutId(points, id), points)
  {
    if points != [] {
      WithoutIdKeepsOrder(points[1..], id);
      if points[0].id == id {
        SubsequenceOfLonger(WithoutId(points[1..], id), points[0], points[1..]);
        assert [points[0]] + points[1..] == points;
      }
    }
  }

  /** A subsequence of `t` is one of `[x] + t`. */
  lemma {:induction false} SubsequenceOfLonger(r: seq<Point>, x: Point, t: seq<Point>)
    requires IsSubsequence(r, t)
    ensures IsSubsequence(r, [x] + t)
    decreases |t|, 1
  {
    assert ([x] + t)[1..] == t;
    if r != [] && r[0] == x {
      SubsequenceDropHead(r, t);
    }
  }

  /** Dropping the head of a subsequence keeps it a subsequence. */
  lemma {:induction false} SubsequenceDropHead(r: seq<Point>, t: seq<Point>)
    requires r != [] && IsSubsequence(r, t)
    ensures IsSubsequence(r[1..], t)
    decreases |t|, 0
  {
    assert t != [];
    assert [t[0]] + t[1..] == t;
    if r[0] == t[0] {
      SubsequenceOfLonger(r[1..], t[0], t[1..]);
    } else {
      SubsequenceDropHead(r, t[1..]);
      SubsequenceOfLonger(r[1..], t[0], t[1..]);
    }
  }

  /** The form's state. */
  class BookingForm {
    var carId: string
    var points: seq<Point>
    var searchText: string
    var searchResult: Option<SearchHit>
    var showForm: bool

    ghost predicate Valid()
      reads this
    {
      |points| <= MAX_POINTS
    }

    constructor ()
      ensures Valid()
      ensures carId == "" && points == [] && searchText == "" && searchResult == None && !showForm
    {
      carId, points, searchText, searchResult, showForm := "", [], "", None, false;
    }

    /** The "Đặt xe" / "Đóng" button opens or closes the form. */
    method ToggleForm()
      modifies this`showForm
      ensures showForm == !old(showForm)
    {
      showForm := !showForm;
    }

    /** Choosing a vehicle in the select box (the empty option is "no vehicle"). */
    method SelectCar(id: string)
      modifies this`carId
      ensures carId == id
    {
      carId := id;
    }

    /** A click on the map adds a point titled by its position, unless five exist. */
    method ClickMap(lat: Coord, lng: Coord, pointId: string) returns (added: bool)
      requires Valid()
      modifies this`points
      ensures Valid()
      ensures added <==> |old(points)| < MAX_POINTS
      ensures added ==> points == old(points) + [Point(lat, lng, DefaultTitle(|old(points)| + 1), pointId)]
      ensures !added ==> points == old(points)
    {
      added := |points| < MAX_POINTS;
      if added {
        points := points + [Point(lat, lng, DefaultTitle(|points| + 1), pointId)];
      }
    }

    /** Choosing a suggestion remembers it and puts its name in the search box. */
    method ChooseSuggestion(hit: SearchHit)
      modifies this`searchResult, this`searchText
      ensures searchResult == Some(hit) && searchText == hit.title
    {
      searchResult := Some(hit);
      searchText := hit.title;
    }

    /** The "add this point" button, shown while a search result is held; refused at five points. */
    method AddSearchResult(pointId: string) returns (added: bool)
      requires Valid()
      modifies this`points, this`searchResult
      ensures Valid()
      ensures added <==> old(searchResult).Some? && |old(points)| < MAX_POINTS
      ensures added ==> points == old(points) + [Point(old(searchResult).value.lat, old(searchResult).value.lng,
                                                       old(searchResult).value.title, pointId)]
                        && searchResult == None
      ensures !added ==> points == old(points) && searchResult == old(searchResult)
    {
      added := false;
      if searchResult.Some? && |points| < MAX_POINTS {
        var hit := searchResult.value;
        points := points + [Point(hit.lat, hit.lng, hit.title, pointId)];
        searchResult := None;
        added := true;
      }
    }

    /** The remove button of a listed point drops every point carrying that id. */
    method RemovePoint(pointId: string)
      requires Valid()
      modifies this`points
      ensures Valid()
      ensures points == WithoutId(old(points), pointId)
    {
      points := WithoutId(points, pointId);
    }

    /** `handleSubmit`: what is published; the form is reset only once the broker acknowledges. */
    method Submit(clock: nat -> nat) returns (published: Option<Message>)
      ensures published.None? <==> carId == "" || |points| < 2
      ensures published.Some? ==>
                published.value == Message(RouteTopic(carId), RoutePayload(BuildRoute(points, clock), Zeros(|points|)))
    {
      if carId == "" || |points| < 2 {
        published := None;
      } else {
        var route := BuildRoute(points, clock);
        var statusArr := Zeros(|route|);
        published := Some(Message(RouteTopic(carId), RoutePayload(route, statusArr)));
      }
    }

    /** The publish callback: on success the form is cleared and closed, on failure nothing changes. */
    method Acknowledge(failed: bool)
      requires Valid()
      modifies this
      ensures Valid()
      ensures failed ==> carId == old(carId) && points == old(points) && searchText == old(searchText)
                         && searchResult == old(searchResult) && showForm == old(showForm)
      ensures !failed ==> carId == "" && points == [] && searchText == "" && searchResult == None && !showForm
    {
      if !failed {
        points, carId, searchText, searchResult, showForm := [], "", "", None, false;
      }
    }
  }
}
