/** Assembling the drawn path of a route: one driving segment per pair of
    consecutive stops, asked of an external router, concatenated in order. */
module RoutePath {
  import opened Data

  /** A driving-directions request. The router reads each waypoint as
      (longitude, latitude), and full geometry is always asked for. */
  datatype Request = Request(from: Pair, to: Pair)

  /** The external router: for a request, the coordinates of the first
      route's geometry in the router's own (longitude, latitude) order, or
      None when the call fails or its answer lacks that geometry. */
  type Router = Request -> Option<seq<Pair>>

  function Swap(p: Pair): Pair
  {
    Pair(p.second, p.first)
  }

  /** `coords.map(c => [c[1], c[0]])`. */
  function SwapAll(coords: seq<Pair>): seq<Pair>
  {
    if coords == [] then [] else [Swap(coords[0])] + SwapAll(coords[1..])
  }

  /** The request for the segment between two stops whose coordinates are
      (latitude, longitude): each endpoint is written second coordinate first. */
  function RouteRequest(start: Pair, end: Pair): (req: Request)
    ensures Swap(req.from) == start && Swap(req.to) == end
  {
    Request(Pair(start.second, start.first), Pair(end.second, end.first))
  }

  /** `getRoute(start, end)`: the segment in (latitude, longitude) order, or
      None (the source's `null`) when the router fails. */
  function GetRoute(router: Router, start: Pair, end: Pair): Option<seq<Pair>>
  {
    match router(RouteRequest(start, end))
    case None => None
    case Some(coords) => Some(SwapAll(coords))
  }

  /** The points a segment contributes to the path: none when it failed. */
  function Points(segment: Option<seq<Pair>>): seq<Pair>
  {
    match segment
    case None => []
    case Some(points) => points
  }

  /** The requests issued for a list of stops: one per consecutive pair, in order. */
  function Legs(stations: seq<RouteStop>): (legs: seq<Request>)
    ensures |stations| < 2 ==> legs == []
    ensures |stations| >= 2 ==> |legs| == |stations| - 1
  {
    if |stations| < 2 then []
    else Legs(stations[..|stations| - 1])
         + [RouteRequest(stations[|stations| - 2].coordinates, stations[|stations| - 1].coordinates)]
  }

  /** The answers to those requests, in the same order. */
  function Segments(router: Router, stations: seq<RouteStop>): seq<Option<seq<Pair>>>
  {
    if |stations| < 2 then []
    else Segments(router, stations[..|stations| - 1])
         + [GetRoute(router, stations[|stations| - 2].coordinates, stations[|stations| - 1].coordinates)]
  }

  /** The in-order concatenation of the successful segments. */
  function Joined(segments: seq<Option<seq<Pair>>>): seq<Pair>
  {
    if segments == [] then [] else Joined(segments[..|segments| - 1]) + Points(segments[|segments| - 1])
  }

  /** The number of points in the successful segments. */
  function SuccessfulLength(segments: seq<Option<seq<Pair>>>): nat
  {
    if segments == [] then 0 else |Points(segments[0])| + SuccessfulLength(segments[1..])
  }

  /** The path `calculateFullRoute` returns for these stops. */
  function FullPath(router: Router, stations: seq<RouteStop>): seq<Pair>
  {
    Joined(Segments(router, stations))
  }

  /** `calculateFullRoute(stations)`. Besides the path it returns `requests`,
      the requests it put to the router, in the order it put them. */
  method CalculateFullRoute(router: Router, stations: seq<RouteStop>) returns (fullPath: seq<Pair>, requests: seq<Request>)
    ensures fullPath == FullPath(router, stations)
    ensures requests == Legs(stations)
    ensures |stations| < 2 ==> fullPath == [] && requests == []
  {
    if |stations| < 2 {
      return [], [];
    }
    fullPath, requests := [], [];
    var i := 0;
    while i < |stations| - 1
      invariant 0 <= i <= |stations| - 1
      invariant requests == Legs(stations[..i + 1])
      invariant fullPath == FullPath(router, stations[..i + 1])
    {
      var start := stations[i].coordinates;
      var end := stations[i + 1].coordinates;
      requests := requests + [RouteRequest(start, end)];
      var segment := GetRoute(router, start, end);
      if segment.Some? {
        fullPath := fullPath + segment.value;
      }
      assert stations[..i + 2][..i + 1] == stations[..i + 1];
      i := i + 1;
    }
    assert stations[..i + 1] == stations;
  }

  // ---------------------------------------------------------------------------
  // The coordinate swap

  lemma {:induction false} SwapAllAt(coords: seq<Pair>, i: nat)
    requires i < |coords|
    ensures |SwapAll(coords)| == |coords| && SwapAll(coords)[i] == Swap(coords[i])
  {
    if i > 0 {
      SwapAllAt(coords[1..], i - 1);
    } else {
      SwapAllLength(coords[1..]);
    }
  }

  lemma {:induction false} SwapAllLength(coords: seq<Pair>)
    ensures |SwapAll(coords)| == |coords|
  {
    if coords != [] {
      SwapAllLength(coords[1..]);
    }
  }

  /** Swapping every point twice gives back the original points. */
  lemma {:induction false} SwapAllInvolution(coords: seq<Pair>)
    ensures SwapAll(SwapAll(coords)) == coords
  {
    if coords != [] {
      SwapAllLength(coords[1..]);
      SwapAllInvolution(coords[1..]);
      assert SwapAll(coords)[1..] == SwapAll(coords[1..]);
    }
  }

  /** The request and the answer agree on coordinate order: when the router
      answers with a geometry that runs from the first waypoint it was sent
      to the second, the segment runs from `start` to `end`. */
  lemma SegmentEndpoints(router: Router, start: Pair, end: Pair)
    requires router(RouteRequest(start, end)).Some?
    requires var coords := router(RouteRequest(start, end)).value;
      coords != [] && coords[0] == RouteRequest(start, end).from && coords[|coords| - 1] == RouteRequest(start, end).to
    ensures GetRoute(router, start, end).Some?
    ensures var path := GetRoute(router, start, end).value; path != [] && path[0] == start && path[|path| - 1] == end
  {
    var coords := router(RouteRequest(start, end)).value;
    SwapAllAt(coords, 0);
    SwapAllAt(coords, |coords| - 1);
  }

  // ---------------------------------------------------------------------------
  // Requests and segments

  /** The `i`-th request is for stops `i` and `i + 1`. */
  lemma {:induction false} LegsAt(stations: seq<RouteStop>, i: nat)
    requires i + 1 < |stations|
    ensures |Legs(stations)| == |stations| - 1
    ensures Legs(stations)[i] == RouteRequest(stations[i].coordinates, stations[i + 1].coordinates)
  {
    var n := |stations|;
    if i + 2 < n {
      LegsAt(stations[..n - 1], i);
      assert stations[..n - 1][i] == stations[i] && stations[..n - 1][i + 1] == stations[i + 1];
    }
  }

  /** The `i`-th segment is the router's answer for stops `i` and `i + 1`. */
  lemma {:induction false} SegmentsAt(router: Router, stations: seq<RouteStop>, i: nat)
    requires i + 1 < |stations|
    ensures |Segments(router, stations)| == |stations| - 1
    ensures Segments(router, stations)[i] == GetRoute(router, stations[i].coordinates, stations[i + 1].coordinates)
  {
    var n := |stations|;
    SegmentsLength(router, stations);
    if i + 2 < n {
      SegmentsAt(router, stations[..n - 1], i);
      assert stations[..n - 1][i] == stations[i] && stations[..n - 1][i + 1] == stations[i + 1];
    }
  }

  lemma {:induction false} SegmentsLength(router: Router, stations: seq<RouteStop>)
    ensures |Segments(router, stations)| == if |stations| < 2 then 0 else |stations| - 1
  {
    if |stations| >= 2 {
      SegmentsLength(router, stations[..|stations| - 1]);
    }
  }

  /** The stops up to `i + 1` give rise to the first `i` segments. */
  lemma {:induction false} SegmentsPrefix(router: Router, stations: seq<RouteStop>, i: nat)
    requires i < |stations|
    ensures |Segments(router, stations)| == |stations| - 1
    ensures Segments(router, stations[..i + 1]) == Segments(router, stations)[..i]
    decreases |stations|
  {
    var n := |stations|;
    SegmentsLength(router, stations);
    if i + 1 == n {
      assert stations[..i + 1] == stations;
    } else {
      SegmentsPrefix(router, stations[..n - 1], i);
      assert stations[..n - 1][..i + 1] == stations[..i + 1];
    }
  }

  /** After the loop has handled the pairs before stop `i`, the accumulator
      holds the first `i` segments' points: it has as many points as those of
      them that succeeded, and every later step only appends to it. */
  lemma AccumulatorAfterStep(router: Router, stations: seq<RouteStop>, i: nat)
    requires i < |stations|
    ensures |Segments(router, stations)| == |stations| - 1
    ensures FullPath(router, stations[..i + 1]) == Joined(Segments(router, stations)[..i])
    ensures |FullPath(router, stations[..i + 1])| == SuccessfulLength(Segments(router, stations)[..i])
    ensures FullPath(router, stations[..i + 1]) <= FullPath(router, stations)
  {
    var segments := Segments(router, stations);
    SegmentsPrefix(router, stations, i);
    JoinedLength(segments[..i]);
    JoinedGrows(segments, i, |segments|);
    assert segments[..|segments|] == segments;
  }

  // ---------------------------------------------------------------------------
  // Joining segments

  /** Joining is the in-order concatenation: the first segment's points, then
      the rest. */
  lemma {:induction false} JoinedFront(segments: seq<Option<seq<Pair>>>)
    requires segments != []
    ensures Joined(segments) == Points(segments[0]) + Joined(segments[1..])
    decreases |segments|
  {
    var n := |segments|;
    if n > 1 {
      JoinedFront(segments[..n - 1]);
      assert segments[..n - 1][1..] == segments[1..][..n - 2];
      assert segments[..n - 1][0] == segments[0];
    } else {
      assert segments[..0] == [] && segments[1..] == [];
    }
  }

  /** Joining two runs of segments joins their paths. */
  lemma {:induction false} JoinedAppend(a: seq<Option<seq<Pair>>>, b: seq<Option<seq<Pair>>>)
    ensures Joined(a + b) == Joined(a) + Joined(b)
    decreases |b|
  {
    if b == [] {
      assert a + b == a;
    } else {
      var n := |b|;
      assert (a + b)[..|a + b| - 1] == a + b[..n - 1];
      JoinedAppend(a, b[..n - 1]);
    }
  }

  /** A failed segment adds nothing and keeps every point gathered before it. */
  lemma JoinedFailure(segments: seq<Option<seq<Pair>>>)
    ensures Joined(segments + [None]) == Joined(segments)
  {
    assert (segments + [None])[..|segments|] == segments;
  }

  /** The path only grows: the points joined from the first `i` segments are a
      prefix of those joined from the first `j`. */
  lemma {:induction false} JoinedGrows(segments: seq<Option<seq<Pair>>>, i: nat, j: nat)
    requires i <= j <= |segments|
    ensures Joined(segments[..i]) <= Joined(segments[..j])
    decreases j
  {
    if i < j {
      JoinedGrows(segments, i, j - 1);
      assert segments[..j][..j - 1] == segments[..j - 1];
    }
  }

  /** The joined path has exactly as many points as the successful segments hold. */
  lemma {:induction false} JoinedLength(segments: seq<Option<seq<Pair>>>)
    ensures |Joined(segments)| == SuccessfulLength(segments)
    decreases |segments|
  {
    if segments != [] {
      JoinedFront(segments);
      JoinedLength(segments[1..]);
    }
  }

  /** Three stops where the second segment fails: the path is the first segment alone. */
  lemma SecondLegFails(router: Router, a: RouteStop, b: RouteStop, c: RouteStop)
    requires GetRoute(router, a.coordinates, b.coordinates).Some?
    requires GetRoute(router, b.coordinates, c.coordinates).None?
    ensures FullPath(router, [a, b, c]) == GetRoute(router, a.coordinates, b.coordinates).value
    ensures Legs([a, b, c]) == [RouteRequest(a.coordinates, b.coordinates), RouteRequest(b.coordinates, c.coordinates)]
  {
    var first := GetRoute(router, a.coordinates, b.coordinates);
    var second := GetRoute(router, b.coordinates, c.coordinates);
    SegmentsAt(router, [a, b, c], 0);
    SegmentsAt(router, [a, b, c], 1);
    LegsAt([a, b, c], 0);
    LegsAt([a, b, c], 1);
    assert Segments(router, [a, b, c]) == [first, second];
    assert [first, second][..1] == [first];
    assert [first][..0] == [];
    assert Joined([first]) == Points(first);
    assert Joined([first, second]) == Joined([first]) + Points(second);
  }
}
