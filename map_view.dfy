/** The map component's state around stop and route selection. Backend
    replies are parameters: `None` stands for a failed request, which
    includes the backend's 404 for an empty result. */
module MapView {
  import opened Data
  import RoutePath
  import RouteStations

  /** `routes.find(r => r.tuyen_id === routeId)`: the first route with that
      identifier, or None when there is none. */
  function FindRoute(routes: seq<RouteRow>, routeId: int): (found: Option<RouteRow>)
    ensures found.None? <==> forall j :: 0 <= j < |routes| ==> routes[j].tuyenId != routeId
    ensures found.Some? ==>
      exists i :: 0 <= i < |routes| && routes[i] == found.value && found.value.tuyenId == routeId
        && forall j :: 0 <= j < i ==> routes[j].tuyenId != routeId
  {
    if routes == [] then None
    else if routes[0].tuyenId == routeId then Some(routes[0])
    else
      var rest := FindRoute(routes[1..], routeId);
      assert forall j :: 1 <= j < |routes| ==> routes[j] == routes[1..][j - 1];
      rest
  }

  class MapState {
    var selectedStation: Option<MapStation>
    var stationRoutes: seq<RouteRow>
    var routePath: Option<seq<Pair>>
    var routeStations: seq<RouteStop>
    var selectedRoute: Option<int>
    var routeInfo: Option<RouteRow>

    /** The component's initial state: nothing selected, nothing drawn. */
    constructor ()
      ensures selectedStation == None && stationRoutes == [] && routePath == None
      ensures routeStations == [] && selectedRoute == None && routeInfo == None
    {
      selectedStation := None;
      stationRoutes := [];
      routePath := None;
      routeStations := [];
      selectedRoute := None;
      routeInfo := None;
    }

    /** `handleStationSelect(station)`: select the stop, clear the drawn
        route, then list the routes through the stop from `routesReply`, the
        answer to `/api/station-routes/:tram_id` (cleared on failure). */
    method HandleStationSelect(station: MapStation, routesReply: Option<seq<RouteRow>>)
      modifies this
      ensures selectedStation == Some(station)
      ensures routePath == None && selectedRoute == None && routeInfo == None
      ensures stationRoutes == (if routesReply.Some? then routesReply.value else [])
      ensures routeStations == old(routeStations)
    {
      selectedStation := Some(station);
      routePath := None;
      selectedRoute := None;
      routeInfo := None;
      FetchStationRoutes(routesReply);
    }

    /** `fetchStationRoutes`: the reply's routes, or none when the request failed. */
    method FetchStationRoutes(routesReply: Option<seq<RouteRow>>)
      modifies this`stationRoutes
      ensures stationRoutes == (if routesReply.Some? then routesReply.value else [])
    {
      match routesReply
      case Some(routes) =>
        stationRoutes := routes;
      case None =>
        stationRoutes := [];
    }

    /** `fetchRouteStations(routeId)`: `stopsOf(routeId)` is the answer to
        `/api/route-stations/:routeId`. On success the stops are stored sorted
        and located, and the path through them is assembled; on failure
        nothing changes. */
    method FetchRouteStations(routeId: int, stopsOf: int -> Option<seq<RouteStationRow>>, router: RoutePath.Router)
      modifies this`routeStations, this`routePath
      ensures stopsOf(routeId).None? ==> routeStations == old(routeStations) && routePath == old(routePath)
      ensures stopsOf(routeId).Some? ==>
        var stops := RouteStations.PrepareRouteStops(stopsOf(routeId).value);
        routeStations == stops && routePath == Some(RoutePath.FullPath(router, stops))
    {
      match stopsOf(routeId)
      case None =>
      case Some(rows) =>
        var sortedStations := RouteStations.PrepareRouteStops(rows);
        routeStations := sortedStations;
        var path, _ := RoutePath.CalculateFullRoute(router, sortedStations);
        routePath := Some(path);
    }

    /** `handleRouteSelect(routeId)`: mark the route selected; then, from
        `routesReply` (the answer to `/api/bus-stations`, the list of all
        routes), show the first route with that identifier and load its
        stops. If the route list cannot be fetched, only the selection
        changes. */
    method HandleRouteSelect(
      routeId: int,
      routesReply: Option<seq<RouteRow>>,
      stopsOf: int -> Option<seq<RouteStationRow>>,
      router: RoutePath.Router)
      modifies this
      ensures selectedRoute == Some(routeId)
      ensures selectedStation == old(selectedStation) && stationRoutes == old(stationRoutes)
      ensures routesReply.None? ==>
        routeInfo == old(routeInfo) && routeStations == old(routeStations) && routePath == old(routePath)
      ensures routesReply.Some? ==> routeInfo == FindRoute(routesReply.value, routeId)
      ensures routesReply.Some? && stopsOf(routeId).None? ==>
        routeStations == old(routeStations) && routePath == old(routePath)
      ensures routesReply.Some? && stopsOf(routeId).Some? ==>
        var stops := RouteStations.PrepareRouteStops(stopsOf(routeId).value);
        routeStations == stops && routePath == Some(RoutePath.FullPath(router, stops))
    {
      selectedRoute := Some(routeId);
      match routesReply
      case None =>
      case Some(routes) =>
        routeInfo := FindRoute(routes, routeId);
        FetchRouteStations(routeId, stopsOf, router);
    }

    /** The route panel's close button: hide the route and its stops. */
    method CloseRouteInfo()
      modifies this
      ensures routeInfo == None && routePath == None && selectedRoute == None && routeStations == []
      ensures selectedStation == old(selectedStation) && stationRoutes == old(stationRoutes)
    {
      routeInfo := None;
      routePath := None;
      selectedRoute := None;
      routeStations := [];
    }
  }
}
