/** The search box: a term, a mode (stops by name, routes by name or number,
    routes by their end points), and at most five matching results. */
module Search {
  import opened Data
  import Seqs
  import Text

  /** The longest result list the search box shows. */
  const MaxResults: nat := 5

  /** `searchMode`. Only the three named modes are searched; the mode is a
      free string in the component, so any other value is kept as is. */
  datatype Mode = StationMode | RouteMode | LocationMode | OtherMode(name: string)

  /** One entry of `searchResults`: a stop in stop mode, a route otherwise. */
  datatype Item = StationItem(station: MapStation) | RouteItem(route: RouteRow)

  /** What choosing a result hands to the map: `onStationSelect(station)` or
      `onRouteSelect(tuyen_id)`. */
  datatype Selection = SelectStation(station: MapStation) | SelectRoute(routeId: int)

  /** `!term.trim()`: the term is empty or only white space. */
  predicate IsBlank(term: string)
  {
    Text.Trim(term) == []
  }

  /** `term.toLowerCase().trim()`. */
  function Normalize(term: string): string
  {
    Text.Trim(Text.LowerStr(term))
  }

  predicate StationMatches(q: string, station: MapStation)
  {
    Text.Contains(Text.LowerStr(station.row.tenTram), q)
  }

  predicate RouteMatches(q: string, route: RouteRow)
  {
    Text.Contains(Text.LowerStr(route.tenTuyen), q) || Text.Contains(Text.DecimalString(route.tuyenId), q)
  }

  predicate LocationMatches(q: string, route: RouteRow)
  {
    Text.Contains(Text.LowerStr(route.diemDau), q) || Text.Contains(Text.LowerStr(route.diemCuoi), q)
  }

  function StationMatcher(q: string): MapStation -> bool
  {
    (station: MapStation) => StationMatches(q, station)
  }

  function RouteMatcher(q: string): RouteRow -> bool
  {
    (route: RouteRow) => RouteMatches(q, route)
  }

  function LocationMatcher(q: string): RouteRow -> bool
  {
    (route: RouteRow) => LocationMatches(q, route)
  }

  function AsStationItem(station: MapStation): Item
  {
    StationItem(station)
  }

  function AsRouteItem(route: RouteRow): Item
  {
    RouteItem(route)
  }

  function StationItems(stations: seq<MapStation>): seq<Item>
  {
    Seqs.Map(stations, AsStationItem)
  }

  function RouteItems(routes: seq<RouteRow>): seq<Item>
  {
    Seqs.Map(routes, AsRouteItem)
  }

  /** `searchByMode(term)`: the new `searchResults`, or None when the mode is
      none of the three and the results are left as they were. Stops are
      searched in `stations` (the map's stop list), routes in `routes` (the
      route list fetched when the search box is created). */
  function Search(mode: Mode, term: string, stations: seq<MapStation>, routes: seq<RouteRow>): (r: Option<seq<Item>>)
    ensures IsBlank(term) ==> r == Some([])
    ensures r.None? <==> !IsBlank(term) && mode.OtherMode?
    ensures r.Some? ==> |r.value| <= MaxResults
    ensures r.Some? && mode == StationMode ==> forall i :: 0 <= i < |r.value| ==> r.value[i].StationItem?
    ensures r.Some? && mode != StationMode ==> forall i :: 0 <= i < |r.value| ==> r.value[i].RouteItem?
  {
    if IsBlank(term) then Some([])
    else
      var q := Normalize(term);
      match mode
      case StationMode => Some(StationItems(Seqs.Take(Seqs.Filter(stations, StationMatcher(q)), MaxResults)))
      case RouteMode => Some(RouteItems(Seqs.Take(Seqs.Filter(routes, RouteMatcher(q)), MaxResults)))
      case LocationMode => Some(RouteItems(Seqs.Take(Seqs.Filter(routes, LocationMatcher(q)), MaxResults)))
      case OtherMode(_) => None
  }

  class SearchPanel {
    var mode: Mode
    var term: string
    var results: seq<Item>
    var routeData: seq<RouteRow>

    /** The results are stops exactly in stop mode. */
    ghost predicate Valid()
      reads this
    {
      forall i :: 0 <= i < |results| ==> (results[i].StationItem? <==> mode == StationMode)
    }

    /** The search box as created: stop mode, empty term, no results, and
        the route list from `routesReply`, the answer to `/api/bus-stations`
        (empty when that request fails). */
    constructor (routesReply: Option<seq<RouteRow>>)
      ensures Valid()
      ensures mode == StationMode && term == "" && results == []
      ensures routeData == (if routesReply.Some? then routesReply.value else [])
    {
      mode := StationMode;
      term := "";
      results := [];
      routeData := if routesReply.Some? then routesReply.value else [];
    }

    /** Typing in the search input. */
    method SetTerm(t: string)
      modifies this`term
      ensures term == t
    {
      term := t;
    }

    /** `searchByMode(t)` with the map's current stop list. */
    method SearchByMode(t: string, stations: seq<MapStation>)
      requires Valid()
      modifies this`results
      ensures Valid()
      ensures var found := Search(mode, t, stations, routeData);
        results == if found.Some? then found.value else old(results)
    {
      var found := Search(mode, t, stations, routeData);
      if found.Some? {
        results := found.value;
      }
    }

    /** `handleSearchModeChange(m)`. */
    method HandleSearchModeChange(m: Mode)
      modifies this`mode, this`term, this`results
      ensures Valid()
      ensures mode == m && term == "" && results == []
    {
      mode := m;
      term := "";
      results := [];
    }

    /** `handleResultSelect(result)` for one of the listed results: clear
        the term and the results, then hand the stop, or the route's
        identifier, to the map. */
    method HandleResultSelect(result: Item) returns (selection: Selection)
      requires Valid() && result in results
      modifies this`term, this`results
      ensures Valid()
      ensures term == "" && results == []
      ensures mode == StationMode ==> result.StationItem? && selection == SelectStation(result.station)
      ensures mode != StationMode ==> result.RouteItem? && selection == SelectRoute(result.route.tuyenId)
    {
      term := "";
      results := [];
      if mode == StationMode {
        selection := SelectStation(result.station);
      } else {
        selection := SelectRoute(result.route.tuyenId);
      }
    }
  }

  // ---------------------------------------------------------------------------
  // Properties of the search

  /** An empty or white-space-only term gives no results in every mode,
      whatever the lists hold. */
  lemma BlankTermFindsNothing(mode: Mode, term: string, stations: seq<MapStation>, routes: seq<RouteRow>)
    requires forall k :: 0 <= k < |term| ==> Text.IsSpace(term[k])
    ensures Search(mode, term, stations, routes) == Some([])
  {
    Text.TrimEmpty(term);
  }

  /** A term that is not blank is searched for as a non-empty string, so it
      never matches every entry by being empty. */
  lemma NormalizedTermNotEmpty(term: string)
    requires !IsBlank(term)
    ensures Normalize(term) != []
  {
    Text.TrimLowerCommute(term);
  }

  /** Searching ignores the case of the term. */
  lemma CaseInsensitive(mode: Mode, term: string, stations: seq<MapStation>, routes: seq<RouteRow>)
    ensures Search(mode, Text.LowerStr(term), stations, routes) == Search(mode, term, stations, routes)
  {
    var lower := Text.LowerStr(term);
    Text.TrimLowerCommute(term);
    Text.LowerStrIdempotent(term);
    assert IsBlank(lower) == IsBlank(term);
    assert Normalize(lower) == Normalize(term);
  }

  /** Stop mode: the results are the first five matching stops, or all of
      them when there are fewer, in list order: exactly the matching stops
      of a prefix of the list that is the whole list unless five were found. */
  lemma StationSearchSpec(term: string, stations: seq<MapStation>, routes: seq<RouteRow>)
    requires !IsBlank(term)
    ensures var r := Search(StationMode, term, stations, routes).value;
      var q := Normalize(term);
      && |r| <= MaxResults
      && (forall i :: 0 <= i < |r| ==> (r[i].StationItem? && StationMatches(q, r[i].station)))
      && Seqs.IsSubsequence(r, StationItems(stations))
      && (forall s :: s in stations && StationMatches(q, s) && StationItem(s) !in r ==> |r| == MaxResults)
      && (exists m ::
            && 0 <= m <= |stations|
            && r == StationItems(Seqs.Filter(stations[..m], StationMatcher(q)))
            && (|r| < MaxResults ==> m == |stations|))
  {
    var q := Normalize(term);
    Seqs.FirstMatchesMapped(stations, StationMatcher(q), AsStationItem, MaxResults);
  }

  /** Route mode: a route is a result candidate when its lower-cased name or
      its decimal number contains the term; the results are the first five
      such routes, or all of them when there are fewer, in list order. */
  lemma RouteSearchSpec(term: string, stations: seq<MapStation>, routes: seq<RouteRow>)
    requires !IsBlank(term)
    ensures var r := Search(RouteMode, term, stations, routes).value;
      var q := Normalize(term);
      && |r| <= MaxResults
      && (forall i :: 0 <= i < |r| ==>
            r[i].RouteItem?
            && (Text.Contains(Text.LowerStr(r[i].route.tenTuyen), q)
                || Text.Contains(Text.DecimalString(r[i].route.tuyenId), q)))
      && Seqs.IsSubsequence(r, RouteItems(routes))
      && (forall t :: t in routes && RouteMatches(q, t) && RouteItem(t) !in r ==> |r| == MaxResults)
      && (exists m ::
            && 0 <= m <= |routes|
            && r == RouteItems(Seqs.Filter(routes[..m], RouteMatcher(q)))
            && (|r| < MaxResults ==> m == |routes|))
  {
    var q := Normalize(term);
    Seqs.FirstMatchesMapped(routes, RouteMatcher(q), AsRouteItem, MaxResults);
  }

  /** Location mode: a route is a result candidate when its lower-cased start
      or end point contains the term; the results are the first five such
      routes, or all of them when there are fewer, in list order. */
  lemma LocationSearchSpec(term: string, stations: seq<MapStation>, routes: seq<RouteRow>)
    requires !IsBlank(term)
    ensures var r := Search(LocationMode, term, stations, routes).value;
      var q := Normalize(term);
      && |r| <= MaxResults
      && (forall i :: 0 <= i < |r| ==>
            r[i].RouteItem?
            && (Text.Contains(Text.LowerStr(r[i].route.diemDau), q)
                || Text.Contains(Text.LowerStr(r[i].route.diemCuoi), q)))
      && Seqs.IsSubsequence(r, RouteItems(routes))
      && (forall t :: t in routes && LocationMatches(q, t) && RouteItem(t) !in r ==> |r| == MaxResults)
      && (exists m ::
            && 0 <= m <= |routes|
            && r == RouteItems(Seqs.Filter(routes[..m], LocationMatcher(q)))
            && (|r| < MaxResults ==> m == |routes|))
  {
    var q := Normalize(term);
    Seqs.FirstMatchesMapped(routes, LocationMatcher(q), AsRouteItem, MaxResults);
  }

  /** Stops after the first five matches never reach the results. */
  lemma StationSearchIgnoresLaterStops(term: string, first: seq<MapStation>, later: seq<MapStation>, routes: seq<RouteRow>)
    requires !IsBlank(term)
    requires |Seqs.Filter(first, StationMatcher(Normalize(term)))| >= MaxResults
    ensures Search(StationMode, term, first + later, routes) == Search(StationMode, term, first, routes)
  {
    Seqs.FirstMatchesIgnoreRest(first, later, StationMatcher(Normalize(term)), MaxResults);
  }

  /** A term with a character that is neither a digit nor a minus sign can
      only match a route through its name. */
  lemma RouteNumberNeedsDigits(q: string, route: RouteRow, k: nat)
    requires k < |q| && !Text.IsDigit(q[k]) && q[k] != '-'
    ensures RouteMatches(q, route) <==> Text.Contains(Text.LowerStr(route.tenTuyen), q)
  {
    var digits := Text.DecimalString(route.tuyenId);
    Text.DecimalStringChars(route.tuyenId);
    if Text.Contains(digits, q) {
      Text.ContainsOnlyFrom(digits, q, (c: char) => Text.IsDigit(c) || c == '-');
      assert false;
    }
  }

  /** Lower-casing keeps diacritics, so the term "BEN" does not find the stop "Bến Thành". */
  lemma PlainTermMissesAccentedName(benThanh: MapStation)
    requires benThanh.row.tenTram == "Bến Thành"
    ensures Search(StationMode, "BEN", [benThanh], []) == Some([])
  {
    assert !IsBlank("BEN");
    assert Normalize("BEN") == "ben";
    assert Text.LowerStr("Bến Thành") == "bến thành";
    PlainBenNotFound();
    assert !StationMatcher("ben")(benThanh);
    assert Seqs.Filter([benThanh], StationMatcher("ben")) == [];
  }

  /** The term "BẾN" lower-cases to "bến" and finds the stop "Bến Thành". */
  lemma AccentedTermFindsAccentedName(benThanh: MapStation)
    requires benThanh.row.tenTram == "Bến Thành"
    ensures Search(StationMode, "BẾN", [benThanh], []) == Some([StationItem(benThanh)])
  {
    assert !IsBlank("BẾN");
    assert Normalize("BẾN") == "bến";
    assert Text.LowerStr("Bến Thành") == "bến thành";
    assert Text.Contains("bến thành", "bến");
    assert StationMatcher("bến")(benThanh);
    assert Seqs.Filter([benThanh], StationMatcher("bến")) == [benThanh];
    assert Seqs.Take([benThanh], MaxResults) == [benThanh];
    assert StationItems([benThanh]) == [StationItem(benThanh)];
  }

  lemma PlainBenNotFound()
    ensures !Text.Contains("bến thành", "ben")
  {
    var name := "bến thành";
    Text.ContainsAt(name, "ben");
    forall i | 0 <= i <= |name| ensures !("ben" <= name[i..]) {
      if i < |name| - 2 && name[i] == 'b' {
        assert i == 0 && name[1] != 'e';
      }
    }
  }
}
