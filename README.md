# Transit map: route-path assembly and stop/route search

A Dafny model of the client-side logic of a bus-map viewer. The map
component (`src/pages/Map/index.js`) selects stops and routes. When a route
is chosen it loads the route's stops, sorts them by their ordinal
`thu_tu_tram` and attaches `[toa_do.x, toa_do.y]` as their coordinates. It
then draws a driving path by asking an external router for one segment per
pair of consecutive stops, swapping the router's (longitude, latitude)
points into (latitude, longitude) and concatenating the segments that
succeeded, in order. The search box (`src/pages/Map/AdvancedSearch.js`)
filters stops by name, routes by name or number, or routes by their end
points. It matches the trimmed, lower-cased term as a substring and keeps
the first five matches.

Files, one module each:

- `data.dfy` (`Data`): the rows the backend returns (stops, routes, stops
  on a route) and the located values derived from them.
- `seqs.dfy` (`Seqs`): `filter`, `slice(0, k)`, `map` and the subsequence
  relation, with what filter-then-take keeps.
- `text.dfy` (`Text`): `toLowerCase`, `trim`, `includes` and integer
  `toString`.
- `route_path.dfy` (`RoutePath`): `getRoute` and `calculateFullRoute`. The
  router is a function parameter; the loop is a method proved against a
  specification function of the joined segments.
- `route_stations.dfy` (`RouteStations`): the sort and map in
  `fetchRouteStations`.
- `map_view.dfy` (`MapView`): the map component's selection state as a class
  whose methods are the handlers.
- `search.dfy` (`Search`): `searchByMode` as a pure function, and the search
  box's state as a class.

Backend replies are parameters of the handlers. `None` stands for a failed
request; the backend's 404 for an empty result is one, because the HTTP
client throws on it. The router is a function from a request to an optional
list of points. `None` stands for every way `getRoute` ends in its `catch`:
a failed call, or an answer without `routes[0].geometry.coordinates`.

`toLowerCase` keeps diacritics, so the term "BEN" does not find the stop
"Bến Thành", while "BẾN" does (`Search.PlainTermMissesAccentedName`,
`Search.AccentedTermFindsAccentedName`).

## Model

| member | source | states |
|---|---|---|
| `RoutePath.RouteRequest` | src/pages/Map/index.js:78 | Each endpoint is sent with its second coordinate first; swapping a waypoint back gives the stop's own coordinates. |
| `RoutePath.SwapAllLength` | src/pages/Map/index.js:80 | Swapping the router's points keeps their number. |
| `RoutePath.SwapAllAt` | src/pages/Map/index.js:80 | Point `i` of the result is point `i` of the answer with its two coordinates exchanged. |
| `RoutePath.SwapAllInvolution` | src/pages/Map/index.js:80 | Swapping every point twice gives back the original points. |
| `RoutePath.SegmentEndpoints` | src/pages/Map/index.js:75-85 | Request order and answer order agree: a geometry that runs from the first waypoint sent to the second yields a segment from `start` to `end`. |
| `RoutePath.Legs` | src/pages/Map/index.js:89-95 | Fewer than two stops give no request; `n` stops give `n - 1` requests. |
| `RoutePath.LegsAt` | src/pages/Map/index.js:92-95 | Request `i` is for stops `i` and `i + 1`. |
| `RoutePath.SegmentsLength` | src/pages/Map/index.js:92-95 | There is one segment per consecutive pair of stops, none for fewer than two stops. |
| `RoutePath.SegmentsAt` | src/pages/Map/index.js:92-95 | Segment `i` is the router's answer for stops `i` and `i + 1`. |
| `RoutePath.SegmentsPrefix` | src/pages/Map/index.js:92-99 | The first `i + 1` stops produce exactly the first `i` segments. |
| `RoutePath.CalculateFullRoute` | src/pages/Map/index.js:88-101 | The returned path is the in-order concatenation of the successful segments. The requests put to the router are exactly one per consecutive pair, in increasing order. Fewer than two stops give the empty path and no request. |
| `RoutePath.AccumulatorAfterStep` | src/pages/Map/index.js:91-99 | After step `i` the accumulator holds the first `i` segments' points. Its length is the number of points in the successful ones, and it is a prefix of the final path. |
| `RoutePath.JoinedFront` | src/pages/Map/index.js:96-98 | The joined path is the first segment's points followed by the rest, in order. |
| `RoutePath.JoinedAppend` | src/pages/Map/index.js:96-98 | Joining two runs of segments concatenates their paths. |
| `RoutePath.JoinedFailure` | src/pages/Map/index.js:96-98 | A failed segment adds nothing and removes nothing gathered before it. |
| `RoutePath.JoinedGrows` | src/pages/Map/index.js:91-99 | The path gathered after fewer steps is a prefix of the path gathered after more. |
| `RoutePath.JoinedLength` | src/pages/Map/index.js:96-98 | The path holds exactly as many points as the successful segments. |
| `RoutePath.SecondLegFails` | src/pages/Map/index.js:88-101 | For stops A, B, C, the requests are A→B then B→C; when B→C fails, the path is A→B's points alone. |
| `RouteStations.InsertPermutation` | src/pages/Map/index.js:148 | Inserting a row adds exactly that row. |
| `RouteStations.InsertSorted` | src/pages/Map/index.js:148 | Inserting into rows ordered by ordinal keeps them ordered. |
| `RouteStations.InsertStable` | src/pages/Map/index.js:148 | An inserted row goes ahead of the rows with its ordinal and leaves their order alone. |
| `RouteStations.SortPermutation` | src/pages/Map/index.js:147-148 | The sort returns a permutation of the rows. |
| `RouteStations.SortSorted` | src/pages/Map/index.js:148 | The sorted rows have non-decreasing `thu_tu_tram`. |
| `RouteStations.SortStable` | src/pages/Map/index.js:148 | Rows with the same ordinal keep their relative order. |
| `RouteStations.SortKeepsSorted` | src/pages/Map/index.js:147-148 | Rows already in ordinal order come back unchanged. |
| `RouteStations.PrepareRouteStopsSpec` | src/pages/Map/index.js:147-152 | The prepared stops are the input rows, each once, ordered by ordinal. Each stop's `coordinates` is `[toa_do.x, toa_do.y]` and its other fields are unchanged. |
| `MapView.FindRoute` | src/pages/Map/index.js:127 | The result is the first route whose `tuyen_id` equals the id, or none exactly when no route has it. |
| `MapView.MapState.constructor` | src/pages/Map/index.js:64-72 | Nothing is selected or drawn at first. |
| `MapView.MapState.HandleStationSelect` | src/pages/Map/index.js:110-116 | Selects the stop and clears the drawn path, the selected route and the route panel. It lists the reply's routes through the stop, or none when the request failed. |
| `MapView.MapState.FetchStationRoutes` | src/pages/Map/index.js:169-183 | The stop's routes are the reply's rows, or empty when the request failed. |
| `MapView.MapState.FetchRouteStations` | src/pages/Map/index.js:142-166 | On success, stores the sorted, located stops and the full path through them. On failure, changes neither. |
| `MapView.MapState.HandleRouteSelect` | src/pages/Map/index.js:119-139 | Marks the route selected. When the route list arrives, shows the first matching route and loads its stops and path. When it does not, nothing else changes. |
| `MapView.MapState.CloseRouteInfo` | src/pages/Map/index.js:371-377 | Closing the route panel clears the route, its path and its stops. |
| `Text.Trim` | src/pages/Map/AdvancedSearch.js:32 | The trimmed term is a piece of the term with only white space cut from its start and its end, and it neither starts nor ends with white space. |
| `Text.TrimEmpty` | src/pages/Map/AdvancedSearch.js:32 | Trimming leaves nothing exactly when every character is white space. |
| `Text.LowerIdempotent` | src/pages/Map/AdvancedSearch.js:37 | Lower-casing a character twice is lower-casing it once. |
| `Text.LowerKeepsSpace` | src/pages/Map/AdvancedSearch.js:37 | Lower-casing neither creates nor removes white space. |
| `Text.LowerStrIdempotent` | src/pages/Map/AdvancedSearch.js:37 | Lower-casing a string twice is lower-casing it once. |
| `Text.TrimLowerCommute` | src/pages/Map/AdvancedSearch.js:37 | Lower-casing then trimming equals trimming then lower-casing. |
| `Text.ContainsAt` | src/pages/Map/AdvancedSearch.js:43 | `includes` holds exactly when the needle occurs at some position. |
| `Text.ContainsOnlyFrom` | src/pages/Map/AdvancedSearch.js:53 | A needle found in a string uses only characters of that string. |
| `Text.NatStringRoundTrip` | src/pages/Map/AdvancedSearch.js:53 | A route number's decimal text is all digits, with no leading zero, and reads back as the number. |
| `Text.DecimalStringChars` | src/pages/Map/AdvancedSearch.js:53 | Integer `toString` gives digits and, exactly for negatives, a leading minus. |
| `Seqs.Filter` | src/pages/Map/AdvancedSearch.js:41-44 | Filtering keeps only elements that satisfy the test, all taken from the source. |
| `Seqs.Take` | src/pages/Map/AdvancedSearch.js:45 | `slice(0, k)` is a prefix of length `min(k, n)`. |
| `Seqs.FilterAppend` | src/pages/Map/AdvancedSearch.js:41-44 | Filtering distributes over concatenation. |
| `Seqs.FilterComplete` | src/pages/Map/AdvancedSearch.js:41-44 | Every matching element is kept by the filter. |
| `Seqs.FilterIsSubsequence` | src/pages/Map/AdvancedSearch.js:41-44 | The filter keeps source order. |
| `Seqs.PrefixOfSubsequence` | src/pages/Map/AdvancedSearch.js:45 | A prefix of a subsequence is a subsequence. |
| `Seqs.MapSubsequence` | src/pages/Map/AdvancedSearch.js:46 | Mapping keeps a subsequence a subsequence. |
| `Seqs.TakeFilterIsFilterOfPrefix` | src/pages/Map/AdvancedSearch.js:41-45 | Filter-then-take gives the matches of a prefix of the list: the whole list when it holds fewer than `k` matches. |
| `Seqs.FirstMatches` | src/pages/Map/AdvancedSearch.js:41-45 | Filter-then-take keeps the first `k` matches, or all of them when there are fewer: at most `k` elements, all matching, in source order, exactly the matches of a prefix that is the whole list unless `k` were kept. |
| `Seqs.FirstMatchesMapped` | src/pages/Map/AdvancedSearch.js:41-46 | The same, seen through the results' wrapping: the results are the wrapped matches of a prefix that is the whole list unless `k` were kept. |
| `Seqs.FirstMatchesIgnoreRest` | src/pages/Map/AdvancedSearch.js:41-45 | Once the first part of the list holds `k` matches, the rest cannot change the kept elements. |
| `Search.Search` | src/pages/Map/AdvancedSearch.js:31-69 | A blank term gives no results in every mode. An unknown mode with a real term leaves the results alone. Results never exceed five. Stop mode gives stops and the route modes give routes. |
| `Search.SearchPanel.constructor` | src/pages/Map/AdvancedSearch.js:10-28 | Starts in stop mode with an empty term, no results and the fetched route list, or an empty one on failure. |
| `Search.SearchPanel.SetTerm` | src/pages/Map/AdvancedSearch.js:147 | Typing sets the term. |
| `Search.SearchPanel.SearchByMode` | src/pages/Map/AdvancedSearch.js:31-69 | The results become the search's answer, or stay as they were for an unknown mode. The results stay stops exactly in stop mode. |
| `Search.SearchPanel.HandleSearchModeChange` | src/pages/Map/AdvancedSearch.js:80-84 | Sets the mode and clears the term and the results. |
| `Search.SearchPanel.HandleResultSelect` | src/pages/Map/AdvancedSearch.js:86-96 | Clears term and results, then hands over the stop in stop mode and the route's `tuyen_id` otherwise. |
| `Search.BlankTermFindsNothing` | src/pages/Map/AdvancedSearch.js:32-35 | An empty or white-space-only term gives the empty result list in every mode, whatever the lists hold. |
| `Search.NormalizedTermNotEmpty` | src/pages/Map/AdvancedSearch.js:32-37 | A term that passes the blank check is searched for as a non-empty string. |
| `Search.CaseInsensitive` | src/pages/Map/AdvancedSearch.js:37 | A term and its lower-cased form give the same results. |
| `Search.StationSearchSpec` | src/pages/Map/AdvancedSearch.js:40-47 | Stop results number at most five. Each is a stop whose lower-cased name contains the term. They appear in list order. A matching stop is missing only when five were already found. They are exactly the matches among the first `m` entries of the list, where `m` is the whole list unless five were found, so they are the first five matches. |
| `Search.RouteSearchSpec` | src/pages/Map/AdvancedSearch.js:49-57 | Route results number at most five. Each has a lower-cased name or a decimal number containing the term. They appear in list order. A matching route is missing only when five were already found. They are exactly the matches among the first `m` entries of the list, where `m` is the whole list unless five were found, so they are the first five matches. |
| `Search.LocationSearchSpec` | src/pages/Map/AdvancedSearch.js:59-67 | Location results number at most five. Each has a lower-cased start or end point containing the term. They appear in list order. A matching route is missing only when five were already found. They are exactly the matches among the first `m` entries of the list, where `m` is the whole list unless five were found, so they are the first five matches. |
| `Search.StationSearchIgnoresLaterStops` | src/pages/Map/AdvancedSearch.js:41-45 | Stops after the first five matches never reach the results. |
| `Search.RouteNumberNeedsDigits` | src/pages/Map/AdvancedSearch.js:52-53 | A term with a character other than a digit or minus sign matches a route only through its name. |
| `Search.PlainTermMissesAccentedName` | src/pages/Map/AdvancedSearch.js:37-45 | "BEN" does not find the stop "Bến Thành", because lower-casing keeps diacritics. |
| `Search.AccentedTermFindsAccentedName` | src/pages/Map/AdvancedSearch.js:37-45 | "BẾN" finds the stop "Bến Thành". |
| `Search.PlainBenNotFound` | src/pages/Map/AdvancedSearch.js:43 | "bến thành" does not contain "ben". |

## Left out

- HTTP calls to the backend and to the router: they are parameters, as
  described above. The fixed query options (`overview=full`,
  `geometries=geojson`) and the URLs themselves are not modelled.
- Floating-point coordinates are `real` numbers, only copied and swapped.
- `toLowerCase` follows Unicode's full case mapping. `Text.Lower` maps
  ASCII, Latin-1 and the Vietnamese letters and leaves every other character
  unchanged, which differs from the real mapping for other scripts. It is
  also per character, while a few Unicode characters lower-case into two.
  The white-space set of `trim` is the exact ECMAScript set.
- Integer `toString`: `Text.DecimalString` renders integers only. A
  `tuyen_id` that is not an integer, or an integer too large for plain
  notation, is not modelled.
- The 300 ms debounce of the search and the timing of React state updates
  are not modelled. Each handler runs to completion on the state it is
  given. So are the races they allow: a stale debounced search may land
  after a mode change, and a stale route selection may land after a newer
  one. `Search.SearchPanel.Valid` (results are stops exactly in stop mode)
  holds only because the model runs searches in order.
- `handleStationSelect` starts `fetchStationRoutes` without awaiting it;
  the model applies its reply at once. The `if (!station) return` guard in
  `fetchStationRoutes` is not modelled: both callers always pass a stop.
- Loading and error banner flags, marker icons, the tile-layer selection,
  the dropdown, `map.flyTo` after choosing a stop, the geolocation marker,
  and the server's SQL queries are not modelled.
- The initial `fetchBusStations` (src/pages/Map/index.js:186-208), which
  locates every stop for the markers, is not modelled. The search takes the
  located stops as given.
- A row with a missing `toa_do` makes the source throw inside
  `fetchRouteStations` before any state changes. Rows here always carry one.
