/** Preparing the stops of a route for display and path assembly: sort them
    by their ordinal `thu_tu_tram`, then attach `[toa_do.x, toa_do.y]` as
    their `coordinates`. */
module RouteStations {
  import opened Data
  import Seqs

  predicate SortedByOrdinal(rows: seq<RouteStationRow>)
  {
    forall i, j :: 0 <= i < j < |rows| ==> rows[i].thuTuTram <= rows[j].thuTuTram
  }

  /** Selects the rows whose ordinal is `k`. */
  function OrdinalIs(k: int): RouteStationRow -> bool
  {
    (row: RouteStationRow) => row.thuTuTram == k
  }

  /** Places `x` ahead of the first row whose ordinal is not smaller than its own. */
  function Insert(x: RouteStationRow, rows: seq<RouteStationRow>): seq<RouteStationRow>
  {
    if rows == [] || x.thuTuTram <= rows[0].thuTuTram then [x] + rows
    else [rows[0]] + Insert(x, rows[1..])
  }

  /** `rows.sort((a, b) => a.thu_tu_tram - b.thu_tu_tram)`: a stable sort by
      ordinal, as `Array.prototype.sort` is. */
  function SortByOrdinal(rows: seq<RouteStationRow>): seq<RouteStationRow>
  {
    if rows == [] then [] else Insert(rows[0], SortByOrdinal(rows[1..]))
  }

  /** `{...row, coordinates: [row.toa_do.x, row.toa_do.y]}`. */
  function Locate(row: RouteStationRow): RouteStop
  {
    Located(row, Pair(row.stop.toaDo.x, row.stop.toaDo.y))
  }

  /** The sorted and located stops `fetchRouteStations` stores and draws. */
  function PrepareRouteStops(rows: seq<RouteStationRow>): seq<RouteStop>
  {
    Seqs.Map(SortByOrdinal(rows), Locate)
  }

  /** The original row inside a located stop. */
  function RowOf(stop: RouteStop): RouteStationRow
  {
    stop.row
  }

  /** The original rows inside located stops. */
  function Rows(stops: seq<RouteStop>): seq<RouteStationRow>
  {
    Seqs.Map(stops, RowOf)
  }

  // ---------------------------------------------------------------------------
  // Insertion

  lemma {:induction false} InsertPermutation(x: RouteStationRow, rows: seq<RouteStationRow>)
    ensures multiset(Insert(x, rows)) == multiset(rows) + multiset{x}
  {
    if rows != [] && x.thuTuTram > rows[0].thuTuTram {
      InsertPermutation(x, rows[1..]);
      assert rows == [rows[0]] + rows[1..];
    }
  }

  lemma {:induction false} InsertSorted(x: RouteStationRow, rows: seq<RouteStationRow>)
    requires SortedByOrdinal(rows)
    ensures SortedByOrdinal(Insert(x, rows))
  {
    if rows != [] && x.thuTuTram > rows[0].thuTuTram {
      InsertSorted(x, rows[1..]);
      InsertPermutation(x, rows[1..]);
      var r := Insert(x, rows[1..]);
      forall j | 0 <= j < |r| ensures rows[0].thuTuTram <= r[j].thuTuTram {
        assert r[j] in multiset(rows[1..]) + multiset{x};
      }
    }
  }

  /** Inserting `x` puts it ahead of every row with the same ordinal and
      changes nothing else among those rows. */
  lemma {:induction false} InsertStable(x: RouteStationRow, rows: seq<RouteStationRow>, k: int)
    ensures Seqs.Filter(Insert(x, rows), OrdinalIs(k))
         == (if x.thuTuTram == k then [x] else []) + Seqs.Filter(rows, OrdinalIs(k))
  {
    var p := OrdinalIs(k);
    if rows == [] || x.thuTuTram <= rows[0].thuTuTram {
      assert ([x] + rows)[1..] == rows;
    } else {
      InsertStable(x, rows[1..], k);
      assert ([rows[0]] + Insert(x, rows[1..]))[1..] == Insert(x, rows[1..]);
    }
  }

  // ---------------------------------------------------------------------------
  // Sorting

  /** The sort returns a permutation of its input. */
  lemma {:induction false} SortPermutation(rows: seq<RouteStationRow>)
    ensures multiset(SortByOrdinal(rows)) == multiset(rows)
  {
    if rows != [] {
      SortPermutation(rows[1..]);
      InsertPermutation(rows[0], SortByOrdinal(rows[1..]));
      assert rows == [rows[0]] + rows[1..];
    }
  }

  /** The sort orders rows by non-decreasing ordinal. */
  lemma {:induction false} SortSorted(rows: seq<RouteStationRow>)
    ensures SortedByOrdinal(SortByOrdinal(rows))
  {
    if rows != [] {
      SortSorted(rows[1..]);
      InsertSorted(rows[0], SortByOrdinal(rows[1..]));
    }
  }

  /** The sort is stable: rows sharing an ordinal keep their relative order. */
  lemma {:induction false} SortStable(rows: seq<RouteStationRow>, k: int)
    ensures Seqs.Filter(SortByOrdinal(rows), OrdinalIs(k)) == Seqs.Filter(rows, OrdinalIs(k))
  {
    if rows != [] {
      SortStable(rows[1..], k);
      InsertStable(rows[0], SortByOrdinal(rows[1..]), k);
    }
  }

  /** Rows that are already in order, as the database returns them, are left as they are. */
  lemma {:induction false} SortKeepsSorted(rows: seq<RouteStationRow>)
    requires SortedByOrdinal(rows)
    ensures SortByOrdinal(rows) == rows
  {
    if rows != [] {
      SortKeepsSorted(rows[1..]);
      var rest := rows[1..];
      assert rest == [] || rows[0].thuTuTram <= rest[0].thuTuTram;
    }
  }

  // ---------------------------------------------------------------------------
  // The prepared stops

  /** `fetchRouteStations` keeps every row it was given, once each, in
      ordinal order, with `coordinates` taken from `toa_do` and every other
      field untouched. */
  lemma PrepareRouteStopsSpec(rows: seq<RouteStationRow>)
    ensures var stops := PrepareRouteStops(rows);
      && |stops| == |rows|
      && multiset(Rows(stops)) == multiset(rows)
      && SortedByOrdinal(Rows(stops))
      && (forall i :: 0 <= i < |stops| ==>
            stops[i].coordinates == Pair(stops[i].row.stop.toaDo.x, stops[i].row.stop.toaDo.y))
  {
    var stops := PrepareRouteStops(rows);
    SortPermutation(rows);
    SortSorted(rows);
    assert Rows(stops) == SortByOrdinal(rows);
    assert |multiset(rows)| == |rows|;
  }
}
