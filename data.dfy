/** Rows the transit-map client receives from its backend, and the values it
    derives from them. Coordinates are never computed with, only copied and
    swapped, so they are kept as plain numbers. */
module Data {

  datatype Option<+T> = None | Some(value: T)

  /** A PostgreSQL `point` column as the database driver hands it over: `{x, y}`. */
  datatype XY = XY(x: real, y: real)

  /** A two-element array `[a, b]` of coordinates, as Leaflet and the router use them. */
  datatype Pair = Pair(first: real, second: real)

  /** A stop (`tram_id`, `ten_tram`, `toa_do`, `trang_thai`). */
  datatype StationRow = StationRow(tramId: int, tenTram: string, toaDo: XY, trangThai: string)

  /** A route (`tuyen_id`, `ten_tuyen`, `diem_dau`, `diem_cuoi`, `thoi_gian_hoat_dong`). */
  datatype RouteRow = RouteRow(
    tuyenId: int,
    tenTuyen: string,
    diemDau: string,
    diemCuoi: string,
    thoiGianHoatDong: Option<string>)

  /** A stop on a route, with its ordinal position `thu_tu_tram` along that route. */
  datatype RouteStationRow = RouteStationRow(stop: StationRow, thuTuTram: int)

  /** A row spread into a new object with an added `coordinates` field
      (`{...row, coordinates: [x, y]}`): the original fields are `row`. */
  datatype Located<T> = Located(row: T, coordinates: Pair)

  /** A stop marker on the map. */
  type MapStation = Located<StationRow>

  /** A stop of the selected route, ready for path assembly. */
  type RouteStop = Located<RouteStationRow>
}
