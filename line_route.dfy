/** The line-side route record (src/line/route.rs): one segment of a line. */
module LineRoutes {
  import opened Ids

  /** The Rust struct borrows the owning line's name; here it holds a copy. */
  datatype Route = Route(id: u32, name: string, startStation: u32, endStation: u32)

  /** `Route::new`: bumps the caller's counter first, then takes the new value
      as the segment id; name and stations are stored as given. */
  method NewRoute(id: u32, name: string, startStation: u32, endStation: u32)
    returns (segment: Route, id': u32)
    ensures id' == Inc32(id)
    ensures segment.id == id'
    ensures segment.name == name
    ensures segment.startStation == startStation && segment.endStation == endStation
  {
    id' := Inc32(id);
    segment := Route(id', name, startStation, endStation);
  }
}
