/** The graph-side route record (src/route.rs), the payload of a graph edge. */
module Routes {
  import opened Ids

  datatype Route = Route(id: u32, name: string, startStation: u16, endStation: u16)

  /** `Route::new`: bumps the caller's counter first, then takes the new value
      as the route id; name and stations are stored as given. */
  method NewRoute(id: u32, name: string, startStation: u16, endStation: u16)
    returns (route: Route, id': u32)
    ensures id' == Inc32(id)
    ensures route.id == id'
    ensures route.name == name
    ensures route.startStation == startStation && route.endStation == endStation
  {
    id' := Inc32(id);
    route := Route(id', name, startStation, endStation);
  }
}
