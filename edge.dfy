/** A stand-alone edge record (src/edge.rs). */
module Edges {
  import opened Ids

  /** Equality is field-wise, as the derived `PartialEq`. */
  datatype Edger = Edger(id: u32, name: string, startStation: u32, endStation: u32)

  /** `Edger::new`: unlike the route constructors, takes the counter's current
      value as the id and only then bumps the counter. */
  method NewEdger(id: u32, name: string, startStation: u32, endStation: u32)
    returns (edge: Edger, id': u32)
    ensures edge.id == id
    ensures id' == Inc32(id)
    ensures edge.name == name
    ensures edge.startStation == startStation && edge.endStation == endStation
  {
    edge := Edger(id, name, startStation, endStation);
    id' := Inc32(id);
  }

  /** Two edges drawn one after the other from one counter: the first gets the
      counter's value, the second the next one, so the ids strictly increase. */
  method TwoEdgers(id: u32, name1: string, name2: string, a: u32, b: u32)
    returns (e1: Edger, e2: Edger, id': u32)
    requires id + 1 < U32_MAX
    ensures e1.id == id && e2.id == id + 1 && id' == id + 2
    ensures e1.id < e2.id
    ensures e1 != e2
  {
    var mid;
    e1, mid := NewEdger(id, name1, a, b);
    e2, id' := NewEdger(mid, name2, b, a);
  }
}
