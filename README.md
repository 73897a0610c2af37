# Railway network core, modelled in Dafny

The system is a small railway simulator written in Rust. Its core is:

- a **route graph**: a petgraph `StableGraph` whose nodes are stations and whose edges are named routes. Stations and routes can be added. A station can be removed, and every line that ran through it is re-stitched around it (`src/graph.rs`).
- **lines**: ordered chains of segments that can be extended at either end, closed into a loop, merged, shortened and walked by trains (`src/line.rs`, `src/line/route.rs`).
- **stations and platforms**: platforms have a vehicle class and an occupied flag, and a train books one on arrival (`src/station.rs`, `src/station/platform.rs`).
- the small records built from shared id counters: `Route`, `Edger` and `Train` (`src/route.rs`, `src/edge.rs`, `src/train.rs`).

## How the model is built

- **Counters.** Every Rust counter passed as `&mut u32` or `&mut u16` becomes an in-parameter `id` and an out-parameter `id'`.
  - `*id += 1` is `Inc32` or `Inc16`, which wrap at the type's width (the release-build behaviour).
  - `*id -= 1` is `Dec32`.
- **Lines.** The line (`Lines.Line`) is a class, because its methods update its fields in place. The segment vector is a `seq` field that the methods reassign.
- **The graph.** `Graph.RouteGraph` is a class over two handle-keyed maps, one for nodes and one for edges, plus the next handle of each kind. Handles are never reused, so a handle stays valid until its own node or edge is removed, as in `StableGraph`.
  - `edges_directed` lists the newest edge first, because petgraph puts a new edge at the head of each endpoint's adjacency list.
  - A self-loop is both incoming and outgoing.
- **Station removal** is proved against a chain of specification functions in `GraphEdges` and `Restitching`:
  - `Collected`: the incident edges, incoming first.
  - `GroupByName`: grouped by name, in first-occurrence order.
  - `Bridges`: one new edge per group of exactly two edges.
  - `CounterAfter`: the route counter once the bridges are added.
  - `Extend`: the bridges added under fresh handles.
  - `Detach`: every edge at the node dropped.

  `Graph.EdgesAfterRemoval` composes these. `Graph.RemovalEffect` and `Graph.ThroughLineSurvives` state what they mean for the network.
- **Stations and records.** Stations, platforms and routes are values. The Rust methods that take `self` by value return the updated station.

### Behaviour kept as written

Each of these is modelled exactly as the code does it:

- **Bumps in the line methods.** `add_segment_end` and `add_segment_start` bump the counter themselves and again inside `Route::new`, so each new segment's id is the old counter plus two.
- **`add_segment_middle` insertion** (`src/line.rs:95-104`). Its loop counter `i` has already been incremented when the match is found, so the new segment goes at index `p + 2`, not `p + 1`. This is also the reason the "is `index` past the end" test sends `p = n - 2` to `add_segment_end`.
- **`add_segment_middle` also writes** `start_segment = Some(end_station)`, a station number, into the field that otherwise holds a segment id.
- **`remove_segment` and `end_segment`.** On the last segment of a line that does not loop, `remove_segment` compares `end_segment == …` where an assignment was meant. `end_segment` is therefore left stale.
- **`Train::new` ignores its arguments.** Every train is a forward-facing `LowSpeed` "Passenger" train.
- **Empty lines cannot grow.** `add_segment_end`, `add_segment_start` and `add_segment_middle` unwrap the first or last segment, so none of them can be applied to a new, empty `Line`. They require a non-empty line here.
- **Value comparisons.** `segment == self.segments.last()` compares values, not positions, and the model compares the same way. The corrected `get_next_segment` is the exception: it recognises the first and last segments by position.

### Where the code does not compile as shown

The model follows the evident reading in these places:

- **Station construction.** `Station::new` takes a `Vec<Platform>` and returns the new id. `add_station_to_graph` instead passes `(count, TrainType)` specs and stores the result as a station.
  - The model's `Stations.NewStation` takes the specs and expands them densely: ids `0 … n-1` in the order given, all free.
  - It returns the station and the bumped counter.
- **`Route::new` arguments.** `add_route_to_graph` calls `Route::new` with two arguments, but the graph-side `Route::new` takes four. The model passes 0 for both stations.
- **Loop-body values.** `available_platform` and `enter_station` produce `Some(plat.id)` and `Ok()` as loop-body values. They are read as `return`s.

## Model

| member | source | states |
|---|---|---|
| Ids.Inc32 | src/route.rs:12 | `*id += 1` on a `u32`: one more, modulo 2^32 |
| Ids.Dec32 | src/line.rs:97 | `*id -= 1` on a `u32` undoes `*id += 1` |
| Ids.Inc16 | src/train.rs:18 | `*id += 1` on a `u16`: one more, modulo 2^16 |
| Trains.NewTrain | src/train.rs:17-27 | the counter advances by one and the new value is the id; model "Passenger", forward and `LowSpeed` whatever was asked for |
| Trains.TwoTrains | src/train.rs:17-27 | while the counter does not wrap, two trains from one counter get consecutive ids and are otherwise identical, whatever arguments were passed |
| Platforms.NewPlatform | src/station/platform.rs:11-19 | the platform keeps the given id and type and is free |
| Routes.NewRoute | src/route.rs:10-20 | the counter advances by one, and the route gets the new value as id, the name unchanged and the stations as given |
| LineRoutes.NewRoute | src/line/route.rs:10-20 | the same for a line segment: the counter advances by one, and the segment gets the new value as id, the name and the stations as given |
| Edges.NewEdger | src/edge.rs:10-20 | the id is the counter's value before the bump; then the counter advances by one; the name and endpoints are unchanged |
| Edges.TwoEdgers | src/edge.rs:1-20 | while the counter does not wrap, two edges from one counter get ids `c` and `c + 1`, strictly increasing, and are different values |
| Stations.ExpandSpecs | src/graph.rs:19-24 | the platforms built from `(count, type)` specs: as many as the counts add up to, numbered densely from 0, all free |
| Stations.ExpandSpecsCountOf | src/graph.rs:19-24 | every vehicle class gets exactly as many platforms as the specs ask for |
| Stations.ExpandSpecsAppend | src/graph.rs:19-24 | specs expand in the order given: a further spec adds its own run of platforms of its type, numbered right after the earlier ones |
| Stations.NewStation | src/station.rs:19-33 | the counter advances by one and the new value is the station id; the name is kept; the platforms are the expanded specs |
| Stations.PlatformGen | src/station.rs:34-45 | exactly `number` platforms, ids `0 … number-1` in ascending order, all of the given type and free |
| Stations.SingleSpecIsPlatformGen | src/station.rs:34-45 | a single `(count, type)` spec expands to exactly what `platform_gen` builds |
| Stations.AvailablePlatform | src/station.rs:49-61 | as written: `None` exactly when every platform is occupied; otherwise the id of the first free platform, of any type |
| Stations.AvailablePlatformOfType | src/station.rs:49-61 | as intended: `None` exactly when no free platform has the requested type; otherwise the id of the first free one of that type |
| Stations.Occupy | src/station.rs:71 | booking platform `k` marks it occupied and changes no other platform, nor the station's id or name |
| Stations.EnterStationAsWritten | src/station.rs:68-76 | as written: `Booking` exactly when the station has no platforms, with nothing changed; otherwise the first platform is booked, whatever id was asked for |
| Stations.EnterStation | src/station.rs:68-76 | as intended: `Booking` exactly when no platform has the id, with nothing changed; otherwise the first platform with that id is booked and nothing else changes |
| Stations.EnterStationDiscrepancy | src/station.rs:70-71 | asked for platform 1 of two free platforms, the written code books platform 0 and the intended one books platform 1 |
| Stations.AvailablePlatformDiscrepancy | src/station.rs:53-54 | with one free low-speed platform and freight requested, the written code offers it and the intended one finds none |
| Lines.FindSegment | src/line.rs:125-126 | the index of the first segment with the id, or `None` exactly when no segment has it |
| Lines.FindEndingAt | src/line.rs:111-112 | the index of the first segment ending at the station, or `None` exactly when none does |
| Lines.DropFirstOfLoop | src/line.rs:127-130 | removing the first segment of a loop leaves one segment fewer, still closed, and contiguous if it was |
| Lines.DropLastOfLoop | src/line.rs:135-139 | removing the last segment of a loop leaves one segment fewer, still closed, and contiguous if it was |
| Lines.DropInner | src/line.rs:144-150 | removing an inner segment leaves one segment fewer, and contiguity and closure are kept |
| Lines.Line.constructor | src/line.rs:21-28 | an empty line with the given id and name, not looping, with no start or end segment |
| Lines.NewLine | src/line.rs:18-29 | the counter advances by one and the new value is the line id; the line is empty, not looping, with no start or end segment |
| Lines.Line.AddSegmentEnd | src/line.rs:34-41 | the counter advances by two; exactly one segment is appended, from the old last end station to `end_station`; `end_segment` is its id; contiguity is kept |
| Lines.Line.AddSegmentStart | src/line.rs:71-78 | the counter advances by two; exactly one segment is put in front, from `start_station` to the old first start station; `start_segment` is its id; contiguity is kept |
| Lines.Line.AddSegmentMiddle | src/line.rs:79-108 | closing a line appends the closing segment, sets `looping` and clears start and end segment, leaving a closed, contiguous chain. Otherwise, after the first segment ending at `start_station` (index `p`), it inserts at `p + 2` with the counter advanced once, or, when `p + 2` is past the end, undoes its bump and appends through `add_segment_end`, so the counter advances by two; with no such segment nothing changes but the counter, advanced once |
| Lines.Line.GetNextSegment | src/line.rs:43-70 | as written: an unknown id is answered with itself and no turn; a known one with the second segment, turning only backward on a line that does not loop |
| Lines.Line.GetNextSegmentIntended | src/line.rs:43-70 | as intended: the next segment forward and the previous one backward, wrapping from last to first (and first to last) on a loop, where a train never turns; a line that does not loop turns trains around at its first and last segments; an unknown id answers itself with no turn |
| Lines.NextSegmentDiscrepancy | src/line.rs:47-55 | on segments 1, 2, 3 travelling forward from 2, the written code answers 2 and the intended one answers 3 |
| Lines.LoopNextSegmentDiscrepancy | src/line.rs:58-60 | on a loop of segments 1, 2, 3 travelling backward from 1, the written code answers 2 and the intended one answers 3, the segment before the first on a loop |
| Lines.Line.MergeSegments | src/line.rs:109-122 | no segment ends at the station: `NoCommonStationError`, nothing changes. Otherwise the first segment is extended to the second's end and the second is removed; on a line that does not loop the merged segment becomes `end_segment` when it is last; contiguity is kept |
| Lines.Line.RemoveSegment | src/line.rs:123-156 | an unknown id: `RemoveSegmentError`, nothing changes. Otherwise the segment is returned, the line is one shorter and its neighbours are re-stitched per case (loop start, line start, loop end, line end, inner); a non-looping line's `start_segment` becomes the old second segment; contiguity is kept |
| Lines.Line.RemoveFound | src/line.rs:127-151 | the five re-stitching arms for the segment found at an index, each tied to its drop function |
| GraphEdges.AdjacentMembers | src/graph.rs:37-47 | the edges listed at a node in a direction are exactly the existing edges touching it that way, each paired with its route name |
| GraphEdges.AdjacentNewestFirst | src/graph.rs:37-38 | the edges at a node are listed newest first |
| GraphEdges.ExtendKeeps | src/graph.rs:74 | adding edges under fresh handles keeps every old edge and its payload and adds exactly the new handles |
| GraphEdges.Detach | src/graph.rs:77 | removing a node drops exactly the edges that start or end at it and keeps every other edge's payload |
| Restitching.FindGroup | src/graph.rs:50 | the index of the group with that name, or `None` exactly when there is none |
| Restitching.FirstOccurrences | src/graph.rs:49-56 | the names in first-occurrence order: the same names as the input, each once |
| Restitching.GroupStepFound | src/graph.rs:50-52 | a pair whose name already has a group is appended to that group, and the groups still partition the pairs seen so far by name |
| Restitching.GroupStepNew | src/graph.rs:50-53 | a pair with a new name opens a group at the end, and the groups still partition the pairs seen so far by name |
| Restitching.GroupByNameCorrect | src/graph.rs:49-57 | the groups carry the distinct names in first-occurrence order, and each group holds exactly the edges of its name, in collection order |
| Restitching.GroupNamesDistinct | src/graph.rs:49-57 | no two groups share a name |
| Restitching.EdgesNamedMembers | src/graph.rs:49-57 | an edge is in a name's group exactly when it was collected under that name |
| Restitching.GroupByNameIn | src/graph.rs:49-57 | grouping only refers to edges that were collected |
| Restitching.CollectedIn | src/graph.rs:37-47 | the collected pairs only refer to existing edges |
| Restitching.GroupRoutes | src/graph.rs:49-57 | the grouping loop yields exactly `GroupByName` of the collected pairs |
| Restitching.CounterAdvancesPerPair | src/graph.rs:62-74 | the route counter advances by exactly the number of two-edge groups, modulo 2^32 |
| Restitching.BridgesPerPair | src/graph.rs:62-75 | exactly one new edge per group of two, none for groups of any other size |
| Restitching.BridgesContain | src/graph.rs:62-75 | every two-edge group's bridge is among the new edges, between the group's computed ends and under its name |
| Restitching.ThroughLineBridged | src/graph.rs:64-72 | a line entering the station from `u` and leaving to `w`, with no other edge of its name there, forms the group `[in, out]`, bridged from `u` to `w` |
| Restitching.BothIncomingBridgeTouchesNode | src/graph.rs:66-72 | two same-name edges both entering the station give a bridge with the station as an endpoint |
| Restitching.BothOutgoingBridgeTouchesNode | src/graph.rs:66-68 | two same-name edges both leaving the station give a bridge starting at the station |
| Graph.RouteGraph.constructor | src/graph.rs:93-94 | an empty graph |
| Graph.RouteGraph.AddStation | src/graph.rs:19-25 | exactly one new node, holding the station `Station::new` builds from the counter, name and specs; the counter advances by one; no other node and no edge changes |
| Graph.RouteGraph.AddRoute | src/graph.rs:26-32 | exactly one new edge `station_a -> station_b`, whose route is `Route::new` on the counter with the name unchanged; the counter advances by one; no node and no other edge changes |
| Graph.RouteGraph.EdgesDirected | src/graph.rs:37-47 | the pairs collected at a node in one direction are its adjacent edges, newest first, with their names |
| Graph.RouteGraph.BridgePairs | src/graph.rs:58-75 | the bridging loop adds exactly the bridges under fresh handles and moves the counter once per two-edge group; nodes and existing edges stay |
| Graph.RouteGraph.RemoveStation | src/graph.rs:34-82 | `Ok` exactly when the node existed. Then the node is gone, the counter is `CounterAfter` the groups, and the edges are the re-stitched map. Otherwise `RemovingStation` with nothing changed |
| Graph.RouteGraph.RemoveNode | src/graph.rs:77-81 | petgraph's `remove_node`: reports whether the node existed; if so the node and exactly the edges touching it are gone, otherwise nothing changes |
| Graph.AddingStation | src/graph.rs:91-104 | the node added for "Berlin" holds the station `Station::new` builds from a counter at 0 |
| Graph.AddingRouteAsEdge | src/graph.rs:106-126 | after two stations, the route shares the counter and equals `Route::new` from a counter at 2 (id 3), named "NordStream" |
| Graph.RemovalEffect | src/graph.rs:69-81 | after removal no edge touches the station; every edge not touching it keeps its handle and route; every edge touching it is gone; new handles are bridges only, at most one per two-edge group |
| Graph.ThroughLineSurvives | src/graph.rs:64-81 | a line `u -> station -> w` with no other edge of its name at the station still joins `u` to `w` under that name after the removal |
| Graph.NothingAtMissingNode | src/graph.rs:37-38 | nothing is collected at a node that is not in the graph |

## Left out

- Locking: the `Arc<Mutex<…>>` wrapping of node and edge payloads and the `.lock()` calls. Payloads are plain values, since locking adds nothing to sequential behaviour.
- Other modules: the thread pool, the GUI modules and `main`, which are about concurrency, drawing and printing.
- Station map: the process-wide `station_identification` map filled by `Station::new`. It is global mutable state and is not valid Rust as written.
- petgraph storage: slot reuse is not modelled. A removed node's or edge's slot can be handed out again by `StableGraph`, but the model always hands out fresh handles.
- Ids.Inc32: models the release-build wrap-around of `*id += 1`, not the debug-build overflow panic. The same holds for `Inc16` and `Dec32`.
- Lines.Line.MergeSegments: modelled only when the first segment ending at the station is at index 0 (`MergeAtFirst`). The source's `counter` is never advanced. For a first match at index 1, the matched segment takes `segments[1]`'s end station, which is its own, and is then itself removed, while `segments[0]` is returned unchanged. For a first match at index 2 or later, the matched segment takes `segments[1]`'s end station, `segments[1]` is removed, and `segments[0]` is returned untouched. A one-segment line panics on `segments[1]`.
- Lines.Line.GetNextSegment: the arms that read `segments[counter - 1]` with `counter == 0` underflow and panic. The precondition `NextDefinedAsWritten` excludes them, as does the one-segment case that reads past the end.
- Lines.Line.GetNextSegmentIntended: a line that does not loop and has a single segment has no neighbour to turn back to. The precondition `NextDefined` excludes it.
- Lines.Line.RemoveSegment: removing the only segment of a line panics in the source (`segments.get(1)` on a loop, `segments[1]` otherwise). The precondition excludes it.
- Lines.Line.AddSegmentEnd: `add_segment_start`, `add_segment_middle` and this method require a non-empty line, because the source unwraps the first or last segment.
- `get_name`: the plain accessor of the line's name is not modelled separately. `name` is a field of the class.
- Graph.RouteGraph.AddRoute: the route stored on a graph edge has start and end station 0. The two-argument `Route::new` call gives no stations.
- Stations.NewStation: platforms are expanded densely from the specs. The call signature in the source does not fit `Station::new`. The total is required to fit the `u8` platform ids (at most 256).
- Stations.EnterStation: works on a station value and returns the updated station, rather than flipping `occupied` in place.
- Panics on missing endpoints: `add_route_to_graph` panics when an endpoint node is missing. This is excluded by its precondition.

## Findings

| source | as written | input that shows it | evidently intended | confidence | as-written member | corrected member |
|---|---|---|---|---|---|---|
| src/station.rs:54 | the pattern `plat_type =>` binds a new name and matches every type, so the first free platform is offered whatever type was asked for | one free `LowSpeed` platform, `Freight` requested: `Some(0)` | compare with the requested type and skip platforms of other types | high, not executed | Stations.AvailablePlatform | Stations.AvailablePlatformOfType |
| src/station.rs:71 | the pattern `booking_id =>` binds a new name and matches every id, so the first platform is booked whatever id was asked for | two free platforms 0 and 1, booking 1: platform 0 becomes occupied | book the platform whose id equals `booking_id`, `Booking` when there is none | high, not executed | Stations.EnterStationAsWritten | Stations.EnterStation |
| src/line.rs:47 | `counter` is never advanced, so every arm reads around index 0: the next segment is always the second one | segments 1, 2, 3, forward from 2: answers 2 (itself) | `counter` tracks the found segment's index: next is `counter + 1` forward and `counter - 1` backward, wrapping at the ends of a loop | high, not executed | Lines.Line.GetNextSegment | Lines.Line.GetNextSegmentIntended |
