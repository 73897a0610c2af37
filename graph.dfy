/** The railway network graph (src/graph.rs): a directed multigraph whose
    nodes carry stations and whose edges carry routes, edited in place. */
module Graph {
  import opened Ids
  import opened Results
  import opened Trains
  import opened Platforms
  import opened Stations
  import opened Routes
  import opened GraphEdges
  import opened Restitching

  datatype GraphError = RemovingStation

  /** A petgraph `StableGraph` seen through its handles: node and edge
      payloads by handle, and the next handle each kind of insertion hands
      out. Handles are never reused, so removing one element never renumbers
      another. */
  class RouteGraph {
    var nodes: map<NodeIndex, Station>
    var edges: map<EdgeIndex, EdgeEntry>
    var nextNode: NodeIndex
    var nextEdge: EdgeIndex

    /** Every handle in use is below the next one handed out, and every edge
        runs between existing nodes. */
    ghost predicate Valid()
      reads this
    {
      && (forall n :: n in nodes ==> n < nextNode)
      && (forall e :: e in edges ==> e < nextEdge)
      && (forall e :: e in edges ==> edges[e].source in nodes && edges[e].target in nodes)
    }

    constructor ()
      ensures Valid()
      ensures nodes == map[] && edges == map[]
    {
      nodes := map[];
      edges := map[];
      nextNode := 0;
      nextEdge := 0;
    }

    /** `add_station_to_graph`: one new node holding the station that
        `Station::new` builds from the counter, the name and the platform
        specs; nothing else in the graph changes. */
    method AddStation(id: u32, name: string, specs: seq<PlatformSpec>) returns (node: NodeIndex, id': u32)
      requires Valid()
      requires SpecTotal(specs) <= 0x100
      modifies this
      ensures Valid()
      ensures node !in old(nodes)
      ensures id' == Inc32(id)
      ensures nodes == old(nodes)[node := Station(ExpandSpecs(specs, 0), id', name)]
      ensures edges == old(edges) && nextEdge == old(nextEdge)
    {
      var station;
      station, id' := NewStation(id, name, specs);
      node := nextNode;
      nodes := nodes[node := station];
      nextNode := nextNode + 1;
    }

    /** `add_route_to_graph`: one new edge `stationA -> stationB` whose route
        is `Route::new` on the counter with the given name unchanged; nothing
        else in the graph changes. petgraph panics when an endpoint is
        missing, hence the precondition. */
    method AddRoute(stationA: NodeIndex, stationB: NodeIndex, routeId: u32, name: string)
      returns (edge: EdgeIndex, routeId': u32)
      requires Valid()
      requires stationA in nodes && stationB in nodes
      modifies this
      ensures Valid()
      ensures edge !in old(edges) && edge == old(nextEdge) && nextEdge == old(nextEdge) + 1
      ensures routeId' == Inc32(routeId)
      ensures edges == old(edges)[edge := EdgeEntry(stationA, stationB, Route(routeId', name, 0, 0))]
      ensures nodes == old(nodes) && nextNode == old(nextNode)
    {
      var route;
      route, routeId' := NewRoute(routeId, name, 0, 0);
      edge := nextEdge;
      edges := edges[edge := EdgeEntry(stationA, stationB, route)];
      nextEdge := nextEdge + 1;
    }

    /** `edges_directed` paired with each route's name, as the two collection
        loops push them. */
    method EdgesDirected(node: NodeIndex, dir: Direction) returns (pairs: seq<NamedEdge>)
      ensures pairs == Adjacent(edges, node, dir, 0, nextEdge)
    {
      pairs := [];
      var k: nat := nextEdge;
      while k > 0
        invariant k <= nextEdge
        invariant pairs == Adjacent(edges, node, dir, k, nextEdge)
      {
        k := k - 1;
        if k in edges && Touches(edges[k], node, dir) {
          pairs := pairs + [NamedEdge(edges[k].weight.name, k)];
        }
      }
    }

    /** The bridging loop of `remove_station_from_graph`: for each group of
        exactly two edges, in group order, a new route of the group's name
        joins the far ends of the two edges, and the counter moves on by one;
        the nodes and every existing edge stay as they are. */
    method BridgePairs(node: NodeIndex, groups: seq<RouteGroup>, routeId: u32) returns (routeId': u32)
      requires Valid()
      requires GroupsIn(edges, groups)
      modifies this
      ensures Valid()
      ensures nodes == old(nodes)
      ensures routeId' == CounterAfter(groups, routeId)
      ensures edges == Extend(old(edges), Bridges(old(edges), node, groups, routeId), old(nextEdge))
    {
      ghost var e0 := edges;
      ghost var first := nextEdge;
      routeId' := routeId;
      var g := 0;
      while g < |groups|
        invariant g <= |groups|
        invariant Valid()
        invariant nodes == old(nodes)
        invariant routeId' == CounterAfter(groups[..g], routeId)
        invariant edges == Extend(e0, Bridges(e0, node, groups[..g], routeId), first)
        invariant nextEdge == first + |Bridges(e0, node, groups[..g], routeId)|
      {
        BridgesStep(e0, node, groups, g, routeId);
        ghost var added := Bridges(e0, node, groups[..g], routeId);
        var line := groups[g];
        if |line.edges| == 2 {
          ExtendAt(e0, added, first, line.edges[0]);
          ExtendAt(e0, added, first, line.edges[1]);
          var firstEdge := edges[line.edges[0]];
          var secondEdge := edges[line.edges[1]];
          var newEdge: (NodeIndex, NodeIndex);
          if firstEdge.source == node {
            newEdge := (secondEdge.source, firstEdge.target);
          } else {
            newEdge := (firstEdge.source, secondEdge.target);
          }
          assert newEdge == BridgeEnds(e0, node, line.edges);
          var _, next := AddRoute(newEdge.0, newEdge.1, routeId', line.name);
          routeId' := next;
          ghost var bridge := edges[first + |added|];
          ExtendSnoc(e0, added, bridge, first);
          assert added + [bridge] == Bridges(e0, node, groups[..g + 1], routeId);
        } else {
          assert added + [] == added;
        }
        g := g + 1;
      }
      assert groups[..g] == groups;
    }

    /** `remove_station_from_graph`. The edges at the node are collected
        (incoming first), grouped by route name, and each group of exactly two
        edges is bridged by a new route of that name; then the node goes, and
        with it every edge touching it, including any bridge that starts or
        ends at it. A missing node is reported as `RemovingStation` and
        nothing changes. */
    method RemoveStation(node: NodeIndex, routeId: u32) returns (r: Result<(), GraphError>, routeId': u32)
      requires Valid()
      modifies this
      ensures Valid()
      ensures r.Ok? <==> node in old(nodes)
      ensures r.Err? ==>
        && r.error == RemovingStation
        && nodes == old(nodes) && edges == old(edges) && routeId' == routeId
      ensures r.Ok? ==>
        && nodes == old(nodes) - {node}
        && routeId' == CounterAfter(GroupByName(Collected(old(edges), node, old(nextEdge))), routeId)
        && edges == EdgesAfterRemoval(old(edges), node, old(nextEdge), routeId)
    {
      var incoming := EdgesDirected(node, Incoming);
      var outgoing := EdgesDirected(node, Outgoing);
      var edgeNamesAndIndexes := incoming + outgoing;
      assert edgeNamesAndIndexes == Collected(edges, node, nextEdge);
      CollectedIn(edges, node, nextEdge);
      var relatedRoutes := GroupRoutes(edgeNamesAndIndexes);
      GroupByNameIn(edges, edgeNamesAndIndexes);

      ghost var e0 := edges;
      ghost var first := nextEdge;
      routeId' := BridgePairs(node, relatedRoutes, routeId);
      ghost var bridged := edges;
      var removed := RemoveNode(node);
      if removed {
        r := Ok(());
      } else {
        NothingAtMissingNode(e0, node, first);
        assert relatedRoutes == [];
        assert bridged == e0;
        r := Err(RemovingStation);
      }
    }

    /** petgraph's `remove_node`: when the node exists it goes, together with
        every edge that starts or ends at it; otherwise nothing changes. */
    method RemoveNode(node: NodeIndex) returns (removed: bool)
      requires Valid()
      modifies this
      ensures Valid()
      ensures removed <==> node in old(nodes)
      ensures removed ==> nodes == old(nodes) - {node} && edges == Detach(old(edges), node)
      ensures !removed ==> nodes == old(nodes) && edges == old(edges)
      ensures nextNode == old(nextNode) && nextEdge == old(nextEdge)
    {
      if node in nodes {
        nodes := nodes - {node};
        edges := Detach(edges, node);
        return true;
      }
      return false;
    }
  }

  /** The `adding_station` scenario: the node added for "Berlin" with one
      low-speed platform holds the station `Station::new` builds from a fresh
      counter. */
  method AddingStation() returns (stored: Station)
    ensures stored.name == "Berlin"
    ensures stored == Station([Platform(0, false, LowSpeed)], 1, "Berlin")
  {
    var graph := new RouteGraph();
    var node, _ := graph.AddStation(0, "Berlin", [PlatformSpec(1, LowSpeed)]);
    stored := graph.nodes[node];
  }

  /** The `adding_route_as_edge` scenario: two stations and then a route
      share one counter, so the route gets id 3, the same route
      `Route::new` builds from a counter at 2, and it keeps its name. */
  method AddingRouteAsEdge() returns (stored: Route)
    ensures stored.name == "NordStream"
    ensures stored == Route(Inc32(2), "NordStream", 0, 0) && stored.id == 3
  {
    var graph := new RouteGraph();
    var fakeId: u32 := 0;
    var a, b, e;
    a, fakeId := graph.AddStation(fakeId, "Berlin", [PlatformSpec(1, LowSpeed)]);
    b, fakeId := graph.AddStation(fakeId, "Moscow", [PlatformSpec(1, LowSpeed), PlatformSpec(1, HighSpeed)]);
    e, fakeId := graph.AddRoute(a, b, fakeId, "NordStream");
    stored := graph.edges[e].weight;
  }

  /** The edge map `remove_station_from_graph` leaves behind, with `hi` the
      next free edge handle: every bridge of a two-edge group added under a
      fresh handle, then every edge at `node` dropped. */
  ghost function EdgesAfterRemoval(edges: map<EdgeIndex, EdgeEntry>, node: NodeIndex, hi: nat, counter: u32): map<EdgeIndex, EdgeEntry>
  {
    var pairs := Collected(edges, node, hi);
    CollectedIn(edges, node, hi);
    GroupByNameIn(edges, pairs);
    Detach(Extend(edges, Bridges(edges, node, GroupByName(pairs), counter), hi), node)
  }

  /** After the removal no edge touches the station; every edge that did not
      touch it keeps its handle and route; every edge that did is gone; and
      the only new handles are the bridges, one per two-edge group at most. */
  lemma RemovalEffect(edges: map<EdgeIndex, EdgeEntry>, node: NodeIndex, hi: nat, counter: u32)
    requires forall e :: e in edges ==> e < hi
    ensures var after := EdgesAfterRemoval(edges, node, hi, counter);
      && (forall e :: e in after ==> after[e].source != node && after[e].target != node)
      && (forall e :: e in edges && edges[e].source != node && edges[e].target != node ==> e in after && after[e] == edges[e])
      && (forall e :: e in edges && (edges[e].source == node || edges[e].target == node) ==> e !in after)
      && (forall e :: e in after && e !in edges ==>
            hi <= e < hi + PairCount(GroupByName(Collected(edges, node, hi))))
  {
    var pairs := Collected(edges, node, hi);
    CollectedIn(edges, node, hi);
    GroupByNameIn(edges, pairs);
    var groups := GroupByName(pairs);
    var added := Bridges(edges, node, groups, counter);
    ExtendKeeps(edges, added, hi);
    BridgesPerPair(edges, node, groups, counter);
  }

  /** A line that runs `u -> station -> w` under one route name, with no
      other edge of that name at the station, still joins `u` to `w` under
      that name once the station is removed. */
  lemma ThroughLineSurvives(edges: map<EdgeIndex, EdgeEntry>, node: NodeIndex, hi: nat, counter: u32,
                            i: nat, into: EdgeIndex, outOf: EdgeIndex)
    requires forall e :: e in edges ==> e < hi
    requires into in edges && outOf in edges
    requires edges[into].target == node && edges[into].source != node
    requires edges[outOf].source == node && edges[outOf].target != node
    requires edges[into].weight.name == edges[outOf].weight.name
    requires var groups := GroupByName(Collected(edges, node, hi));
      i < |groups| && groups[i].name == edges[into].weight.name && |groups[i].edges| == 2
    ensures var after := EdgesAfterRemoval(edges, node, hi, counter);
      exists e :: e in after && after[e].source == edges[into].source && after[e].target == edges[outOf].target
        && after[e].weight.name == edges[into].weight.name
  {
    var pairs := Collected(edges, node, hi);
    CollectedIn(edges, node, hi);
    GroupByNameIn(edges, pairs);
    var groups := GroupByName(pairs);
    ThroughLineBridged(edges, node, hi, i, into, outOf);
    var added := Bridges(edges, node, groups, counter);
    var k := BridgesContain(edges, node, groups, counter, i);
    ExtendKeeps(edges, added, hi);
    var after := EdgesAfterRemoval(edges, node, hi, counter);
    assert hi + k in after;
  }

  /** No edge touches a node that is not in the graph, so nothing is listed
      there in either direction. */
  lemma {:induction false} NothingAdjacent(edges: map<EdgeIndex, EdgeEntry>, node: NodeIndex, dir: Direction, lo: nat, hi: nat)
    requires forall e :: e in edges ==> edges[e].source != node && edges[e].target != node
    ensures Adjacent(edges, node, dir, lo, hi) == []
    decreases hi - lo
  {
    if lo < hi {
      NothingAdjacent(edges, node, dir, lo + 1, hi);
    }
  }

  lemma NothingAtMissingNode(edges: map<EdgeIndex, EdgeEntry>, node: NodeIndex, hi: nat)
    requires forall e :: e in edges ==> edges[e].source != node && edges[e].target != node
    ensures Collected(edges, node, hi) == []
  {
    NothingAdjacent(edges, node, Incoming, 0, hi);
    NothingAdjacent(edges, node, Outgoing, 0, hi);
  }
}
