/** How `remove_station_from_graph` (src/graph.rs) re-stitches lines through a
    removed station: the collected `(name, edge)` pairs are grouped by their
    full route name in order of first occurrence, and every group of exactly
    two edges is bridged by one new edge with that name. */
module Restitching {
  import opened Ids
  import opened Results
  import opened Routes
  import opened GraphEdges

  /** One entry of `related_routes`: a route name and its edges in the order
      they were collected. */
  datatype RouteGroup = RouteGroup(name: string, edges: seq<EdgeIndex>)

  /** Index of the first group named `name` (`iter_mut().find`). */
  function FindGroup(groups: seq<RouteGroup>, name: string): (r: Option<nat>)
    ensures r.None? ==> forall j :: 0 <= j < |groups| ==> groups[j].name != name
    ensures r.Some? ==> r.value < |groups| && groups[r.value].name == name
                        && forall j :: 0 <= j < r.value ==> groups[j].name != name
  {
    if groups == [] then None
    else if groups[0].name == name then Some(0)
    else match FindGroup(groups[1..], name)
      case None => None
      case Some(i) => Some(i + 1)
  }

  /** One step of the grouping loop: push onto the group with that name, or
      open a new group at the end. */
  function AddToGroups(groups: seq<RouteGroup>, ne: NamedEdge): seq<RouteGroup>
  {
    match FindGroup(groups, ne.name)
    case Some(i) => groups[i := RouteGroup(ne.name, groups[i].edges + [ne.edge])]
    case None => groups + [RouteGroup(ne.name, [ne.edge])]
  }

  /** `related_routes` after the grouping loop over `pairs`. */
  function GroupByName(pairs: seq<NamedEdge>): seq<RouteGroup>
  {
    if pairs == [] then []
    else AddToGroups(GroupByName(pairs[..|pairs| - 1]), pairs[|pairs| - 1])
  }

  // Reference definitions the grouping is checked against.

  /** The edges of the pairs named `name`, in order. */
  function EdgesNamed(pairs: seq<NamedEdge>, name: string): seq<EdgeIndex>
  {
    if pairs == [] then []
    else EdgesNamed(pairs[..|pairs| - 1], name)
         + (if pairs[|pairs| - 1].name == name then [pairs[|pairs| - 1].edge] else [])
  }

  function Names(pairs: seq<NamedEdge>): (r: seq<string>)
    ensures |r| == |pairs| && forall k :: 0 <= k < |pairs| ==> r[k] == pairs[k].name
  {
    if pairs == [] then [] else Names(pairs[..|pairs| - 1]) + [pairs[|pairs| - 1].name]
  }

  function GroupNames(groups: seq<RouteGroup>): (r: seq<string>)
    ensures |r| == |groups| && forall k :: 0 <= k < |groups| ==> r[k] == groups[k].name
  {
    if groups == [] then [] else GroupNames(groups[..|groups| - 1]) + [groups[|groups| - 1].name]
  }

  /** `names` with every repetition of an earlier name dropped. */
  function FirstOccurrences(names: seq<string>): (r: seq<string>)
    ensures forall x :: x in r <==> x in names
    ensures forall i, j :: 0 <= i < j < |r| ==> r[i] != r[j]
  {
    if names == [] then []
    else
      var d := FirstOccurrences(names[..|names| - 1]);
      if names[|names| - 1] in d then d else d + [names[|names| - 1]]
  }

  lemma {:induction false} EdgesNamedAbsent(pairs: seq<NamedEdge>, name: string)
    requires name !in Names(pairs)
    ensures EdgesNamed(pairs, name) == []
  {
    if pairs != [] {
      var prefix := pairs[..|pairs| - 1];
      assert Names(pairs) == Names(prefix) + [pairs[|pairs| - 1].name];
      EdgesNamedAbsent(prefix, name);
    }
  }

  /** `groups` partitions `pairs` by name: one group per distinct name, in
      order of first occurrence, each holding exactly the edges of that name
      in collection order. */
  ghost predicate Partitions(pairs: seq<NamedEdge>, groups: seq<RouteGroup>)
  {
    && GroupNames(groups) == FirstOccurrences(Names(pairs))
    && forall i :: 0 <= i < |groups| ==> groups[i].edges == EdgesNamed(pairs, groups[i].name)
  }

  /** A pair whose name already has a group extends that group. */
  lemma GroupStepFound(prefix: seq<NamedEdge>, p: NamedEdge, before: seq<RouteGroup>, i: nat)
    requires Partitions(prefix, before)
    requires FindGroup(before, p.name) == Some(i)
    ensures Partitions(prefix + [p], before[i := RouteGroup(p.name, before[i].edges + [p.edge])])
  {
  }

  /** A pair with a new name opens a group at the end. */
  lemma GroupStepNew(prefix: seq<NamedEdge>, p: NamedEdge, before: seq<RouteGroup>)
    requires Partitions(prefix, before)
    requires FindGroup(before, p.name) == None
    ensures Partitions(prefix + [p], before + [RouteGroup(p.name, [p.edge])])
  {
    var pairs := prefix + [p];
    var after := before + [RouteGroup(p.name, [p.edge])];
    assert pairs[..|pairs| - 1] == prefix;
    assert Names(pairs) == Names(prefix) + [p.name];
    assert Names(pairs)[..|Names(pairs)| - 1] == Names(prefix);
    assert p.name !in GroupNames(before);
    assert GroupNames(after) == GroupNames(before) + [p.name];
    assert p.name !in Names(prefix);
    EdgesNamedAbsent(prefix, p.name);
  }

  /** The grouping loop partitions the collected pairs by name. */
  lemma {:induction false} GroupByNameCorrect(pairs: seq<NamedEdge>)
    ensures var groups := GroupByName(pairs);
      && GroupNames(groups) == FirstOccurrences(Names(pairs))
      && forall i :: 0 <= i < |groups| ==> groups[i].edges == EdgesNamed(pairs, groups[i].name)
  {
    if pairs != [] {
      var prefix := pairs[..|pairs| - 1];
      var p := pairs[|pairs| - 1];
      GroupByNameCorrect(prefix);
      var before := GroupByName(prefix);
      assert pairs == prefix + [p];
      match FindGroup(before, p.name)
      case Some(i) => GroupStepFound(prefix, p, before, i);
      case None => GroupStepNew(prefix, p, before);
    }
  }

  /** Group names are pairwise distinct. */
  lemma GroupNamesDistinct(pairs: seq<NamedEdge>)
    ensures var groups := GroupByName(pairs);
      forall i, j :: 0 <= i < j < |groups| ==> groups[i].name != groups[j].name
  {
  }

  /** Filtering distributes over the incoming-then-outgoing concatenation. */
  lemma {:induction false} EdgesNamedAppend(a: seq<NamedEdge>, b: seq<NamedEdge>, name: string)
    ensures EdgesNamed(a + b, name) == EdgesNamed(a, name) + EdgesNamed(b, name)
  {
    if b == [] {
      assert a + b == a;
    } else {
      var b' := b[..|b| - 1];
      assert (a + b)[..|a + b| - 1] == a + b';
      EdgesNamedAppend(a, b', name);
    }
  }

  lemma {:induction false} EdgesNamedMembers(pairs: seq<NamedEdge>, name: string)
    ensures forall e :: e in EdgesNamed(pairs, name) <==> NamedEdge(name, e) in pairs
  {
    if pairs != [] {
      var prefix := pairs[..|pairs| - 1];
      EdgesNamedMembers(prefix, name);
      assert pairs == prefix + [pairs[|pairs| - 1]];
    }
  }

  /** Every edge of a group is an edge of the map the pairs came from. */
  ghost predicate GroupsIn(edges: map<EdgeIndex, EdgeEntry>, groups: seq<RouteGroup>)
  {
    forall i, k :: 0 <= i < |groups| && 0 <= k < |groups[i].edges| ==> groups[i].edges[k] in edges
  }

  lemma {:induction false} GroupByNameIn(edges: map<EdgeIndex, EdgeEntry>, pairs: seq<NamedEdge>)
    requires forall k :: 0 <= k < |pairs| ==> pairs[k].edge in edges
    ensures GroupsIn(edges, GroupByName(pairs))
  {
    if pairs != [] {
      GroupByNameIn(edges, pairs[..|pairs| - 1]);
    }
  }

  /** Collected pairs name existing edges. */
  lemma CollectedIn(edges: map<EdgeIndex, EdgeEntry>, node: NodeIndex, hi: nat)
    ensures forall k :: 0 <= k < |Collected(edges, node, hi)| ==> Collected(edges, node, hi)[k].edge in edges
  {
    var c := Collected(edges, node, hi);
    AdjacentMembers(edges, node, Incoming, 0, hi);
    AdjacentMembers(edges, node, Outgoing, 0, hi);
    forall k | 0 <= k < |c| ensures c[k].edge in edges {
      assert c[k] in c;
    }
  }

  /** Number of groups of exactly two edges. */
  function PairCount(groups: seq<RouteGroup>): nat
  {
    if groups == [] then 0
    else PairCount(groups[..|groups| - 1]) + (if |groups[|groups| - 1].edges| == 2 then 1 else 0)
  }

  /** The route counter after the bridging loop: each two-edge group's
      `add_route_to_graph` bumps it once through `Route::new`. */
  function CounterAfter(groups: seq<RouteGroup>, counter: u32): u32
  {
    if groups == [] then counter
    else
      var c := CounterAfter(groups[..|groups| - 1], counter);
      if |groups[|groups| - 1].edges| == 2 then Inc32(c) else c
  }

  /** The counter advances by exactly the number of two-edge groups (modulo
      the `u32` width), and by nothing for groups of any other size. */
  lemma {:induction false} CounterAdvancesPerPair(groups: seq<RouteGroup>, counter: u32)
    ensures CounterAfter(groups, counter) == (counter + PairCount(groups)) % 0x1_0000_0000
  {
    if groups != [] {
      CounterAdvancesPerPair(groups[..|groups| - 1], counter);
    }
  }

  /** Endpoints of the bridge for a two-edge group: when the first edge starts
      at the removed node, from the second edge's source to the first edge's
      target; otherwise from the first edge's source to the second edge's
      target. */
  function BridgeEnds(edges: map<EdgeIndex, EdgeEntry>, node: NodeIndex, pair: seq<EdgeIndex>): (NodeIndex, NodeIndex)
    requires |pair| == 2 && pair[0] in edges && pair[1] in edges
  {
    var first := edges[pair[0]];
    var second := edges[pair[1]];
    if first.source == node then (second.source, first.target) else (first.source, second.target)
  }

  /** The edges the bridging loop adds, in order. A bridge's route is what
      `add_route_to_graph` builds: `Route::new` on the current counter with the
      group's name (the two-argument call leaves the station fields at 0). */
  function Bridges(edges: map<EdgeIndex, EdgeEntry>, node: NodeIndex, groups: seq<RouteGroup>, counter: u32): seq<EdgeEntry>
    requires GroupsIn(edges, groups)
  {
    if groups == [] then []
    else
      var prev := groups[..|groups| - 1];
      var g := groups[|groups| - 1];
      Bridges(edges, node, prev, counter)
      + if |g.edges| == 2 then
          var ends := BridgeEnds(edges, node, g.edges);
          [EdgeEntry(ends.0, ends.1, Route(Inc32(CounterAfter(prev, counter)), g.name, 0, 0))]
        else []
  }

  /** Taking one more group into the bridging loop appends at most that
      group's bridge and bumps the counter for it. */
  lemma BridgesStep(edges: map<EdgeIndex, EdgeEntry>, node: NodeIndex, groups: seq<RouteGroup>, g: nat, counter: u32)
    requires GroupsIn(edges, groups) && g < |groups|
    ensures GroupsIn(edges, groups[..g]) && GroupsIn(edges, groups[..g + 1])
    ensures CounterAfter(groups[..g + 1], counter) ==
      if |groups[g].edges| == 2 then Inc32(CounterAfter(groups[..g], counter)) else CounterAfter(groups[..g], counter)
    ensures Bridges(edges, node, groups[..g + 1], counter) == Bridges(edges, node, groups[..g], counter)
      + if |groups[g].edges| == 2 then
          var ends := BridgeEnds(edges, node, groups[g].edges);
          [EdgeEntry(ends.0, ends.1, Route(Inc32(CounterAfter(groups[..g], counter)), groups[g].name, 0, 0))]
        else []
  {
    assert groups[..g + 1][..g] == groups[..g];
    assert groups[..g + 1][g] == groups[g];
  }

  /** One bridge per two-edge group, none for any other group. */
  lemma {:induction false} BridgesPerPair(edges: map<EdgeIndex, EdgeEntry>, node: NodeIndex, groups: seq<RouteGroup>, counter: u32)
    requires GroupsIn(edges, groups)
    ensures |Bridges(edges, node, groups, counter)| == PairCount(groups)
  {
    if groups != [] {
      var prev := groups[..|groups| - 1];
      assert GroupsIn(edges, prev);
      BridgesPerPair(edges, node, prev, counter);
    }
  }

  /** Every two-edge group gets its bridge: the bridge at position `k` runs
      between the group's computed ends and carries the group's name. */
  lemma {:induction false} BridgesContain(edges: map<EdgeIndex, EdgeEntry>, node: NodeIndex, groups: seq<RouteGroup>, counter: u32, i: nat)
    returns (k: nat)
    requires GroupsIn(edges, groups) && i < |groups| && |groups[i].edges| == 2
    ensures k < |Bridges(edges, node, groups, counter)|
    ensures var b := Bridges(edges, node, groups, counter)[k];
      && (b.source, b.target) == BridgeEnds(edges, node, groups[i].edges)
      && b.weight.name == groups[i].name
  {
    var prev := groups[..|groups| - 1];
    assert GroupsIn(edges, prev);
    if i == |groups| - 1 {
      k := |Bridges(edges, node, prev, counter)|;
    } else {
      assert prev[i] == groups[i];
      k := BridgesContain(edges, node, prev, counter, i);
    }
  }

  /** An edge in range is among the `name` edges listed at `node` in
      direction `dir` exactly when it touches `node` that way and carries
      that name. */
  lemma AdjacentNamed(edges: map<EdgeIndex, EdgeEntry>, node: NodeIndex, dir: Direction, hi: nat, e: EdgeIndex, name: string)
    requires e in edges && e < hi
    ensures e in EdgesNamed(Adjacent(edges, node, dir, 0, hi), name) <==>
      Touches(edges[e], node, dir) && edges[e].weight.name == name
  {
    AdjacentMembers(edges, node, dir, 0, hi);
    EdgesNamedMembers(Adjacent(edges, node, dir, 0, hi), name);
  }

  lemma SplitOfTwo(a: seq<EdgeIndex>, b: seq<EdgeIndex>, x: EdgeIndex, y: EdgeIndex)
    requires |a + b| == 2 && x in a && y in b
    ensures a == [x] && b == [y]
  {
    assert |a| >= 1 && |b| >= 1;
  }

  /** A line passing through the removed station, entering on edge `into`
      (`u -> node`) and leaving on edge `outOf` (`node -> w`), with no other
      edge of that route name at the station, is bridged `u -> w`: the
      incoming edge is collected first, so the bridge runs from its source to
      the outgoing edge's target. */
  lemma ThroughLineBridged(edges: map<EdgeIndex, EdgeEntry>, node: NodeIndex, hi: nat, i: nat, into: EdgeIndex, outOf: EdgeIndex)
    requires into in edges && outOf in edges && into < hi && outOf < hi
    requires edges[into].target == node && edges[into].source != node
    requires edges[outOf].source == node && edges[outOf].target != node
    requires edges[into].weight.name == edges[outOf].weight.name
    requires var groups := GroupByName(Collected(edges, node, hi));
      i < |groups| && groups[i].name == edges[into].weight.name && |groups[i].edges| == 2
    ensures var groups := GroupByName(Collected(edges, node, hi));
      && groups[i].edges == [into, outOf]
      && BridgeEnds(edges, node, [into, outOf]) == (edges[into].source, edges[outOf].target)
  {
    var name := edges[into].weight.name;
    var ins := Adjacent(edges, node, Incoming, 0, hi);
    var outs := Adjacent(edges, node, Outgoing, 0, hi);
    var groups := GroupByName(Collected(edges, node, hi));
    GroupByNameCorrect(Collected(edges, node, hi));
    EdgesNamedAppend(ins, outs, name);
    var a := EdgesNamed(ins, name);
    var b := EdgesNamed(outs, name);
    assert groups[i].edges == a + b;
    AdjacentNamed(edges, node, Incoming, hi, into, name);
    AdjacentNamed(edges, node, Incoming, hi, outOf, name);
    AdjacentNamed(edges, node, Outgoing, hi, into, name);
    AdjacentNamed(edges, node, Outgoing, hi, outOf, name);
    assert into in a && outOf !in a;
    assert outOf in b && into !in b;
    SplitOfTwo(a, b, into, outOf);
  }

  /** Two edges of one name that both enter the removed station get a bridge
      that ends at the station itself, so the station's removal drops it. */
  lemma BothIncomingBridgeTouchesNode(edges: map<EdgeIndex, EdgeEntry>, node: NodeIndex, pair: seq<EdgeIndex>)
    requires |pair| == 2 && pair[0] in edges && pair[1] in edges
    requires edges[pair[0]].target == node && edges[pair[1]].target == node
    ensures BridgeEnds(edges, node, pair).0 == node || BridgeEnds(edges, node, pair).1 == node
  {
  }

  /** Two edges of one name that both leave the removed station get a bridge
      that starts at the station itself, so the station's removal drops it. */
  lemma BothOutgoingBridgeTouchesNode(edges: map<EdgeIndex, EdgeEntry>, node: NodeIndex, pair: seq<EdgeIndex>)
    requires |pair| == 2 && pair[0] in edges && pair[1] in edges
    requires edges[pair[0]].source == node && edges[pair[1]].source == node
    ensures BridgeEnds(edges, node, pair).0 == node
  {
  }

  /** The grouping loop of `remove_station_from_graph`: for each pair, find
      the group with that name and push the edge, or open a new group. */
  method GroupRoutes(pairs: seq<NamedEdge>) returns (groups: seq<RouteGroup>)
    ensures groups == GroupByName(pairs)
  {
    groups := [];
    var k := 0;
    while k < |pairs|
      invariant k <= |pairs|
      invariant groups == GroupByName(pairs[..k])
    {
      var ne := pairs[k];
      var j := 0;
      while j < |groups| && groups[j].name != ne.name
        invariant j <= |groups|
        invariant forall m :: 0 <= m < j ==> groups[m].name != ne.name
      {
        j := j + 1;
      }
      if j < |groups| {
        groups := groups[j := RouteGroup(ne.name, groups[j].edges + [ne.edge])];
      } else {
        groups := groups + [RouteGroup(ne.name, [ne.edge])];
      }
      assert pairs[..k + 1][..k] == pairs[..k];
      k := k + 1;
    }
    assert pairs[..k] == pairs;
  }
}
