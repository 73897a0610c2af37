/** The route graph's handles and edge map (the petgraph `StableGraph` used by
    src/graph.rs), and the edge-map operations the graph functions perform:
    listing the edges at a node, adding new edges under fresh handles, and
    dropping a node's incident edges. */
module GraphEdges {
  import opened Routes

  /** Stable handles: a handle stays valid until its own node or edge is
      removed. */
  type NodeIndex = nat
  type EdgeIndex = nat

  /** A directed edge `source -> target` carrying a route. */
  datatype EdgeEntry = EdgeEntry(source: NodeIndex, target: NodeIndex, weight: Route)

  datatype Direction = Incoming | Outgoing

  /** The `(route name, edge handle)` pairs collected by the removal. */
  datatype NamedEdge = NamedEdge(name: string, edge: EdgeIndex)

  /** `entry` ends at `node` (incoming) or starts at it (outgoing). A
      self-loop at `node` is both. */
  predicate Touches(entry: EdgeEntry, node: NodeIndex, dir: Direction)
  {
    if dir == Incoming then entry.target == node else entry.source == node
  }

  /** The edges at `node` in direction `dir` among handles `lo` to `hi - 1`,
      each with its route name, newest (highest handle) first: petgraph puts
      a new edge at the head of each endpoint's adjacency list. */
  function Adjacent(edges: map<EdgeIndex, EdgeEntry>, node: NodeIndex, dir: Direction, lo: nat, hi: nat): seq<NamedEdge>
    decreases hi - lo
  {
    if lo >= hi then []
    else Adjacent(edges, node, dir, lo + 1, hi)
         + (if lo in edges && Touches(edges[lo], node, dir) then [NamedEdge(edges[lo].weight.name, lo)] else [])
  }

  /** An entry of `Adjacent` is exactly an edge in range at `node` in that
      direction, named by its route. */
  lemma {:induction false} AdjacentMembers(edges: map<EdgeIndex, EdgeEntry>, node: NodeIndex, dir: Direction, lo: nat, hi: nat)
    ensures forall ne :: ne in Adjacent(edges, node, dir, lo, hi) <==>
      lo <= ne.edge < hi && ne.edge in edges && Touches(edges[ne.edge], node, dir)
      && ne.name == edges[ne.edge].weight.name
    decreases hi - lo
  {
    if lo < hi {
      AdjacentMembers(edges, node, dir, lo + 1, hi);
    }
  }

  /** Handles in strictly decreasing order. */
  ghost predicate NewestFirst(a: seq<NamedEdge>)
  {
    forall i, j :: 0 <= i < j < |a| ==> a[i].edge > a[j].edge
  }

  /** `Adjacent` lists the newest edge first. */
  lemma {:induction false} AdjacentNewestFirst(edges: map<EdgeIndex, EdgeEntry>, node: NodeIndex, dir: Direction, lo: nat, hi: nat)
    ensures NewestFirst(Adjacent(edges, node, dir, lo, hi))
    decreases hi - lo
  {
    if lo < hi {
      AdjacentNewestFirst(edges, node, dir, lo + 1, hi);
      AdjacentMembers(edges, node, dir, lo + 1, hi);
      var rest := Adjacent(edges, node, dir, lo + 1, hi);
      var a := Adjacent(edges, node, dir, lo, hi);
      forall i, j | 0 <= i < j < |a| ensures a[i].edge > a[j].edge {
        if j < |rest| {
          assert a[i] == rest[i] && a[j] == rest[j];
          assert rest[i].edge > rest[j].edge;
        } else {
          assert a[j].edge == lo && a[i] == rest[i];
          assert rest[i] in rest;
          assert rest[i].edge >= lo + 1;
        }
      }
    }
  }

  /** Everything `remove_station_from_graph` collects at `node`: the incoming
      edges first, then the outgoing ones. */
  function Collected(edges: map<EdgeIndex, EdgeEntry>, node: NodeIndex, hi: nat): seq<NamedEdge>
  {
    Adjacent(edges, node, Incoming, 0, hi) + Adjacent(edges, node, Outgoing, 0, hi)
  }

  /** `edges` with `added[k]` stored under the fresh handle `first + k`. */
  function Extend(edges: map<EdgeIndex, EdgeEntry>, added: seq<EdgeEntry>, first: nat): map<EdgeIndex, EdgeEntry>
  {
    if added == [] then edges
    else Extend(edges, added[..|added| - 1], first)[first + |added| - 1 := added[|added| - 1]]
  }

  /** Extending below-`first` edges keeps every old edge as it was and adds
      exactly the new handles. */
  lemma {:induction false} ExtendKeeps(edges: map<EdgeIndex, EdgeEntry>, added: seq<EdgeEntry>, first: nat)
    requires forall e :: e in edges ==> e < first
    ensures var x := Extend(edges, added, first);
      && (forall e :: e in edges ==> e in x && x[e] == edges[e])
      && (forall e :: e in x <==> e in edges || first <= e < first + |added|)
      && (forall k :: 0 <= k < |added| ==> x[first + k] == added[k])
  {
    if added != [] {
      ExtendKeeps(edges, added[..|added| - 1], first);
    }
  }

  /** One more added edge lands under the next fresh handle. */
  lemma ExtendSnoc(edges: map<EdgeIndex, EdgeEntry>, added: seq<EdgeEntry>, x: EdgeEntry, first: nat)
    ensures Extend(edges, added + [x], first) == Extend(edges, added, first)[first + |added| := x]
  {
    assert (added + [x])[..|added|] == added;
  }

  /** An old edge below `first` survives any extension unchanged. */
  lemma {:induction false} ExtendAt(edges: map<EdgeIndex, EdgeEntry>, added: seq<EdgeEntry>, first: nat, e: EdgeIndex)
    requires e in edges && e < first
    ensures e in Extend(edges, added, first) && Extend(edges, added, first)[e] == edges[e]
  {
    if added != [] {
      ExtendAt(edges, added[..|added| - 1], first, e);
    }
  }

  /** `remove_node` on the edge map: every edge starting or ending at `node`
      is dropped, every other edge keeps its handle and payload. */
  function Detach(edges: map<EdgeIndex, EdgeEntry>, node: NodeIndex): (r: map<EdgeIndex, EdgeEntry>)
    ensures forall e :: e in r <==> e in edges && edges[e].source != node && edges[e].target != node
    ensures forall e :: e in r ==> r[e] == edges[e]
  {
    map e | e in edges && edges[e].source != node && edges[e].target != node :: edges[e]
  }
}
