/**
  The layout step: the node size policy, the graph handed to the layered
  layout library, and the conversion of the library's node centres into
  top-left positions. The library itself is the `engine` parameter: any
  function from the graph it is given and a node id to that node's centre.
 */
module Layout {
  import opened Js
  import opened Geometry
  import opened GraphBuilder

  datatype Size = Size(width: real, height: real)

  /** The graph-level options passed to the library. */
  datatype LayoutConfig = LayoutConfig(rankdir: string, nodesep: real, ranksep: real,
                                       edgesep: real, marginx: real, marginy: real)

  function ConfigFor(direction: string): LayoutConfig
  {
    LayoutConfig(direction, 100.0, 125.0, 40.0, 25.0, 25.0)
  }

  /** The direction used for the top-level flow. */
  const DefaultDirection := "LR"

  /** What the library sees: the options, one size per node id (a later
      node with the same id overwrites an earlier one) and the edges as
      (source, target) pairs. */
  datatype LayoutGraph = LayoutGraph(config: LayoutConfig, sizes: map<string, Size>, edges: seq<(string, string)>)

  /** The layout library, left uninterpreted: the centre it assigns to a
      node id in a given graph. */
  type Engine = (LayoutGraph, string) -> Point

  /** `node.data?.type?.toLowerCase() === 'kafka'` */
  predicate IsKafka(n: Node)
  {
    n.elementType.Some? && ToLower(n.elementType.value) == "kafka"
  }

  /** The size policy: containers 350 x 250, Kafka nodes 240 x 90, every
      other node 180 x 90. */
  function SizeOf(n: Node): Size
  {
    match n.kind
    case K8s(_) => Size(350.0, 250.0)
    case Custom => if IsKafka(n) then Size(240.0, 90.0) else Size(180.0, 90.0)
  }

  /** The size depends on nothing but the node variant and the
      lower-cased element type: two nodes that agree on those get the same
      size, whatever their ids, captions, services or positions. */
  lemma SizeDeterminedByKindAndType(a: Node, b: Node)
    requires a.kind.K8s? == b.kind.K8s?
    requires a.elementType.Some? == b.elementType.Some?
    requires a.elementType.Some? ==> ToLower(a.elementType.value) == ToLower(b.elementType.value)
    ensures SizeOf(a) == SizeOf(b)
  {
  }

  /** Containers are the largest nodes in both dimensions, Kafka nodes are
      wider than the other simple nodes, and every size is one of the
      three the policy names. */
  lemma SizeOrdering(n: Node, m: Node)
    requires n.kind.K8s? && m.kind.Custom?
    ensures SizeOf(n) == Size(350.0, 250.0)
    ensures SizeOf(m).width < SizeOf(n).width && SizeOf(m).height < SizeOf(n).height
    ensures IsKafka(m) ==> SizeOf(m) == Size(240.0, 90.0)
    ensures !IsKafka(m) ==> SizeOf(m) == Size(180.0, 90.0)
  {
  }

  /** The Kafka test ignores letter case: a simple node gets the Kafka
      size exactly when its type, in whatever letter case, spells
      `kafka`. */
  lemma KafkaIgnoresCase(n: Node)
    requires n.kind.Custom?
    ensures SizeOf(n) == Size(240.0, 90.0) <==> n.elementType.Some? && ToLower(n.elementType.value) == "kafka"
  {
  }

  /** The size table built by `setNode`, one call per node in order. */
  function SizeTable(nodes: seq<Node>): (t: map<string, Size>)
    ensures forall i :: 0 <= i < |nodes| ==> nodes[i].id in t
    decreases |nodes|
  {
    if nodes == [] then map[]
    else
      var last := nodes[|nodes| - 1];
      SizeTable(nodes[..|nodes| - 1])[last.id := SizeOf(last)]
  }

  /** The table holds, for each id, the size of the LAST node with it. */
  lemma {:induction false} SizeTableLastWins(nodes: seq<Node>, i: nat)
    requires i < |nodes|
    requires forall j :: i < j < |nodes| ==> nodes[j].id != nodes[i].id
    ensures SizeTable(nodes)[nodes[i].id] == SizeOf(nodes[i])
    decreases |nodes|
  {
    var n := |nodes|;
    if i < n - 1 {
      var front := nodes[..n - 1];
      assert front[i] == nodes[i];
      forall j | i < j < |front|
        ensures front[j].id != front[i].id
      {
        assert front[j] == nodes[j];
      }
      SizeTableLastWins(front, i);
    }
  }

  /** The table has an entry for exactly the ids of the nodes. */
  lemma {:induction false} SizeTableKeys(nodes: seq<Node>)
    ensures SizeTable(nodes).Keys == set i | 0 <= i < |nodes| :: nodes[i].id
    decreases |nodes|
  {
    if nodes != [] {
      var n := |nodes|;
      var front := nodes[..n - 1];
      SizeTableKeys(front);
      forall id | id in SizeTable(nodes)
        ensures exists i :: 0 <= i < n && nodes[i].id == id
      {
        if id != nodes[n - 1].id {
          var i :| 0 <= i < n - 1 && front[i].id == id;
          assert nodes[i] == front[i];
        }
      }
    }
  }

  /** Two node lists that agree on ids and on every node's size build the
      same table. */
  lemma {:induction false} SizeTableCongruent(a: seq<Node>, b: seq<Node>)
    requires |a| == |b|
    requires forall i :: 0 <= i < |a| ==> a[i].id == b[i].id && SizeOf(a[i]) == SizeOf(b[i])
    ensures SizeTable(a) == SizeTable(b)
    decreases |a|
  {
    if a != [] {
      SizeTableCongruent(a[..|a| - 1], b[..|b| - 1]);
    }
  }

  function EdgePairs(edges: seq<Edge>): seq<(string, string)>
  {
    seq(|edges|, i requires 0 <= i < |edges| => (edges[i].source, edges[i].target))
  }

  function GraphFor(nodes: seq<Node>, edges: seq<Edge>, direction: string): LayoutGraph
  {
    LayoutGraph(ConfigFor(direction), SizeTable(nodes), EdgePairs(edges))
  }

  /** Moves a node so that the box of the given size is centred on `c`. */
  function Centred(n: Node, c: Point, s: Size): Node
  {
    n.(position := Point(c.x - s.width / 2.0, c.y - s.height / 2.0))
  }

  datatype Layouted = Layouted(nodes: seq<Node>, edges: seq<Edge>)

  /** `getLayoutedElements`: lay out, then turn each centre into the
      top-left corner of the node's box, using the size the library holds
      for that id. */
  function LayoutElements(nodes: seq<Node>, edges: seq<Edge>, direction: string, engine: Engine): (r: Layouted)
    ensures |r.nodes| == |nodes| && r.edges == edges
    ensures forall i :: 0 <= i < |nodes| ==>
      && r.nodes[i].id == nodes[i].id && r.nodes[i].kind == nodes[i].kind
      && r.nodes[i].caption == nodes[i].caption && r.nodes[i].elementType == nodes[i].elementType
    ensures forall i :: 0 <= i < |nodes| ==>
      var c, s := engine(GraphFor(nodes, edges, direction), nodes[i].id), SizeTable(nodes)[nodes[i].id];
      r.nodes[i].position == Point(c.x - s.width / 2.0, c.y - s.height / 2.0)
  {
    var g := GraphFor(nodes, edges, direction);
    var placed := seq(|nodes|, i requires 0 <= i < |nodes| => Centred(nodes[i], engine(g, nodes[i].id), g.sizes[nodes[i].id]));
    assert forall i :: 0 <= i < |nodes| ==> placed[i] == Centred(nodes[i], engine(g, nodes[i].id), g.sizes[nodes[i].id]);
    Layouted(placed, edges)
  }

  /** With distinct ids each node's box, sized by the policy, is centred on
      the centre the library chose for it. */
  lemma LaidOutBoxCentred(nodes: seq<Node>, edges: seq<Edge>, direction: string, engine: Engine, i: nat)
    requires i < |nodes|
    requires forall j :: 0 <= j < |nodes| && j != i ==> nodes[j].id != nodes[i].id
    ensures var p := LayoutElements(nodes, edges, direction, engine).nodes[i].position;
            var c := engine(GraphFor(nodes, edges, direction), nodes[i].id);
            && p.x + SizeOf(nodes[i]).width / 2.0 == c.x
            && p.y + SizeOf(nodes[i]).height / 2.0 == c.y
  {
    SizeTableLastWins(nodes, i);
  }

  /** Nodes sharing an id are placed at the same spot, whatever their own
      sizes: the library keeps one entry per id. */
  lemma SharedIdSharesPosition(nodes: seq<Node>, edges: seq<Edge>, direction: string, engine: Engine, i: nat, j: nat)
    requires i < |nodes| && j < |nodes| && nodes[i].id == nodes[j].id
    ensures LayoutElements(nodes, edges, direction, engine).nodes[i].position ==
            LayoutElements(nodes, edges, direction, engine).nodes[j].position
  {
    var g := GraphFor(nodes, edges, direction);
    var r := LayoutElements(nodes, edges, direction, engine);
    assert r.nodes[i] == Centred(nodes[i], engine(g, nodes[i].id), g.sizes[nodes[i].id]);
    assert r.nodes[j] == Centred(nodes[j], engine(g, nodes[j].id), g.sizes[nodes[j].id]);
  }

  /** Laying out an already laid-out graph changes nothing: positions are
      recomputed from scratch and the library sees the same graph. */
  lemma LayoutIdempotent(nodes: seq<Node>, edges: seq<Edge>, direction: string, engine: Engine)
    ensures var r := LayoutElements(nodes, edges, direction, engine);
            LayoutElements(r.nodes, edges, direction, engine) == r
  {
    var r := LayoutElements(nodes, edges, direction, engine);
    SizeTableCongruent(nodes, r.nodes);
    assert GraphFor(r.nodes, edges, direction) == GraphFor(nodes, edges, direction);
    var g := GraphFor(nodes, edges, direction);
    var r2 := LayoutElements(r.nodes, edges, direction, engine);
    forall i | 0 <= i < |nodes|
      ensures r2.nodes[i] == r.nodes[i]
    {
      var c, sz := engine(g, nodes[i].id), g.sizes[nodes[i].id];
      assert r.nodes[i] == Centred(nodes[i], c, sz);
      assert r2.nodes[i] == Centred(r.nodes[i], c, sz);
    }
    assert r2.nodes == r.nodes;
  }
}
