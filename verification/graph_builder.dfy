/**
  The graph builder: flattens Integration -> Segment -> Element (-> Service)
  into the node list, the edge list and the per-segment membership index
  that the layout and the segment boxes consume.
 */
module GraphBuilder {
  import opened Js
  import opened Types
  import opened Geometry

  /** One nested service as the container node shows it. */
  datatype ServiceView = ServiceView(id: Scalar, caption: Option<string>, serviceType: Option<string>, selected: bool)

  /** The node variant: a `k8s` container embedding its services, or the
      generic `custom` node. */
  datatype NodeKind = K8s(services: seq<ServiceView>) | Custom

  datatype Node = Node(id: string, kind: NodeKind, caption: Option<string>, elementType: Option<string>, position: Point)

  datatype Edge = Edge(id: string, source: string, target: string)

  /** A segment's entry in the membership index: its box (initially the
      sentinel) and the nodes built from its elements. */
  datatype Group = Group(bounds: Bounds, members: seq<Node>)

  datatype Graph = Graph(nodes: seq<Node>, edges: seq<Edge>, groups: map<string, Group>)

  const Origin := Point(0.0, 0.0)

  /** An element becomes a container node when its type is exactly `k8s`
      and it has a `services` list (an empty list counts: `[]` is truthy). */
  predicate IsContainer(e: Element)
  {
    e.elementType == Some("k8s") && e.services.Some?
  }

  /** An element emits an edge when its `next` is truthy. */
  predicate HasNext(e: Element)
  {
    OptTruthy(e.next)
  }

  function ServiceViewOf(s: Service, selectedId: Option<Scalar>): ServiceView
  {
    ServiceView(s.id, s.service, s.service, selectedId == Some(s.id))
  }

  /** The node built for one element. */
  function NodeOf(e: Element, selectedId: Option<Scalar>): (n: Node)
    ensures n.id == ToStr(e.id)
    ensures n.kind.K8s? <==> IsContainer(e)
    ensures n.caption == OrElse(e.name, e.elementType) && n.elementType == e.elementType
    ensures n.position == Origin
  {
    var caption := OrElse(e.name, e.elementType);
    if IsContainer(e) then
      var ss := e.services.value;
      Node(ToStr(e.id), K8s(seq(|ss|, i requires 0 <= i < |ss| => ServiceViewOf(ss[i], selectedId))),
           caption, e.elementType, Origin)
    else
      Node(ToStr(e.id), Custom, caption, e.elementType, Origin)
  }

  /** A container node lists the element's services in order, one view
      per service, labelled and typed by the service's `service` name and
      marked selected exactly when its id is strictly equal to the
      selected id. */
  lemma ContainerServices(e: Element, selectedId: Option<Scalar>)
    requires IsContainer(e)
    ensures var n := NodeOf(e, selectedId);
      && |n.kind.services| == |e.services.value|
      && forall i :: 0 <= i < |n.kind.services| ==>
           var s, v := e.services.value[i], n.kind.services[i];
           && v.id == s.id
           && v.caption == s.service && v.serviceType == s.service
           && (v.selected <==> selectedId == Some(s.id))
  {
  }

  /** The nodes for a run of elements, one per element. */
  function NodesOf(es: seq<Element>, selectedId: Option<Scalar>): (ns: seq<Node>)
    ensures |ns| == |es|
    decreases |es|
  {
    if es == [] then [] else NodesOf(es[..|es| - 1], selectedId) + [NodeOf(es[|es| - 1], selectedId)]
  }

  /** Node `i` is the node of element `i`. */
  lemma {:induction false} NodesOfIndex(es: seq<Element>, selectedId: Option<Scalar>)
    ensures forall i :: 0 <= i < |es| ==> NodesOf(es, selectedId)[i] == NodeOf(es[i], selectedId)
    decreases |es|
  {
    if es != [] {
      NodesOfIndex(es[..|es| - 1], selectedId);
    }
  }

  /** The nodes of a concatenation are the nodes of its parts. */
  lemma {:induction false} NodesOfAppend(a: seq<Element>, b: seq<Element>, selectedId: Option<Scalar>)
    ensures NodesOf(a + b, selectedId) == NodesOf(a, selectedId) + NodesOf(b, selectedId)
    decreases |b|
  {
    if b == [] {
      assert a + b == a;
    } else {
      var front := b[..|b| - 1];
      assert (a + b)[..|a + b| - 1] == a + front;
      NodesOfAppend(a, front, selectedId);
    }
  }

  /** Appending one element appends its node. */
  lemma NodesOfAppendOne(es: seq<Element>, e: Element, selectedId: Option<Scalar>)
    ensures NodesOf(es + [e], selectedId) == NodesOf(es, selectedId) + [NodeOf(e, selectedId)]
  {
    assert (es + [e])[..|es|] == es;
  }

  /** Appending one element appends its edge when `next` is truthy. */
  lemma EdgesOfAppendOne(es: seq<Element>, e: Element)
    ensures EdgesOf(es + [e]) ==
      if HasNext(e) then EdgesOf(es) + [Edge(EdgeId(|EdgesOf(es)| + 1), ToStr(e.id), ToStr(e.next.value))]
      else EdgesOf(es)
  {
    assert (es + [e])[..|es|] == es;
  }

  /** All elements of all segments, segment by segment. */
  function Elements(segs: seq<Segment>): seq<Element>
    decreases |segs|
  {
    if segs == [] then [] else Elements(segs[..|segs| - 1]) + segs[|segs| - 1].elements
  }

  function EdgeId(k: nat): string
  {
    "e" + NatToDecimal(k)
  }

  /** The edge list, emitted in element order with a running counter
      starting at 1. */
  function EdgesOf(es: seq<Element>): seq<Edge>
    decreases |es|
  {
    if es == [] then []
    else
      var prev := EdgesOf(es[..|es| - 1]);
      var e := es[|es| - 1];
      if HasNext(e) then prev + [Edge(EdgeId(|prev| + 1), ToStr(e.id), ToStr(e.next.value))] else prev
  }

  /** The membership index: one group per segment name, a later segment
      with the same name replacing the earlier one. */
  function GroupsOf(segs: seq<Segment>, selectedId: Option<Scalar>): map<string, Group>
    decreases |segs|
  {
    if segs == [] then map[]
    else
      var last := segs[|segs| - 1];
      GroupsOf(segs[..|segs| - 1], selectedId)[last.segment := Group(Sentinel, NodesOf(last.elements, selectedId))]
  }

  /** The `forEach` callback for one element: make its node (pushed onto
      the node list and the segment's member list by the caller), then,
      when `next` is truthy, push an edge numbered by the running counter. */
  method EmitElement(element: Element, selectedId: Option<Scalar>,
                     ghost done: seq<Element>, edges0: seq<Edge>, nodeId0: nat)
    returns (node: Node, edges: seq<Edge>, nodeId: nat)
    requires edges0 == EdgesOf(done) && nodeId0 == |edges0| + 1
    ensures node == NodeOf(element, selectedId)
    ensures edges == EdgesOf(done + [element]) && nodeId == |edges| + 1
  {
    EdgesOfAppendOne(done, element);
    node := NodeOf(element, selectedId);
    edges, nodeId := edges0, nodeId0;
    if HasNext(element) {
      edges := edges + [Edge(EdgeId(nodeId), ToStr(element.id), ToStr(element.next.value))];
      nodeId := nodeId + 1;
    }
  }

  /** One segment's `elements.forEach`. */
  method EmitSegment(elements: seq<Element>, selectedId: Option<Scalar>,
                     ghost before: seq<Element>, nodes0: seq<Node>, edges0: seq<Edge>, nodeId0: nat)
    returns (nodes: seq<Node>, edges: seq<Edge>, nodeId: nat, segmentNodes: seq<Node>)
    requires nodes0 == NodesOf(before, selectedId)
    requires edges0 == EdgesOf(before) && nodeId0 == |edges0| + 1
    ensures nodes == NodesOf(before + elements, selectedId)
    ensures edges == EdgesOf(before + elements) && nodeId == |edges| + 1
    ensures segmentNodes == NodesOf(elements, selectedId)
  {
    edges, nodeId, segmentNodes := edges0, nodeId0, [];
    var i := 0;
    assert before + elements[..0] == before;
    while i < |elements|
      invariant i <= |elements|
      invariant segmentNodes == NodesOf(elements[..i], selectedId)
      invariant edges == EdgesOf(before + elements[..i]) && nodeId == |edges| + 1
    {
      var node;
      node, edges, nodeId := EmitElement(elements[i], selectedId, before + elements[..i], edges, nodeId);
      PrefixStep(elements, i, before, selectedId);
      segmentNodes := segmentNodes + [node];
      i := i + 1;
    }
    PrefixWhole(elements, before, selectedId);
    nodes := nodes0 + segmentNodes;
  }

  /** Extending the processed prefix by one element. */
  lemma PrefixStep(elements: seq<Element>, i: nat, before: seq<Element>, selectedId: Option<Scalar>)
    requires i < |elements|
    ensures NodesOf(elements[..i + 1], selectedId) == NodesOf(elements[..i], selectedId) + [NodeOf(elements[i], selectedId)]
    ensures before + elements[..i + 1] == (before + elements[..i]) + [elements[i]]
  {
    assert elements[..i + 1] == elements[..i] + [elements[i]];
    NodesOfAppendOne(elements[..i], elements[i], selectedId);
  }

  /** The whole segment processed. */
  lemma PrefixWhole(elements: seq<Element>, before: seq<Element>, selectedId: Option<Scalar>)
    ensures elements[..|elements|] == elements
    ensures NodesOf(before + elements, selectedId) == NodesOf(before, selectedId) + NodesOf(elements, selectedId)
  {
    assert elements[..|elements|] == elements;
    NodesOfAppend(before, elements, selectedId);
  }

  /** The build memo: `integration.segments.forEach`, recording each
      segment's group under its name. */
  method Build(integration: Integration, selectedId: Option<Scalar>) returns (g: Graph)
    ensures g.nodes == NodesOf(Elements(integration.segments), selectedId)
    ensures g.edges == EdgesOf(Elements(integration.segments))
    ensures g.groups == GroupsOf(integration.segments, selectedId)
  {
    var segs := integration.segments;
    var nodes: seq<Node> := [];
    var edges: seq<Edge> := [];
    var nodeId: nat := 1;
    var groups: map<string, Group> := map[];
    var i := 0;
    while i < |segs|
      invariant 0 <= i <= |segs|
      invariant nodes == NodesOf(Elements(segs[..i]), selectedId)
      invariant edges == EdgesOf(Elements(segs[..i]))
      invariant nodeId == |edges| + 1
      invariant groups == GroupsOf(segs[..i], selectedId)
    {
      var segmentNodes;
      nodes, edges, nodeId, segmentNodes := EmitSegment(segs[i].elements, selectedId, Elements(segs[..i]), nodes, edges, nodeId);
      assert segs[..i + 1][..i] == segs[..i];
      assert Elements(segs[..i + 1]) == Elements(segs[..i]) + segs[i].elements;
      assert GroupsOf(segs[..i + 1], selectedId) == GroupsOf(segs[..i], selectedId)[segs[i].segment := Group(Sentinel, segmentNodes)];
      groups := groups[segs[i].segment := Group(Sentinel, segmentNodes)];
      i := i + 1;
    }
    assert segs[..i] == segs;
    g := Graph(nodes, edges, groups);
  }

  // ---------------------------------------------------------------------
  // Properties of the build

  /** Elements of the first `k` segments come first, in order. */
  lemma {:induction false} ElementsPrefix(segs: seq<Segment>, k: nat)
    requires k <= |segs|
    ensures |Elements(segs[..k])| <= |Elements(segs)|
    ensures Elements(segs[..k]) == Elements(segs)[..|Elements(segs[..k])|]
    decreases |segs| - k
  {
    if k < |segs| {
      ElementsPrefix(segs, k + 1);
      assert segs[..k + 1][..k] == segs[..k];
    } else {
      assert segs[..k] == segs;
    }
  }

  /** Segment-then-element order: element `j` of segment `i` sits at
      offset (elements of earlier segments) + `j` of the flattened list,
      so its node is at that index of the node list. */
  lemma ElementPosition(segs: seq<Segment>, i: nat, j: nat)
    requires i < |segs| && j < |segs[i].elements|
    ensures |Elements(segs[..i])| + j < |Elements(segs)|
    ensures Elements(segs)[|Elements(segs[..i])| + j] == segs[i].elements[j]
  {
    ElementsPrefix(segs, i + 1);
    assert segs[..i + 1][..i] == segs[..i];
    assert Elements(segs[..i + 1]) == Elements(segs[..i]) + segs[i].elements;
  }

  /** The number of nodes is the total number of elements. */
  function ElementCount(segs: seq<Segment>): nat
    decreases |segs|
  {
    if segs == [] then 0 else ElementCount(segs[1..]) + |segs[0].elements|
  }

  lemma {:induction false} ElementsCount(segs: seq<Segment>)
    ensures |Elements(segs)| == ElementCount(segs)
    decreases |segs|
  {
    if segs != [] {
      var n := |segs|;
      ElementsCount(segs[..n - 1]);
      ElementCountSplit(segs);
    }
  }

  lemma {:induction false} ElementCountSplit(segs: seq<Segment>)
    requires segs != []
    ensures ElementCount(segs) == ElementCount(segs[..|segs| - 1]) + |segs[|segs| - 1].elements|
    decreases |segs|
  {
    if |segs| > 1 {
      ElementCountSplit(segs[1..]);
      assert segs[1..][..|segs| - 2] == segs[..|segs| - 1][1..];
    } else {
      assert segs[..0] == [];
    }
  }

  /** The elements that emit an edge, in order: those whose `next` is
      truthy. */
  function Linked(es: seq<Element>): (r: seq<Element>)
    ensures forall k :: 0 <= k < |r| ==> HasNext(r[k]) && r[k] in es
    ensures |r| <= |es|
    decreases |es|
  {
    if es == [] then []
    else
      var prev := Linked(es[..|es| - 1]);
      if HasNext(es[|es| - 1]) then prev + [es[|es| - 1]] else prev
  }

  /** Edge `k` (0-based) comes from the `k`-th element with a truthy
      `next`: id `e<k+1>`, source `String(id)`, target `String(next)`. */
  lemma {:induction false} EdgesFollowLinked(es: seq<Element>)
    ensures |EdgesOf(es)| == |Linked(es)|
    ensures forall k :: 0 <= k < |Linked(es)| ==>
      EdgesOf(es)[k] == Edge(EdgeId(k + 1), ToStr(Linked(es)[k].id), ToStr(Linked(es)[k].next.value))
    decreases |es|
  {
    if es != [] {
      var front, e := es[..|es| - 1], es[|es| - 1];
      EdgesFollowLinked(front);
      if HasNext(e) {
        assert Linked(es) == Linked(front) + [e];
        assert EdgesOf(es) == EdgesOf(front) + [Edge(EdgeId(|EdgesOf(front)| + 1), ToStr(e.id), ToStr(e.next.value))];
      } else {
        assert Linked(es) == Linked(front) && EdgesOf(es) == EdgesOf(front);
      }
    }
  }

  /** An element with `next` absent, `0` or `''` adds no edge; any other
      `next` adds exactly one. */
  lemma EdgeCountStep(es: seq<Element>, e: Element)
    ensures |EdgesOf(es + [e])| == |EdgesOf(es)| + (if HasNext(e) then 1 else 0)
  {
    assert (es + [e])[..|es|] == es;
  }

  /** Edge ids are pairwise distinct. */
  lemma EdgeIdsDistinct(es: seq<Element>)
    ensures forall k, l :: 0 <= k < l < |EdgesOf(es)| ==> EdgesOf(es)[k].id != EdgesOf(es)[l].id
  {
    EdgesFollowLinked(es);
    forall k, l | 0 <= k < l < |EdgesOf(es)|
      ensures EdgesOf(es)[k].id != EdgesOf(es)[l].id
    {
      if EdgesOf(es)[k].id == EdgesOf(es)[l].id {
        assert EdgeId(k + 1)[1..] == NatToDecimal(k + 1);
        assert EdgeId(l + 1)[1..] == NatToDecimal(l + 1);
        DecimalInjective(k + 1, l + 1);
      }
    }
  }

  /** Every edge leaves a node that the build emitted. */
  lemma EdgeSourcesAreNodes(es: seq<Element>, selectedId: Option<Scalar>, k: nat)
    requires k < |EdgesOf(es)|
    ensures exists i :: 0 <= i < |es| && NodesOf(es, selectedId)[i].id == EdgesOf(es)[k].source
  {
    EdgesFollowLinked(es);
    var e := Linked(es)[k];
    var i :| 0 <= i < |es| && es[i] == e;
    NodesOfIndex(es, selectedId);
    assert NodesOf(es, selectedId)[i].id == ToStr(e.id);
  }

  /** The target of an edge is not resolved against the node ids: an
      element whose `next` names no node built so far, not even itself,
      still gets its edge, to that missing id. */
  lemma DanglingTargetKept(es: seq<Element>, e: Element, selectedId: Option<Scalar>)
    requires HasNext(e)
    requires forall i :: 0 <= i < |es| ==> NodesOf(es, selectedId)[i].id != ToStr(e.next.value)
    requires ToStr(e.id) != ToStr(e.next.value)
    ensures |EdgesOf(es + [e])| == |EdgesOf(es)| + 1
    ensures EdgesOf(es + [e])[|EdgesOf(es)|] == Edge(EdgeId(|EdgesOf(es)| + 1), ToStr(e.id), ToStr(e.next.value))
    ensures forall n :: n in NodesOf(es + [e], selectedId) ==> n.id != EdgesOf(es + [e])[|EdgesOf(es)|].target
  {
    EdgesOfAppendOne(es, e);
    NodesOfAppendOne(es, e, selectedId);
    var ns := NodesOf(es, selectedId);
    forall n | n in NodesOf(es + [e], selectedId)
      ensures n.id != ToStr(e.next.value)
    {
      if n in ns {
        var i :| 0 <= i < |ns| && ns[i] == n;
      }
    }
  }

  function SegmentNames(segs: seq<Segment>): set<string>
  {
    set i | 0 <= i < |segs| :: segs[i].segment
  }

  /** The membership index has exactly one entry per segment name. */
  lemma {:induction false} GroupsKeys(segs: seq<Segment>, selectedId: Option<Scalar>)
    ensures GroupsOf(segs, selectedId).Keys == SegmentNames(segs)
    decreases |segs|
  {
    if segs != [] {
      var n := |segs|;
      GroupsKeys(segs[..n - 1], selectedId);
      assert SegmentNames(segs) == SegmentNames(segs[..n - 1]) + {segs[n - 1].segment} by {
        forall name | name in SegmentNames(segs)
          ensures name in SegmentNames(segs[..n - 1]) + {segs[n - 1].segment}
        {
          var i :| 0 <= i < n && segs[i].segment == name;
          if i < n - 1 {
            assert segs[..n - 1][i].segment == name;
          }
        }
      }
    }
  }

  /** A segment name's entry holds the nodes of the LAST segment carrying
      that name, with the sentinel box. */
  lemma {:induction false} GroupsLastWins(segs: seq<Segment>, selectedId: Option<Scalar>, i: nat)
    requires i < |segs|
    requires forall j :: i < j < |segs| ==> segs[j].segment != segs[i].segment
    ensures segs[i].segment in GroupsOf(segs, selectedId)
    ensures GroupsOf(segs, selectedId)[segs[i].segment] == Group(Sentinel, NodesOf(segs[i].elements, selectedId))
    decreases |segs|
  {
    var n := |segs|;
    if i < n - 1 {
      var front := segs[..n - 1];
      assert front[i] == segs[i];
      forall j | i < j < |front|
        ensures front[j].segment != front[i].segment
      {
        assert front[j] == segs[j];
      }
      GroupsLastWins(front, selectedId, i);
    }
  }

  /** Every nested service of every node is marked selected exactly when
      its id is strictly equal to the selected id. */
  lemma SelectionMarksExactMatches(es: seq<Element>, selectedId: Option<Scalar>, i: nat, j: nat)
    requires i < |es| && IsContainer(es[i]) && j < |es[i].services.value|
    ensures NodesOf(es, selectedId)[i].kind.K8s?
    ensures j < |NodesOf(es, selectedId)[i].kind.services|
    ensures NodesOf(es, selectedId)[i].kind.services[j].selected <==> selectedId == Some(es[i].services.value[j].id)
  {
    NodesOfIndex(es, selectedId);
    ContainerServices(es[i], selectedId);
  }
}
