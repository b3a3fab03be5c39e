/**
  The flow view end to end: build the graph for the selected integration,
  lay it out, fit the segment boxes and place them on screen.
 */
module Flow {
  import opened Js
  import opened Types
  import opened Geometry
  import opened GraphBuilder
  import opened Layout
  import opened SegmentBounds

  datatype Rendering = Rendering(nodes: seq<Node>, edges: seq<Edge>, groups: map<string, Group>, overlays: seq<Overlay>)

  /** The nodes of the integration after layout, in element order. */
  function Laid(integration: Integration, selectedId: Option<Scalar>, engine: Engine): (ns: seq<Node>)
    ensures var nodes := NodesOf(Elements(integration.segments), selectedId);
      && |ns| == |nodes|
      && forall k :: 0 <= k < |ns| ==> ns[k].id == nodes[k].id
  {
    var es := Elements(integration.segments);
    LayoutElements(NodesOf(es, selectedId), EdgesOf(es), DefaultDirection, engine).nodes
  }

  /** What the flow component shows for one integration, selection, layout
      library and viewport, with the segment boxes fitted by `policy`:
      `AsWritten` is the component as it is, `Corrected` the one whose
      boxes hold every node. */
  function Render(policy: Extents, integration: Integration, selectedId: Option<Scalar>, engine: Engine, vp: Viewport): (r: Rendering)
    ensures |r.nodes| == |Elements(integration.segments)|
    ensures |r.overlays| == |integration.segments|
    ensures r.groups.Keys == SegmentNames(integration.segments)
    ensures forall i :: 0 <= i < |integration.segments| ==> !r.overlays[i].Hidden?
  {
    GroupsKeys(integration.segments, selectedId);
    var laid := Laid(integration, selectedId, engine);
    var groups := FitGroups(policy, GroupsOf(integration.segments, selectedId), laid);
    Rendering(laid, EdgesOf(Elements(integration.segments)), groups, Overlays(integration.segments, groups, vp))
  }

  /** Where element j of segment i lands in the flattened element list. */
  function NodePosition(integration: Integration, i: nat, j: nat): nat
    requires i < |integration.segments|
  {
    |Elements(integration.segments[..i])| + j
  }

  /** The node built for element j of segment i sits at the element's
      position in the flattened element list and carries its id. */
  lemma NodeAtElement(integration: Integration, selectedId: Option<Scalar>, i: nat, j: nat)
    requires i < |integration.segments| && j < |integration.segments[i].elements|
    ensures NodePosition(integration, i, j) < |NodesOf(Elements(integration.segments), selectedId)|
    ensures NodesOf(Elements(integration.segments), selectedId)[NodePosition(integration, i, j)].id
            == ToStr(integration.segments[i].elements[j].id)
  {
    ElementPosition(integration.segments, i, j);
    NodesOfIndex(Elements(integration.segments), selectedId);
  }

  /** On the canvas, with the corrected extents: a laid-out node carrying
      the id of element j of segment i lies, with its full footprint,
      inside the fitted box of that segment. */
  lemma SegmentBoxHoldsNode(segs: seq<Segment>, selectedId: Option<Scalar>, laid: seq<Node>, i: nat, j: nat, p: nat)
    requires i < |segs| && j < |segs[i].elements|
    requires forall k :: i < k < |segs| ==> segs[k].segment != segs[i].segment
    requires p < |laid| && laid[p].id == ToStr(segs[i].elements[j].id)
    ensures var g := FitGroups(Corrected, GroupsOf(segs, selectedId), laid);
      var name, n := segs[i].segment, laid[p];
      && name in g && g[name].bounds.Finite()
      && g[name].bounds.minX.v <= n.position.x && n.position.x + SizeOf(n).width <= g[name].bounds.maxX.v
      && g[name].bounds.minY.v <= n.position.y && n.position.y + SizeOf(n).height <= g[name].bounds.maxY.v
  {
    var members := NodesOf(segs[i].elements, selectedId);
    GroupsLastWins(segs, selectedId, i);
    NodesOfIndex(segs[i].elements, selectedId);
    assert members[j].id == laid[p].id;
    assert IsMember(laid[p].id, members);
    CorrectedBoxContainsFootprints(laid, members);
    assert laid[p] in laid;
  }

  /** In the corrected component every element's layout footprint (the
      node at the size handed to the layout library) lies inside its own
      segment's background: the segment gets a placed box, and the
      footprint lies within that box on screen. This holds when no later
      segment has the same name, since a later namesake owns the box. */
  lemma {:induction false} ElementInsideItsSegment(integration: Integration, selectedId: Option<Scalar>, engine: Engine, vp: Viewport,
                                i: nat, j: nat)
    requires vp.zoom > 0.0
    requires i < |integration.segments| && j < |integration.segments[i].elements|
    requires forall k :: i < k < |integration.segments| ==> integration.segments[k].segment != integration.segments[i].segment
    ensures NodePosition(integration, i, j) < |Render(Corrected, integration, selectedId, engine, vp).nodes|
    ensures Render(Corrected, integration, selectedId, engine, vp).nodes[NodePosition(integration, i, j)].id
            == ToStr(integration.segments[i].elements[j].id)
    ensures DrawnInside(Render(Corrected, integration, selectedId, engine, vp).nodes[NodePosition(integration, i, j)],
                        Render(Corrected, integration, selectedId, engine, vp).overlays[i], vp)
  {
    LaidAtElement(integration, selectedId, engine, i, j);
    var laid := Laid(integration, selectedId, engine);
    DrawnInsideAt(integration.segments, selectedId, laid, vp, i, j, NodePosition(integration, i, j));
    RenderParts(Corrected, integration, selectedId, engine, vp, i);
  }

  /** After layout the element's node is still at its position and still
      carries the element's id. */
  lemma LaidAtElement(integration: Integration, selectedId: Option<Scalar>, engine: Engine, i: nat, j: nat)
    requires i < |integration.segments| && j < |integration.segments[i].elements|
    ensures NodePosition(integration, i, j) < |Laid(integration, selectedId, engine)|
    ensures Laid(integration, selectedId, engine)[NodePosition(integration, i, j)].id
            == ToStr(integration.segments[i].elements[j].id)
  {
    NodeAtElement(integration, selectedId, i, j);
  }

  /** How the rendering is assembled: the laid-out nodes, and for segment
      i the overlay of its fitted box. */
  lemma RenderParts(policy: Extents, integration: Integration, selectedId: Option<Scalar>, engine: Engine, vp: Viewport, i: nat)
    requires i < |integration.segments|
    ensures Render(policy, integration, selectedId, engine, vp).nodes == Laid(integration, selectedId, engine)
    ensures Render(policy, integration, selectedId, engine, vp).overlays[i] ==
      OverlayOf(FitGroups(policy, GroupsOf(integration.segments, selectedId), Laid(integration, selectedId, engine)),
                integration.segments[i].segment, vp)
  {
  }

  /** The layout footprint of the element's laid-out node lies inside the
      background of its segment, for any layout that keeps the node ids. */
  lemma DrawnInsideAt(segs: seq<Segment>, selectedId: Option<Scalar>, laid: seq<Node>, vp: Viewport, i: nat, j: nat, p: nat)
    requires vp.zoom > 0.0
    requires i < |segs| && j < |segs[i].elements|
    requires forall k :: i < k < |segs| ==> segs[k].segment != segs[i].segment
    requires p < |laid| && laid[p].id == ToStr(segs[i].elements[j].id)
    ensures DrawnInside(laid[p], OverlayOf(FitGroups(Corrected, GroupsOf(segs, selectedId), laid), segs[i].segment, vp), vp)
  {
    SegmentBoxHoldsNode(segs, selectedId, laid, i, j, p);
    PlacedAroundFootprint(FitGroups(Corrected, GroupsOf(segs, selectedId), laid), segs[i].segment, vp, laid[p]);
  }

  /** The node's layout footprint, at the size handed to the layout
      library, lies within a placed segment background on screen. The
      size the node is rendered at is set by its markup and is not part of
      this predicate. */
  predicate DrawnInside(n: Node, o: Overlay, vp: Viewport)
  {
    && o.Placed?
    && o.left <= ScreenX(vp, n.position.x)
    && ScreenX(vp, n.position.x + SizeOf(n).width) <= o.left + o.width
    && o.top <= ScreenY(vp, n.position.y)
    && ScreenY(vp, n.position.y + SizeOf(n).height) <= o.top + o.height
  }

  /** A node whose footprint lies inside a finite segment box is drawn
      inside that segment's background at any positive zoom. */
  lemma PlacedAroundFootprint(groups: map<string, Group>, name: string, vp: Viewport, n: Node)
    requires vp.zoom > 0.0
    requires name in groups && groups[name].bounds.Finite()
    requires var b := groups[name].bounds;
      && b.minX.v <= n.position.x && n.position.x + SizeOf(n).width <= b.maxX.v
      && b.minY.v <= n.position.y && n.position.y + SizeOf(n).height <= b.maxY.v
    ensures DrawnInside(n, OverlayOf(groups, name, vp), vp)
  {
    assert SizeOf(n).width > 0.0 && SizeOf(n).height > 0.0;
    ScreenContainment(groups, name, vp, n.position.x, n.position.y);
    ScreenContainment(groups, name, vp, n.position.x + SizeOf(n).width, n.position.y + SizeOf(n).height);
  }

  /** A segment without elements (and no later segment of the same name)
      gets no placed box: no node is its member, so its box keeps the
      infinite sentinel. */
  lemma EmptySegmentNotPlaced(policy: Extents, integration: Integration, selectedId: Option<Scalar>, engine: Engine, vp: Viewport, i: nat)
    requires i < |integration.segments| && integration.segments[i].elements == []
    requires forall k :: i < k < |integration.segments| ==> integration.segments[k].segment != integration.segments[i].segment
    ensures Render(policy, integration, selectedId, engine, vp).overlays[i].Degenerate?
  {
    var segs := integration.segments;
    GroupsLastWins(segs, selectedId, i);
    var es := Elements(segs);
    var laid := LayoutElements(NodesOf(es, selectedId), EdgesOf(es), DefaultDirection, engine).nodes;
    NoMemberKeepsSentinel(policy, laid, []);
  }

  /** An integration of one segment holding one element: its one
      laid-out node is that element's node, and the segment's overlay is
      the fitted box of that node. */
  lemma LoneElementParts(policy: Extents, e: Element, engine: Engine, vp: Viewport)
    ensures var integration := Integration("i", "", [Segment("Source", [e])]);
      var laid := Laid(integration, None, engine);
      && |laid| == 1 && laid[0].id == ToStr(e.id)
      && laid[0].kind == NodeOf(e, None).kind && laid[0].elementType == e.elementType
      && IsMember(laid[0].id, NodesOf([e], None))
      && Render(policy, integration, None, engine, vp).nodes == laid
      && Render(policy, integration, None, engine, vp).overlays[0] ==
         OverlayOf(FitGroups(policy, GroupsOf(integration.segments, None), laid), "Source", vp)
      && "Source" in FitGroups(policy, GroupsOf(integration.segments, None), laid)
      && FitGroups(policy, GroupsOf(integration.segments, None), laid)["Source"].bounds ==
         Accumulate(policy, Sentinel, laid, NodesOf([e], None))
  {
    var integration := Integration("i", "", [Segment("Source", [e])]);
    var segs := integration.segments;
    assert segs[..0] == [];
    assert Elements(segs) == [e];
    NodesOfIndex([e], None);
    GroupsLastWins(segs, None, 0);
    RenderParts(policy, integration, None, engine, vp, 0);
  }

  /** As written, the layout footprint of a Kafka element alone in its
      segment reaches past the right side of that segment's background,
      whatever the layout library does and at any positive zoom: the box
      reaches 230 right of the node's left edge, the footprint 240. */
  lemma KafkaDrawnOutsideAsWritten(e: Element, engine: Engine, vp: Viewport)
    requires vp.zoom > 0.0
    requires e.elementType.Some? && ToLower(e.elementType.value) == "kafka"
    ensures var r := Render(AsWritten, Integration("i", "", [Segment("Source", [e])]), None, engine, vp);
      && |r.nodes| == 1 && |r.overlays| == 1 && r.overlays[0].Placed?
      && r.overlays[0].left + r.overlays[0].width < ScreenX(vp, r.nodes[0].position.x + SizeOf(r.nodes[0]).width)
      && !DrawnInside(r.nodes[0], r.overlays[0], vp)
  {
    var integration := Integration("i", "", [Segment("Source", [e])]);
    LoneElementParts(AsWritten, e, engine, vp);
    var laid := Laid(integration, None, engine);
    var g := FitGroups(AsWritten, GroupsOf(integration.segments, None), laid);
    var r := Render(AsWritten, integration, None, engine, vp);
    assert r.nodes == laid && r.overlays[0] == OverlayOf(g, "Source", vp);
    assert !IsContainer(e);
    LoneKafkaBoxShort(laid, NodesOf([e], None));
    OverhangNotInside(g, "Source", vp, laid[0]);
  }

  /** As written, the box of a segment whose one member is a Kafka node
      stops short of that node's right edge. */
  lemma LoneKafkaBoxShort(laid: seq<Node>, members: seq<Node>)
    requires |laid| == 1 && laid[0].kind.Custom? && IsKafka(laid[0]) && IsMember(laid[0].id, members)
    ensures var b := Accumulate(AsWritten, Sentinel, laid, members);
      b.Finite() && b.maxX.v < laid[0].position.x + SizeOf(laid[0]).width
  {
    LoneSimpleBoxAsWritten(laid, members);
    assert SizeOf(laid[0]).width == 240.0;
  }

  /** A node reaching past the right side of a finite segment box is not
      drawn inside that segment's background, at any positive zoom. */
  lemma OverhangNotInside(groups: map<string, Group>, name: string, vp: Viewport, n: Node)
    requires vp.zoom > 0.0
    requires name in groups && groups[name].bounds.Finite()
    requires groups[name].bounds.maxX.v < n.position.x + SizeOf(n).width
    ensures var o := OverlayOf(groups, name, vp);
      && o.Placed?
      && o.left + o.width < ScreenX(vp, n.position.x + SizeOf(n).width)
      && !DrawnInside(n, o, vp)
  {
    ScreenStrict(vp, groups[name].bounds.maxX.v, n.position.x + SizeOf(n).width);
  }

  /** The viewport transform keeps strict order at positive zoom. */
  lemma ScreenStrict(vp: Viewport, a: real, b: real)
    requires a < b && vp.zoom > 0.0
    ensures ScreenX(vp, a) < ScreenX(vp, b)
  {
    ScaleStrict(a, b, vp.zoom);
  }

  lemma ScaleStrict(a: real, b: real, z: real)
    requires a < b && z > 0.0
    ensures a * z < b * z
  {
    assert (b - a) * z > 0.0;
  }
}
