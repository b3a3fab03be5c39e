/**
  The post-layout pass that gives every segment a box around its member
  nodes (members are matched by node id), and the on-screen placement of
  those boxes and their labels.

  The right and bottom sides come from a fixed per-variant extent. As
  written, a simple node's box reaches 230 to the right of its left edge,
  which is less than a Kafka node's width of 240; `Extents` selects between
  that and the corrected extent (width + margin) that the rest of the model
  uses.
 */
module SegmentBounds {
  import opened Js
  import opened Types
  import opened Geometry
  import opened GraphBuilder
  import opened Layout

  /** Space kept left of and above every member. */
  const Margin := 50.0

  datatype Extents = AsWritten | Corrected

  /** How far right of a node's left edge the segment box must reach. */
  function RightExtent(policy: Extents, n: Node): real
  {
    if n.kind.K8s? then 350.0
    else
      match policy
      case AsWritten => 230.0
      case Corrected => SizeOf(n).width + Margin
  }

  /** How far below a node's top edge the segment box must reach. */
  function BottomExtent(n: Node): real
  {
    if n.kind.K8s? then 250.0 else 130.0
  }

  function LeftOf(n: Node): real { n.position.x - Margin }
  function TopOf(n: Node): real { n.position.y - Margin }
  function RightOf(policy: Extents, n: Node): real { n.position.x + RightExtent(policy, n) }
  function BottomOf(n: Node): real { n.position.y + BottomExtent(n) }

  /** `members.find(m => m.id === id)` succeeds. */
  predicate IsMember(id: string, members: seq<Node>)
  {
    exists k :: 0 <= k < |members| && members[k].id == id
  }

  /** One node's update of a box. */
  function Step(policy: Extents, b: Bounds, n: Node): Bounds
  {
    Bounds(Min(b.minX, Fin(LeftOf(n))), Max(b.maxX, Fin(RightOf(policy, n))),
           Min(b.minY, Fin(TopOf(n))), Max(b.maxY, Fin(BottomOf(n))))
  }

  /** The box after visiting the laid-out nodes in order, updating it for
      each node whose id is among the members. */
  function Accumulate(policy: Extents, b: Bounds, laid: seq<Node>, members: seq<Node>): Bounds
    decreases |laid|
  {
    if laid == [] then b
    else
      var prev := Accumulate(policy, b, laid[..|laid| - 1], members);
      var n := laid[|laid| - 1];
      if IsMember(n.id, members) then Step(policy, prev, n) else prev
  }

  // ---------------------------------------------------------------------
  // Running minimum and maximum over a node sequence

  /** The laid-out nodes that belong to the segment, in order. */
  function Members(laid: seq<Node>, members: seq<Node>): (r: seq<Node>)
    decreases |laid|
  {
    if laid == [] then []
    else
      var prev := Members(laid[..|laid| - 1], members);
      if IsMember(laid[|laid| - 1].id, members) then prev + [laid[|laid| - 1]] else prev
  }

  lemma {:induction false} MembersContent(laid: seq<Node>, members: seq<Node>)
    ensures forall n :: n in Members(laid, members) <==> n in laid && IsMember(n.id, members)
    decreases |laid|
  {
    if laid != [] {
      MembersContent(laid[..|laid| - 1], members);
      assert laid == laid[..|laid| - 1] + [laid[|laid| - 1]];
    }
  }

  function MinOver(b: XReal, ns: seq<Node>, f: Node -> real): XReal
    decreases |ns|
  {
    if ns == [] then b else Min(MinOver(b, ns[..|ns| - 1], f), Fin(f(ns[|ns| - 1])))
  }

  function MaxOver(b: XReal, ns: seq<Node>, f: Node -> real): XReal
    decreases |ns|
  {
    if ns == [] then b else Max(MaxOver(b, ns[..|ns| - 1], f), Fin(f(ns[|ns| - 1])))
  }

  /** The running minimum is below the start and every value, and is the
      start or one of the values. */
  lemma {:induction false} MinOverSpec(b: XReal, ns: seq<Node>, f: Node -> real)
    ensures Le(MinOver(b, ns, f), b)
    ensures forall n :: n in ns ==> Le(MinOver(b, ns, f), Fin(f(n)))
    ensures MinOver(b, ns, f) == b || exists n :: n in ns && MinOver(b, ns, f) == Fin(f(n))
    decreases |ns|
  {
    if ns != [] {
      var front, last := ns[..|ns| - 1], ns[|ns| - 1];
      MinOverSpec(b, front, f);
      var r0, r := MinOver(b, front, f), MinOver(b, ns, f);
      LeTransitive(r, r0, b);
      forall n | n in ns
        ensures Le(r, Fin(f(n)))
      {
        if n in front {
          LeTransitive(r, r0, Fin(f(n)));
        } else {
          assert ns == front + [last];
        }
      }
    }
  }

  /** The running maximum is above the start and every value, and is the
      start or one of the values. */
  lemma {:induction false} MaxOverSpec(b: XReal, ns: seq<Node>, f: Node -> real)
    ensures Le(b, MaxOver(b, ns, f))
    ensures forall n :: n in ns ==> Le(Fin(f(n)), MaxOver(b, ns, f))
    ensures MaxOver(b, ns, f) == b || exists n :: n in ns && MaxOver(b, ns, f) == Fin(f(n))
    decreases |ns|
  {
    if ns != [] {
      var front, last := ns[..|ns| - 1], ns[|ns| - 1];
      MaxOverSpec(b, front, f);
      var r0, r := MaxOver(b, front, f), MaxOver(b, ns, f);
      LeTransitive(b, r0, r);
      forall n | n in ns
        ensures Le(Fin(f(n)), r)
      {
        if n in front {
          LeTransitive(Fin(f(n)), r0, r);
        } else {
          assert ns == front + [last];
        }
      }
    }
  }

  /** The running minimum depends only on which nodes are visited, not on
      their order or repetitions. */
  lemma MinOverSetDetermined(b: XReal, ns1: seq<Node>, ns2: seq<Node>, f: Node -> real)
    requires forall n :: n in ns1 <==> n in ns2
    ensures MinOver(b, ns1, f) == MinOver(b, ns2, f)
  {
    MinOverSpec(b, ns1, f);
    MinOverSpec(b, ns2, f);
    var r1, r2 := MinOver(b, ns1, f), MinOver(b, ns2, f);
    if r2 != b {
      var n :| n in ns2 && r2 == Fin(f(n));
      assert Le(r1, r2);
    }
    if r1 != b {
      var n :| n in ns1 && r1 == Fin(f(n));
      assert Le(r2, r1);
    }
    LeAntisymmetric(r1, r2);
  }

  lemma MaxOverSetDetermined(b: XReal, ns1: seq<Node>, ns2: seq<Node>, f: Node -> real)
    requires forall n :: n in ns1 <==> n in ns2
    ensures MaxOver(b, ns1, f) == MaxOver(b, ns2, f)
  {
    MaxOverSpec(b, ns1, f);
    MaxOverSpec(b, ns2, f);
    var r1, r2 := MaxOver(b, ns1, f), MaxOver(b, ns2, f);
    if r2 != b {
      var n :| n in ns2 && r2 == Fin(f(n));
      assert Le(r2, r1);
    }
    if r1 != b {
      var n :| n in ns1 && r1 == Fin(f(n));
      assert Le(r1, r2);
    }
    LeAntisymmetric(r1, r2);
  }

  lemma MinOverIdempotent(b: XReal, ns: seq<Node>, f: Node -> real)
    ensures MinOver(MinOver(b, ns, f), ns, f) == MinOver(b, ns, f)
  {
    var r := MinOver(b, ns, f);
    MinOverSpec(b, ns, f);
    MinOverSpec(r, ns, f);
  }

  lemma MaxOverIdempotent(b: XReal, ns: seq<Node>, f: Node -> real)
    ensures MaxOver(MaxOver(b, ns, f), ns, f) == MaxOver(b, ns, f)
  {
    var r := MaxOver(b, ns, f);
    MaxOverSpec(b, ns, f);
    MaxOverSpec(r, ns, f);
  }

  /** From `Infinity`, the running minimum over a non-empty list is finite,
      below every value and equal to one of them. */
  lemma MinFromSentinel(ns: seq<Node>, f: Node -> real)
    requires ns != []
    ensures MinOver(PosInf, ns, f).Fin?
    ensures forall n :: n in ns ==> MinOver(PosInf, ns, f).v <= f(n)
    ensures exists n :: n in ns && MinOver(PosInf, ns, f) == Fin(f(n))
  {
    MinOverSpec(PosInf, ns, f);
    assert Le(MinOver(PosInf, ns, f), Fin(f(ns[0])));
  }

  /** From `-Infinity`, the running maximum over a non-empty list is
      finite, above every value and equal to one of them. */
  lemma MaxFromSentinel(ns: seq<Node>, f: Node -> real)
    requires ns != []
    ensures MaxOver(NegInf, ns, f).Fin?
    ensures forall n :: n in ns ==> f(n) <= MaxOver(NegInf, ns, f).v
    ensures exists n :: n in ns && MaxOver(NegInf, ns, f) == Fin(f(n))
  {
    MaxOverSpec(NegInf, ns, f);
    assert Le(Fin(f(ns[0])), MaxOver(NegInf, ns, f));
  }

  /** The box, side by side, is the running minimum or maximum of that
      side over the segment's members. */
  lemma {:induction false} AccumulateBySide(policy: Extents, b: Bounds, laid: seq<Node>, members: seq<Node>)
    ensures var ms := Members(laid, members);
      Accumulate(policy, b, laid, members) ==
        Bounds(MinOver(b.minX, ms, LeftOf), MaxOver(b.maxX, ms, n => RightOf(policy, n)),
               MinOver(b.minY, ms, TopOf), MaxOver(b.maxY, ms, BottomOf))
    decreases |laid|
  {
    if laid != [] {
      var front := laid[..|laid| - 1];
      AccumulateBySide(policy, b, front, members);
      var ms0 := Members(front, members);
      var last := laid[|laid| - 1];
      if IsMember(last.id, members) {
        assert (ms0 + [last])[..|ms0|] == ms0;
      }
    }
  }

  // ---------------------------------------------------------------------
  // Properties of the segment box

  /** The order of the laid-out nodes does not matter: any list with the
      same nodes gives the same box. */
  lemma AccumulateOrderIndependent(policy: Extents, b: Bounds, laid1: seq<Node>, laid2: seq<Node>, members: seq<Node>)
    requires forall n :: n in laid1 <==> n in laid2
    ensures Accumulate(policy, b, laid1, members) == Accumulate(policy, b, laid2, members)
  {
    AccumulateBySide(policy, b, laid1, members);
    AccumulateBySide(policy, b, laid2, members);
    MembersContent(laid1, members);
    MembersContent(laid2, members);
    var ms1, ms2 := Members(laid1, members), Members(laid2, members);
    MinOverSetDetermined(b.minX, ms1, ms2, LeftOf);
    MaxOverSetDetermined(b.maxX, ms1, ms2, n => RightOf(policy, n));
    MinOverSetDetermined(b.minY, ms1, ms2, TopOf);
    MaxOverSetDetermined(b.maxY, ms1, ms2, BottomOf);
  }

  /** Running the pass again over the same positions leaves the box as it
      is. */
  lemma AccumulateIdempotent(policy: Extents, b: Bounds, laid: seq<Node>, members: seq<Node>)
    ensures var once := Accumulate(policy, b, laid, members);
            Accumulate(policy, once, laid, members) == once
  {
    var once := Accumulate(policy, b, laid, members);
    var ms := Members(laid, members);
    AccumulateBySide(policy, b, laid, members);
    AccumulateBySide(policy, once, laid, members);
    MinOverIdempotent(b.minX, ms, LeftOf);
    MaxOverIdempotent(b.maxX, ms, n => RightOf(policy, n));
    MinOverIdempotent(b.minY, ms, TopOf);
    MaxOverIdempotent(b.maxY, ms, BottomOf);
  }

  /** A segment none of whose members was laid out keeps its sentinel. */
  lemma NoMemberKeepsSentinel(policy: Extents, laid: seq<Node>, members: seq<Node>)
    requires forall i :: 0 <= i < |laid| ==> !IsMember(laid[i].id, members)
    ensures Accumulate(policy, Sentinel, laid, members) == Sentinel
  {
    AccumulateBySide(policy, Sentinel, laid, members);
    MembersContent(laid, members);
    assert Members(laid, members) == [];
  }

  /** Starting from the sentinel with at least one member laid out, every
      side is finite and every member's margin box lies inside. */
  lemma BoxContainsMembers(policy: Extents, laid: seq<Node>, members: seq<Node>)
    requires exists i :: 0 <= i < |laid| && IsMember(laid[i].id, members)
    ensures Accumulate(policy, Sentinel, laid, members).Finite()
    ensures var b := Accumulate(policy, Sentinel, laid, members);
      forall n :: n in laid && IsMember(n.id, members) ==>
        && b.minX.v <= LeftOf(n) && RightOf(policy, n) <= b.maxX.v
        && b.minY.v <= TopOf(n) && BottomOf(n) <= b.maxY.v
  {
    var ms := Members(laid, members);
    AccumulateBySide(policy, Sentinel, laid, members);
    MembersContent(laid, members);
    var i :| 0 <= i < |laid| && IsMember(laid[i].id, members);
    assert laid[i] in ms;
    MinFromSentinel(ms, LeftOf);
    MaxFromSentinel(ms, n => RightOf(policy, n));
    MinFromSentinel(ms, TopOf);
    MaxFromSentinel(ms, BottomOf);
  }

  /** Each side of a non-empty segment's box touches a member: the box is
      no larger than the members and margins require. */
  lemma BoxIsTight(policy: Extents, laid: seq<Node>, members: seq<Node>)
    requires exists i :: 0 <= i < |laid| && IsMember(laid[i].id, members)
    ensures var b := Accumulate(policy, Sentinel, laid, members);
      && (exists n :: n in laid && IsMember(n.id, members) && b.minX == Fin(LeftOf(n)))
      && (exists n :: n in laid && IsMember(n.id, members) && b.maxX == Fin(RightOf(policy, n)))
      && (exists n :: n in laid && IsMember(n.id, members) && b.minY == Fin(TopOf(n)))
      && (exists n :: n in laid && IsMember(n.id, members) && b.maxY == Fin(BottomOf(n)))
  {
    var ms := Members(laid, members);
    AccumulateBySide(policy, Sentinel, laid, members);
    MembersContent(laid, members);
    var i :| 0 <= i < |laid| && IsMember(laid[i].id, members);
    assert laid[i] in ms;
    MinFromSentinel(ms, LeftOf);
    MaxFromSentinel(ms, n => RightOf(policy, n));
    MinFromSentinel(ms, TopOf);
    MaxFromSentinel(ms, BottomOf);
  }

  /** An illustration at one point, the origin: as written, a Kafka node
      reaches past the right side of its own segment's box, which ends 230
      right of its left edge while the node's layout footprint ends at 240.
      `LoneSimpleBoxAsWritten` states the 230 extent for every position. */
  lemma KafkaOverhangsAsWritten()
    ensures var n := Node("0", Custom, Some("t"), Some("kafka"), Point(0.0, 0.0));
            var b := Accumulate(AsWritten, Sentinel, [n], [n]);
            && b.maxX == Fin(230.0)
            && n.position.x + SizeOf(n).width == 240.0
  {
    var n := Node("0", Custom, Some("t"), Some("kafka"), Point(0.0, 0.0));
    assert ToLower("kafka") == "kafka";
    assert [n][0].id == n.id;
    assert [n][..0] == [];
  }

  /** As written, the box of a segment whose one laid-out member is a
      simple node ends 230 right of that node's left edge. */
  lemma LoneSimpleBoxAsWritten(laid: seq<Node>, members: seq<Node>)
    requires |laid| == 1 && laid[0].kind.Custom? && IsMember(laid[0].id, members)
    ensures Accumulate(AsWritten, Sentinel, laid, members).Finite()
    ensures Accumulate(AsWritten, Sentinel, laid, members).maxX == Fin(laid[0].position.x + 230.0)
  {
    assert laid[..0] == [];
  }

  /** With the corrected extents every member's full box, at the size the
      layout used, lies inside the segment box with at least the margin on
      each side, whatever the node variant or type. */
  lemma CorrectedBoxContainsFootprints(laid: seq<Node>, members: seq<Node>)
    requires exists i :: 0 <= i < |laid| && IsMember(laid[i].id, members)
    ensures var b := Accumulate(Corrected, Sentinel, laid, members);
      && b.Finite()
      && forall n :: n in laid && IsMember(n.id, members) ==>
        && b.minX.v + Margin <= n.position.x && n.position.x + SizeOf(n).width <= b.maxX.v
        && b.minY.v + Margin <= n.position.y && n.position.y + SizeOf(n).height <= b.maxY.v
  {
    BoxContainsMembers(Corrected, laid, members);
  }

  // ---------------------------------------------------------------------
  // The pass over all segments

  /** Every segment's box after the pass, starting from its current box. */
  function FitGroups(policy: Extents, groups: map<string, Group>, laid: seq<Node>): (r: map<string, Group>)
    ensures r.Keys == groups.Keys
    ensures forall k :: k in r ==> r[k].members == groups[k].members
  {
    map k | k in groups :: groups[k].(bounds := Accumulate(policy, groups[k].bounds, laid, groups[k].members))
  }

  /** One node's visit of every segment: widen the box of each segment
      that has the node among its members, leave the others alone. */
  function VisitNode(policy: Extents, groups: map<string, Group>, n: Node): map<string, Group>
  {
    map k | k in groups :: groups[k].(bounds := if IsMember(n.id, groups[k].members) then Step(policy, groups[k].bounds, n) else groups[k].bounds)
  }

  /** Fitting one more node is visiting it with the boxes fitted so far. */
  lemma FitGroupsStep(policy: Extents, groups: map<string, Group>, laid: seq<Node>, i: nat)
    requires i < |laid|
    ensures FitGroups(policy, groups, laid[..i + 1]) == VisitNode(policy, FitGroups(policy, groups, laid[..i]), laid[i])
  {
    assert laid[..i + 1][..i] == laid[..i];
  }

  /** The layout effect's inner loop over the segment names, for one node. */
  method FitNode(policy: Extents, before: map<string, Group>, node: Node) returns (r: map<string, Group>)
    ensures r == VisitNode(policy, before, node)
  {
    r := before;
    var pending := r.Keys;
    while pending != {}
      invariant pending <= r.Keys && r.Keys == before.Keys
      invariant forall k :: k in r && k in pending ==> r[k] == before[k]
      invariant forall k :: k in r && k !in pending ==>
        r[k] == before[k].(bounds := if IsMember(node.id, before[k].members) then Step(policy, before[k].bounds, node) else before[k].bounds)
      decreases pending
    {
      var name :| name in pending;
      if IsMember(node.id, r[name].members) {
        r := r[name := r[name].(bounds := Step(policy, r[name].bounds, node))];
      }
      pending := pending - {name};
    }
  }

  /** The layout effect's loop: for each laid-out node, for each segment
      name, widen that segment's box when the node is one of its members. */
  method FitSegments(policy: Extents, groups: map<string, Group>, laid: seq<Node>) returns (r: map<string, Group>)
    ensures r == FitGroups(policy, groups, laid)
  {
    r := groups;
    var i := 0;
    assert laid[..0] == [];
    while i < |laid|
      invariant 0 <= i <= |laid|
      invariant r == FitGroups(policy, groups, laid[..i])
    {
      r := FitNode(policy, r, laid[i]);
      FitGroupsStep(policy, groups, laid, i);
      i := i + 1;
    }
    assert laid[..i] == laid;
  }

  // ---------------------------------------------------------------------
  // On-screen placement

  /** The pan offset and zoom factor of the canvas. */
  datatype Viewport = Viewport(x: real, y: real, zoom: real)

  /** What a segment renders: nothing (no entry under its name), a box
      whose sides are not all finite (a segment without laid-out members),
      or a placed box with its label. */
  datatype Overlay =
    | Hidden
    | Degenerate
    | Placed(left: real, top: real, width: real, height: real, labelLeft: real, labelTop: real)

  function ScreenX(vp: Viewport, x: real): real { x * vp.zoom + vp.x }
  function ScreenY(vp: Viewport, y: real): real { y * vp.zoom + vp.y }

  /** A segment's background and label: the box is the viewport image of
      the canvas box, and the label sits 20 right of and 30 above its
      top-left corner. */
  function OverlayOf(groups: map<string, Group>, name: string, vp: Viewport): (o: Overlay)
    ensures o.Hidden? <==> name !in groups
    ensures o.Placed? <==> name in groups && groups[name].bounds.Finite()
    ensures o.Placed? ==>
      var b := groups[name].bounds;
      && o.left == ScreenX(vp, b.minX.v) && o.top == ScreenY(vp, b.minY.v)
      && o.left + o.width == ScreenX(vp, b.maxX.v) && o.top + o.height == ScreenY(vp, b.maxY.v)
      && o.labelLeft == ScreenX(vp, b.minX.v + 20.0) && o.labelTop == ScreenY(vp, b.minY.v - 30.0)
  {
    if name !in groups then Hidden
    else
      var b := groups[name].bounds;
      if !b.Finite() then Degenerate
      else
        Placed(b.minX.v * vp.zoom + vp.x, b.minY.v * vp.zoom + vp.y,
               (b.maxX.v - b.minX.v) * vp.zoom, (b.maxY.v - b.minY.v) * vp.zoom,
               (b.minX.v + 20.0) * vp.zoom + vp.x, (b.minY.v - 30.0) * vp.zoom + vp.y)
  }

  /** One overlay per segment of the integration, in order. */
  function Overlays(segments: seq<Segment>, groups: map<string, Group>, vp: Viewport): (os: seq<Overlay>)
    ensures |os| == |segments|
    ensures forall i :: 0 <= i < |segments| ==> os[i] == OverlayOf(groups, segments[i].segment, vp)
  {
    seq(|segments|, i requires 0 <= i < |segments| => OverlayOf(groups, segments[i].segment, vp))
  }

  /** Segments sharing a name draw the same box: the overlay depends on
      the name alone. */
  lemma SameNameSameOverlay(segments: seq<Segment>, groups: map<string, Group>, vp: Viewport, i: nat, j: nat)
    requires i < |segments| && j < |segments| && segments[i].segment == segments[j].segment
    ensures Overlays(segments, groups, vp)[i] == Overlays(segments, groups, vp)[j]
  {
  }

  lemma ScaleMonotone(a: real, b: real, z: real)
    requires a <= b && z > 0.0
    ensures a * z <= b * z
  {
    assert (b - a) * z >= 0.0;
  }

  /** At a positive zoom, any canvas point inside a segment's box is drawn
      inside that segment's on-screen background. */
  lemma ScreenContainment(groups: map<string, Group>, name: string, vp: Viewport, px: real, py: real)
    requires vp.zoom > 0.0
    requires name in groups && groups[name].bounds.Finite()
    requires var b := groups[name].bounds;
      b.minX.v <= px <= b.maxX.v && b.minY.v <= py <= b.maxY.v
    ensures var o := OverlayOf(groups, name, vp);
      && o.left <= ScreenX(vp, px) <= o.left + o.width
      && o.top <= ScreenY(vp, py) <= o.top + o.height
  {
    var b := groups[name].bounds;
    ScaleMonotone(b.minX.v, px, vp.zoom);
    ScaleMonotone(px, b.maxX.v, vp.zoom);
    ScaleMonotone(b.minY.v, py, vp.zoom);
    ScaleMonotone(py, b.maxY.v, vp.zoom);
  }
}
