/**
  The dashboard's state and event handlers: the initial load, choosing an
  integration, clicking an element or a service, closing the details
  dialog, and which screen the state shows.
 */
module App {
  import opened Js
  import opened Types
  import opened GraphBuilder

  /** What the details dialog was opened for: an element or a nested service. */
  datatype Selection = OfElement(element: Element) | OfService(service: Service)

  function IdOf(c: Selection): Scalar
  {
    match c
    case OfElement(e) => e.id
    case OfService(s) => s.id
  }

  // ---------------------------------------------------------------------
  // The things a click can select, in the order the handler visits them

  function ServiceCandidates(ss: seq<Service>): (cs: seq<Selection>)
    ensures |cs| == |ss|
    ensures forall k :: 0 <= k < |ss| ==> cs[k] == OfService(ss[k])
  {
    seq(|ss|, k requires 0 <= k < |ss| => OfService(ss[k]))
  }

  /** An element, then its services, if it has any. */
  function ElementCandidates(e: Element): (cs: seq<Selection>)
    ensures |cs| >= 1 && cs[0] == OfElement(e)
  {
    [OfElement(e)] + ServiceCandidates(if e.services.Some? then e.services.value else [])
  }

  function SegmentCandidates(es: seq<Element>): seq<Selection>
    decreases |es|
  {
    if es == [] then [] else SegmentCandidates(es[..|es| - 1]) + ElementCandidates(es[|es| - 1])
  }

  /** Every element and service of the integration, segment by segment. */
  function Candidates(segs: seq<Segment>): seq<Selection>
    decreases |segs|
  {
    if segs == [] then [] else Candidates(segs[..|segs| - 1]) + SegmentCandidates(segs[|segs| - 1].elements)
  }

  /** Every element of segment i is a candidate. */
  lemma {:induction false} ElementIsCandidate(segs: seq<Segment>, i: nat, j: nat)
    requires i < |segs| && j < |segs[i].elements|
    ensures OfElement(segs[i].elements[j]) in Candidates(segs)
    decreases |segs|
  {
    var n := |segs| - 1;
    if i < n {
      ElementIsCandidate(segs[..n], i, j);
    } else {
      ElementInSegmentCandidates(segs[i].elements, j);
    }
  }

  lemma {:induction false} ElementInSegmentCandidates(es: seq<Element>, j: nat)
    requires j < |es|
    ensures OfElement(es[j]) in SegmentCandidates(es)
    decreases |es|
  {
    var n := |es| - 1;
    if j < n {
      ElementInSegmentCandidates(es[..n], j);
    } else {
      assert ElementCandidates(es[j])[0] == OfElement(es[j]);
    }
  }

  /** Every nested service of every element is a candidate. */
  lemma {:induction false} ServiceIsCandidate(segs: seq<Segment>, i: nat, j: nat, k: nat)
    requires i < |segs| && j < |segs[i].elements|
    requires segs[i].elements[j].services.Some? && k < |segs[i].elements[j].services.value|
    ensures OfService(segs[i].elements[j].services.value[k]) in Candidates(segs)
    decreases |segs|
  {
    var n := |segs| - 1;
    if i < n {
      ServiceIsCandidate(segs[..n], i, j, k);
    } else {
      ServiceInSegmentCandidates(segs[i].elements, j, k);
    }
  }

  lemma {:induction false} ServiceInSegmentCandidates(es: seq<Element>, j: nat, k: nat)
    requires j < |es| && es[j].services.Some? && k < |es[j].services.value|
    ensures OfService(es[j].services.value[k]) in SegmentCandidates(es)
    decreases |es|
  {
    var n := |es| - 1;
    if j < n {
      ServiceInSegmentCandidates(es[..n], j, k);
    } else {
      assert ElementCandidates(es[j])[1 + k] == OfService(es[j].services.value[k]);
    }
  }

  // ---------------------------------------------------------------------
  // The last candidate that matches

  /** The forEach scan from a starting value: each matching candidate
      overwrites the result. */
  function Scan(r0: Option<Selection>, cs: seq<Selection>, matches: Selection -> bool): Option<Selection>
    decreases |cs|
  {
    if cs == [] then r0
    else
      var r := Scan(r0, cs[..|cs| - 1], matches);
      if matches(cs[|cs| - 1]) then Some(cs[|cs| - 1]) else r
  }

  function LastWhere(cs: seq<Selection>, matches: Selection -> bool): Option<Selection>
  {
    Scan(None, cs, matches)
  }

  /** Scanning a concatenation is scanning the parts in turn. */
  lemma {:induction false} ScanAppend(r0: Option<Selection>, a: seq<Selection>, b: seq<Selection>, matches: Selection -> bool)
    ensures Scan(r0, a + b, matches) == Scan(Scan(r0, a, matches), b, matches)
    decreases |b|
  {
    if b == [] {
      assert a + b == a;
    } else {
      var front := b[..|b| - 1];
      assert (a + b)[..|a + b| - 1] == a + front;
      ScanAppend(r0, a, front, matches);
    }
  }

  /** Scanning one more candidate. */
  lemma ScanStep(r0: Option<Selection>, cs: seq<Selection>, k: nat, matches: Selection -> bool)
    requires k < |cs|
    ensures Scan(r0, cs[..k + 1], matches) ==
      if matches(cs[k]) then Some(cs[k]) else Scan(r0, cs[..k], matches)
  {
    assert cs[..k + 1][..k] == cs[..k];
  }

  /** The scan finds nothing exactly when no candidate matches, and
      otherwise finds the last candidate that matches. */
  lemma {:induction false} LastWhereSpec(cs: seq<Selection>, matches: Selection -> bool)
    ensures LastWhere(cs, matches).None? <==> forall k :: 0 <= k < |cs| ==> !matches(cs[k])
    ensures LastWhere(cs, matches).Some? ==>
      exists k :: 0 <= k < |cs| && cs[k] == LastWhere(cs, matches).value && matches(cs[k]) &&
        forall m :: k < m < |cs| ==> !matches(cs[m])
    decreases |cs|
  {
    if cs != [] {
      var n := |cs| - 1;
      var front := cs[..n];
      LastWhereSpec(front, matches);
      ScanStep(None, cs, n, matches);
      assert cs[..n + 1] == cs;
      if matches(cs[n]) {
        assert LastWhere(cs, matches) == Some(cs[n]);
      } else {
        assert LastWhere(cs, matches) == LastWhere(front, matches);
        assert forall k :: 0 <= k < n ==> front[k] == cs[k];
        if LastWhere(front, matches).Some? {
          var k :| 0 <= k < n && front[k] == LastWhere(front, matches).value && matches(front[k]) &&
            forall m :: k < m < n ==> !matches(front[m]);
          assert cs[k] == front[k];
        }
      }
    }
  }

  /** The strict comparison `c.id === id` of the click handler. */
  function IdIs(id: Scalar): Selection -> bool
  {
    c => IdOf(c) == id
  }

  /** The services loop of the click handler for one element. */
  method ScanServices(ss: seq<Service>, id: Scalar, r0: Option<Selection>) returns (r: Option<Selection>)
    ensures r == Scan(r0, ServiceCandidates(ss), IdIs(id))
  {
    ghost var cs := ServiceCandidates(ss);
    r := r0;
    var k := 0;
    while k < |ss|
      invariant 0 <= k <= |ss|
      invariant r == Scan(r0, cs[..k], IdIs(id))
    {
      ScanStep(r0, cs, k, IdIs(id));
      if ss[k].id == id {
        r := Some(OfService(ss[k]));
      }
      k := k + 1;
    }
    assert cs[..k] == cs;
  }

  /** The click handler's visit of one element: the element itself, then
      its services. */
  method ScanElement(e: Element, id: Scalar, r0: Option<Selection>) returns (r: Option<Selection>)
    ensures r == Scan(r0, ElementCandidates(e), IdIs(id))
  {
    r := r0;
    if e.id == id {
      r := Some(OfElement(e));
    }
    assert [OfElement(e)][..0] == [];
    assert r == Scan(r0, [OfElement(e)], IdIs(id));
    var ss := if e.services.Some? then e.services.value else [];
    r := ScanServices(ss, id, r);
    ScanAppend(r0, [OfElement(e)], ServiceCandidates(ss), IdIs(id));
  }

  /** The elements loop of the click handler for one segment. */
  method ScanSegment(es: seq<Element>, id: Scalar, r0: Option<Selection>) returns (r: Option<Selection>)
    ensures r == Scan(r0, SegmentCandidates(es), IdIs(id))
  {
    r := r0;
    var j := 0;
    while j < |es|
      invariant 0 <= j <= |es|
      invariant r == Scan(r0, SegmentCandidates(es[..j]), IdIs(id))
    {
      assert es[..j + 1][..j] == es[..j];
      ScanAppend(r0, SegmentCandidates(es[..j]), ElementCandidates(es[j]), IdIs(id));
      r := ScanElement(es[j], id, r);
      j := j + 1;
    }
    assert es[..j] == es;
  }

  /** The lookup in `handleElementClick`: the last element or service of
      the selected integration whose id is strictly equal to the clicked
      id, or nothing. */
  method FindElement(selected: Option<Integration>, id: Scalar) returns (r: Option<Selection>)
    ensures selected.None? ==> r.None?
    ensures selected.Some? ==> r == LastWhere(Candidates(selected.value.segments), IdIs(id))
  {
    r := None;
    if selected.None? {
      return;
    }
    var segs := selected.value.segments;
    var i := 0;
    while i < |segs|
      invariant 0 <= i <= |segs|
      invariant r == Scan(None, Candidates(segs[..i]), IdIs(id))
    {
      assert segs[..i + 1][..i] == segs[..i];
      ScanAppend(None, Candidates(segs[..i]), SegmentCandidates(segs[i].elements), IdIs(id));
      r := ScanSegment(segs[i].elements, id, r);
      i := i + 1;
    }
    assert segs[..i] == segs;
  }

  // ---------------------------------------------------------------------
  // The dashboard state

  datatype AppState = AppState(
    integrations: seq<Integration>,
    selectedIntegration: Option<Integration>,
    selectedElement: Option<Selection>,
    modalOpen: bool,
    loading: bool,
    error: Option<string>)

  const Initial := AppState([], None, None, false, true, None)

  /** The fallback message when the load fails with something that is not
      an `Error`. */
  const LoadErrorText := "Ошибка загрузки интеграций"

  /** How the initial load ended: with a list, or by throwing (with the
      error's message when it is an `Error`). */
  datatype LoadOutcome = LoadedList(list: seq<Integration>) | Threw(message: Option<string>)

  /** The mount effect: store the list and select its first entry (an
      empty list leaves the selection alone), or record the error; either
      way loading ends. */
  function FinishLoad(s: AppState, outcome: LoadOutcome): (t: AppState)
    ensures !t.loading
    ensures t.selectedElement == s.selectedElement && t.modalOpen == s.modalOpen
    ensures outcome.LoadedList? ==> t.integrations == outcome.list && t.error == s.error
    ensures outcome.LoadedList? && |outcome.list| > 0 ==> t.selectedIntegration == Some(outcome.list[0])
    ensures outcome.LoadedList? && outcome.list == [] ==> t.selectedIntegration == s.selectedIntegration
    ensures outcome.Threw? ==> t.integrations == s.integrations && t.selectedIntegration == s.selectedIntegration
    ensures outcome.Threw? ==> t.error == Some(if outcome.message.Some? then outcome.message.value else LoadErrorText)
  {
    match outcome
    case LoadedList(list) =>
      s.(integrations := list,
         selectedIntegration := if |list| > 0 then Some(list[0]) else s.selectedIntegration,
         loading := false)
    case Threw(message) =>
      s.(error := Some(if message.Some? then message.value else LoadErrorText), loading := false)
  }

  /** `handleIntegrationSelect`: switch integration, drop the selection and
      close the dialog. */
  function SelectIntegration(s: AppState, integration: Integration): (t: AppState)
    ensures t.selectedIntegration == Some(integration)
    ensures t.selectedElement.None? && !t.modalOpen
    ensures t.integrations == s.integrations && t.loading == s.loading && t.error == s.error
  {
    s.(selectedIntegration := Some(integration), selectedElement := None, modalOpen := false)
  }

  /** The candidates of the selected integration (none without one). */
  function SelectedCandidates(s: AppState): seq<Selection>
  {
    if s.selectedIntegration.Some? then Candidates(s.selectedIntegration.value.segments) else []
  }

  /** `handleElementClick`: select the last candidate with exactly the
      clicked id (nothing when there is none) and open the dialog. */
  function ClickElement(s: AppState, id: Scalar): (t: AppState)
    ensures t.modalOpen
    ensures t.selectedElement.Some? ==> t.selectedElement.value in SelectedCandidates(s) && IdOf(t.selectedElement.value) == id
    ensures t.selectedElement.None? <==> forall c :: c in SelectedCandidates(s) ==> IdOf(c) != id
    ensures t.selectedElement.Some? ==>
      var cs := SelectedCandidates(s);
      exists k :: 0 <= k < |cs| && cs[k] == t.selectedElement.value && IdOf(cs[k]) == id &&
        forall m :: k < m < |cs| ==> IdOf(cs[m]) != id
    ensures t.integrations == s.integrations && t.selectedIntegration == s.selectedIntegration
    ensures t.loading == s.loading && t.error == s.error
  {
    LastWhereSpec(SelectedCandidates(s), IdIs(id));
    s.(selectedElement := LastWhere(SelectedCandidates(s), IdIs(id)), modalOpen := true)
  }

  /** The dialog's close callback: only the open flag changes. */
  function CloseModal(s: AppState): (t: AppState)
    ensures !t.modalOpen && t.selectedElement == s.selectedElement
    ensures t.(modalOpen := s.modalOpen) == s
  {
    s.(modalOpen := false)
  }

  /** `selectedElement?.id || null`: the id the flow view highlights. */
  function FlowSelectedId(s: AppState): (r: Option<Scalar>)
    ensures r.Some? <==> s.selectedElement.Some? && Truthy(IdOf(s.selectedElement.value))
    ensures r.Some? ==> r.value == IdOf(s.selectedElement.value)
  {
    if s.selectedElement.Some? && Truthy(IdOf(s.selectedElement.value)) then Some(IdOf(s.selectedElement.value)) else None
  }

  /** A selected item whose id is 0 or the empty string is never
      highlighted: the `||` turns its id into null. */
  lemma FalsyIdNotHighlighted(s: AppState, e: Element, svc: Service)
    requires s.selectedElement.Some? && IdOf(s.selectedElement.value) in {Num(0), Str("")}
    requires IsContainer(e) && svc in e.services.value
    ensures FlowSelectedId(s).None?
    ensures forall v :: v in NodeOf(e, FlowSelectedId(s)).kind.services ==> !v.selected
  {
    ContainerServices(e, FlowSelectedId(s));
  }

  /** Looking up a service's truthy id (the service row's own handler,
      taken alone) highlights every service with that id in the rebuilt
      flow, and no other. */
  lemma ClickedServiceHighlighted(s: AppState, svc: Service, e: Element, k: nat)
    requires OfService(svc) in SelectedCandidates(s) && Truthy(svc.id)
    requires IsContainer(e) && k < |e.services.value|
    ensures var v := NodeOf(e, FlowSelectedId(ClickElement(s, svc.id))).kind.services[k];
      v.selected <==> e.services.value[k].id == svc.id
  {
    var t := ClickElement(s, svc.id);
    assert IdOf(OfService(svc)) == svc.id;
    ContainerServices(e, FlowSelectedId(t));
  }

  // ---------------------------------------------------------------------
  // What the state shows

  /** The flow view's inputs. */
  datatype FlowProps = FlowProps(integration: Integration, selectedId: Option<Scalar>)

  datatype Screen =
    | Spinner
    | ErrorText(message: string)
    | Dashboard(list: seq<Integration>, highlighted: Option<Integration>, flow: Option<FlowProps>,
                dialogItem: Option<Selection>, dialogOpen: bool)

  /** The render function: the spinner while loading, the error when there
      is a non-empty one, the dashboard otherwise. */
  function View(s: AppState): (v: Screen)
    ensures v.Spinner? <==> s.loading
    ensures v.ErrorText? <==> !s.loading && s.error.Some? && s.error.value != ""
    ensures v.Dashboard? ==> (v.flow.Some? <==> s.selectedIntegration.Some?)
    ensures v.Dashboard? && v.flow.Some? ==> v.flow.value.selectedId == FlowSelectedId(s)
  {
    if s.loading then Spinner
    else if s.error.Some? && s.error.value != "" then ErrorText(s.error.value)
    else
      var flow := if s.selectedIntegration.Some? then Some(FlowProps(s.selectedIntegration.value, FlowSelectedId(s))) else None;
      Dashboard(s.integrations, s.selectedIntegration, flow, s.selectedElement, s.modalOpen)
  }

  /** A successful first load of a non-empty list shows the dashboard with
      the first integration's flow and nothing highlighted. */
  lemma FirstLoadShowsFirstIntegration(list: seq<Integration>)
    requires |list| > 0
    ensures View(FinishLoad(Initial, LoadedList(list))) ==
      Dashboard(list, Some(list[0]), Some(FlowProps(list[0], None)), None, false)
  {
  }

  /** A load that throws shows the error text (the fallback text when the
      thrown value has no message). */
  lemma FailedLoadShowsError(message: Option<string>)
    requires message.Some? ==> message.value != ""
    ensures View(FinishLoad(Initial, Threw(message))) ==
      ErrorText(if message.Some? then message.value else LoadErrorText)
  {
  }

  // ---------------------------------------------------------------------
  // Clicking a node of the flow

  /** `onNodeClick` as written: the flow hands the node's id, always a
      string, to the click handler, which compares it strictly with the
      document's ids. An empty id is ignored. */
  function ClickNodeAsWritten(s: AppState, nodeId: string): (t: AppState)
    ensures nodeId == "" ==> t == s
    ensures nodeId != "" ==> t == ClickElement(s, Str(nodeId))
  {
    if nodeId == "" then s else ClickElement(s, Str(nodeId))
  }

  /** With a numeric id in the document the node click sets the dialog
      open with no item: the string "7" is never strictly equal to 7, and
      the dialog draws nothing without an item. */
  lemma NumericIdClickFindsNothing()
    ensures var e := Element(Num(7), Some("in"), Some("input"), None, None, None, None);
      var s := AppState([], Some(Integration("i", "", [Segment("Source", [e])])), None, false, false, None);
      && ToStr(e.id) == "7"
      && ClickNodeAsWritten(s, ToStr(e.id)).modalOpen
      && ClickNodeAsWritten(s, ToStr(e.id)).selectedElement.None?
  {
    var e := Element(Num(7), Some("in"), Some("input"), None, None, None, None);
    var segs := [Segment("Source", [e])];
    assert Candidates(segs) == Candidates(segs[..0]) + SegmentCandidates([e]);
    assert SegmentCandidates([e]) == SegmentCandidates([]) + ElementCandidates(e);
    assert Candidates(segs) == [OfElement(e)];
    assert NatToDecimal(7) == "7";
  }

  /** The string form of a candidate's id is the node's id. */
  function NodeIdIs(nodeId: string): Selection -> bool
  {
    c => ToStr(IdOf(c)) == nodeId
  }

  /** The node click as intended: match the candidate whose id, printed
      the way the node ids are, is the clicked node id. */
  function ClickNode(s: AppState, nodeId: string): (t: AppState)
    ensures nodeId == "" ==> t == s
    ensures nodeId != "" ==> t.modalOpen
    ensures nodeId != "" && t.selectedElement.Some? ==>
      t.selectedElement.value in SelectedCandidates(s) && ToStr(IdOf(t.selectedElement.value)) == nodeId
    ensures t.integrations == s.integrations && t.selectedIntegration == s.selectedIntegration
  {
    if nodeId == "" then s
    else
      LastWhereSpec(SelectedCandidates(s), NodeIdIs(nodeId));
      s.(selectedElement := LastWhere(SelectedCandidates(s), NodeIdIs(nodeId)), modalOpen := true)
  }

  /** Clicking the node built for any element of the selected integration
      selects something whose id prints as that node's id. */
  lemma ClickNodeFindsElement(s: AppState, i: nat, j: nat)
    requires s.selectedIntegration.Some?
    requires i < |s.selectedIntegration.value.segments| && j < |s.selectedIntegration.value.segments[i].elements|
    requires s.selectedIntegration.value.segments[i].elements[j].id != Str("")
    ensures var e := s.selectedIntegration.value.segments[i].elements[j];
      var t := ClickNode(s, NodeOf(e, None).id);
      && t.modalOpen
      && t.selectedElement.Some?
      && ToStr(IdOf(t.selectedElement.value)) == ToStr(e.id)
  {
    var segs := s.selectedIntegration.value.segments;
    var e := segs[i].elements[j];
    ElementIsCandidate(segs, i, j);
    var cs := SelectedCandidates(s);
    var k :| 0 <= k < |cs| && cs[k] == OfElement(e);
    assert NodeIdIs(ToStr(e.id))(cs[k]);
    LastWhereSpec(cs, NodeIdIs(ToStr(e.id)));
  }

  /** Where every id is a string the corrected click behaves exactly like
      the written one. */
  lemma ClickNodeAgreesOnStringIds(s: AppState, nodeId: string)
    requires forall c :: c in SelectedCandidates(s) ==> IdOf(c).Str?
    ensures ClickNode(s, nodeId) == ClickNodeAsWritten(s, nodeId)
  {
    if nodeId != "" {
      var cs := SelectedCandidates(s);
      forall k | 0 <= k < |cs|
        ensures NodeIdIs(nodeId)(cs[k]) == IdIs(Str(nodeId))(cs[k])
      {
        assert cs[k] in cs;
      }
      LastWhereAgree(cs, NodeIdIs(nodeId), IdIs(Str(nodeId)));
    }
  }

  /** Two tests that agree on every candidate find the same one. */
  lemma {:induction false} LastWhereAgree(cs: seq<Selection>, p: Selection -> bool, q: Selection -> bool)
    requires forall k :: 0 <= k < |cs| ==> p(cs[k]) == q(cs[k])
    ensures LastWhere(cs, p) == LastWhere(cs, q)
    decreases |cs|
  {
    if cs != [] {
      var front := cs[..|cs| - 1];
      assert forall k :: 0 <= k < |front| ==> front[k] == cs[k];
      LastWhereAgree(front, p, q);
    }
  }

  // ---------------------------------------------------------------------
  // Clicking a service row inside a container node

  /** A click on a service row as written: the row's handler looks up the
      service's id, and since it does not stop the click from bubbling,
      the flow's node click then runs with the container's node id. The
      second lookup replaces whatever the first one selected. */
  function ClickServiceAsWritten(s: AppState, serviceId: Scalar, containerId: string): (t: AppState)
    ensures t.modalOpen
    ensures containerId != "" ==> t == ClickNodeAsWritten(s, containerId)
    ensures t.integrations == s.integrations && t.selectedIntegration == s.selectedIntegration
  {
    ClickNodeAsWritten(ClickElement(s, serviceId), containerId)
  }

  /** As written, clicking the service "api" of the container "pod" ends
      with the container selected: the service is found first, then the
      bubbled node click selects the container. */
  lemma ServiceClickShowsContainer()
    ensures var svc := Service(Str("api"), Some("api"), None, None, None, None, None);
      var e := Element(Str("pod"), Some("pod"), Some("k8s"), None, None, Some([svc]), None);
      var s := AppState([], Some(Integration("i", "", [Segment("Source", [e])])), None, false, false, None);
      && ClickElement(s, svc.id).selectedElement == Some(OfService(svc))
      && ClickServiceAsWritten(s, svc.id, NodeOf(e, None).id).selectedElement == Some(OfElement(e))
  {
    var svc := Service(Str("api"), Some("api"), None, None, None, None, None);
    var e := Element(Str("pod"), Some("pod"), Some("k8s"), None, None, Some([svc]), None);
    var s := AppState([], Some(Integration("i", "", [Segment("Source", [e])])), None, false, false, None);
    LoneContainerCandidates(e, svc);
    var cs := [OfElement(e), OfService(svc)];
    LastOfTwo(cs, IdIs(svc.id));
    LastOfTwo(cs, IdIs(Str("pod")));
    var t := ClickElement(s, svc.id);
    assert SelectedCandidates(t) == cs;
  }

  /** The candidates of one segment holding one container with one
      service: the container, then the service. */
  lemma LoneContainerCandidates(e: Element, svc: Service)
    requires e.services == Some([svc])
    ensures Candidates([Segment("Source", [e])]) == [OfElement(e), OfService(svc)]
  {
    var segs := [Segment("Source", [e])];
    assert Candidates(segs) == Candidates(segs[..0]) + SegmentCandidates([e]);
    assert SegmentCandidates([e]) == SegmentCandidates([]) + ElementCandidates(e);
    assert ElementCandidates(e) == [OfElement(e), OfService(svc)];
  }

  /** The last match among two candidates. */
  lemma LastOfTwo(cs: seq<Selection>, matches: Selection -> bool)
    requires |cs| == 2
    ensures LastWhere(cs, matches) ==
      if matches(cs[1]) then Some(cs[1]) else if matches(cs[0]) then Some(cs[0]) else None
  {
    var front := cs[..1];
    assert front[..0] == [] && front[0] == cs[0];
    assert Scan(None, front, matches) == if matches(cs[0]) then Some(cs[0]) else None;
  }

  /** With the click kept from bubbling, clicking any service of the
      selected integration opens the dialog on an item with that service's
      id, and on the service itself when no other item shares its id. */
  lemma ServiceClickSelectsService(s: AppState, i: nat, j: nat, k: nat)
    requires s.selectedIntegration.Some?
    requires var segs := s.selectedIntegration.value.segments;
      i < |segs| && j < |segs[i].elements| && segs[i].elements[j].services.Some? && k < |segs[i].elements[j].services.value|
    ensures var svc := s.selectedIntegration.value.segments[i].elements[j].services.value[k];
      var t := ClickElement(s, svc.id);
      && t.modalOpen
      && t.selectedElement.Some? && IdOf(t.selectedElement.value) == svc.id
      && ((forall c :: c in SelectedCandidates(s) && IdOf(c) == svc.id ==> c == OfService(svc)) ==>
            t.selectedElement == Some(OfService(svc)))
  {
    var segs := s.selectedIntegration.value.segments;
    var svc := segs[i].elements[j].services.value[k];
    ServiceIsCandidate(segs, i, j, k);
    assert IdOf(OfService(svc)) == svc.id;
  }

  // ---------------------------------------------------------------------
  // The dashboard as a state machine

  /** What can happen to the dashboard: the mount effect finishing, and
      the three user actions the dashboard screen offers. */
  datatype Event =
    | LoadDone(outcome: LoadOutcome)
    | PickIntegration(index: nat)   // the entry of the list that was clicked
    | ClickId(id: Scalar)           // a node's or a service's click handler
    | Close

  /** One event. The mount effect runs once, while loading; the user
      actions exist only on the dashboard screen, and a click only where a
      flow is drawn. */
  function Step(s: AppState, ev: Event): (t: AppState)
    ensures !s.loading ==> !t.loading
    ensures ev.LoadDone? && !s.loading ==> t == s
    ensures !ev.LoadDone? && !View(s).Dashboard? ==> t == s
  {
    match ev
    case LoadDone(outcome) => if s.loading then FinishLoad(s, outcome) else s
    case PickIntegration(k) =>
      if View(s).Dashboard? && k < |s.integrations| then SelectIntegration(s, s.integrations[k]) else s
    case ClickId(id) =>
      if View(s).Dashboard? && s.selectedIntegration.Some? then ClickElement(s, id) else s
    case Close => if View(s).Dashboard? then CloseModal(s) else s
  }

  /** The state after a sequence of events. */
  function Run(s: AppState, evs: seq<Event>): AppState
    decreases |evs|
  {
    if evs == [] then s else Step(Run(s, evs[..|evs| - 1]), evs[|evs| - 1])
  }

  /** What every reachable state satisfies: nothing happens before the load
      ends, the highlighted integration is one of the list, and the
      selected item is one of the highlighted integration's elements or
      services. */
  predicate Inv(s: AppState)
  {
    && (s.loading ==> s == Initial)
    && (s.selectedIntegration.Some? ==> s.selectedIntegration.value in s.integrations)
    && (s.selectedElement.Some? ==> s.selectedElement.value in SelectedCandidates(s))
  }

  lemma InitialInv()
    ensures Inv(Initial)
  {
  }

  /** Every event keeps the invariant. */
  lemma StepPreservesInv(s: AppState, ev: Event)
    requires Inv(s)
    ensures Inv(Step(s, ev))
  {
    match ev
    case LoadDone(outcome) =>
      if s.loading {
        assert s == Initial;
        if outcome.LoadedList? && |outcome.list| > 0 {
          assert outcome.list[0] in outcome.list;
        }
      }
    case PickIntegration(k) =>
      if View(s).Dashboard? && k < |s.integrations| {
        assert s.integrations[k] in s.integrations;
      }
    case ClickId(id) =>
    case Close =>
  }

  /** Every state the dashboard reaches from its initial state keeps the
      invariant. */
  lemma {:induction false} RunPreservesInv(evs: seq<Event>)
    ensures Inv(Run(Initial, evs))
    decreases |evs|
  {
    if evs == [] {
      InitialInv();
    } else {
      RunPreservesInv(evs[..|evs| - 1]);
      StepPreservesInv(Run(Initial, evs[..|evs| - 1]), evs[|evs| - 1]);
    }
  }

  /** A failed load is final: once the error screen shows, no later event
      changes the state. */
  lemma {:induction false} ErrorScreenIsFinal(s: AppState, evs: seq<Event>)
    requires View(s).ErrorText?
    ensures Run(s, evs) == s
    decreases |evs|
  {
    if evs != [] {
      ErrorScreenIsFinal(s, evs[..|evs| - 1]);
    }
  }
}
