# Integration dashboard: flow graph, segment boxes, loading and selection

This project models the core of a web dashboard that displays
system-integration descriptions. An integration is an ordered list of named
segments. Each segment is an ordered list of elements: Kafka topics, nginx
proxies, `k8s` containers with nested services, and so on. Elements are
linked by their `next` field.

The model covers:

- **Loading** (`loader.dfy`). Every file the list endpoint announces is
  fetched one after another. The display name comes from the file's
  directory. Segment names are made canonical. Every file that fails is
  dropped.
- **The flow graph** (`graph_builder.dfy`). Each element becomes a node: a
  `k8s` container that embeds its services, or a plain node. Each element
  with a truthy `next` becomes an edge numbered `e1`, `e2`, … by a running
  counter. A membership index maps each segment name to its nodes.
- **Layout** (`layout.dfy`). This covers the node size policy, the graph
  handed to the layered layout library, and the conversion of the
  library's node centres into top-left positions. The library itself is an
  uninterpreted parameter (`Engine`).
- **Segment boxes** (`segment_bounds.dfy`). A post-layout pass widens each
  segment's box, which starts at `±Infinity`, around its member nodes. The
  box is then placed on screen under the viewport's pan and zoom, with its
  label. The colour choices are in `palette.dfy`.
- **The composed view** (`flow.dfy`). The whole flow for an integration:
  nodes, edges, fitted boxes and overlays. The box extents are a parameter.
  Nodes are measured by their layout footprint: the size handed to the
  layout library. With the extents as written, the footprint of a Kafka
  node alone in its segment reaches 10 units past the right side of its
  segment's background. With the corrected extents, every element's
  footprint lies inside its own segment's background, provided no later
  segment has the same name (a later namesake owns the box).
- **The dashboard state** (`app.dfy`). This covers the initial load, the
  integration switch, the click lookup (the last element or service whose
  id is strictly equal to the clicked id), the highlighted id
  (`selectedElement?.id || null`) and the spinner/error/dashboard screens.
  These handlers are also put together as a state machine. Every state
  reachable from the initial one keeps its selection consistent with the
  loaded list.
- **The details dialog** (`details.dfy`). It shows the in, out and common
  parameters of the selected item, printing `-` for an undefined value.

JavaScript values are modelled as follows (`js.dfy`):

- Ids are numbers or strings (`Scalar`).
- Strict equality is datatype equality.
- `String(x)`, truthiness, `a || b` and an ASCII `toLowerCase` are written
  out explicitly.
- A missing key is `None`.

Each loop-based operation is a method proved equal to a recursive
reference definition: the build, the box pass, the load loop and the
click lookup.

## Model

| member | source | states |
|---|---|---|
| Js.OrElse | src/components/IntegrationFlow/IntegrationFlow.tsx:727 | `a \|\| b` on optional strings: `a` when it is a non-empty string, `b` otherwise |
| Js.ToStr | src/components/IntegrationFlow/IntegrationFlow.tsx:720 | `String(id)`: a string id is kept as it is; a number prints as its decimal digits, with a leading '-' when negative |
| Js.ToStrNumInjective | src/components/IntegrationFlow/IntegrationFlow.tsx:720 | two numeric ids give the same node id only when they are equal |
| Js.DecimalRoundTrip | src/components/IntegrationFlow/IntegrationFlow.tsx:757 | reading back the printed digits of a counter value yields that value |
| Js.ToLower | src/components/IntegrationFlow/IntegrationFlow.tsx:215 | `toLowerCase`: same length, each character lower-cased, no upper-case letter left |
| Js.ToLowerIdempotent | src/utils/integrationLoader.ts:15 | lower-casing twice is the same as lower-casing once |
| GraphBuilder.NodeOf | src/components/IntegrationFlow/IntegrationFlow.tsx:719-753 | the node id is `String(id)`; the node is a container exactly when the type is `k8s` and `services` is present; the caption is `name \|\| type`; the node starts at the origin |
| GraphBuilder.ContainerServices | src/components/IntegrationFlow/IntegrationFlow.tsx:729-734 | one view per service, in order, carrying its id, label and type; a view is selected exactly when its id is strictly equal to the selected id |
| GraphBuilder.NodesOfIndex | src/components/IntegrationFlow/IntegrationFlow.tsx:719-753 | node i is the node of element i |
| GraphBuilder.NodesOfAppend | src/components/IntegrationFlow/IntegrationFlow.tsx:739-752 | the nodes of two runs of elements appended are the two node lists appended, so the global list extends each segment's list |
| GraphBuilder.EmitElement | src/components/IntegrationFlow/IntegrationFlow.tsx:719-762 | one callback step yields the element's node and extends the edge list and counter exactly as the reference edge list does |
| GraphBuilder.EmitSegment | src/components/IntegrationFlow/IntegrationFlow.tsx:717-763 | after a segment, the global nodes, the edges and the counter match the reference over all elements so far; the segment's list holds exactly its own nodes |
| GraphBuilder.Build | src/components/IntegrationFlow/IntegrationFlow.tsx:710-779 | the memo's nodes, edges and membership index equal the reference definitions over all segments |
| GraphBuilder.ElementPosition | src/components/IntegrationFlow/IntegrationFlow.tsx:716-719 | element j of segment i sits at position (elements of earlier segments) + j of the flattened list |
| GraphBuilder.ElementsCount | src/components/IntegrationFlow/IntegrationFlow.tsx:716-753 | there are as many nodes as elements across all segments |
| GraphBuilder.EdgesFollowLinked | src/components/IntegrationFlow/IntegrationFlow.tsx:755-762 | edge k comes from the k-th element with a truthy `next`: id `e<k+1>`, source `String(id)`, target `String(next)` |
| GraphBuilder.EdgeCountStep | src/components/IntegrationFlow/IntegrationFlow.tsx:755 | an element adds one edge if its `next` is truthy, and none if `next` is absent, `0` or `''` |
| GraphBuilder.EdgeIdsDistinct | src/components/IntegrationFlow/IntegrationFlow.tsx:757 | edge ids are pairwise distinct |
| GraphBuilder.EdgeSourcesAreNodes | src/components/IntegrationFlow/IntegrationFlow.tsx:755-759 | every edge leaves a node that the build emitted |
| GraphBuilder.DanglingTargetKept | src/components/IntegrationFlow/IntegrationFlow.tsx:755-761 | appending an element whose `next` names no node adds exactly one edge, numbered next, from the element's id to that target, and no node has that id |
| GraphBuilder.GroupsKeys | src/components/IntegrationFlow/IntegrationFlow.tsx:765-771 | the membership index has one entry per distinct segment name |
| GraphBuilder.GroupsLastWins | src/components/IntegrationFlow/IntegrationFlow.tsx:765-771 | a name's entry holds the nodes of the last segment with that name and the infinite sentinel box |
| GraphBuilder.SelectionMarksExactMatches | src/components/IntegrationFlow/IntegrationFlow.tsx:733 | every nested service in the node list is marked selected exactly when its id is strictly equal to the selected id |
| Layout.SizeDeterminedByKindAndType | src/components/IntegrationFlow/IntegrationFlow.tsx:573-599 | a node's size depends only on its variant and its lower-cased type |
| Layout.SizeOrdering | src/components/IntegrationFlow/IntegrationFlow.tsx:574-597 | containers are exactly 350 x 250 and larger than any simple node; Kafka nodes are 240 x 90; other simple nodes are 180 x 90 |
| Layout.KafkaIgnoresCase | src/components/IntegrationFlow/IntegrationFlow.tsx:582 | a simple node gets the Kafka size exactly when its type, lower-cased, is `kafka` |
| Layout.SizeTableLastWins | src/components/IntegrationFlow/IntegrationFlow.tsx:571-602 | the library holds, for an id, the size of the last node with that id |
| Layout.SizeTableKeys | src/components/IntegrationFlow/IntegrationFlow.tsx:571-602 | the library holds a size for exactly the node ids |
| Layout.SizeTableCongruent | src/components/IntegrationFlow/IntegrationFlow.tsx:571-602 | node lists that agree on ids and sizes give the library the same sizes |
| Layout.LayoutElements | src/components/IntegrationFlow/IntegrationFlow.tsx:557-625 | each node keeps its id, variant, caption and type; its position is the library's centre minus half the size held for its id; edges pass through |
| Layout.LaidOutBoxCentred | src/components/IntegrationFlow/IntegrationFlow.tsx:610-622 | with distinct ids, each node's box at its policy size is centred on the library's centre |
| Layout.SharedIdSharesPosition | src/components/IntegrationFlow/IntegrationFlow.tsx:601-622 | nodes sharing an id are placed at the same spot |
| Layout.LayoutIdempotent | src/components/IntegrationFlow/IntegrationFlow.tsx:557-625 | laying out a laid-out graph again changes nothing |
| SegmentBounds.MembersContent | src/components/IntegrationFlow/IntegrationFlow.tsx:793 | the nodes the pass widens a box for are exactly the laid-out nodes whose id is among the segment's members |
| SegmentBounds.MinOverSpec | src/components/IntegrationFlow/IntegrationFlow.tsx:794 | the running `Math.min` is at most the start and every value, and equals the start or one of the values |
| SegmentBounds.MaxOverSpec | src/components/IntegrationFlow/IntegrationFlow.tsx:795 | the running `Math.max` is at least the start and every value, and equals the start or one of the values |
| SegmentBounds.MinOverSetDetermined | src/components/IntegrationFlow/IntegrationFlow.tsx:794 | the running minimum depends only on the set of nodes visited |
| SegmentBounds.MaxOverSetDetermined | src/components/IntegrationFlow/IntegrationFlow.tsx:795 | the running maximum depends only on the set of nodes visited |
| SegmentBounds.MinFromSentinel | src/components/IntegrationFlow/IntegrationFlow.tsx:766 | starting from `Infinity` over at least one node, the minimum is finite, below every value and equal to one of them |
| SegmentBounds.MaxFromSentinel | src/components/IntegrationFlow/IntegrationFlow.tsx:767 | starting from `-Infinity` over at least one node, the maximum is finite, above every value and equal to one of them |
| SegmentBounds.AccumulateBySide | src/components/IntegrationFlow/IntegrationFlow.tsx:791-800 | each side of the box is the running min or max of that side's offset over the segment's laid-out members |
| SegmentBounds.AccumulateOrderIndependent | src/components/IntegrationFlow/IntegrationFlow.tsx:791-800 | the box does not depend on the order of the laid-out nodes |
| SegmentBounds.AccumulateIdempotent | src/components/IntegrationFlow/IntegrationFlow.tsx:785-800 | re-running the pass over the same positions leaves every box unchanged |
| SegmentBounds.NoMemberKeepsSentinel | src/components/IntegrationFlow/IntegrationFlow.tsx:765-800 | a segment with no laid-out member keeps its `±Infinity` box |
| SegmentBounds.BoxContainsMembers | src/components/IntegrationFlow/IntegrationFlow.tsx:794-797 | with at least one member, every side is finite and every member's margin box lies inside |
| SegmentBounds.BoxIsTight | src/components/IntegrationFlow/IntegrationFlow.tsx:794-797 | each side of the box touches some member's margin box |
| SegmentBounds.KafkaOverhangsAsWritten | src/components/IntegrationFlow/IntegrationFlow.tsx:795 | an illustration at the origin: as written, a Kafka node's right edge (240) passes the right side of its segment's box (230) |
| SegmentBounds.CorrectedBoxContainsFootprints | src/components/IntegrationFlow/IntegrationFlow.tsx:794-797 | with the corrected extents, every member's full box at its layout size lies inside the segment box, with the margin left and above |
| SegmentBounds.FitGroups | src/components/IntegrationFlow/IntegrationFlow.tsx:791-800 | the pass keeps every segment name and every member list |
| SegmentBounds.FitGroupsStep | src/components/IntegrationFlow/IntegrationFlow.tsx:791-800 | fitting one more laid-out node is one visit of all segments with that node |
| SegmentBounds.FitNode | src/components/IntegrationFlow/IntegrationFlow.tsx:792-799 | the inner loop over segment names widens exactly the boxes whose members include the node |
| SegmentBounds.FitSegments | src/components/IntegrationFlow/IntegrationFlow.tsx:791-800 | the nested loops give the reference box of every segment |
| SegmentBounds.OverlayOf | src/components/IntegrationFlow/IntegrationFlow.tsx:661-682 | no entry under the name means nothing is drawn; a finite box is drawn at its viewport image, with the label 20 right of and 30 above its corner |
| SegmentBounds.Overlays | src/components/IntegrationFlow/IntegrationFlow.tsx:661-705 | one overlay per segment, in order, each looked up by that segment's name |
| SegmentBounds.SameNameSameOverlay | src/components/IntegrationFlow/IntegrationFlow.tsx:662 | segments sharing a name draw the same box |
| SegmentBounds.ScreenContainment | src/components/IntegrationFlow/IntegrationFlow.tsx:669-671 | at a positive zoom, a canvas point inside a box is drawn inside the box's on-screen background |
| Palette.NodeColor | src/components/IntegrationFlow/IntegrationFlow.tsx:214-233 | the file-level accent: Kafka is green, k8s is blue, and any type outside the seven known names gets the default grey |
| Palette.CustomNodeColor | src/components/IntegrationFlow/IntegrationFlow.tsx:48-62 | the plain node's own accent: it agrees with the file-level accent on its four known types, and gives the default grey to every other type |
| Palette.AccentsAgreeExceptNewTypes | src/components/IntegrationFlow/IntegrationFlow.tsx:48-62 | the two accents differ exactly on input, output and llm-service, in any letter case |
| Palette.NodeAccent | src/components/IntegrationFlow/IntegrationFlow.tsx:48-136 | a container is drawn in the `k8s` accent; a plain node is drawn in its own accent of its type; without a type (a required field) the render throws, which is `None` |
| Palette.K8sElementsBlue | src/components/IntegrationFlow/IntegrationFlow.tsx:267-268 | an element of type `k8s`, container or not, is drawn blue |
| Palette.NewTypesDrawnGrey | src/components/IntegrationFlow/IntegrationFlow.tsx:48-62 | an element of type input, output or llm-service is drawn in the default grey, although the file-level accent has a colour for it |
| Palette.SegmentColor | src/components/IntegrationFlow/IntegrationFlow.tsx:646-657 | any segment name other than delta, omega or alpha gets the default tint |
| Palette.NodeColorsDistinguishTypes | src/components/IntegrationFlow/IntegrationFlow.tsx:214-233 | each of the seven known types has a colour that no other type, in any letter case, shares |
| Palette.SegmentColorsDistinguishNames | src/components/IntegrationFlow/IntegrationFlow.tsx:646-657 | delta, omega and alpha each have a tint that no other segment name shares |
| Palette.NodeColorIgnoresCase | src/components/IntegrationFlow/IntegrationFlow.tsx:215 | type spellings differing only in letter case get the same colour |
| Palette.ColorsOfLowerCase | src/components/IntegrationFlow/IntegrationFlow.tsx:646-657 | both colours are chosen by the lower-cased name |
| Flow.Laid | src/components/IntegrationFlow/IntegrationFlow.tsx:785-789 | the laid-out nodes are in element order and carry the element nodes' ids |
| Flow.Render | src/components/IntegrationFlow/IntegrationFlow.tsx:710-804 | with either extents: one node per element, one overlay per segment, one box per distinct segment name, and no segment without its overlay |
| Flow.NodeAtElement | src/components/IntegrationFlow/IntegrationFlow.tsx:716-753 | the node of element j of segment i is at that element's flattened position and carries its id |
| Flow.SegmentBoxHoldsNode | src/components/IntegrationFlow/IntegrationFlow.tsx:791-800 | corrected: the fitted box of a segment holds the full footprint of each of its element's nodes |
| Flow.ElementInsideItsSegment | src/components/IntegrationFlow/IntegrationFlow.tsx:785-800 | corrected: for any layout and positive zoom, every element of a segment with no later namesake has its layout footprint (the size given to the layout library) inside the placed background of its segment |
| Flow.PlacedAroundFootprint | src/components/IntegrationFlow/IntegrationFlow.tsx:665-671 | a footprint inside a finite box is drawn inside that box's background |
| Flow.EmptySegmentNotPlaced | src/components/IntegrationFlow/IntegrationFlow.tsx:765-771 | a segment without elements gets no placed box |
| Flow.LoneElementParts | src/components/IntegrationFlow/IntegrationFlow.tsx:710-800 | for one segment holding one element, the one drawn node is that element's node, and the segment's overlay is its fitted box |
| Flow.KafkaDrawnOutsideAsWritten | src/components/IntegrationFlow/IntegrationFlow.tsx:795 | as written, the layout footprint (the size given to the layout library) of a Kafka element alone in its segment reaches past the right side of the segment's background, for any layout and positive zoom |
| Flow.LoneKafkaBoxShort | src/components/IntegrationFlow/IntegrationFlow.tsx:795 | as written, the box of a lone Kafka member stops short of the node's right edge |
| Flow.OverhangNotInside | src/components/IntegrationFlow/IntegrationFlow.tsx:665-671 | a layout footprint reaching past a box's right side does not lie inside that box's background |
| SegmentBounds.LoneSimpleBoxAsWritten | src/components/IntegrationFlow/IntegrationFlow.tsx:795 | as written, the box of one simple member ends 230 right of its left edge |
| Loader.LastSlash | src/utils/integrationLoader.ts:5 | the index of the last '/', or -1: the character there is '/' and none follows it |
| Loader.LastSegment | src/utils/integrationLoader.ts:5 | the text after the last '/': it contains no '/', is a suffix, and is the whole string or follows a '/' |
| Loader.Capture | src/utils/integrationLoader.ts:5 | a captured name is a non-empty run of non-'/' characters that follows a '/' or starts the path, and is followed by `/integration.yaml` at the end |
| Loader.CaptureComplete | src/utils/integrationLoader.ts:5 | whenever the pattern can match, `Capture` finds that match, so `None` means no match |
| Loader.LastSegmentAfterSlash | src/utils/integrationLoader.ts:5 | a name without '/' is the last segment of any text ending in '/' followed by the name |
| Loader.ReplaceHyphens | src/utils/integrationLoader.ts:6 | every '-' becomes a space; every other character is kept |
| Loader.NameFromPath | src/utils/integrationLoader.ts:4-7 | the captured directory name with hyphens as spaces, or "Unknown Integration" when there is no match |
| Loader.ServerPathName | server.js:42 | a path the list endpoint announces is named after its directory |
| Loader.HyphenFreeNameKept | src/utils/integrationLoader.ts:4-7 | a directory name without hyphens is shown as it is |
| Loader.NormalizeSegmentName | src/utils/integrationLoader.ts:9-16 | the result differs from the input only in letter case; a known name in any case becomes its capitalised form; any other name is kept |
| Loader.NormalizeIdempotent | src/utils/integrationLoader.ts:9-16 | normalising twice is the same as normalising once |
| Loader.NormalizeIgnoresCase | src/utils/integrationLoader.ts:9-16 | spellings of a known name differing in case normalise alike |
| Loader.ProjectSegment | src/utils/integrationLoader.ts:55-58 | an entry fails exactly when it is null or its name is not a string; otherwise the name is normalised and the elements default to empty |
| Loader.ProjectSegments | src/utils/integrationLoader.ts:55-58 | the segments succeed exactly when every entry does, and are then projected one-for-one in order |
| Loader.Project | src/utils/integrationLoader.ts:44-59 | a missing document, integration or segment list gives nothing; otherwise the name comes from the path, the description is `description \|\| ''`, and the segments are the entries projected one-for-one |
| Loader.ProjectIgnoresDocumentName | src/utils/integrationLoader.ts:49-53 | the document's own `name` never affects the result |
| Loader.LoadOne | src/utils/integrationLoader.ts:33-64 | an HTTP or parse failure gives nothing; a body gives its projection |
| Loader.LoadIntegrations | src/utils/integrationLoader.ts:67-88 | a failed listing gives no integrations; otherwise the loop keeps, in list order, every path that loads |
| Loader.PresentMembership | src/utils/integrationLoader.ts:72-77 | a value is kept exactly when some outcome holds it |
| Loader.PresentInOrder | src/utils/integrationLoader.ts:72-77 | the kept values keep the order of their outcomes |
| Loader.PresentPositionsComplete | src/utils/integrationLoader.ts:72-77 | the kept positions are exactly the positions of successful outcomes |
| Loader.AllPresent | src/utils/integrationLoader.ts:72-77 | when every file loads, nothing is dropped |
| Loader.LoadedMembership | src/utils/integrationLoader.ts:67-88 | an integration is shown exactly when some listed path loads to it |
| Loader.LoadedNames | src/utils/integrationLoader.ts:49-77 | every shown integration is named after the path it came from |
| App.ElementIsCandidate | src/App.tsx:44-48 | every element of every segment is visited by the click lookup |
| App.ServiceIsCandidate | src/App.tsx:44-53 | every nested service of every element is visited by the click lookup |
| App.ServiceInSegmentCandidates | src/App.tsx:45-53 | every nested service of a segment's elements is visited by that segment's part of the lookup |
| App.ScanAppend | src/App.tsx:44-55 | scanning two runs of candidates is scanning one and then the other |
| App.LastWhereSpec | src/App.tsx:44-57 | the lookup finds nothing exactly when no candidate matches, and otherwise finds the last candidate that matches |
| App.ScanServices | src/App.tsx:49-53 | the services loop agrees with the reference scan |
| App.ScanElement | src/App.tsx:45-54 | an element's step checks the element and then its services |
| App.ScanSegment | src/App.tsx:45-54 | the elements loop agrees with the reference scan |
| App.FindElement | src/App.tsx:41-55 | with no integration selected, nothing is found; otherwise the last element or service with a strictly equal id is found |
| App.FinishLoad | src/App.tsx:17-30 | loading ends either way; a list is stored and its first entry selected when there is one; a throw records its message or the fixed Russian fallback |
| App.SelectIntegration | src/App.tsx:35-39 | selecting an integration clears the selection and closes the dialog, and nothing else changes |
| App.ClickElement | src/App.tsx:41-59 | the dialog opens; the selection is the last candidate with exactly the clicked id, and is empty exactly when no candidate has that id |
| App.CloseModal | src/App.tsx:105 | only the open flag changes |
| App.FlowSelectedId | src/App.tsx:95 | the highlighted id is the selection's id when that id is truthy, and null otherwise |
| App.FalsyIdNotHighlighted | src/App.tsx:95 | a selected item with id `0` or `''` highlights no service |
| App.ClickedServiceHighlighted | src/App.tsx:95 | looking up a service's truthy id (the service row's handler taken alone) highlights exactly the services with that id |
| App.View | src/App.tsx:61-108 | the spinner shows while loading; otherwise a non-empty error shows; otherwise the dashboard shows, with a flow exactly when an integration is selected |
| App.FirstLoadShowsFirstIntegration | src/App.tsx:17-30 | a successful first load shows the first integration's flow, with nothing highlighted and the dialog closed |
| App.FailedLoadShowsError | src/App.tsx:25-75 | a failed load shows the error text |
| App.ClickNodeAsWritten | src/components/IntegrationFlow/IntegrationFlow.tsx:806-811 | as written, a node click passes the node's string id to the strict lookup; an empty id is ignored |
| App.NumericIdClickFindsNothing | src/components/IntegrationFlow/IntegrationFlow.tsx:806-811 | as written, clicking the node of an element with numeric id 7 sets the dialog open with no item selected |
| App.ClickNode | src/components/IntegrationFlow/IntegrationFlow.tsx:806-811 | corrected: the selection is a candidate whose printed id is the node id |
| App.ClickNodeFindsElement | src/components/IntegrationFlow/IntegrationFlow.tsx:806-811 | corrected: clicking any element's node selects an item whose id prints as that node id |
| App.ClickNodeAgreesOnStringIds | src/App.tsx:41-59 | where every id is a string, the corrected click equals the written one |
| App.LastWhereAgree | src/App.tsx:44-55 | two tests that agree on every candidate find the same item |
| App.LastOfTwo | src/App.tsx:44-55 | among two candidates the lookup finds the second if it matches, else the first if it matches, else nothing |
| App.ClickServiceAsWritten | src/components/IntegrationFlow/IntegrationFlow.tsx:344 | as written, a service click always ends as the bubbled click on its container node: the dialog opens and the service lookup leaves no trace |
| App.LoneContainerCandidates | src/App.tsx:44-55 | one container with one service gives two candidates: the container, then the service |
| App.ServiceClickShowsContainer | src/components/IntegrationFlow/IntegrationFlow.tsx:344 | as written, clicking service "api" of container "pod" first finds the service, then ends with the container selected |
| App.ServiceClickSelectsService | src/App.tsx:41-59 | with the click kept from bubbling, clicking any service opens the dialog on an item with its id, and on the service itself when no other item shares that id |
| App.Step | src/App.tsx:17-106 | the load result is taken only while loading; user actions change nothing unless the dashboard shows |
| App.InitialInv | src/App.tsx:10-15 | the initial state keeps the invariant |
| App.StepPreservesInv | src/App.tsx:17-106 | every event keeps the invariant: the highlighted integration is one of the list, and the selected item is an element or service of it |
| App.RunPreservesInv | src/App.tsx:10-106 | every state reached from the initial one by any events keeps the invariant |
| App.ErrorScreenIsFinal | src/App.tsx:69-75 | once the error screen shows, no event changes the state |
| Details.HostOf | src/components/ElementDetailsModal/ElementDetailsModal.tsx:56 | `url.split(':')[0]`: a prefix of the URL without ':', which is the whole URL or is followed by ':' |
| Details.InParams | src/components/ElementDetailsModal/ElementDetailsModal.tsx:41-66 | the nine in-keys in order; a service shows its connection host, port, url and DN, and no Kafka value; anything else shows the host of its connection URL, its port and url, no DN, and its `max_message_bytes` as the Kafka value |
| Details.OutParams | src/components/ElementDetailsModal/ElementDetailsModal.tsx:68-87 | the six out-keys in order; only a service has values: the host, port and url of its destination |
| Details.CommonSettings | src/components/ElementDetailsModal/ElementDetailsModal.tsx:89-96 | the four common keys, none of them set |
| Details.Display | src/components/ElementDetailsModal/ElementDetailsModal.tsx:30 | an undefined value prints '-'; any other value prints as `String(value)` |
| Details.Rows | src/components/ElementDetailsModal/ElementDetailsModal.tsx:26-33 | one row per parameter, in order, labelled `key:` |
| Details.Modal | src/components/ElementDetailsModal/ElementDetailsModal.tsx:38-126 | no dialog without a selection; otherwise the open flag passes through, the title is an element's name, a service's `service` key, or undefined for an element without `type`, and the three sections are the printed in, out and common parameters of the item |
| Details.CommonSettingsAllDashes | src/components/ElementDetailsModal/ElementDetailsModal.tsx:89-96 | the common settings always read '-' |
| Details.NamelessServiceShowsNothing | src/components/ElementDetailsModal/ElementDetailsModal.tsx:12-14 | a service without a `service` key has no title and shows '-' for every in-parameter |
| Details.ElementHostShown | src/components/ElementDetailsModal/ElementDetailsModal.tsx:56 | an element's host row shows the URL up to its first ':' |
| Details.HostCutAtColon | src/components/ElementDetailsModal/ElementDetailsModal.tsx:56 | the host is the whole URL, or the part before its first ':' |
| Details.ServiceEndpointsShown | src/components/ElementDetailsModal/ElementDetailsModal.tsx:42-87 | a named service's dialog shows its connection endpoint in the in-rows and its destination endpoint in the out-rows |
| Details.ElementRowsShown | src/components/ElementDetailsModal/ElementDetailsModal.tsx:55-87 | an element's out-rows all read '-', and its Kafka row prints its `max_message_bytes` |
| Details.NumericIdClickShowsNoDialog | src/components/ElementDetailsModal/ElementDetailsModal.tsx:39 | as written, after clicking the node of an element with numeric id 7 the open flag is set but no dialog is drawn |

## Left out

- The layout library's own algorithm is not modelled. It is the `Engine` parameter: any function from the graph to a node's centre.
- Rendering is not modelled: React, CSS, animation and the node components' markup. Only the values they are computed from are modelled.
- Fetching and YAML parsing are not modelled. They are the `fetch` and `listing` parameters, and their outcome is `Fetched`.
- `createIntegrationPolling` (repeated reload on a timer) is not modelled, because it needs a clock. The embedded `sampleIntegration` text is not used by the code.
- Several JavaScript value distinctions are not modelled. `Option` conflates `null` with a missing key: a present `null` value would print as "null" in the dialog but is modelled as '-'.
- Js.ToLower: lower-cases ASCII letters only, while `toLowerCase` also folds non-ASCII letters. A type spelled with a non-ASCII capital that folds to an ASCII letter therefore differs here: with U+212A KELVIN SIGN, "\u212Aafka" is Kafka in the program but not in the model.
- Js.ToStr: ids are whole numbers or strings. Non-integral numbers, numbers printed in exponent form (from 1e21 up), numbers beyond 2^53 that lose precision, and a missing id, which prints as "undefined", are not represented.
- The file-level `getNodeColor` is only called with the constants 'k8s', 'input', 'output' and 'llm-service', by the container, input, output and LLM node components. The flow registers all five components, but the build creates only container and plain nodes (src/components/IntegrationFlow/IntegrationFlow.tsx:725 and 744), so only its 'k8s' colour reaches the flow. `Palette.NodeColor` models it for all seven names.
- Loader.NormalizeSegmentName: does not model that `segmentMap[...]` also finds inherited keys such as "constructor", which would return a function rather than a string.
- Loader.Project: the parsed fields are typed (a string description, a list of segments). A non-list `segments` value, which would make `.map` throw, is not represented.
- A degenerate box of an empty segment is drawn with infinite CSS values. Here it is the `Degenerate` overlay, with no coordinates.
- The `kafka_topic` row shows `kafkaConfig.max_message_bytes`. It is modelled as written, because no stated intent says which value belongs there.
- The size a node is rendered at is not modelled. A node is measured by the size handed to the layout library, while its markup sets the rendered size: a plain node has a minimum width of 200px plus padding and grows with its label; a container has a minimum width of 300px and grows by one row per service (src/components/IntegrationFlow/IntegrationFlow.tsx:76-80 and 234-262). The rendered node can therefore differ from its layout footprint, and the containment and overhang results hold for the footprint only.
- The edge `type: 'smoothstep'`, the edge styling and the arrow markers are not modelled.
- App.Step: a `ClickId` event is one call of the click handler. The bubbling of a service click to its container node, which as written always follows and replaces the selection, is modelled separately by `App.ClickServiceAsWritten`. The state machine uses the corrected behaviour, where the service click stands alone.
- `Segment.tsx`, `Node.tsx`, `ElementDetails.tsx`, the chat interface and the LLM handler are not part of this model.
- Palette.SegmentColor: the contract states only the default tint. The three named tints are constants the body lists, and `Palette.SegmentColorsDistinguishNames` states that they are distinct.
- App.FailedLoadShowsError: the `Threw` outcome cannot arise with this loader, because `loadIntegrations` catches every failure and returns an empty list (src/utils/integrationLoader.ts:84-87). The branch is kept because `App.FinishLoad` models the handler for any loader.
- App.Step: the mount effect is modelled as one `LoadDone` event taken while loading. React's scheduling of the effect against user input is not modelled.
- Palette.NodeColor: the contract names the Kafka and k8s colours and the default. The other five are constants the body lists, and `Palette.NodeColorsDistinguishTypes` states that they are distinct.

## Findings

| source | as written | input that shows it | evidently intended | confidence | as-written member | corrected member |
|---|---|---|---|---|---|---|
| src/components/IntegrationFlow/IntegrationFlow.tsx:795 | a simple node widens its segment's box to 230 right of its left edge, but Kafka nodes are laid out 240 wide | one Kafka node at (0, 0): the box's right side is 230, the node's right edge is 240 | the box contains every member node's full footprint | not executed; high | Flow.KafkaDrawnOutsideAsWritten | Flow.ElementInsideItsSegment |
| src/components/IntegrationFlow/IntegrationFlow.tsx:806-811 | a node click hands the node's id, always a string, to a lookup that compares ids with `===` | an element with numeric id 7: the node id is "7", `"7" === 7` is false, so the open flag is set with no item and no dialog is drawn | clicking a node opens that element's details | not executed; medium | Details.NumericIdClickShowsNoDialog | App.ClickNodeFindsElement |
| src/components/IntegrationFlow/IntegrationFlow.tsx:344 | the service row's click handler does not stop the click from bubbling, so the flow's node click (lines 806-811) then runs with the container's id and replaces the selection | a container "pod" with one service "api": clicking the service ends with the container selected | clicking a service opens that service's details | not executed; medium | App.ServiceClickShowsContainer | App.ServiceClickSelectsService |
