/**
  The colour choices of the flow view: the accent colour of each node and
  the background tint of each segment, both chosen case-insensitively.
  Two accent functions exist: the file-level `getNodeColor`, which the
  container node calls with the constant `'k8s'` (and the input, output
  and LLM node components, which the graph builder never creates, with
  their own constants), and the plain node's local one, which knows only
  four types and colours every plain node by its element type.
 */
module Palette {
  import opened Js
  import opened Types
  import opened GraphBuilder

  /** The file-level `getNodeColor`: the accent colour for an element
      type. */
  function NodeColor(elementType: string): (c: string)
    ensures ToLower(elementType) == "kafka" ==> c == "#4CAF50"
    ensures ToLower(elementType) == "k8s" ==> c == "#2196F3"
    ensures ToLower(elementType) !in KnownTypes ==> c == DefaultAccent
  {
    match ToLower(elementType)
    case "kafka" => "#4CAF50"
    case "k8s" => "#2196F3"
    case "nginx" => "#FF9800"
    case "geo-load-balancer" => "#9C27B0"
    case "input" => "#00BCD4"
    case "output" => "#009688"
    case "llm-service" => "#E91E63"
    case _ => DefaultAccent
  }

  const DefaultAccent := "#607D8B"

  const KnownTypes: set<string> := {"kafka", "k8s", "nginx", "geo-load-balancer", "input", "output", "llm-service"}

  const KnownSegmentTints: set<string> := {"delta", "omega", "alpha"}

  /** `getSegmentColor`: the translucent background tint for a segment. */
  function SegmentColor(name: string): (c: string)
    ensures ToLower(name) !in KnownSegmentTints ==> c == "rgba(96, 125, 139, 0.1)"
  {
    match ToLower(name)
    case "delta" => "rgba(76, 175, 80, 0.1)"
    case "omega" => "rgba(255, 152, 0, 0.1)"
    case "alpha" => "rgba(33, 150, 243, 0.1)"
    case _ => "rgba(96, 125, 139, 0.1)"
  }

  /** Each known type has a colour of its own: no other type, known or
      not, in any letter case, shares it. */
  lemma NodeColorsDistinguishTypes(a: string, b: string)
    requires ToLower(a) in KnownTypes && ToLower(a) != ToLower(b)
    ensures NodeColor(a) != NodeColor(b)
  {
  }

  /** Each of the three named segments has a tint of its own, distinct
      from every other name's. */
  lemma SegmentColorsDistinguishNames(a: string, b: string)
    requires ToLower(a) in KnownSegmentTints && ToLower(a) != ToLower(b)
    ensures SegmentColor(a) != SegmentColor(b)
  {
  }

  /** The plain node's own `getNodeColor`: the four types it knows get
      the file-level colour; every other type, input, output and
      llm-service included, gets the default grey. */
  function CustomNodeColor(elementType: string): (c: string)
    ensures ToLower(elementType) in CustomKnownTypes ==> c == NodeColor(elementType)
    ensures ToLower(elementType) !in CustomKnownTypes ==> c == DefaultAccent
  {
    match ToLower(elementType)
    case "kafka" => "#4CAF50"
    case "k8s" => "#2196F3"
    case "nginx" => "#FF9800"
    case "geo-load-balancer" => "#9C27B0"
    case _ => DefaultAccent
  }

  const CustomKnownTypes: set<string> := {"kafka", "k8s", "nginx", "geo-load-balancer"}

  /** The two accent functions agree on a type exactly when it is not one
      of the three that only the file-level one knows. */
  lemma AccentsAgreeExceptNewTypes(t: string)
    ensures CustomNodeColor(t) == NodeColor(t) <==> ToLower(t) !in {"input", "output", "llm-service"}
  {
  }

  /** The accent a built node is drawn with: a container calls the
      file-level function with `'k8s'`; a plain node calls its local one
      with its element type. The element type is a required field; when it
      is missing anyway, `toLowerCase` throws and the node's render fails,
      which is `None` here. */
  function NodeAccent(n: Node): (r: Option<string>)
    ensures n.kind.K8s? ==> r == Some(NodeColor("k8s"))
    ensures n.kind.Custom? ==> (r.Some? <==> n.elementType.Some?)
    ensures n.kind.Custom? && n.elementType.Some? ==> r == Some(CustomNodeColor(n.elementType.value))
  {
    match n.kind
    case K8s(_) => Some(NodeColor("k8s"))
    case Custom => if n.elementType.Some? then Some(CustomNodeColor(n.elementType.value)) else None
  }

  /** Every element whose type spells `k8s` in any letter case is drawn
      blue, whether it became a container or a plain node. */
  lemma K8sElementsBlue(e: Element, selectedId: Option<Scalar>)
    requires e.elementType.Some? && ToLower(e.elementType.value) == "k8s"
    ensures NodeAccent(NodeOf(e, selectedId)) == Some("#2196F3")
  {
    assert ToLower("k8s") == "k8s";
  }

  /** An input, output or LLM-service element is a plain node, so it is
      drawn in the default grey, not in the colour the file-level function
      has for its type. */
  lemma NewTypesDrawnGrey(e: Element, selectedId: Option<Scalar>)
    requires e.elementType.Some? && ToLower(e.elementType.value) in {"input", "output", "llm-service"}
    ensures NodeAccent(NodeOf(e, selectedId)) == Some(DefaultAccent)
    ensures NodeColor(e.elementType.value) != DefaultAccent
  {
    assert ToLower("k8s") == "k8s";
  }

  /** Spelling a type in another letter case picks the same colour. */
  lemma NodeColorIgnoresCase(a: string, b: string)
    requires ToLower(a) == ToLower(b)
    ensures NodeColor(a) == NodeColor(b)
  {
  }

  /** Each colour is the colour of the lower-cased name. */
  lemma ColorsOfLowerCase(s: string)
    ensures NodeColor(ToLower(s)) == NodeColor(s)
    ensures SegmentColor(ToLower(s)) == SegmentColor(s)
  {
    ToLowerIdempotent(s);
  }
}
