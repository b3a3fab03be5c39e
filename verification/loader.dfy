/**
  Loading integrations: the display name taken from the file path, the
  canonical segment names, the projection of a parsed YAML document onto
  the integration model, and the sequential load of every listed file.
  Fetching and YAML parsing are not modelled: the outcome of fetching and
  parsing a path is the `fetch` parameter.
 */
module Loader {
  import opened Js
  import opened Types

  // ---------------------------------------------------------------------
  // The display name from the path

  /** The fixed tail of every integration file path. */
  const Suffix := "/integration.yaml"

  /** The name used when the path has no directory before the file. */
  const UnknownName := "Unknown Integration"

  /** The index of the last '/' in `s`, or -1 when it has none. */
  function LastSlash(s: string): (r: int)
    ensures -1 <= r < |s|
    ensures r >= 0 ==> s[r] == '/'
    ensures forall j :: r < j < |s| ==> s[j] != '/'
    decreases |s|
  {
    if s == [] then -1
    else if s[|s| - 1] == '/' then |s| - 1
    else LastSlash(s[..|s| - 1])
  }

  /** The part of `s` after its last '/' (all of `s` when it has none). */
  function LastSegment(s: string): (r: string)
    ensures '/' !in r
    ensures |r| <= |s| && r == s[|s| - |r|..]
    ensures |r| == |s| || s[|s| - |r| - 1] == '/'
  {
    var k := LastSlash(s) + 1;
    assert forall i :: 0 <= i < |s| - k ==> s[k..][i] == s[k + i];
    s[k..]
  }

  /** The file-name pattern `([^/]+)/integration\.yaml$` matches `path`
      with `d` as its captured directory name: the path ends with the
      suffix, the directory name is a non-empty run of non-'/' characters,
      and the match starts as far left as it can (at the start of the path
      or right after a '/'). */
  predicate CapturesAt(path: string, pre: string, d: string)
  {
    && path == pre + d + Suffix
    && |d| > 0 && '/' !in d
    && (pre == [] || pre[|pre| - 1] == '/')
  }

  /** The captured group of the pattern, if it matches. */
  function Capture(path: string): (r: Option<string>)
    ensures r.Some? ==> |r.value| + |Suffix| <= |path|
    ensures r.Some? ==> CapturesAt(path, path[..|path| - |Suffix| - |r.value|], r.value)
  {
    if |path| >= |Suffix| && path[|path| - |Suffix|..] == Suffix then
      var stem := path[..|path| - |Suffix|];
      var d := LastSegment(stem);
      if d == [] then None
      else
        SplitStem(path, stem, d);
        Some(d)
    else None
  }

  /** The path splits into what precedes the directory name, the name
      and the suffix. */
  lemma SplitStem(path: string, stem: string, d: string)
    requires |path| >= |Suffix| && path[|path| - |Suffix|..] == Suffix
    requires stem == path[..|path| - |Suffix|]
    requires |d| <= |stem| && d == stem[|stem| - |d|..]
    requires |d| == |stem| || stem[|stem| - |d| - 1] == '/'
    ensures |d| + |Suffix| <= |path|
    ensures path == path[..|path| - |Suffix| - |d|] + d + Suffix
    ensures var pre := path[..|path| - |Suffix| - |d|];
      pre == [] || pre[|pre| - 1] == '/'
  {
    var pre := path[..|path| - |Suffix| - |d|];
    assert pre == stem[..|stem| - |d|];
    assert stem == pre + d;
    assert path == stem + Suffix;
  }

  /** A directory name without '/' is the last segment of anything
      ending with a '/' followed by it. */
  lemma LastSegmentAfterSlash(pre: string, d: string)
    requires '/' !in d
    requires pre == [] || pre[|pre| - 1] == '/'
    ensures LastSegment(pre + d) == d
  {
    var s := pre + d;
    assert LastSlash(s) == |pre| - 1;
    assert s[|pre|..] == d;
  }

  /** The pattern captures exactly the directory names `CapturesAt`
      describes: whenever such a match exists, `Capture` finds it, so a
      `None` means there is no match at all. */
  lemma CaptureComplete(path: string, pre: string, d: string)
    requires CapturesAt(path, pre, d)
    ensures Capture(path) == Some(d)
  {
    assert path[|path| - |Suffix|..] == Suffix;
    assert path[..|path| - |Suffix|] == pre + d;
    LastSegmentAfterSlash(pre, d);
  }

  /** `replace(/-/g, ' ')` */
  function ReplaceHyphens(s: string): (r: string)
    ensures |r| == |s|
    ensures '-' !in r
    ensures forall i :: 0 <= i < |s| && s[i] != '-' ==> r[i] == s[i]
    ensures forall i :: 0 <= i < |s| && s[i] == '-' ==> r[i] == ' '
  {
    seq(|s|, i requires 0 <= i < |s| => if s[i] == '-' then ' ' else s[i])
  }

  /** `getIntegrationNameFromPath`: the directory holding the file, with
      hyphens turned into spaces, or the fixed unknown name. */
  function NameFromPath(path: string): (r: string)
    ensures '-' !in r
    ensures Capture(path).None? ==> r == UnknownName
    ensures Capture(path).Some? ==> r == ReplaceHyphens(Capture(path).value)
  {
    match Capture(path)
    case None => UnknownName
    case Some(d) => ReplaceHyphens(d)
  }

  /** The paths the list endpoint announces, `/integration/<dir>/integration.yaml`,
      are named after their directory. */
  lemma ServerPathName(dir: string)
    requires |dir| > 0 && '/' !in dir
    ensures NameFromPath("/integration/" + dir + Suffix) == ReplaceHyphens(dir)
  {
    CaptureComplete("/integration/" + dir + Suffix, "/integration/", dir);
  }

  /** A directory name without hyphens is shown as it is. */
  lemma HyphenFreeNameKept(dir: string)
    requires |dir| > 0 && '/' !in dir && '-' !in dir
    ensures NameFromPath("/integration/" + dir + Suffix) == dir
  {
    ServerPathName(dir);
  }

  // ---------------------------------------------------------------------
  // Canonical segment names

  /** `normalizeSegmentName`: the three known names, in any letter case,
      become their capitalised form; anything else is kept. */
  function NormalizeSegmentName(name: string): (r: string)
    ensures ToLower(r) == ToLower(name)
    ensures ToLower(name) in KnownSegments ==> r in CanonicalSegments
    ensures ToLower(name) !in KnownSegments ==> r == name
  {
    match ToLower(name)
    case "source" => assert ToLower("Source") == "source"; "Source"
    case "processing" => assert ToLower("Processing") == "processing"; "Processing"
    case "destination" => assert ToLower("Destination") == "destination"; "Destination"
    case _ => name
  }

  const KnownSegments: set<string> := {"source", "processing", "destination"}
  const CanonicalSegments: set<string> := {"Source", "Processing", "Destination"}

  /** Normalising a normalised name changes nothing. */
  lemma NormalizeIdempotent(name: string)
    ensures NormalizeSegmentName(NormalizeSegmentName(name)) == NormalizeSegmentName(name)
  {
  }

  /** Two spellings of a known name that differ only in letter case are
      normalised to the same name. */
  lemma NormalizeIgnoresCase(a: string, b: string)
    requires ToLower(a) == ToLower(b) && ToLower(a) in KnownSegments
    ensures NormalizeSegmentName(a) == NormalizeSegmentName(b)
  {
  }

  // ---------------------------------------------------------------------
  // Projection of the parsed document

  /** One entry of the document's `segments` list, as parsed. The name may
      be missing or not a string. */
  datatype ParsedSegment = ParsedSegment(segment: Option<Scalar>, elements: Option<seq<Element>>)

  /** The document's `integration` mapping. Its own `name` is never read. */
  datatype ParsedIntegration = ParsedIntegration(
    name: Option<string>,
    description: Option<string>,
    segments: Option<seq<Option<ParsedSegment>>>)

  datatype ParsedDoc = ParsedDoc(integration: Option<ParsedIntegration>)

  /** One segment entry; `None` where the source throws (a null entry, or
      a name without `toLowerCase`). */
  function ProjectSegment(entry: Option<ParsedSegment>): (r: Option<Segment>)
    ensures r.Some? <==> entry.Some? && entry.value.segment.Some? && entry.value.segment.value.Str?
    ensures r.Some? ==> r.value.segment == NormalizeSegmentName(entry.value.segment.value.s)
    ensures r.Some? && entry.value.elements.Some? ==> r.value.elements == entry.value.elements.value
    ensures r.Some? && entry.value.elements.None? ==> r.value.elements == []
  {
    match entry
    case None => None
    case Some(ps) =>
      match ps.segment
      case Some(Str(name)) =>
        var elements := match ps.elements case Some(es) => es case None => [];
        Some(Segment(NormalizeSegmentName(name), elements))
      case _ => None
  }

  /** All segment entries in order, or `None` as soon as one fails. */
  function ProjectSegments(entries: seq<Option<ParsedSegment>>): (r: Option<seq<Segment>>)
    ensures r.Some? <==> forall i :: 0 <= i < |entries| ==> ProjectSegment(entries[i]).Some?
    ensures r.Some? ==> |r.value| == |entries|
    ensures r.Some? ==> forall i :: 0 <= i < |entries| ==> Some(r.value[i]) == ProjectSegment(entries[i])
    decreases |entries|
  {
    if entries == [] then Some([])
    else
      var front := entries[..|entries| - 1];
      assert forall i :: 0 <= i < |front| ==> front[i] == entries[i];
      match (ProjectSegments(front), ProjectSegment(entries[|entries| - 1]))
      case (Some(ss), Some(s)) => Some(ss + [s])
      case _ => None
  }

  /** The projection step of `loadIntegration`: `None` for a missing
      document, integration or segment list and for a failing segment;
      otherwise the name comes from the path, the description defaults to
      the empty string and the segments are projected in order. */
  function Project(path: string, doc: Option<ParsedDoc>): (r: Option<Integration>)
    ensures r.Some? <==>
      && doc.Some? && doc.value.integration.Some? && doc.value.integration.value.segments.Some?
      && ProjectSegments(doc.value.integration.value.segments.value).Some?
    ensures r.Some? ==> r.value.name == NameFromPath(path)
    ensures r.Some? ==> |r.value.segments| == |doc.value.integration.value.segments.value|
    ensures r.Some? ==> Some(r.value.segments) == ProjectSegments(doc.value.integration.value.segments.value)
    ensures r.Some? ==> r.value.description == OrElse(doc.value.integration.value.description, Some("")).value
  {
    if doc.None? || doc.value.integration.None? || doc.value.integration.value.segments.None? then None
    else
      var pi := doc.value.integration.value;
      match ProjectSegments(pi.segments.value)
      case None => None
      case Some(segs) =>
        var description := if pi.description.Some? && pi.description.value != "" then pi.description.value else "";
        Some(Integration(NameFromPath(path), description, segs))
  }

  /** The document's own `name` has no effect on the result. */
  lemma ProjectIgnoresDocumentName(path: string, pi: ParsedIntegration, other: Option<string>)
    ensures Project(path, Some(ParsedDoc(Some(pi)))) == Project(path, Some(ParsedDoc(Some(pi.(name := other)))))
  {
  }

  // ---------------------------------------------------------------------
  // Loading every listed file

  /** The outcome of fetching and parsing one path. */
  datatype Fetched =
    | HttpFailed               // a response that is not ok
    | ParseFailed              // the body is not valid YAML
    | Body(doc: Option<ParsedDoc>)

  /** `loadIntegration`: `None` on every failure. */
  function LoadOne(path: string, f: Fetched): (r: Option<Integration>)
    ensures r.Some? ==> f.Body? && r == Project(path, f.doc)
    ensures f.Body? ==> r == Project(path, f.doc)
  {
    match f
    case HttpFailed => None
    case ParseFailed => None
    case Body(doc) => Project(path, doc)
  }

  /** What each listed path loads to, in list order. */
  function Outcomes(paths: seq<string>, fetch: string -> Fetched): (os: seq<Option<Integration>>)
    ensures |os| == |paths|
  {
    seq(|paths|, k requires 0 <= k < |paths| => LoadOne(paths[k], fetch(paths[k])))
  }

  /** The integrations that load, in list order. */
  function Loaded(paths: seq<string>, fetch: string -> Fetched): seq<Integration>
  {
    Present(Outcomes(paths, fetch))
  }

  /** The answer of the list endpoint. */
  datatype Listing = ListFailed | Listed(paths: seq<string>)

  /** `loadIntegrations`: load the listed files one after another and keep
      those that load; a failed listing yields no integrations. */
  method LoadIntegrations(listing: Listing, fetch: string -> Fetched) returns (r: seq<Integration>)
    ensures listing.ListFailed? ==> r == []
    ensures listing.Listed? ==> r == Loaded(listing.paths, fetch)
  {
    r := [];
    if listing.ListFailed? {
      return;
    }
    var paths := listing.paths;
    ghost var os := Outcomes(paths, fetch);
    var i := 0;
    while i < |paths|
      invariant 0 <= i <= |paths|
      invariant r == Present(os[..i])
    {
      var integration := LoadOne(paths[i], fetch(paths[i]));
      assert os[..i + 1][..i] == os[..i];
      assert os[i] == integration;
      if integration.Some? {
        r := r + [integration.value];
      }
      i := i + 1;
    }
    assert os[..i] == os;
  }

  // ---------------------------------------------------------------------
  // Keeping the successful outcomes

  /** The values of the present outcomes, in order. */
  function Present<T>(outs: seq<Option<T>>): (r: seq<T>)
    ensures |r| <= |outs|
    decreases |outs|
  {
    if outs == [] then []
    else
      var front := Present(outs[..|outs| - 1]);
      match outs[|outs| - 1]
      case None => front
      case Some(x) => front + [x]
  }

  /** A value is kept exactly when some outcome holds it. */
  lemma {:induction false} PresentMembership<T>(outs: seq<Option<T>>, x: T)
    ensures x in Present(outs) <==> exists k :: 0 <= k < |outs| && outs[k] == Some(x)
    decreases |outs|
  {
    if outs != [] {
      var front := outs[..|outs| - 1];
      PresentMembership(front, x);
      if exists k :: 0 <= k < |front| && front[k] == Some(x) {
        var k :| 0 <= k < |front| && front[k] == Some(x);
        assert outs[k] == Some(x);
      }
      if exists k :: 0 <= k < |outs| && outs[k] == Some(x) {
        var k :| 0 <= k < |outs| && outs[k] == Some(x);
        if k < |front| {
          assert front[k] == Some(x);
        }
      }
    }
  }

  /** The positions of the present outcomes, in increasing order. */
  function PresentPositions<T>(outs: seq<Option<T>>): (idx: seq<nat>)
    ensures forall t :: 0 <= t < |idx| ==> idx[t] < |outs|
    ensures forall s, t :: 0 <= s < t < |idx| ==> idx[s] < idx[t]
    decreases |outs|
  {
    if outs == [] then []
    else
      var k := |outs| - 1;
      var front := PresentPositions(outs[..k]);
      if outs[k].Some? then front + [k] else front
  }

  /** The kept values keep their order: the t-th kept value is the one at
      the t-th present position. */
  lemma {:induction false} PresentInOrder<T>(outs: seq<Option<T>>)
    ensures |PresentPositions(outs)| == |Present(outs)|
    ensures forall t :: 0 <= t < |Present(outs)| ==> outs[PresentPositions(outs)[t]] == Some(Present(outs)[t])
    decreases |outs|
  {
    if outs != [] {
      var k := |outs| - 1;
      var front := outs[..k];
      PresentInOrder(front);
      assert forall m :: 0 <= m < k ==> front[m] == outs[m];
    }
  }

  /** The present positions are exactly the positions of present outcomes. */
  lemma {:induction false} PresentPositionsComplete<T>(outs: seq<Option<T>>, k: nat)
    requires k < |outs|
    ensures outs[k].Some? <==> k in PresentPositions(outs)
    decreases |outs|
  {
    var n := |outs| - 1;
    if k < n {
      PresentPositionsComplete(outs[..n], k);
      assert outs[..n][k] == outs[k];
    }
  }

  /** When every outcome is present, every value is kept. */
  lemma {:induction false} AllPresent<T>(outs: seq<Option<T>>)
    requires forall k :: 0 <= k < |outs| ==> outs[k].Some?
    ensures |Present(outs)| == |outs|
    decreases |outs|
  {
    if outs != [] {
      var front := outs[..|outs| - 1];
      assert forall k :: 0 <= k < |front| ==> front[k] == outs[k];
      AllPresent(front);
    }
  }

  /** An integration is shown exactly when some listed path loads to it. */
  lemma LoadedMembership(paths: seq<string>, fetch: string -> Fetched, x: Integration)
    ensures x in Loaded(paths, fetch) <==>
      exists k :: 0 <= k < |paths| && LoadOne(paths[k], fetch(paths[k])) == Some(x)
  {
    var os := Outcomes(paths, fetch);
    PresentMembership(os, x);
    assert forall k :: 0 <= k < |paths| ==> os[k] == LoadOne(paths[k], fetch(paths[k]));
  }

  /** Every shown integration is named after the path it was loaded from. */
  lemma LoadedNames(paths: seq<string>, fetch: string -> Fetched, x: Integration)
    requires x in Loaded(paths, fetch)
    ensures exists k :: 0 <= k < |paths| && x.name == NameFromPath(paths[k])
  {
    LoadedMembership(paths, fetch, x);
    var k :| 0 <= k < |paths| && LoadOne(paths[k], fetch(paths[k])) == Some(x);
  }
}
