/**
  The details dialog: which parameters it lists for the selected element
  or service, and how each value is printed.
 */
module Details {
  import opened Js
  import opened Types
  import opened App

  /** `'service' in element`: a service whose `service` key is present.
      An element never has that key. */
  predicate IsService(c: Selection)
  {
    c.OfService? && c.service.service.Some?
  }

  /** `'type' in element`: an element whose `type` key is present. A
      service never has that key. */
  predicate IsElement(c: Selection)
  {
    c.OfElement? && c.element.elementType.Some?
  }

  /** `url.split(':')[0]`: the text before the first ':' (all of it when
      there is none). */
  function HostOf(url: string): (r: string)
    ensures ':' !in r
    ensures |r| <= |url| && r == url[..|r|]
    ensures |r| == |url| || url[|r|] == ':'
  {
    if url == [] || url[0] == ':' then []
    else [url[0]] + HostOf(url[1..])
  }

  /** One listed parameter: its key and its value, `None` when undefined. */
  datatype Param = Param(key: string, value: Option<Scalar>)

  function Keys(ps: seq<Param>): (ks: seq<string>)
    ensures |ks| == |ps|
    ensures forall i :: 0 <= i < |ps| ==> ks[i] == ps[i].key
  {
    seq(|ps|, i requires 0 <= i < |ps| => ps[i].key)
  }

  const InKeys := ["host", "port", "url", "dn_ist", "dn_nat", "dn_prom", "kafka_topic", "group_id", "bootstrap"]
  const OutKeys := ["host", "port", "url", "dn_ist", "dn_nat", "dn_prom"]
  const CommonKeys := ["max_buff_size", "redelivery_count", "cpu", "memory"]

  function OptStr(s: Option<string>): Option<Scalar>
  {
    match s
    case None => None
    case Some(v) => Some(Str(v))
  }

  function OptNum(n: Option<int>): Option<Scalar>
  {
    match n
    case None => None
    case Some(v) => Some(Num(v))
  }

  /** The endpoint fields an item connects through, as the element branch
      reads them: an element's `connection`; a service has no such key. */
  function ElementConnection(c: Selection): Option<Endpoint>
  {
    if c.OfElement? then c.element.connection else None
  }

  /** The Kafka setting an item shows as `kafka_topic`: an element's
      `kafkaConfig.max_message_bytes`; a service has no such key. */
  function KafkaTopicOf(c: Selection): Option<Scalar>
  {
    if c.OfElement? && c.element.kafkaConfig.Some? then OptNum(c.element.kafkaConfig.value.maxMessageBytes) else None
  }

  /** `getInParams`: a service shows its `connectionInfo` and DN name; any
      other item shows its connection (host cut at the first ':') and its
      Kafka setting. */
  function InParams(c: Selection): (ps: seq<Param>)
    ensures Keys(ps) == InKeys
    ensures IsService(c) ==>
      var info := c.service.connectionInfo;
      && ps[0].value == (if info.Some? then OptStr(info.value.host) else None)
      && ps[1].value == (if info.Some? then OptNum(info.value.port) else None)
      && ps[2].value == (if info.Some? then OptStr(info.value.url) else None)
      && ps[3].value == OptStr(c.service.dnName)
      && ps[6].value.None?
    ensures !IsService(c) ==>
      var conn := ElementConnection(c);
      && (ps[0].value.Some? <==> conn.Some? && conn.value.url.Some?)
      && (ps[0].value.Some? ==> ps[0].value.value == Str(HostOf(conn.value.url.value)))
      && ps[1].value == (if conn.Some? then OptNum(conn.value.port) else None)
      && ps[2].value == (if conn.Some? then OptStr(conn.value.url) else None)
      && ps[3].value.None?
      && ps[6].value == KafkaTopicOf(c)
    ensures ps[4].value.None? && ps[5].value.None? && ps[7].value.None? && ps[8].value.None?
  {
    if IsService(c) then
      var info := c.service.connectionInfo;
      [ Param("host", if info.Some? then OptStr(info.value.host) else None),
        Param("port", if info.Some? then OptNum(info.value.port) else None),
        Param("url", if info.Some? then OptStr(info.value.url) else None),
        Param("dn_ist", OptStr(c.service.dnName)),
        Param("dn_nat", None),
        Param("dn_prom", None),
        Param("kafka_topic", None),
        Param("group_id", None),
        Param("bootstrap", None) ]
    else
      var conn := ElementConnection(c);
      var url := if conn.Some? then conn.value.url else None;
      var kafka := KafkaTopicOf(c);
      [ Param("host", if url.Some? then Some(Str(HostOf(url.value))) else None),
        Param("port", if conn.Some? then OptNum(conn.value.port) else None),
        Param("url", OptStr(url)),
        Param("dn_ist", None),
        Param("dn_nat", None),
        Param("dn_prom", None),
        Param("kafka_topic", kafka),
        Param("group_id", None),
        Param("bootstrap", None) ]
  }

  /** `getOutParams`: only a service has out-parameters, its
      `destinationInfo`. */
  function OutParams(c: Selection): (ps: seq<Param>)
    ensures Keys(ps) == OutKeys
    ensures IsService(c) ==>
      var info := c.service.destinationInfo;
      && ps[0].value == (if info.Some? then OptStr(info.value.host) else None)
      && ps[1].value == (if info.Some? then OptNum(info.value.port) else None)
      && ps[2].value == (if info.Some? then OptStr(info.value.url) else None)
    ensures !IsService(c) ==> forall i :: 0 <= i < |ps| ==> ps[i].value.None?
    ensures forall i :: 3 <= i < |ps| ==> ps[i].value.None?
  {
    var info := if IsService(c) then c.service.destinationInfo else None;
    [ Param("host", if info.Some? then OptStr(info.value.host) else None),
      Param("port", if info.Some? then OptNum(info.value.port) else None),
      Param("url", if info.Some? then OptStr(info.value.url) else None),
      Param("dn_ist", None),
      Param("dn_nat", None),
      Param("dn_prom", None) ]
  }

  /** `getCommonSettings`: four keys, none of them set. */
  function CommonSettings(c: Selection): (ps: seq<Param>)
    ensures Keys(ps) == CommonKeys
    ensures forall i :: 0 <= i < |ps| ==> ps[i].value.None?
  {
    [ Param("max_buff_size", None), Param("redelivery_count", None), Param("cpu", None), Param("memory", None) ]
  }

  /** How one value is printed: `String(value)`, or '-' when undefined. */
  function Display(v: Option<Scalar>): (r: string)
    ensures v.None? ==> r == "-"
    ensures v.Some? ==> r == ToStr(v.value)
  {
    match v
    case None => "-"
    case Some(x) => ToStr(x)
  }

  /** A printed row: `key:` and the printed value. */
  datatype Row = Row(primary: string, text: string)

  function Rows(ps: seq<Param>): (rs: seq<Row>)
    ensures |rs| == |ps|
    ensures forall i :: 0 <= i < |ps| ==> rs[i] == Row(ps[i].key + ":", Display(ps[i].value))
  {
    seq(|ps|, i requires 0 <= i < |ps| => Row(ps[i].key + ":", Display(ps[i].value)))
  }

  datatype Dialog = Dialog(open: bool, title: Option<string>, inRows: seq<Row>, outRows: seq<Row>, commonRows: seq<Row>)

  /** The component: nothing without a selection; otherwise the title
      (the element's name, else the item's `service` key) and the three
      parameter sections. */
  function Modal(selected: Option<Selection>, open: bool): (d: Option<Dialog>)
    ensures d.None? <==> selected.None?
    ensures d.Some? ==> d.value.open == open
    ensures d.Some? ==> |d.value.inRows| == |InKeys| && |d.value.outRows| == |OutKeys| && |d.value.commonRows| == |CommonKeys|
    ensures d.Some? ==> d.value.inRows == Rows(InParams(selected.value))
    ensures d.Some? ==> d.value.outRows == Rows(OutParams(selected.value))
    ensures d.Some? ==> d.value.commonRows == Rows(CommonSettings(selected.value))
    ensures d.Some? && IsElement(selected.value) ==> d.value.title == selected.value.element.name
    ensures d.Some? && selected.value.OfService? ==> d.value.title == selected.value.service.service
    ensures d.Some? && selected.value.OfElement? && !IsElement(selected.value) ==> d.value.title.None?
  {
    match selected
    case None => None
    case Some(c) =>
      var title := if IsElement(c) then c.element.name
                   else if c.OfService? then c.service.service
                   else None;
      Some(Dialog(open, title, Rows(InParams(c)), Rows(OutParams(c)), Rows(CommonSettings(c))))
  }

  /** Every undefined parameter prints as '-', so the common settings
      always read '-'. */
  lemma CommonSettingsAllDashes(c: Selection)
    ensures forall r :: r in Rows(CommonSettings(c)) ==> r.text == "-"
  {
    var ps := CommonSettings(c);
    forall r | r in Rows(ps)
      ensures r.text == "-"
    {
      var i :| 0 <= i < |Rows(ps)| && Rows(ps)[i] == r;
    }
  }

  /** A service whose `service` key is missing is listed as if it were an
      element without a connection: every in-parameter is '-', and its
      title is empty. */
  lemma NamelessServiceShowsNothing(svc: Service, open: bool)
    requires svc.service.None?
    ensures var d := Modal(Some(OfService(svc)), open).value;
      && d.title.None?
      && forall r :: r in d.inRows ==> r.text == "-"
  {
    var c := OfService(svc);
    var ps := InParams(c);
    forall r | r in Rows(ps)
      ensures r.text == "-"
    {
      var i :| 0 <= i < |Rows(ps)| && Rows(ps)[i] == r;
    }
  }

  /** An element's host is the part of its connection URL before the first
      ':', printed as it is: the whole URL when it has no ':', otherwise
      the text the first ':' ends. */
  lemma ElementHostShown(e: Element, url: string)
    requires e.connection.Some? && e.connection.value.url == Some(url)
    ensures Rows(InParams(OfElement(e)))[0].text == HostOf(url)
    ensures HostOf(url) == url || (|HostOf(url)| < |url| && url[..|HostOf(url)| + 1] == HostOf(url) + ":")
  {
    var ps := InParams(OfElement(e));
    assert ps[0].value == Some(Str(HostOf(url)));
    assert Rows(ps)[0].text == Display(ps[0].value);
    HostCutAtColon(url);
  }

  /** The host is the whole url, or the part before its first ':'. */
  lemma HostCutAtColon(url: string)
    ensures HostOf(url) == url || (|HostOf(url)| < |url| && url[..|HostOf(url)| + 1] == HostOf(url) + ":")
  {
    var h := HostOf(url);
    if h != url {
      assert url[..|h| + 1] == url[..|h|] + [url[|h|]];
    }
  }

  /** What the dialog shows for a named service: its connection endpoint
      in the first three in-rows and its destination endpoint in the
      first three out-rows, each value printed, or '-' when undefined. */
  lemma ServiceEndpointsShown(svc: Service, open: bool, conn: Endpoint, dest: Endpoint)
    requires svc.service.Some? && svc.connectionInfo == Some(conn) && svc.destinationInfo == Some(dest)
    ensures var d := Modal(Some(OfService(svc)), open).value;
      && d.title == svc.service
      && d.inRows[0].text == Display(OptStr(conn.host))
      && d.inRows[1].text == Display(OptNum(conn.port))
      && d.inRows[2].text == Display(OptStr(conn.url))
      && d.outRows[0].text == Display(OptStr(dest.host))
      && d.outRows[1].text == Display(OptNum(dest.port))
      && d.outRows[2].text == Display(OptStr(dest.url))
  {
    var c := OfService(svc);
    var ins, outs := InParams(c), OutParams(c);
    assert Rows(ins)[0].text == Display(ins[0].value);
    assert Rows(ins)[1].text == Display(ins[1].value);
    assert Rows(ins)[2].text == Display(ins[2].value);
    assert Rows(outs)[0].text == Display(outs[0].value);
    assert Rows(outs)[1].text == Display(outs[1].value);
    assert Rows(outs)[2].text == Display(outs[2].value);
  }

  /** An element has no out-parameters: every out-row reads '-'. Its
      Kafka row shows its `max_message_bytes` when it has one. */
  lemma ElementRowsShown(e: Element, open: bool)
    ensures var d := Modal(Some(OfElement(e)), open).value;
      && (forall r :: r in d.outRows ==> r.text == "-")
      && d.inRows[6] == Row("kafka_topic:", Display(KafkaTopicOf(OfElement(e))))
      && (e.kafkaConfig.Some? && e.kafkaConfig.value.maxMessageBytes.Some? ==>
            d.inRows[6].text == ToStr(Num(e.kafkaConfig.value.maxMessageBytes.value)))
  {
    var c := OfElement(e);
    var outs := OutParams(c);
    forall r | r in Rows(outs)
      ensures r.text == "-"
    {
      var i :| 0 <= i < |Rows(outs)| && Rows(outs)[i] == r;
    }
    assert InParams(c)[6].key == "kafka_topic";
  }

  /** As written, clicking the node of an element whose id is the number 7
      shows no dialog at all: the lookup finds nothing, and the dialog
      renders nothing without an item, although its open flag is set. */
  lemma NumericIdClickShowsNoDialog()
    ensures var e := Element(Num(7), Some("in"), Some("input"), None, None, None, None);
      var s := AppState([], Some(Integration("i", "", [Segment("Source", [e])])), None, false, false, None);
      var t := ClickNodeAsWritten(s, ToStr(e.id));
      && t.modalOpen
      && Modal(t.selectedElement, t.modalOpen).None?
  {
    NumericIdClickFindsNothing();
  }
}
