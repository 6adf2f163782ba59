/** The root device description the emulator serves at its redirect path:
    a constant UPnP Device Architecture 1.1 document (section 2.3, device
    description) of a MediaRenderer into which the ten identity fields are
    substituted verbatim, and whose service list advertises the routes of
    the route table. */
module DeviceXml {
  import opened Strings
  import opened Routes

  /** The device metadata the server is started with. */
  datatype Identity = Identity(
    friendlyName: string,
    manufacturer: string,
    manufacturerUrl: string,
    modelDescription: string,
    modelName: string,
    modelNumber: string,
    modelUrl: string,
    serialNumber: string,
    uuid: string,
    presentationUrl: string)

  /** One service of the hard-coded service list: its category and its
      URL elements, as (element tag, path) pairs in document order. */
  datatype ServiceEntry = ServiceEntry(category: string, urls: seq<(string, string)>)

  /** The service list as the template spells it out. */
  const ServiceList: seq<ServiceEntry> := [
    ServiceEntry("AVTransport", [
      ("controlURL", "/AVTransport/control.xml"),
      ("eventSubURL", "/AVTransport/event.xml"),
      ("SCPDURL", "/AVTransport/scpd.xml")]),
    ServiceEntry("ConnectionManager", [
      ("SCPDURL", "/ConnectionManager/scpd.xml"),
      ("controlURL", "/ConnectionManager/control.xml"),
      ("eventSubURL", "/ConnectionManager/event.xml")]),
    ServiceEntry("RenderingControl", [
      ("SCPDURL", "/RenderingControl/scpd.xml"),
      ("controlURL", "/RenderingControl/control.xml"),
      ("eventSubURL", "/RenderingControl/event.xml")])]

  const XmlDeclaration: string := "<?xml version=\"1.0\" encoding=\"UTF-8\"?>\n"

  const RootClose: string := "</root>"

  /** An element with text content; nothing in `value` is escaped. */
  function Element(tag: string, value: string): (r: string)
    ensures |r| == 2 * |tag| + |value| + 5
  {
    "<" + tag + ">" + value + "</" + tag + ">"
  }

  /** The URL element tag under which a document kind is advertised. */
  function UrlTag(kind: string): string
  {
    if kind == "control" then "controlURL"
    else if kind == "event" then "eventSubURL"
    else "SCPDURL"
  }

  /** A line at the depth of the children of `<device>`. */
  function DeviceLine(text: string): string
  {
    "    " + text + "\n"
  }

  /** A line at the depth of the children of `<service>`. */
  function ServiceLine(text: string): string
  {
    "        " + text + "\n"
  }

  const HeadLines: seq<string> := [
    XmlDeclaration,
    "<root configId=\"9952433\" xmlns=\"urn:schemas-upnp-org:device-1-0\" xmlns:dlna=\"urn:schemas-dlna-org:device-1-0\">\n",
    "  <specVersion>\n",
    "    <major>1</major>\n",
    "    <minor>1</minor>\n",
    "  </specVersion>\n",
    "  <device>\n",
    DeviceLine(Element("deviceType", "urn:schemas-upnp-org:device:MediaRenderer:1"))]

  /** The ten identity lines, in template order. */
  function IdentityLines(id: Identity): seq<string>
  {
    [ DeviceLine(Element("friendlyName", id.friendlyName)),
      DeviceLine(Element("manufacturer", id.manufacturer)),
      DeviceLine(Element("manufacturerURL", id.manufacturerUrl)),
      DeviceLine(Element("modelDescription", id.modelDescription)),
      DeviceLine(Element("modelName", id.modelName)),
      DeviceLine(Element("modelNumber", id.modelNumber)),
      DeviceLine(Element("modelURL", id.modelUrl)),
      DeviceLine(Element("serialNumber", id.serialNumber)),
      DeviceLine(Element("UDN", "uuid:" + id.uuid)),
      DeviceLine(Element("presentationURL", id.presentationUrl)) ]
  }

  /** The line that opens a `<service>` block. */
  const ServiceOpen: string := "      <service>\n"

  /** The lines of one `<service>` block. */
  function ServiceLines(e: ServiceEntry): seq<string>
  {
    [ ServiceOpen,
      ServiceLine(Element("serviceType", "urn:schemas-upnp-org:service:" + e.category + ":1")),
      ServiceLine(Element("serviceId", "urn:upnp-org:serviceId:" + e.category)) ]
    + UrlLines(e.urls)
    + [ "      </service>\n" ]
  }

  /** The URL elements of one service, one line each, in list order. */
  function UrlLines(urls: seq<(string, string)>): seq<string>
  {
    seq(|urls|, m requires 0 <= m < |urls| => ServiceLine(Element(urls[m].0, urls[m].1)))
  }

  /** The service blocks of `es`, one after another. */
  function ServiceBlocks(es: seq<ServiceEntry>): seq<string>
  {
    if es == [] then [] else ServiceLines(es[0]) + ServiceBlocks(es[1..])
  }

  function ServiceListLines(): seq<string>
  {
    [ DeviceLine("<dlna:X_DLNADOC xmlns:dlna=\"urn:schemas-dlna-org:device-1-0\">DMR-1.50</dlna:X_DLNADOC>"),
      "    <serviceList>\n" ]
    + ServiceBlocks(ServiceList)
    + [ "    </serviceList>\n",
        "  </device>\n",
        RootClose ]
  }

  /** All lines of the document for one identity. */
  function DocumentLines(id: Identity): seq<string>
  {
    HeadLines + IdentityLines(id) + ServiceListLines()
  }

  /** The rendered root device description. Rendering has no error path:
      every identity yields a document that opens with the XML
      declaration and closes the root element. */
  function Render(id: Identity): (r: string)
    ensures |XmlDeclaration| <= |r| && r[..|XmlDeclaration|] == XmlDeclaration
    ensures |RootClose| <= |r| && r[|r| - |RootClose|..] == RootClose
  {
    var lines := DocumentLines(id);
    ConcatAppend([XmlDeclaration], lines[1..]);
    assert lines == [XmlDeclaration] + lines[1..];
    ConcatAppend(lines[..|lines| - 1], [RootClose]);
    assert lines == lines[..|lines| - 1] + [RootClose];
    Concat(lines)
  }

  /** Every line of the document occurs in the rendered text. */
  lemma RenderContainsLine(id: Identity, i: nat)
    requires i < |DocumentLines(id)|
    ensures Contains(Render(id), DocumentLines(id)[i])
  {
    ConcatContains(DocumentLines(id), i);
  }

  /** The element of a device-level line occurs in the rendered text. */
  lemma RenderContainsDeviceElement(id: Identity, i: nat, e: string)
    requires i < |DocumentLines(id)| && DocumentLines(id)[i] == DeviceLine(e)
    ensures Contains(Render(id), e)
  {
    RenderContainsLine(id, i);
    ContainsMiddle("    ", e, "\n");
    ContainsTrans(Render(id), DeviceLine(e), e);
  }

  /** The element of a service-level line occurs in the rendered text. */
  lemma RenderContainsServiceElement(id: Identity, i: nat, e: string)
    requires i < |DocumentLines(id)| && DocumentLines(id)[i] == ServiceLine(e)
    ensures Contains(Render(id), e)
  {
    RenderContainsLine(id, i);
    ContainsMiddle("        ", e, "\n");
    ContainsTrans(Render(id), ServiceLine(e), e);
  }

  /** Each identity value appears verbatim inside its own element; the
      UDN element carries the value behind a `uuid:` prefix. */
  lemma RenderShowsIdentity(id: Identity)
    ensures Contains(Render(id), Element("friendlyName", id.friendlyName))
    ensures Contains(Render(id), Element("manufacturer", id.manufacturer))
    ensures Contains(Render(id), Element("manufacturerURL", id.manufacturerUrl))
    ensures Contains(Render(id), Element("modelDescription", id.modelDescription))
    ensures Contains(Render(id), Element("modelName", id.modelName))
    ensures Contains(Render(id), Element("modelNumber", id.modelNumber))
    ensures Contains(Render(id), Element("modelURL", id.modelUrl))
    ensures Contains(Render(id), Element("serialNumber", id.serialNumber))
    ensures Contains(Render(id), Element("UDN", "uuid:" + id.uuid))
    ensures Contains(Render(id), Element("presentationURL", id.presentationUrl))
  {
    var lines := DocumentLines(id);
    var base := |HeadLines|;
    assert lines[base..base + 10] == IdentityLines(id);
    RenderContainsDeviceElement(id, base, Element("friendlyName", id.friendlyName));
    RenderContainsDeviceElement(id, base + 1, Element("manufacturer", id.manufacturer));
    RenderContainsDeviceElement(id, base + 2, Element("manufacturerURL", id.manufacturerUrl));
    RenderContainsDeviceElement(id, base + 3, Element("modelDescription", id.modelDescription));
    RenderContainsDeviceElement(id, base + 4, Element("modelName", id.modelName));
    RenderContainsDeviceElement(id, base + 5, Element("modelNumber", id.modelNumber));
    RenderContainsDeviceElement(id, base + 6, Element("modelURL", id.modelUrl));
    RenderContainsDeviceElement(id, base + 7, Element("serialNumber", id.serialNumber));
    RenderContainsDeviceElement(id, base + 8, Element("UDN", "uuid:" + id.uuid));
    RenderContainsDeviceElement(id, base + 9, Element("presentationURL", id.presentationUrl));
  }

  /** The URL element of kind `Kinds[j]` for category `c`. */
  function Advertised(c: string, j: nat): (string, string)
    requires j < |Kinds|
  {
    (UrlTag(Kinds[j]), RoutePath(c, Kinds[j]))
  }

  /** Each entry of the service list, read back in terms of the route
      table's own names: the AVTransport entry lists control, event, scpd;
      the other two list scpd, control, event. */
  lemma AVTransportEntry()
    ensures ServiceList[0] == ServiceEntry(Categories[0], [Advertised(Categories[0], 0), Advertised(Categories[0], 1), Advertised(Categories[0], 2)])
  {
    assert RoutePath("AVTransport", "control") == "/AVTransport/control.xml";
    assert RoutePath("AVTransport", "event") == "/AVTransport/event.xml";
    assert RoutePath("AVTransport", "scpd") == "/AVTransport/scpd.xml";
  }

  lemma ConnectionManagerEntry()
    ensures ServiceList[1] == ServiceEntry(Categories[1], [Advertised(Categories[1], 2), Advertised(Categories[1], 0), Advertised(Categories[1], 1)])
  {
    assert RoutePath("ConnectionManager", "control") == "/ConnectionManager/control.xml";
    assert RoutePath("ConnectionManager", "event") == "/ConnectionManager/event.xml";
    assert RoutePath("ConnectionManager", "scpd") == "/ConnectionManager/scpd.xml";
  }

  lemma RenderingControlEntry()
    ensures ServiceList[2] == ServiceEntry(Categories[2], [Advertised(Categories[2], 2), Advertised(Categories[2], 0), Advertised(Categories[2], 1)])
  {
    assert RoutePath("RenderingControl", "control") == "/RenderingControl/control.xml";
    assert RoutePath("RenderingControl", "event") == "/RenderingControl/event.xml";
    assert RoutePath("RenderingControl", "scpd") == "/RenderingControl/scpd.xml";
  }

  /** The hard-coded service list agrees with the route table: it lists
      the three categories in table order, and each entry advertises each
      kind of its category exactly once, under the kind's tag and at the
      kind's route path. */
  lemma ServiceListMatchesRoutes()
    ensures |ServiceList| == |Categories|
    ensures forall k :: 0 <= k < |ServiceList| ==> ServiceList[k].category == Categories[k]
    ensures forall k :: 0 <= k < |ServiceList| ==> |ServiceList[k].urls| == |Kinds|
    ensures forall k, m :: 0 <= k < |ServiceList| && 0 <= m < |ServiceList[k].urls| ==>
      exists j :: 0 <= j < |Kinds| && ServiceList[k].urls[m] == Advertised(Categories[k], j)
  {
    AVTransportEntry();
    ConnectionManagerEntry();
    RenderingControlEntry();
  }

  /** Conversely, no kind of a category is missing from its entry. */
  lemma ServiceListCoversKinds(k: nat, j: nat)
    requires k < |ServiceList| && j < |Kinds|
    ensures exists m :: 0 <= m < |ServiceList[k].urls| && ServiceList[k].urls[m] == Advertised(Categories[k], j)
  {
    if k == 0 {
      AVTransportEntry();
      assert ServiceList[k].urls[j] == Advertised(Categories[k], j);
    } else {
      ConnectionManagerEntry();
      RenderingControlEntry();
      var m := if j == 2 then 0 else j + 1;
      assert ServiceList[k].urls[m] == Advertised(Categories[k], j);
    }
  }

  /** Every URL the service list advertises is a key of the route table,
      stored under the entry's lower-cased category and the kind its tag
      names; and every key of the table is advertised. */
  lemma AdvertisedUrlsAreRoutes()
    ensures forall k, m :: 0 <= k < |ServiceList| && 0 <= m < |ServiceList[k].urls| ==>
      var (tag, path) := ServiceList[k].urls[m];
      && path in Table
      && Table[path].0 == Lower(ServiceList[k].category)
      && UrlTag(Table[path].1) == tag
    ensures forall p :: p in Table ==>
      exists k, m :: 0 <= k < |ServiceList| && 0 <= m < |ServiceList[k].urls| && ServiceList[k].urls[m].1 == p
  {
    ServiceListMatchesRoutes();
    forall k, m | 0 <= k < |ServiceList| && 0 <= m < |ServiceList[k].urls|
      ensures ServiceList[k].urls[m].1 in Table
      ensures Table[ServiceList[k].urls[m].1].0 == Lower(ServiceList[k].category)
      ensures UrlTag(Table[ServiceList[k].urls[m].1].1) == ServiceList[k].urls[m].0
    {
      var j :| 0 <= j < |Kinds| && ServiceList[k].urls[m] == Advertised(Categories[k], j);
      TableEntries(k, j);
    }
    forall p | p in Table
      ensures exists k, m :: 0 <= k < |ServiceList| && 0 <= m < |ServiceList[k].urls| && ServiceList[k].urls[m].1 == p
    {
      TableKeys(p);
      var i, j :| 0 <= i < |Categories| && 0 <= j < |Kinds| && p == RoutePath(Categories[i], Kinds[j]);
      ServiceListCoversKinds(i, j);
      var m :| 0 <= m < |ServiceList[i].urls| && ServiceList[i].urls[m] == Advertised(Categories[i], j);
      assert ServiceList[i].urls[m].1 == p;
    }
  }

  /** Where the lines of the k-th entry sit among the service blocks, when
      every entry advertises three URLs: seven lines per block, the service
      type second and the URLs fourth to sixth. */
  lemma {:induction false} ServiceBlocksLine(es: seq<ServiceEntry>, k: nat, m: nat)
    requires forall i :: 0 <= i < |es| ==> |es[i].urls| == 3
    requires k < |es| && m < 3
    ensures |ServiceBlocks(es)| == 7 * |es|
    ensures ServiceBlocks(es)[7 * k + 1] == ServiceLine(Element("serviceType", "urn:schemas-upnp-org:service:" + es[k].category + ":1"))
    ensures ServiceBlocks(es)[7 * k + 3 + m] == ServiceLine(Element(es[k].urls[m].0, es[k].urls[m].1))
    decreases |es|
  {
    var first := ServiceLines(es[0]);
    assert |first| == 7;
    if k == 0 {
      if |es| > 1 {
        ServiceBlocksLine(es[1..], 0, m);
      }
    } else {
      ServiceBlocksLine(es[1..], k - 1, m);
      assert es[1..][k - 1] == es[k];
    }
  }

  /** The service blocks follow the head, the ten identity lines and the
      two lines that open the list. */
  lemma DocumentServiceLine(id: Identity, t: nat)
    requires t < |ServiceBlocks(ServiceList)|
    ensures |HeadLines| + 12 + t < |DocumentLines(id)|
    ensures DocumentLines(id)[|HeadLines| + 12 + t] == ServiceBlocks(ServiceList)[t]
  {
    var tail := ServiceListLines();
    assert tail[2 + t] == ServiceBlocks(ServiceList)[t];
    assert DocumentLines(id)[|HeadLines| + 12 + t] == tail[2 + t];
  }

  /** Every category's service type is declared in the document. */
  lemma RenderDeclaresServices(id: Identity, k: nat)
    requires k < |Categories|
    ensures Contains(Render(id), Element("serviceType", "urn:schemas-upnp-org:service:" + Categories[k] + ":1"))
  {
    ServiceListMatchesRoutes();
    ServiceBlocksLine(ServiceList, k, 0);
    var i := |HeadLines| + 10 + 2 + 7 * k + 1;
    DocumentServiceLine(id, 7 * k + 1);
    RenderContainsServiceElement(id, i, Element("serviceType", "urn:schemas-upnp-org:service:" + Categories[k] + ":1"));
  }

  /** Every route of the table is advertised in the document, under the
      URL tag of its kind. */
  lemma RenderAdvertisesRoutes(id: Identity, k: nat, j: nat)
    requires k < |Categories| && j < |Kinds|
    ensures Contains(Render(id), Element(UrlTag(Kinds[j]), RoutePath(Categories[k], Kinds[j])))
  {
    ServiceListMatchesRoutes();
    ServiceListCoversKinds(k, j);
    var m :| 0 <= m < |ServiceList[k].urls| && ServiceList[k].urls[m] == Advertised(Categories[k], j);
    ServiceBlocksLine(ServiceList, k, m);
    var i := |HeadLines| + 10 + 2 + 7 * k + 3 + m;
    DocumentServiceLine(id, 7 * k + 3 + m);
    RenderContainsServiceElement(id, i, Element(UrlTag(Kinds[j]), RoutePath(Categories[k], Kinds[j])));
  }

  /** The template opens exactly one service block per entry of the
      service list: the blocks follow the head, the ten identity lines and
      the two lines before the list, and are seven lines apart. */
  lemma RenderHasThreeServices(id: Identity)
    ensures |ServiceList| == 3
    ensures forall i :: 0 <= i < |DocumentLines(id)| ==>
      (DocumentLines(id)[i] == ServiceOpen <==>
         var first := |HeadLines| + 12;
         first <= i < first + 7 * |ServiceList| && (i - first) % 7 == 0)
  {
    ServiceListMatchesRoutes();
    assert |HeadLines| == 8;
    ServiceOpenLines(id);
    forall i | 0 <= i < |DocumentLines(id)|
      ensures DocumentLines(id)[i] == ServiceOpen <==> 20 <= i < 41 && (i - 20) % 7 == 0
    {
      SevenApart(i - 20);
    }
  }

  lemma SevenApart(t: int)
    ensures 0 <= t < 21 && t % 7 == 0 <==> t == 0 || t == 7 || t == 14
  {
  }

  /** The three service blocks open at lines 20, 27 and 34 of the
      template. */
  lemma ServiceOpenLines(id: Identity)
    ensures forall i :: 0 <= i < |DocumentLines(id)| ==>
      (DocumentLines(id)[i] == ServiceOpen <==> i == 20 || i == 27 || i == 34)
  {
    ServiceListMatchesRoutes();
  }
}
