/** The GET handler of the emulator: the root description is rendered,
    a route of the table is answered from the descriptor storage, and
    everything else is answered with a uniform 404. */
module Handler {
  import opened Strings
  import opened Routes
  import opened DeviceXml

  /** The path of the root device description. */
  const RootPath: string := "/upnp_redirect_1_0.xml"

  const NotFoundBody: string := "Not found."

  /** The descriptor files next to the server, keyed by their path
      relative to the server's directory. Each value is what
      `open(path).read()` returns for that file: its decoded text, with
      line endings already normalised to `\n`, not its bytes. A path that
      is not a key does not exist. */
  type Storage = map<string, string>

  datatype Option<T> = None | Some(value: T)

  /** What a GET resolves to. */
  datatype Outcome = Found(body: string) | NotFound

  /** The status line, content type and body written back. */
  datatype Response = Response(status: int, contentType: string, body: string)

  /** The storage path of the document of a (category, kind) pair. */
  function DescriptorPath(category: string, name: string): string
  {
    "descriptors/" + category + "/" + name + ".xml"
  }

  /** The text of the document of a pair, or nothing when its file does
      not exist. */
  function LoadDescriptor(storage: Storage, category: string, name: string): (r: Option<string>)
    ensures r.Some? <==> DescriptorPath(category, name) in storage
    ensures r.Some? ==> r.value == storage[DescriptorPath(category, name)]
  {
    var path := DescriptorPath(category, name);
    if path in storage then Some(storage[path]) else None
  }

  /** The decision of the GET handler. A stored document is served only
      when it is non-empty: an empty file counts as missing. */
  function Resolve(path: string, id: Identity, storage: Storage): (o: Outcome)
    ensures path == RootPath ==> o == Found(Render(id))
    ensures path != RootPath ==>
      (o.Found? <==> path in Table
                     && DescriptorPath(Table[path].0, Table[path].1) in storage
                     && storage[DescriptorPath(Table[path].0, Table[path].1)] != "")
    ensures path != RootPath && o.Found? ==>
      o.body == storage[DescriptorPath(Table[path].0, Table[path].1)]
  {
    if path == RootPath then Found(Render(id))
    else if path in Table then
      var (c, n) := Table[path];
      match LoadDescriptor(storage, c, n)
      case Some(text) => if text != "" then Found(text) else NotFound
      case None => NotFound
    else NotFound
  }

  /** The response written for an outcome. */
  function Respond(o: Outcome): (r: Response)
    ensures r.status == 200 <==> o.Found?
    ensures r.status == 200 ==> r.contentType == "application/xml" && r.body == o.body
    ensures r.status != 200 ==> r == Response(404, "text/html", NotFoundBody)
  {
    match o
    case Found(body) => Response(200, "application/xml", body)
    case NotFound => Response(404, "text/html", NotFoundBody)
  }

  /** Distinct outcomes give distinct responses: the status tells a found
      document from a miss, and the body of a 200 is the document. */
  lemma RespondInjective(o1: Outcome, o2: Outcome)
    ensures Respond(o1) == Respond(o2) ==> o1 == o2
  {
  }

  /** The complete GET: resolve, then respond. Every request is answered,
      either with an XML document or with the uniform 404 page. */
  function Get(path: string, id: Identity, storage: Storage): (r: Response)
    ensures r.status == 200 || r.status == 404
    ensures r.status == 200 ==> r.contentType == "application/xml"
    ensures r.status == 404 ==> r.contentType == "text/html" && r.body == NotFoundBody
    ensures path == RootPath ==> r == Response(200, "application/xml", Render(id))
  {
    Respond(Resolve(path, id, storage))
  }

  /** The root path is not a route: its first segment starts with a
      lower-case letter, every category with an upper-case one. */
  lemma RootPathIsNotRoute()
    ensures RootPath !in Table
  {
    forall i, j | 0 <= i < |Categories| && 0 <= j < |Kinds|
      ensures RootPath != RoutePath(Categories[i], Kinds[j])
    {
      RoutePathParts(Categories[i], Kinds[j]);
      assert RoutePath(Categories[i], Kinds[j])[1] == Categories[i][0];
    }
    TableKeys(RootPath);
  }

  /** The root path always yields the rendered description, whatever the
      storage holds. */
  lemma ResolveRoot(id: Identity, storage: Storage)
    ensures Resolve(RootPath, id, storage) == Found(Render(id))
    ensures Get(RootPath, id, storage) == Response(200, "application/xml", Render(id))
  {
  }

  /** A route is answered with exactly the text read from its descriptor file,
      `descriptors/<category lower-cased>/<kind>.xml`, when that file
      exists and is non-empty, and with 404 otherwise. */
  lemma ResolveRoute(i: nat, j: nat, id: Identity, storage: Storage)
    requires i < |Categories| && j < |Kinds|
    ensures var path, file := RoutePath(Categories[i], Kinds[j]), DescriptorPath(Lower(Categories[i]), Kinds[j]);
      && (Resolve(path, id, storage).Found? <==> file in storage && storage[file] != "")
      && (Resolve(path, id, storage).Found? ==> Resolve(path, id, storage).body == storage[file])
      && (Get(path, id, storage).status == 200 <==> file in storage && storage[file] != "")
  {
    TableEntries(i, j);
    RootPathIsNotRoute();
  }

  /** An existing but empty descriptor file is answered like a missing
      one. */
  lemma ResolveEmptyFile(i: nat, j: nat, id: Identity, storage: Storage)
    requires i < |Categories| && j < |Kinds|
    requires DescriptorPath(Lower(Categories[i]), Kinds[j]) in storage
    requires storage[DescriptorPath(Lower(Categories[i]), Kinds[j])] == ""
    ensures Get(RoutePath(Categories[i], Kinds[j]), id, storage) == Response(404, "text/html", NotFoundBody)
  {
    ResolveRoute(i, j, id, storage);
  }

  /** A path that is neither the root path nor the path of a (category,
      kind) pair is answered with 404 `Not found.`. */
  lemma ResolveUnknown(path: string, id: Identity, storage: Storage)
    requires path != RootPath
    requires forall i, j :: 0 <= i < |Categories| && 0 <= j < |Kinds| ==> path != RoutePath(Categories[i], Kinds[j])
    ensures Resolve(path, id, storage) == NotFound
    ensures Get(path, id, storage) == Response(404, "text/html", NotFoundBody)
  {
    TableKeys(path);
  }

  /** Matching is case-sensitive: a route spelled with a lower-cased
      category is unknown. */
  lemma ResolveIsCaseSensitive(i: nat, j: nat, id: Identity, storage: Storage)
    requires i < |Categories| && j < |Kinds|
    ensures Get(RoutePath(Lower(Categories[i]), Kinds[j]), id, storage) == Response(404, "text/html", NotFoundBody)
  {
    var c := Lower(Categories[i]);
    TableIsCaseSensitive(i, j);
    LoweredInitial(i);
    RoutePathParts(c, Kinds[j]);
    assert RoutePath(c, Kinds[j])[1] == c[0] != RootPath[1];
  }

  /** The lower-cased categories start with `a`, `c` and `r`, never with
      the `u` of the root path. */
  lemma LoweredInitial(i: nat)
    requires i < |Categories|
    ensures |Lower(Categories[i])| > 0 && Lower(Categories[i])[0] != 'u'
  {
    assert Lower(Categories[i])[0] == LowerChar(Categories[i][0]);
  }

  /** The outcome depends on the storage only through the one descriptor
      file the path's route names. */
  lemma ResolveReadsOneFile(path: string, id: Identity, s1: Storage, s2: Storage)
    requires path in Table ==>
      var file := DescriptorPath(Table[path].0, Table[path].1);
      (file in s1 <==> file in s2) && (file in s1 ==> s1[file] == s2[file])
    ensures Resolve(path, id, s1) == Resolve(path, id, s2)
  {
  }

  /** The identity matters only for the root path. */
  lemma ResolveIgnoresIdentity(path: string, id1: Identity, id2: Identity, storage: Storage)
    requires path != RootPath
    ensures Resolve(path, id1, storage) == Resolve(path, id2, storage)
  {
  }

  /** The descriptor file of a route is the route's own path lower-cased,
      under `descriptors`. */
  lemma StorageKeyIsLoweredPath(path: string)
    requires path in Table
    ensures DescriptorPath(Table[path].0, Table[path].1) == "descriptors" + Lower(path)
  {
    TableKeys(path);
    var i, j :| 0 <= i < |Categories| && 0 <= j < |Kinds| && path == RoutePath(Categories[i], Kinds[j]);
    TableEntries(i, j);
    NamesWellFormed();
    LowerRoutePath(Categories[i], Kinds[j]);
    DescriptorPathOfRoute(Lower(Categories[i]), Kinds[j]);
  }

  /** A descriptor file sits where its route path sits, under
      `descriptors`. */
  lemma DescriptorPathOfRoute(c: string, n: string)
    ensures DescriptorPath(c, n) == "descriptors" + RoutePath(c, n)
  {
  }

  /** Every URL the root description advertises is resolved through the
      descriptor storage, never by the unknown-path branch: it is served
      exactly when its lower-cased file exists with non-empty text. */
  lemma AdvertisedUrlsResolve(k: nat, m: nat, id: Identity, storage: Storage)
    requires k < |ServiceList| && m < |ServiceList[k].urls|
    ensures var path := ServiceList[k].urls[m].1;
      var file := "descriptors" + Lower(path);
      && (Resolve(path, id, storage).Found? <==> file in storage && storage[file] != "")
      && (Resolve(path, id, storage).Found? ==> Resolve(path, id, storage).body == storage[file])
  {
    AdvertisedUrlsAreRoutes();
    RootPathIsNotRoute();
    StorageKeyIsLoweredPath(ServiceList[k].urls[m].1);
  }

  /** A device named `TestDevice` with UUID `1234` serves a description
      naming it and carrying its UDN. */
  lemma RootScenario(id: Identity, storage: Storage)
    requires id.friendlyName == "TestDevice" && id.uuid == "1234"
    ensures Get(RootPath, id, storage).status == 200
    ensures Contains(Get(RootPath, id, storage).body, "<friendlyName>TestDevice</friendlyName>")
    ensures Contains(Get(RootPath, id, storage).body, "<UDN>uuid:1234</UDN>")
  {
    RenderShowsIdentity(id);
    ElementSpellings();
  }

  /** The literal spellings the scenarios use. */
  lemma ElementSpellings()
    ensures Element("friendlyName", "TestDevice") == "<friendlyName>TestDevice</friendlyName>"
    ensures Element("UDN", "uuid:" + "1234") == "<UDN>uuid:1234</UDN>"
  {
  }

  lemma PathSpellings()
    ensures RoutePath(Categories[0], Kinds[2]) == "/AVTransport/scpd.xml"
    ensures DescriptorPath(Lower(Categories[0]), Kinds[2]) == "descriptors/avtransport/scpd.xml"
  {
    assert Lower("AVTransport") == "avtransport";
  }

  /** The AVTransport service description is served as the text read
      from `descriptors/avtransport/scpd.xml`, and answered with 404 when
      that file is absent. */
  lemma StoredScenario(id: Identity, storage: Storage)
    ensures "descriptors/avtransport/scpd.xml" in storage && storage["descriptors/avtransport/scpd.xml"] == "<x/>" ==>
      Get("/AVTransport/scpd.xml", id, storage) == Response(200, "application/xml", "<x/>")
    ensures "descriptors/avtransport/scpd.xml" !in storage ==>
      Get("/AVTransport/scpd.xml", id, storage) == Response(404, "text/html", "Not found.")
  {
    ResolveRoute(0, 2, id, storage);
    PathSpellings();
  }

  /** An unknown category is answered with 404. */
  lemma UnknownScenario(id: Identity, storage: Storage)
    ensures Get("/Nonexistent/control.xml", id, storage) == Response(404, "text/html", "Not found.")
  {
    var path := "/Nonexistent/control.xml";
    forall i, j | 0 <= i < |Categories| && 0 <= j < |Kinds|
      ensures path != RoutePath(Categories[i], Kinds[j])
    {
      RoutePathParts(Categories[i], Kinds[j]);
      assert RoutePath(Categories[i], Kinds[j])[1] == Categories[i][0] != path[1];
    }
    ResolveUnknown(path, id, storage);
  }
}
