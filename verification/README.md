# UPnP media-renderer emulator: request routing and device description

This project models the core of the test-only UPnP media-renderer emulator
`tests/upnp/upnp_http_server.py`. The emulator is an HTTP server that
answers GET requests for a device's root description and for the
per-service documents (control, event subscription and SCPD) of its three
services: AVTransport, ConnectionManager and RenderingControl.

The model has four modules:

- `Strings` (`strings.dfy`): ASCII lower-casing, substring containment and
  the concatenation of a list of text segments.
- `Routes` (`routes.dfy`): the module-level route table. It is built the
  way the source builds it, as a fold over the nested `for` loops in which
  every assignment overwrites (`AddRow`, `AddRows`). It is proved to hold
  exactly the nine paths `/{Category}/{kind}.xml`, each mapped to the
  lower-cased category and the kind.
- `DeviceXml` (`device_xml.dfy`): the root device description in the UPnP
  Device Architecture 1.1 format (section 2.3, device description). It is
  rendered as the concatenation of its lines, with the ten identity fields
  substituted verbatim. The hard-coded service list is kept as a literal
  (`ServiceList`) and is proved to agree with the route table in both
  directions.
- `Handler` (`handler.dfy`): the decision logic of `do_GET`.
  - The root path gives 200 with the rendered description.
  - A route of the table gives 200 with its stored document when that
    document exists and is non-empty.
  - Every other request gives 404 `Not found.`.

  The file system is an abstract `Storage` map from paths relative to the
  server's directory to what `open(path).read()` returns for each file:
  its decoded text, with line endings normalised, not its bytes. A path
  that is not a key does not exist.

All operations are pure functions of the path, the identity and the
storage. Repeated resolution therefore gives the same response by
construction. Logging has no channel into the model, so it cannot change
an outcome.

Line 32 tests the loaded text for truthiness, so an existing but empty
descriptor file is answered with 404, like a missing one
(`Handler.ResolveEmptyFile`).

## Model

| member | source | states |
|---|---|---|
| Strings.Lower | tests/upnp/upnp_http_server.py:11 | `str.lower` on ASCII text: same length, each letter `A`..`Z` replaced by its lower-case letter (code plus 32), every other character unchanged |
| Routes.Categories | tests/upnp/upnp_http_server.py:8 | Definition, no contract: the three categories the outer loop runs over, in order |
| Routes.Kinds | tests/upnp/upnp_http_server.py:9 | Definition, no contract: the three kinds the inner loop runs over, in order |
| Routes.RouteValue | tests/upnp/upnp_http_server.py:11 | Definition, no contract: the stored value, the category and the kind each lower-cased |
| Routes.RoutePath | tests/upnp/upnp_http_server.py:10 | Definition, no contract: the request path `/{category}/{kind}.xml` (its parts are stated by `Routes.RoutePathParts`) |
| Routes.AddRow | tests/upnp/upnp_http_server.py:9-11 | Definition, no contract: one pass of the inner loop, assigning each kind's path in order |
| Routes.AddRows | tests/upnp/upnp_http_server.py:8-11 | Definition, no contract: the outer loop, one inner pass per category in order |
| Routes.Table | tests/upnp/upnp_http_server.py:6-11 | Definition, no contract: `service_xmls_`, the nested loops run from an empty table |
| Strings.LowerOfLower | tests/upnp/upnp_http_server.py:11 | Lower-casing text that is already lower case changes nothing, so `n.lower()` keeps each kind name as it is |
| Routes.RoutePathInjective | tests/upnp/upnp_http_server.py:8-11 | Two (category, kind) pairs whose categories have no slash get the same path only if they are the same pair, so the nested loops never write one key twice |
| Routes.AddRowsStores | tests/upnp/upnp_http_server.py:8-11 | For slash-free categories, after the nested loops the path of every (category, kind) pair maps to (category lower-cased, kind lower-cased), whatever later iterations write |
| Routes.AddRowsOnly | tests/upnp/upnp_http_server.py:8-11 | The loops add no key other than the path of one of their (category, kind) pairs |
| Routes.AddRowsSize | tests/upnp/upnp_http_server.py:8-11 | With distinct, slash-free categories and distinct kinds, run into a table that holds none of their paths, the loops add one entry per pair, |categories| times |kinds| in all |
| Routes.TableEntries | tests/upnp/upnp_http_server.py:8-11 | Each of the 3 x 3 paths `/C/n.xml` is a key of the table, mapped to (C lower-cased, n) |
| Routes.TableKeys | tests/upnp/upnp_http_server.py:6-11 | A path is a key of the table if and only if it is `/C/n.xml` for a category C and a kind n |
| Routes.TableSize | tests/upnp/upnp_http_server.py:6-11 | The table has exactly nine entries, so all nine keys are distinct |
| Routes.TableExample | tests/upnp/upnp_http_server.py:10-11 | `/AVTransport/scpd.xml` maps to ("avtransport", "scpd") |
| Routes.TableIsCaseSensitive | tests/upnp/upnp_http_server.py:10-11 | A route spelled with a lower-cased category, such as `/avtransport/scpd.xml`, is not a key |
| Routes.LowerRoutePath | tests/upnp/upnp_http_server.py:11 | Lower-casing a path lower-cases its category and keeps a lower-case kind |
| DeviceXml.Render | tests/upnp/upnp_http_server.py:62-119 | Rendering has no error path: every identity gives a document that starts with the XML declaration and ends with `</root>` |
| DeviceXml.RenderContainsLine | tests/upnp/upnp_http_server.py:66-109 | Every line of the template, filled in, occurs in the rendered document |
| DeviceXml.RenderShowsIdentity | tests/upnp/upnp_http_server.py:74-83 | Each of the ten identity values appears unescaped inside its own element, and the UDN element holds `uuid:` followed by the UUID |
| DeviceXml.ServiceList | tests/upnp/upnp_http_server.py:85-107 | Definition, no contract: the hard-coded service list, each entry's category with its URL tags and URLs in template order |
| DeviceXml.AVTransportEntry | tests/upnp/upnp_http_server.py:86-92 | The AVTransport entry lists its control, event and SCPD URLs, in that order, at the route paths of its category |
| DeviceXml.ConnectionManagerEntry | tests/upnp/upnp_http_server.py:93-99 | The ConnectionManager entry lists its SCPD, control and event URLs, in that order, at the route paths of its category |
| DeviceXml.RenderingControlEntry | tests/upnp/upnp_http_server.py:100-106 | The RenderingControl entry lists its SCPD, control and event URLs, in that order, at the route paths of its category |
| DeviceXml.ServiceListMatchesRoutes | tests/upnp/upnp_http_server.py:85-107 | The service list has three entries whose categories are the route table's categories in order (AVTransport, ConnectionManager, RenderingControl), and every URL of an entry is the route path of one of its kinds under that kind's tag |
| DeviceXml.ServiceListCoversKinds | tests/upnp/upnp_http_server.py:85-107 | No kind of a category is missing from that category's entry |
| DeviceXml.AdvertisedUrlsAreRoutes | tests/upnp/upnp_http_server.py:85-107 | Every advertised URL is a route-table key stored under the entry's lower-cased category and the kind its tag names, and every route-table key is advertised |
| DeviceXml.ServiceBlocksLine | tests/upnp/upnp_http_server.py:86-106 | Each service block is seven lines, with the service type second and the three URL elements fourth to sixth |
| DeviceXml.RenderDeclaresServices | tests/upnp/upnp_http_server.py:87-101 | The rendered document declares the service type `urn:schemas-upnp-org:service:C:1` of every category C |
| DeviceXml.RenderAdvertisesRoutes | tests/upnp/upnp_http_server.py:85-107 | Every route of the table appears in the rendered document as a `controlURL`, `eventSubURL` or `SCPDURL` element, according to its kind |
| DeviceXml.RenderHasThreeServices | tests/upnp/upnp_http_server.py:85-107 | Exactly three lines of the filled-in template open a `<service>` block, one per entry, seven lines apart, after the eight head lines, the ten identity lines and the two lines that open the list |
| Handler.DescriptorPath | tests/upnp/upnp_http_server.py:50 | Definition, no contract: the path `descriptors/{category}/{name}.xml` under the server's directory (related to the route path by `Handler.DescriptorPathOfRoute`) |
| Handler.LoadDescriptor | tests/upnp/upnp_http_server.py:48-52 | The lookup yields the file's text when `descriptors/<category>/<name>.xml` exists, and nothing otherwise |
| Handler.Resolve | tests/upnp/upnp_http_server.py:19-45 | The root path always gives the rendered document. Any other path gives a document if and only if it is a route whose descriptor file exists with non-empty text, and that document is the file's text |
| Handler.Respond | tests/upnp/upnp_http_server.py:22-44 | Status 200 is sent if and only if a document was found, with content type `application/xml` and the document as body. Otherwise the response is 404, `text/html`, `Not found.` |
| Handler.RespondInjective | tests/upnp/upnp_http_server.py:22-44 | Two outcomes that give the same response are the same outcome: a client can tell a served document from a miss, and reads the document unchanged in the body |
| Handler.Get | tests/upnp/upnp_http_server.py:19-45 | Every GET is answered with status 200 and `application/xml`, or with 404, `text/html` and `Not found.`; the root path always gets 200 with the rendered description |
| Handler.RootPathIsNotRoute | tests/upnp/upnp_http_server.py:22-28 | The root path `/upnp_redirect_1_0.xml` is not a key of the route table |
| Handler.ResolveRoot | tests/upnp/upnp_http_server.py:22-27 | GET of the root path gives 200 `application/xml` with the rendered document, whatever the storage holds |
| Handler.ResolveRoute | tests/upnp/upnp_http_server.py:28-38 | A route `/C/n.xml` gives 200 with exactly the text read from `descriptors/c/n.xml` (c is C lower-cased) if and only if that file exists and is non-empty |
| Handler.ResolveEmptyFile | tests/upnp/upnp_http_server.py:30-44 | An existing but empty descriptor file gives 404 `Not found.`, like a missing one |
| Handler.ResolveUnknown | tests/upnp/upnp_http_server.py:40-44 | A path that is neither the root path nor a route gives 404, `text/html`, `Not found.` |
| Handler.ResolveIsCaseSensitive | tests/upnp/upnp_http_server.py:22-28 | A route spelled with a lower-cased category gives 404 |
| Handler.ResolveReadsOneFile | tests/upnp/upnp_http_server.py:28-32 | Two storages that agree on the one descriptor file a path's route names give the same outcome |
| Handler.ResolveIgnoresIdentity | tests/upnp/upnp_http_server.py:28-44 | The identity fields affect only the answer for the root path |
| Handler.DescriptorPathOfRoute | tests/upnp/upnp_http_server.py:50 | The descriptor file of a pair is the pair's route path under `descriptors` |
| Handler.StorageKeyIsLoweredPath | tests/upnp/upnp_http_server.py:29-30 | The file looked up for a route is `descriptors` followed by the route's own path lower-cased |
| Handler.AdvertisedUrlsResolve | tests/upnp/upnp_http_server.py:28-38 | Every URL the root document advertises is answered from storage, never by the unknown-path branch: 200 with the text of `descriptors` + the lower-cased URL if and only if that file exists and is non-empty |
| Handler.RootScenario | tests/upnp/upnp_http_server.py:22-27 | With friendly name `TestDevice` and UUID `1234`, the root document contains `<friendlyName>TestDevice</friendlyName>` and `<UDN>uuid:1234</UDN>` |
| Handler.StoredScenario | tests/upnp/upnp_http_server.py:28-44 | `/AVTransport/scpd.xml` is served as `<x/>` when the text read from `descriptors/avtransport/scpd.xml` is `<x/>`, and gives 404 `Not found.` when that file is absent |
| Handler.UnknownScenario | tests/upnp/upnp_http_server.py:40-44 | `/Nonexistent/control.xml` gives 404 `Not found.` |

## Left out

- `UPNPHTTPServerBase` and `UPNPHTTPServer` (lines 123-163) are left out. They bind a port and run the server on a daemon thread, which is runtime plumbing and concurrency. The identity they store is the `Identity` parameter.
- `do_POST` (lines 54-60) is left out. It only reads `Content-Length` bytes from the socket and logs them, and it has no decision logic.
- Logging (lines 20 and 40) is left out. It is a side channel that cannot change the outcome.
- HTTP header emission and UTF-8 encoding are left out. A response is a status, a content type and a body string. The bytes written by `send_response`, `send_header`, `end_headers` and `.encode()` are not modelled.
- Real file-system access is replaced by the `Storage` map. This covers `os.path.abspath` and `os.path.dirname` (the base directory), `os.path.exists` and `open(...).read()`. A path that exists but cannot be read, such as a directory, raises an exception in the source; that is not modelled.
- Strings.Lower: models Python's `str.lower` on ASCII letters only, because only the ASCII category names reach it.
- Identity fields are modelled as strings. `str.format` would apply `str()` to a field that is not a string, such as the `None` that `UPNPHTTPServerBase` starts with; that conversion is not modelled.
- DeviceXml.Render: does not state that the document is well-formed XML. Identity values are substituted without escaping, so a value containing `<` or `&` gives ill-formed XML. The model keeps that behaviour unchanged.
- No separate idempotence lemma is stated. Every operation is a Dafny function, so repeated resolution with the same inputs yields the same response by construction.
