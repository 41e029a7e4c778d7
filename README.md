# Streaming tessellation service, modelled in Dafny

A client (the renderer) opens one bidirectional stream to the tessellation
service and sends polygons, each an ordered list of vertices. For every
polygon the service sends back its triangle fan anchored at the first vertex:
for vertices `v0 … v(N-1)`, the triangles `(v0, v(k+1), v(k+2))` for
`k = 0 … N-3`, in that order, each as a polygon message of three vertices. A
polygon with 0, 1 or 2 vertices draws an argument error naming the count
instead. When the client closes its half of the stream the service closes the
response stream. The client checks that every message it receives holds
exactly three vertices, passes them in order to its renderer, and rejects any
other message with an exception.

Vertices are a type parameter `V` throughout: neither side computes with a
vertex, it only copies vertices between messages, so coordinates (doubles in
the source) do not appear.

Files:

- `protocol.dfy` (module `Protocol`): the `Polygon` message, `Triangle`, the
  signals a stream carries (`Next` message or `Error`), `Result`, and the
  encoding of a triangle as a three-vertex message.
- `tessellation_service.dfy` (module `TessellationService`): the fan
  (`FanFrom`, `Fan`), the vertex-count check (`Triangulate`), everything sent
  for one polygon (`Response`), the per-session handler as a class `Session`
  whose `OnNext` walks the vertices with a fixed pivot and a rolling second
  vertex and appends each triangle to the response stream, `OnError`,
  `OnCompleted`, a whole session (`Tessellate`, `Transcript`), and the source's
  `onNext` as written (`OnNextAsWritten`, see Findings).
- `renderer.dfy` (module `Renderer`): the client observer's check
  (`OnNext`), the delivery of one inbound signal (`Deliver`) and of a stream
  of them (`Consume`); the renderer is a sink that records the triangles it
  receives.
- `end_to_end.dfy` (module `EndToEnd`): the two sides composed.

The service's inbound `onError` does nothing: it neither sends anything nor
closes the response stream. The client's `onCompleted` does nothing.

## Model

| member | source | states |
|---|---|---|
| `Protocol.TriangleMessage` | tessellation-service/src/main/java/org/silnith/example/tessellation/TessellationServiceImpl.java:35-39 | a triangle is sent as a message of exactly three vertices: pivot, second, third, in that order |
| `Protocol.MessagesAppend` | tessellation-service/src/main/java/org/silnith/example/tessellation/TessellationServiceImpl.java:40 | sending one more triangle appends exactly its message and keeps the earlier ones |
| `TessellationService.MessageIdentifiesCount` | tessellation-service/src/main/java/org/silnith/example/tessellation/TessellationServiceImpl.java:22-32 | the three error texts are pairwise distinct and each names one vertex count (0, 1, 2) |
| `TessellationService.FanFrom` | tessellation-service/src/main/java/org/silnith/example/tessellation/TessellationServiceImpl.java:29-42 | with a fixed pivot and a rolling second vertex, one triangle per remaining vertex; the k-th is (pivot, previous vertex, k-th vertex) |
| `TessellationService.Fan` | tessellation-service/src/main/java/org/silnith/example/tessellation/TessellationServiceImpl.java:25-42 | for N >= 3 vertices exactly N-2 triangles, the k-th being `(v0, v(k+1), v(k+2))` |
| `TessellationService.FanPivot` | tessellation-service/src/main/java/org/silnith/example/tessellation/TessellationServiceImpl.java:25-36 | every triangle of the fan has the first vertex as its first vertex |
| `TessellationService.FanChained` | tessellation-service/src/main/java/org/silnith/example/tessellation/TessellationServiceImpl.java:34-41 | each triangle's second vertex is the previous triangle's third vertex |
| `TessellationService.FanExtend` | tessellation-service/src/main/java/org/silnith/example/tessellation/TessellationServiceImpl.java:33-42 | one more vertex adds exactly one triangle at the end and changes none before it, so each triangle can be sent as soon as its vertex is read |
| `TessellationService.FanPrefixStep` | tessellation-service/src/main/java/org/silnith/example/tessellation/TessellationServiceImpl.java:34-41 | reading the next vertex completes exactly the next triangle `(v0, previous, current)` of the fan |
| `TessellationService.FanOfTriangle` | tessellation-service/src/main/java/org/silnith/example/tessellation/TessellationServiceImpl.java:33-42 | a three-vertex polygon yields one triangle identical to it |
| `TessellationService.FanOfQuadrilateral` | tessellation-service/src/main/java/org/silnith/example/tessellation/TessellationServiceImpl.java:33-42 | four vertices (the unit square) yield `[v0, v1, v2]` then `[v0, v2, v3]` |
| `TessellationService.Triangulate` | tessellation-service/src/main/java/org/silnith/example/tessellation/TessellationServiceImpl.java:22-42 | fails exactly when there are fewer than three vertices, with the error of that count; otherwise gives the fan |
| `TessellationService.Response` | tessellation-service/src/main/java/org/silnith/example/tessellation/TessellationServiceImpl.java:19-43 | for N >= 3 exactly N-2 messages `[v0, v(k+1), v(k+2)]` in order; for fewer, one error naming the count and no triangle |
| `TessellationService.Session.constructor` | tessellation-service/src/main/java/org/silnith/example/tessellation/TessellationServiceImpl.java:15-16 | a new session has sent nothing and is not completed |
| `TessellationService.Session.OnNext` | tessellation-service/src/main/java/org/silnith/example/tessellation/TessellationServiceImpl.java:19-43 | the vertex walk appends exactly `Response(value)` to the response stream and leaves completion unchanged |
| `TessellationService.Session.OnError` | tessellation-service/src/main/java/org/silnith/example/tessellation/TessellationServiceImpl.java:45-48 | an inbound error sends nothing and changes nothing |
| `TessellationService.Session.OnCompleted` | tessellation-service/src/main/java/org/silnith/example/tessellation/TessellationServiceImpl.java:50-53 | completion is forwarded to the response stream; nothing else is sent |
| `TessellationService.TranscriptSendsTriangles` | tessellation-service/src/main/java/org/silnith/example/tessellation/TessellationServiceImpl.java:35-40 | every message the service sends in a session has exactly three vertices |
| `TessellationService.TranscriptAppend` | tessellation-service/src/main/java/org/silnith/example/tessellation/TessellationServiceImpl.java:19-43 | the output for a run of polygons is the in-order concatenation of the per-polygon responses, never interleaved |
| `TessellationService.TwoPolygonSession` | tessellation-service/src/main/java/org/silnith/example/tessellation/TessellationServiceImpl.java:19-43 | a four-vertex polygon then a triangle yield the first polygon's two triangles, then the second's one |
| `TessellationService.Tessellate` | tessellation-service/src/main/java/org/silnith/example/tessellation/TessellationServiceImpl.java:15-54 | a session fed polygons in arrival order and then closed has sent exactly the concatenated responses and is completed |
| `TessellationService.OnNextAsWritten` | tessellation-service/src/main/java/org/silnith/example/tessellation/TessellationServiceImpl.java:19-43 | as written, an exception escapes exactly when the polygon has fewer than three vertices, after one error signal |
| `TessellationService.AsWrittenFaultsAfterError` | tessellation-service/src/main/java/org/silnith/example/tessellation/TessellationServiceImpl.java:22-34 | as written, a short polygon sends the same one error as `Response` and then faults; a fannable one behaves as `Response` |
| `Renderer.OnNext` | renderer/src/main/java/org/silnith/example/renderer/Main.java:23-28 | accepted exactly when the message has three vertices, and then the triangle re-encodes to the very message (vertices 0, 1, 2 in order); otherwise the `NotATriangle` error, whose text is "Polygon is not a triangle." |
| `Renderer.AcceptsTriangleMessage` | renderer/src/main/java/org/silnith/example/renderer/Main.java:24-27 | every triangle message passes the check and gives back the same triangle |
| `Renderer.Deliver` | renderer/src/main/java/org/silnith/example/renderer/Main.java:23-38 | an error signal changes nothing; a message is rendered exactly when it has three vertices, and then exactly the triangle of its vertices 0, 1, 2 is appended to what was rendered; a rejected one is not rendered and nothing is handled afterwards |
| `Renderer.RejectionIsFinal` | renderer/src/main/java/org/silnith/example/renderer/Main.java:24-27 | after a rejected message no later signal reaches the renderer |
| `Renderer.ConsumeTriangles` | renderer/src/main/java/org/silnith/example/renderer/Main.java:27 | a run of triangle messages is rendered completely, in order, unchanged |
| `Renderer.ConsumeError` | renderer/src/main/java/org/silnith/example/renderer/Main.java:30-33 | an inbound error leaves the client as it was |
| `EndToEnd.ServiceMessagesPassClientCheck` | renderer/src/main/java/org/silnith/example/renderer/Main.java:24 | every message the service sends passes the client's three-vertex check |
| `EndToEnd.ConsumeResponse` | tessellation-service/src/main/java/org/silnith/example/tessellation/TessellationServiceImpl.java:19-43 | the response to one polygon makes the client render that polygon's fan, or nothing if it is too short |
| `EndToEnd.RenderedIsConcatenatedFans` | tessellation-service/src/main/java/org/silnith/example/tessellation/TessellationServiceImpl.java:19-43 | over a session the client renders exactly the in-order concatenation of the fans of the submitted polygons and never fails |
| `EndToEnd.UnitSquareRendered` | renderer/src/main/java/org/silnith/example/renderer/Main.java:52-76 | the client's unit square is rendered as `(v0, v1, v2)` then `(v0, v2, v3)` |

## Left out

- Vertex coordinates are not modelled: vertices are opaque values of a type parameter, because nothing reads or computes with them.
- The renderer's formatting of a triangle (a fixed-locale, `Locale.US`, text of the nine coordinates, each with sign, grouping and two decimals, whose result is discarded) is not modelled; `render` is a sink that records the triangle it is given.
- Process bootstrap is not modelled: binding the server port, starting and shutting down the server, and the client's channel and stub set-up.
- The transport is not modelled: gRPC dispatch, threads, executors, flow control and transport faults. A stream is an ordered sequence of signals plus a completed flag.
- An `Error` signal records the exception passed to the response observer's `onError`, identified by its message text; gRPC itself closes the call with a status and does not carry that text to the other side.
- The transport rule that a stream ends at its first error is not modelled; the model records what the handler sends, and an `Error` signal does not end the stream.
- `Renderer.ConsumeError` and `EndToEnd.RenderedIsConcatenatedFans`: on the client side this means that after a short polygon's error the model keeps rendering the fans of later polygons, whereas in the program the error ends the response stream and nothing after it reaches the client. For sessions containing a short polygon, "renders all fans and never fails" therefore covers signals the transport would cut short.
- `Session.OnError` takes no argument: the source ignores the exception it is given.
- The client's `onCompleted` is not a separate member: it does nothing, so `Consume` simply ends at the end of the stream.
- What happens to an exception thrown out of the client's `onNext` is left to the transport; the model stops consumption there (`Failed`).

## Findings

| source | as written | input that shows it | evidently intended | confidence | as-written member | corrected member |
|---|---|---|---|---|---|---|
| tessellation-service/src/main/java/org/silnith/example/tessellation/TessellationServiceImpl.java:22-34 | after reporting "no vertices", "only has one vertex" or "only has two vertices" the handler does not return and reads the exhausted vertex iterator again, so an exception escapes | a polygon with no vertices: one error signal, then a failing `next()` | report the error and return, sending no triangle | high (not executed) | `TessellationService.AsWrittenFaultsAfterError` | `TessellationService.Response` |
