/**
  The triangulating side of the stream: the handler that `tessellate` returns
  for each session. For every polygon it receives it sends back the polygon's
  triangle fan anchored at the first vertex, or an error when the polygon has
  fewer than three vertices; it forwards the end of the inbound stream to the
  response stream.
 */
module TessellationService {
  import opened Protocol

  /** The argument errors reported for a polygon too short to fan. */
  datatype ValidationError = NoVertices | OneVertex | TwoVertices
  {
    /** How many vertices a polygon that draws this error has. */
    function VertexCount(): nat
    {
      match this
      case NoVertices => 0
      case OneVertex => 1
      case TwoVertices => 2
    }

    /** The text of the exception passed to the response observer's `onError`. */
    function Message(): string
    {
      match this
      case NoVertices => "Polygon has no vertices."
      case OneVertex => "Polygon only has one vertex."
      case TwoVertices => "Polygon only has two vertices."
    }
  }

  /** Distinct counts draw distinct texts, so the error names the count. */
  lemma MessageIdentifiesCount(e1: ValidationError, e2: ValidationError)
    ensures e1.Message() == e2.Message() <==> e1.VertexCount() == e2.VertexCount()
  {
  }

  /** The triangles `(pivot, previous, current)` for each `current` of `rest`,
      where `previous` is `second` for the first one and afterwards the
      `current` of the triangle before: the rolling second vertex. */
  function FanFrom<V>(pivot: V, second: V, rest: seq<V>): (r: seq<Triangle<V>>)
    ensures |r| == |rest|
    ensures forall k :: 0 <= k < |r| ==> r[k] == Triangle(pivot, ([second] + rest)[k], rest[k])
    decreases |rest|
  {
    if rest == [] then []
    else [Triangle(pivot, second, rest[0])] + FanFrom(pivot, rest[0], rest[1..])
  }

  /** The triangle fan of a polygon of at least three vertices: the k-th
      triangle is `(v[0], v[k+1], v[k+2])`, and there are N-2 of them. */
  function Fan<V>(vs: seq<V>): (r: seq<Triangle<V>>)
    requires |vs| >= 3
    ensures |r| == |vs| - 2
    ensures forall k :: 0 <= k < |r| ==> r[k] == Triangle(vs[0], vs[k + 1], vs[k + 2])
  {
    FanFrom(vs[0], vs[1], vs[2..])
  }

  /** Every triangle of the fan has the first vertex as its pivot. */
  lemma FanPivot<V>(vs: seq<V>, t: Triangle<V>)
    requires |vs| >= 3 && t in Fan(vs)
    ensures t.a == vs[0]
  {
  }

  /** Consecutive triangles share an edge: each second vertex is the third
      vertex of the triangle before it. */
  lemma FanChained<V>(vs: seq<V>, k: nat)
    requires |vs| >= 3 && 0 < k < |vs| - 2
    ensures Fan(vs)[k].b == Fan(vs)[k - 1].c
  {
  }

  /** The fan can be sent as the vertices arrive: one more vertex adds exactly
      one triangle at the end and leaves the earlier ones as they were. */
  lemma FanExtend<V>(vs: seq<V>, x: V)
    requires |vs| >= 3
    ensures Fan(vs + [x]) == Fan(vs) + [Triangle(vs[0], vs[|vs| - 1], x)]
  {
  }

  /** Reading vertex `n` completes exactly one more triangle of the fan. */
  lemma FanPrefixStep<V>(vs: seq<V>, n: nat)
    requires 2 <= n < |vs|
    ensures Fan(vs)[..n - 1] == Fan(vs)[..n - 2] + [Triangle(vs[0], vs[n - 1], vs[n])]
  {
  }

  /** A triangle is its own fan. */
  lemma FanOfTriangle<V>(a: V, b: V, c: V)
    ensures Fan([a, b, c]) == [Triangle(a, b, c)]
  {
  }

  /** A four-vertex polygon such as the unit square (0,0,0), (1,0,0),
      (1,1,0), (0,1,0) yields `[v0, v1, v2]` and then `[v0, v2, v3]`. */
  lemma FanOfQuadrilateral<V>(v0: V, v1: V, v2: V, v3: V)
    ensures Fan([v0, v1, v2, v3]) == [Triangle(v0, v1, v2), Triangle(v0, v2, v3)]
  {
  }

  /** The vertex-count check followed by the fan: a polygon of fewer than
      three vertices is an error naming its count, any other is fanned. */
  function Triangulate<V>(vs: seq<V>): (r: Result<seq<Triangle<V>>, ValidationError>)
    ensures r.Success? <==> |vs| >= 3
    ensures r.Failure? ==> r.error.VertexCount() == |vs|
    ensures r.Success? ==> r.value == Fan(vs)
  {
    if |vs| == 0 then Failure(NoVertices)
    else if |vs| == 1 then Failure(OneVertex)
    else if |vs| == 2 then Failure(TwoVertices)
    else Success(Fan(vs))
  }

  /** Everything the handler sends for one polygon: for N >= 3 vertices the
      N-2 triangles `(v[0], v[k+1], v[k+2])` in order and nothing else; for
      fewer, one error whose text names the count, and no triangle. */
  function Response<V>(p: Polygon<V>): (r: seq<Signal<V>>)
    ensures |p.vertex| < 3 ==>
      exists e: ValidationError :: e.VertexCount() == |p.vertex| && r == [Error(e.Message())]
    ensures |p.vertex| >= 3 ==> |r| == |p.vertex| - 2
    ensures |p.vertex| >= 3 ==> forall k :: 0 <= k < |r| ==>
      r[k] == Next(Polygon([p.vertex[0], p.vertex[k + 1], p.vertex[k + 2]]))
  {
    match Triangulate(p.vertex)
    case Failure(e) => [Error(e.Message())]
    case Success(ts) => Messages(ts)
  }

  /** The handler of one session, together with what it has sent on the
      response stream. The handler keeps no state between polygons: every
      variable of `OnNext` is local to one call. */
  class Session<V> {
    /** The messages and errors sent on the response stream, in order. */
    var sent: seq<Signal<V>>
    /** Whether completion has been forwarded to the response stream. */
    var completed: bool

    constructor ()
      ensures sent == [] && !completed
    {
      sent := [];
      completed := false;
    }

    /** Handles one inbound polygon, walking its vertices once with a fixed
        pivot and a rolling second vertex, and sending each triangle as soon
        as its third vertex is read. A polygon too short to fan draws one
        error and the handler returns. */
    method OnNext(value: Polygon<V>)
      modifies this
      ensures sent == old(sent) + Response(value)
      ensures completed == old(completed)
    {
      var vs := value.vertex;
      var next := 0;  // position of the vertex iterator
      if next == |vs| {
        sent := sent + [Error(NoVertices.Message())];
        return;
      }
      var firstVertex := vs[next];
      next := next + 1;
      if next == |vs| {
        sent := sent + [Error(OneVertex.Message())];
        return;
      }
      var secondVertex := vs[next];
      next := next + 1;
      if next == |vs| {
        sent := sent + [Error(TwoVertices.Message())];
        return;
      }
      // A do/while in the source; the iterator has a next vertex on entry.
      ghost var fan := Fan(vs);
      while next < |vs|
        invariant 2 <= next <= |vs|
        invariant firstVertex == vs[0] && secondVertex == vs[next - 1]
        invariant sent == old(sent) + Messages(fan[..next - 2])
        invariant completed == old(completed)
        decreases |vs| - next
      {
        var thirdVertex := vs[next];
        var triangle := Triangle(firstVertex, secondVertex, thirdVertex);
        FanPrefixStep(vs, next);
        MessagesAppend(fan[..next - 2], triangle);
        next := next + 1;
        sent := sent + [Next(TriangleMessage(triangle))];
        secondVertex := thirdVertex;
      }
      assert fan[..next - 2] == fan;
    }

    /** An inbound stream error: the handler sends nothing. */
    method OnError()
      ensures sent == old(sent) && completed == old(completed)
    {
    }

    /** The end of the inbound stream is forwarded to the response stream. */
    method OnCompleted()
      modifies this
      ensures completed && sent == old(sent)
    {
      completed := true;
    }
  }

  /** The outputs of `f` on each of `xs`, one after another. */
  function Concat<A, B>(f: A -> seq<B>, xs: seq<A>): seq<B>
  {
    if xs == [] then [] else Concat(f, xs[..|xs| - 1]) + f(xs[|xs| - 1])
  }

  lemma {:induction false} ConcatAppend<A, B>(f: A -> seq<B>, xs: seq<A>, ys: seq<A>)
    ensures Concat(f, xs + ys) == Concat(f, xs) + Concat(f, ys)
    decreases |ys|
  {
    if ys == [] {
      assert xs + ys == xs;
    } else {
      var init := ys[..|ys| - 1];
      assert (xs + ys)[..|xs + ys| - 1] == xs + init;
      assert (xs + ys)[|xs + ys| - 1] == ys[|ys| - 1];
      ConcatAppend(f, xs, init);
    }
  }

  /** The response stream of a session whose inbound polygons were `ps`: the
      responses to the polygons one after another. */
  function Transcript<V>(ps: seq<Polygon<V>>): seq<Signal<V>>
  {
    Concat(p => Response(p), ps)
  }

  /** The last polygon's response closes the transcript. */
  lemma TranscriptLast<V>(ps: seq<Polygon<V>>)
    requires ps != []
    ensures Transcript(ps) == Transcript(ps[..|ps| - 1]) + Response(ps[|ps| - 1])
  {
  }

  /** Every message sent for one polygon has exactly three vertices. */
  lemma ResponseSendsTriangles<V>(p: Polygon<V>, j: nat)
    requires j < |Response(p)| && Response(p)[j].Next?
    ensures |Response(p)[j].message.vertex| == 3
  {
  }

  /** Every message the service sends has exactly three vertices. */
  lemma {:induction false} TranscriptSendsTriangles<V>(ps: seq<Polygon<V>>, i: nat)
    requires i < |Transcript(ps)| && Transcript(ps)[i].Next?
    ensures |Transcript(ps)[i].message.vertex| == 3
    decreases |ps|
  {
    TranscriptLast(ps);
    var init, last := ps[..|ps| - 1], ps[|ps| - 1];
    var t := Transcript(init);
    if i < |t| {
      TranscriptSendsTriangles(init, i);
    } else {
      ResponseSendsTriangles(last, i - |t|);
    }
  }

  /** The transcript of two runs of polygons is the concatenation of theirs:
      nothing of one polygon's response is moved past the next polygon's. */
  lemma TranscriptAppend<V>(ps: seq<Polygon<V>>, qs: seq<Polygon<V>>)
    ensures Transcript(ps + qs) == Transcript(ps) + Transcript(qs)
  {
    ConcatAppend(p => Response(p), ps, qs);
  }

  /** A four-vertex polygon followed by a triangle: the first polygon's two
      triangles come before the second's one. */
  lemma TwoPolygonSession<V>(a0: V, a1: V, a2: V, a3: V, b0: V, b1: V, b2: V)
    ensures Transcript([Polygon([a0, a1, a2, a3]), Polygon([b0, b1, b2])]) ==
      [Next(Polygon([a0, a1, a2])), Next(Polygon([a0, a2, a3])), Next(Polygon([b0, b1, b2]))]
  {
    var pa, pb := Polygon([a0, a1, a2, a3]), Polygon([b0, b1, b2]);
    assert [pa, pb][..1] == [pa];
    assert [pa][..0] == [];
    var ra, rb := Response(pa), Response(pb);
    assert Transcript([pa]) == Transcript([]) + ra;
    assert Transcript([pa, pb]) == Transcript([pa]) + rb;
    assert ra == [Next(Polygon([a0, a1, a2])), Next(Polygon([a0, a2, a3]))];
    assert rb == [Next(Polygon([b0, b1, b2]))];
  }

  /** One session driven by its inbound stream: the polygons `ps` delivered
      one at a time in arrival order, then the end of the stream. */
  method Tessellate<V>(ps: seq<Polygon<V>>) returns (sent: seq<Signal<V>>, completed: bool)
    ensures sent == Transcript(ps)
    ensures completed
  {
    var session := new Session<V>();
    var i := 0;
    while i < |ps|
      invariant 0 <= i <= |ps|
      invariant session.sent == Transcript(ps[..i]) && !session.completed
    {
      session.OnNext(ps[i]);
      assert ps[..i + 1][..i] == ps[..i];
      i := i + 1;
    }
    session.OnCompleted();
    assert ps[..i] == ps;
    sent, completed := session.sent, session.completed;
  }

  /** How a call of the source's `onNext` ends: what it sent, and whether an
      exception escaped it. */
  datatype Handling<V> = Handling(sent: seq<Signal<V>>, escaped: bool)

  /** The source's `onNext` as written: each count check reports its error
      but does not return, so the next read of the vertex iterator follows
      and fails on the exhausted iterator. */
  function OnNextAsWritten<V>(value: Polygon<V>): (h: Handling<V>)
    ensures h.escaped <==> |value.vertex| < 3
    ensures |h.sent| == if |value.vertex| < 3 then 1 else |value.vertex| - 2
  {
    var vs := value.vertex;
    var noVertices := if |vs| == 0 then [Error(NoVertices.Message())] else [];
    if |vs| < 1 then Handling(noVertices, true)
    else
      var oneVertex := if |vs| == 1 then [Error(OneVertex.Message())] else [];
      if |vs| < 2 then Handling(noVertices + oneVertex, true)
      else
        var twoVertices := if |vs| == 2 then [Error(TwoVertices.Message())] else [];
        if |vs| < 3 then Handling(noVertices + oneVertex + twoVertices, true)
        else Handling(Messages(Fan(vs)), false)
  }

  /** As written, a polygon too short to fan draws its one error and then an
      exception escapes the handler; a polygon that can be fanned is handled
      as `Response` says. */
  lemma AsWrittenFaultsAfterError<V>(value: Polygon<V>)
    ensures |value.vertex| < 3 ==>
      OnNextAsWritten(value).escaped && OnNextAsWritten(value).sent == Response(value)
    ensures |value.vertex| >= 3 ==> OnNextAsWritten(value) == Handling(Response(value), false)
  {
  }
}
