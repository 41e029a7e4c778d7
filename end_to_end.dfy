/**
  The service and the client composed over one session: whatever the service
  sends passes the client's check, and the client renders exactly the fans of
  the polygons it submitted, polygon after polygon.
 */
module EndToEnd {
  import opened Protocol
  import opened TessellationService
  import opened Renderer

  /** The triangles of polygon `p` that reach the client: its fan, or none
      when it is too short to fan. */
  function FanOrNone<V>(p: Polygon<V>): seq<Triangle<V>>
  {
    match Triangulate(p.vertex)
    case Success(ts) => ts
    case Failure(_) => []
  }

  /** Every message the service sends is accepted by the client. */
  lemma ServiceMessagesPassClientCheck<V>(ps: seq<Polygon<V>>, i: nat)
    requires i < |Transcript(ps)| && Transcript(ps)[i].Next?
    ensures OnNext(Transcript(ps)[i].message).Success?
  {
    TranscriptSendsTriangles(ps, i);
  }

  /** The response to one polygon renders that polygon's fan, or nothing. */
  lemma ConsumeResponse<V>(ss: seq<Signal<V>>, p: Polygon<V>)
    requires Consume(ss).Consuming?
    ensures Consume(ss + Response(p)) == Consuming(Consume(ss).rendered + FanOrNone(p))
  {
    match Triangulate(p.vertex)
    case Success(ts) =>
      ConsumeTriangles(ss, ts);
    case Failure(e) =>
      ConsumeError(ss, e.Message());
  }

  /** Over a whole session the client renders the in-order concatenation of
      the fans of the submitted polygons, and is never made to fail. */
  lemma {:induction false} RenderedIsConcatenatedFans<V>(ps: seq<Polygon<V>>)
    ensures Consume(Transcript(ps)) == Consuming(Concat(p => FanOrNone(p), ps))
    decreases |ps|
  {
    if ps != [] {
      var init, last := ps[..|ps| - 1], ps[|ps| - 1];
      assert Transcript(ps) == Transcript(init) + Response(last);
      RenderedIsConcatenatedFans(init);
      ConsumeResponse(Transcript(init), last);
    }
  }

  /** The client's smoke test: the unit square submitted alone is rendered as
      `(v0, v1, v2)` and then `(v0, v2, v3)`. */
  lemma UnitSquareRendered<V>(v0: V, v1: V, v2: V, v3: V)
    ensures Consume(Transcript([Polygon([v0, v1, v2, v3])])) ==
      Consuming([Triangle(v0, v1, v2), Triangle(v0, v2, v3)])
  {
    var square := Polygon([v0, v1, v2, v3]);
    RenderedIsConcatenatedFans([square]);
    assert [square][..0] == [];
    assert Concat(p => FanOrNone(p), [square]) == FanOrNone(square);
    FanOfQuadrilateral(v0, v1, v2, v3);
  }
}
