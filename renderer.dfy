/**
  The consuming side of the stream: the client's response observer. Each
  inbound message must hold exactly three vertices; a triangle is passed to
  the renderer with its vertices in the order received, and any other message
  is rejected by an exception before anything is rendered. The renderer itself
  is an opaque sink: the model records the triangles it is given.
 */
module Renderer {
  import opened Protocol

  /** The exception thrown for a message that is not a triangle. */
  datatype RenderError = NotATriangle
  {
    function Message(): string
    {
      "Polygon is not a triangle."
    }
  }

  /** The observer's check of one inbound message: a message of exactly three
      vertices gives the triangle of its vertices 0, 1 and 2, unchanged; any
      other count is rejected. The observer's only field is the renderer, so
      the verdict depends on the message alone. */
  function OnNext<V>(value: Polygon<V>): (r: Result<Triangle<V>, RenderError>)
    ensures r.Success? <==> |value.vertex| == 3
    ensures r.Success? ==> TriangleMessage(r.value) == value
    ensures r.Failure? ==> r.error == NotATriangle
  {
    if |value.vertex| != 3 then Failure(NotATriangle)
    else
      var t := Triangle(value.vertex[0], value.vertex[1], value.vertex[2]);
      assert TriangleMessage(t).vertex == value.vertex;
      Success(t)
  }

  /** Every message that carries a triangle passes the check and gives that
      same triangle back. */
  lemma AcceptsTriangleMessage<V>(t: Triangle<V>)
    ensures OnNext(TriangleMessage(t)) == Success(t)
  {
  }

  /** The client so far: the triangles passed to the renderer, in order, and
      whether a rejected message has ended its consumption. */
  datatype Client<V> =
    | Consuming(rendered: seq<Triangle<V>>)
    | Failed(rendered: seq<Triangle<V>>, error: RenderError)

  /** One inbound signal handed to the observer. A message goes to `OnNext`
      and, when accepted, to the renderer; an error goes to `onError`, which
      does nothing. Once a message has been rejected nothing more is handled. */
  function Deliver<V>(c: Client<V>, s: Signal<V>): (r: Client<V>)
    ensures c.Failed? || s.Error? ==> r == c
    ensures c.Consuming? && s.Next? ==> (r.Consuming? <==> |s.message.vertex| == 3)
    ensures r.Failed? && c.Consuming? ==> r.rendered == c.rendered
    ensures c.Consuming? && s.Next? && |s.message.vertex| == 3 ==>
      r == Consuming(c.rendered + [Triangle(s.message.vertex[0], s.message.vertex[1], s.message.vertex[2])])
  {
    match c
    case Failed(_, _) => c
    case Consuming(rendered) =>
      match s
      case Error(_) => c
      case Next(m) =>
        match OnNext(m)
        case Success(t) => Consuming(rendered + [t])
        case Failure(e) => Failed(rendered, e)
  }

  /** The client after the inbound signals `ss`, delivered in order; the end
      of the stream (`onCompleted`) changes nothing. */
  function Consume<V>(ss: seq<Signal<V>>): Client<V>
  {
    if ss == [] then Consuming([]) else Deliver(Consume(ss[..|ss| - 1]), ss[|ss| - 1])
  }

  /** Appending one signal delivers it to the client as it was. */
  lemma ConsumeSnoc<V>(ss: seq<Signal<V>>, s: Signal<V>)
    ensures Consume(ss + [s]) == Deliver(Consume(ss), s)
  {
  }

  /** A rejected message ends consumption: nothing that follows it reaches
      the renderer, and the rejected message itself never did. */
  lemma {:induction false} RejectionIsFinal<V>(ss: seq<Signal<V>>, more: seq<Signal<V>>)
    requires Consume(ss).Failed?
    ensures Consume(ss + more) == Consume(ss)
    decreases |more|
  {
    if more != [] {
      var init := more[..|more| - 1];
      assert ss + more == (ss + init) + [more[|more| - 1]];
      ConsumeSnoc(ss + init, more[|more| - 1]);
      RejectionIsFinal(ss, init);
    } else {
      assert ss + more == ss;
    }
  }

  /** A message that carries a triangle is rendered as that triangle. */
  lemma ConsumeTriangle<V>(ss: seq<Signal<V>>, t: Triangle<V>)
    requires Consume(ss).Consuming?
    ensures Consume(ss + [Next(TriangleMessage(t))]) == Consuming(Consume(ss).rendered + [t])
  {
  }

  /** Messages that each carry a triangle are all rendered, in order. */
  lemma {:induction false} ConsumeTriangles<V>(ss: seq<Signal<V>>, ts: seq<Triangle<V>>)
    requires Consume(ss).Consuming?
    ensures Consume(ss + Messages(ts)) == Consuming(Consume(ss).rendered + ts)
    decreases |ts|
  {
    if ts == [] {
      assert ss + Messages(ts) == ss;
    } else {
      var init, last := ts[..|ts| - 1], ts[|ts| - 1];
      var front := ss + Messages(init);
      assert ts == init + [last];
      MessagesAppend(init, last);
      assert ss + Messages(ts) == front + [Next(TriangleMessage(last))];
      ConsumeTriangles(ss, init);
      ConsumeTriangle(front, last);
      assert Consume(ss).rendered + init + [last] == Consume(ss).rendered + ts;
    }
  }

  /** An error signal from the other side changes nothing. */
  lemma ConsumeError<V>(ss: seq<Signal<V>>, description: string)
    ensures Consume(ss + [Error(description)]) == Consume(ss)
  {
  }
}
