/**
  The messages of the tessellation protocol, shared by the service and the
  renderer. Vertices are a type parameter: neither side ever computes with a
  vertex, it only copies vertices from one message into another.
 */
module Protocol {

  /** A `Polygon` message: an ordered list of vertices. The service answers
      with messages of the same shape, each holding one triangle. */
  datatype Polygon<V> = Polygon(vertex: seq<V>)

  /** Three vertices in the order they are sent and rendered. */
  datatype Triangle<V> = Triangle(a: V, b: V, c: V)

  /** What a handler passes to its response observer: a message (`onNext`),
      or the exception passed to `onError`, identified by its text. */
  datatype Signal<V> = Next(message: Polygon<V>) | Error(description: string)

  datatype Result<T, E> = Success(value: T) | Failure(error: E)

  /** The message that carries triangle `t`: its three vertices, in order. */
  function TriangleMessage<V>(t: Triangle<V>): (m: Polygon<V>)
    ensures |m.vertex| == 3
    ensures m.vertex[0] == t.a && m.vertex[1] == t.b && m.vertex[2] == t.c
  {
    Polygon([t.a, t.b, t.c])
  }

  /** The messages that carry `ts`, one per triangle, in order. */
  function Messages<V>(ts: seq<Triangle<V>>): (r: seq<Signal<V>>)
    ensures |r| == |ts|
    ensures forall k :: 0 <= k < |r| ==> r[k] == Next(TriangleMessage(ts[k]))
  {
    seq(|ts|, k requires 0 <= k < |ts| => Next(TriangleMessage(ts[k])))
  }

  /** Sending one more triangle adds exactly its message at the end. */
  lemma MessagesAppend<V>(ts: seq<Triangle<V>>, t: Triangle<V>)
    ensures Messages(ts + [t]) == Messages(ts) + [Next(TriangleMessage(t))]
  {
  }
}
