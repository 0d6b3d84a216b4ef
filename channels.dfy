/**
 * What the two subscriber registries share: response streams as opaque handles,
 * and a write to a stream as a delivery appended to an outbox.
 */
module Channels {
  /** An open HTTP response, known only by its identity. */
  type Handle = nat

  /** One `res.write(payload)`. */
  datatype Delivery<T> = Delivery(handle: Handle, payload: T)

  /** The topics a broadcast is tagged with. */
  datatype Channel = Leaderboard | Chat

  /** The server-sent-event frame both registries write: `data: <json>` and a blank line. */
  function EventFrame(json: string): string
  {
    "data: " + json + "\n\n"
  }

  /** The same payload written to each handle, in order. */
  function DeliverAll<T>(handles: seq<Handle>, payload: T): (r: seq<Delivery<T>>)
    ensures |r| == |handles|
    ensures forall i :: 0 <= i < |r| ==> r[i] == Delivery(handles[i], payload)
  {
    seq(|handles|, i requires 0 <= i < |handles| => Delivery(handles[i], payload))
  }

  /** Delivering to two lists of handles in turn is delivering to their concatenation: order is kept. */
  lemma DeliverAllConcat<T>(a: seq<Handle>, b: seq<Handle>, payload: T)
    ensures DeliverAll(a + b, payload) == DeliverAll(a, payload) + DeliverAll(b, payload)
  {
    assert forall i :: 0 <= i < |a| ==> (a + b)[i] == a[i];
    assert forall i :: |a| <= i < |a| + |b| ==> (a + b)[i] == b[i - |a|];
  }
}
