/**
  A connection's buffered send channel as the hub sees it: the frames queued
  and not yet written by the connection's writer, the channel's capacity, and
  whether the hub has closed it.
*/
module Outbound {
  import opened Envelope

  /** Capacity of every connection's send channel. */
  const SendBufferSize: nat := 256

  datatype Outbox = Outbox(items: seq<Bytes>, cap: nat, closed: bool)

  /** The channel a new connection is created with. */
  function NewOutbox(): (q: Outbox)
    ensures !q.closed && q.items == [] && q.cap == SendBufferSize
  {
    Outbox([], SendBufferSize, false)
  }

  /** A non-blocking send on the channel would succeed. */
  predicate HasRoom(q: Outbox)
  {
    |q.items| < q.cap
  }

  /**
    The hub's delivery policy: `select { case send <- m: default: close(send) }`.
    Sending on a closed channel panics in Go, hence the precondition.
  */
  function Offer(q: Outbox, m: Bytes): (r: Outbox)
    requires !q.closed
    ensures r.cap == q.cap
    ensures r.closed <==> !HasRoom(q)
    ensures HasRoom(q) ==> r.items == q.items + [m]
    ensures !HasRoom(q) ==> r.items == q.items
  {
    if HasRoom(q) then q.(items := q.items + [m]) else q.(closed := true)
  }

  /** `close(send)`; closing a closed channel panics in Go. */
  function Close(q: Outbox): (r: Outbox)
    requires !q.closed
    ensures r.closed && r.items == q.items && r.cap == q.cap
  {
    q.(closed := true)
  }

  /**
    The connection's writer receiving the first `n` queued frames (all of
    them if fewer are queued). A closed channel still hands out what it
    buffered, so this applies to closed channels too.
  */
  function Take(q: Outbox, n: nat): (r: Outbox)
    ensures r.cap == q.cap && r.closed == q.closed
    ensures n <= |q.items| ==> q.items == q.items[..n] + r.items
    ensures n >= |q.items| ==> r.items == []
    ensures |r.items| <= |q.items|
  {
    if n <= |q.items| then q.(items := q.items[n..]) else q.(items := [])
  }
}
