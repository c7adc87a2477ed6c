/**
  Properties of the hub that relate several events: idempotent unregister,
  the stale cursor a saturated connection leaves behind, what a newly
  registered connection is told, and the single global order in which
  every connection receives broadcasts.
*/
module HubProperties {
  import opened Envelope
  import opened Outbound
  import opened Hub

  /** Unregistering twice is the same as unregistering once. */
  lemma UnregisterIdempotent(h: State, c: Client, codec: Codec)
    requires Valid(h)
    ensures UnregisterClient(UnregisterClient(h, c, codec), c, codec) == UnregisterClient(h, c, codec)
  {
  }

  /**
    A connection dropped for a full channel during a broadcast keeps its
    cursor in the table, and its own later Unregister is a no-op: it offers
    no `cursor_disconnect` and leaves the cursor in place.
  */
  lemma StaleCursorAfterSaturation(h: State, c: Client, frame: Bytes, codec: Codec)
    requires Valid(h)
    requires c in h.clients && !HasRoom(h.queues[c])
    requires codec.decode(frame).Some?
    requires c.userId in h.cursors
    ensures var r := BroadcastFrame(h, frame, codec);
      && c !in r.clients
      && r.queues[c].closed
      && c.userId in r.cursors
      && UnregisterClient(r, c, codec) == r
  {
  }

  /**
    Server-assigned ids can collide. When a connection dropped for a full
    channel shares its id with another active connection, its stale cursor
    survives the broadcast, and the other connection's Unregister deletes it
    and offers every remaining active connection a `cursor_disconnect` for it.
  */
  lemma SharedIdClearsStaleCursor(h: State, c: Client, d: Client, frame: Bytes, codec: Codec)
    requires Valid(h)
    requires c in h.clients && !HasRoom(h.queues[c]) && c.userId in h.cursors
    requires d in h.clients && d != c && d.userId == c.userId && HasRoom(h.queues[d])
    requires codec.decode(frame).Some?
    ensures var r := BroadcastFrame(h, frame, codec);
      && c.userId in r.cursors
      && d in r.clients
      && c.userId !in UnregisterClient(r, d, codec).cursors
      && FannedOut(r, UnregisterClient(r, d, codec), r.clients - {d}, codec.encode(DisconnectMessage(c.userId)))
  {
  }

  /**
    A connection registered with a new, empty channel of positive capacity
    is always admitted, and its channel starts with the `init` snapshot
    followed by exactly one catch-up envelope per other user's cursor.
  */
  lemma RegisterFreshAdmits(h: State, c: Client, q: Outbox, order: seq<string>, codec: Codec)
    requires Valid(h)
    requires q.items == [] && !q.closed && 1 + |h.cursors| <= q.cap
    requires Enumerates(order, h.cursors.Keys)
    ensures var r := RegisterClient(h, c, q, order, codec);
      && c in r.clients
      && |r.queues[c].items| == 1 + |CatchUpDue(h.cursors, c.userId)|
      && r.queues[c].items[0] == codec.encode(InitMessage(h.document, codec.render(h.document)))
  {
    var r := RegisterClient(h, c, q, order, codec);
    var catchUp :| r.queues[c].items == [] + [codec.encode(InitMessage(h.document, codec.render(h.document)))] + EncodeAll(catchUp, codec)
      && multiset(catchUp) == multiset(CatchUpDue(h.cursors, c.userId));
    assert |catchUp| == |multiset(catchUp)| == |multiset(CatchUpDue(h.cursors, c.userId))|;
  }

  /** A `Broadcast` event whose frame decodes to a `cursor` envelope from user `u`. */
  ghost predicate CursorFrameFrom(e: Event, u: string, codec: Codec)
  {
    && e.Broadcast?
    && codec.decode(e.frame).Some?
    && codec.decode(e.frame).value.kind == CursorType
    && codec.decode(e.frame).value.userId == u
  }

  /**
    A key missing from the cursor table stays missing through any run of
    events that holds no `cursor` frame from that user: Register never
    touches the table, Unregister only deletes, and a Broadcast only upserts
    the sender's key.
  */
  lemma {:induction false} AbsentCursorStaysAbsent(h: State, events: seq<Event>, u: string, codec: Codec)
    requires Valid(h) && RunEnabled(h, events, codec)
    requires u !in h.cursors
    requires forall i :: 0 <= i < |events| ==> !CursorFrameFrom(events[i], u, codec)
    ensures u !in Run(h, events, codec).cursors
    decreases |events|
  {
    if events != [] {
      assert !CursorFrameFrom(events[0], u, codec);
      var h1 := Step(h, events[0], codec);
      assert u !in h1.cursors;
      assert forall i :: 0 <= i < |events[1..]| ==> events[1..][i] == events[i + 1];
      AbsentCursorStaysAbsent(h1, events[1..], u, codec);
    }
  }

  /**
    After a connection unregisters, no later registration's catch-up carries
    a cursor envelope for its server-assigned id, as long as no `cursor`
    frame with that id arrives in between (one that does stores it again).
  */
  lemma DisconnectedCursorNotCaughtUp(h: State, a: Client, events: seq<Event>, self: string, codec: Codec)
    requires Valid(h)
    requires a in h.clients
    requires RunEnabled(UnregisterClient(h, a, codec), events, codec)
    requires forall i :: 0 <= i < |events| ==> !CursorFrameFrom(events[i], a.userId, codec)
    ensures var r := Run(UnregisterClient(h, a, codec), events, codec);
      && a.userId !in r.cursors
      && forall m :: m in CatchUpDue(r.cursors, self) ==> m.userId != a.userId
  {
    var r := Run(UnregisterClient(h, a, codec), events, codec);
    AbsentCursorStaysAbsent(UnregisterClient(h, a, codec), events, a.userId, codec);
    forall m | m in CatchUpDue(r.cursors, self)
      ensures m.userId != a.userId
    {
      var k :| k in r.cursors && r.cursors[k].userId != self && m == CursorMessage(r.cursors[k]);
      assert m.userId == k;
    }
  }

  /** An Unregister event for an active connection whose server-assigned id is `u`. */
  ghost predicate UnregistersOwner(h: State, e: Event, u: string)
  {
    e.Unregister? && e.client in h.clients && e.client.userId == u
  }

  /**
    The only event that deletes a cursor is the Unregister of an active
    connection whose server-assigned id equals the cursor's key. Browsers key
    their `cursor` frames with ids of their own, so for them this never
    happens.
  */
  lemma CursorKeptUnlessOwnerLeaves(h: State, e: Event, u: string, codec: Codec)
    requires Enabled(h, e)
    requires u in h.cursors
    requires !UnregistersOwner(h, e, u)
    ensures u in Step(h, e, codec).cursors
    ensures !CursorFrameFrom(e, u, codec) ==> Step(h, e, codec).cursors[u] == h.cursors[u]
  {
  }

  /**
    A cursor whose key no unregistering connection's server-assigned id
    equals is never deleted: over such a run the table only grows.
  */
  lemma {:induction false} CursorNeverDeleted(h: State, events: seq<Event>, u: string, codec: Codec)
    requires Valid(h) && RunEnabled(h, events, codec)
    requires u in h.cursors
    requires forall i :: 0 <= i < |events| && events[i].Unregister? ==> events[i].client.userId != u
    ensures u in Run(h, events, codec).cursors
    decreases |events|
  {
    if events != [] {
      CursorKeptUnlessOwnerLeaves(h, events[0], u, codec);
      assert forall i :: 0 <= i < |events[1..]| ==> events[1..][i] == events[i + 1];
      CursorNeverDeleted(Step(h, events[0], codec), events[1..], u, codec);
    }
  }

  /**
    A connection registering after an `update` receives that update's body,
    with its rendering, in its `init` snapshot.
  */
  lemma UpdateThenRegisterSeesDocument(h: State, frame: Bytes, c: Client, q: Outbox, order: seq<string>, codec: Codec)
    requires Valid(h)
    requires codec.decode(frame).Some? && codec.decode(frame).value.kind == UpdateType
    requires CanRegister(BroadcastFrame(h, frame, codec), q, order) && HasRoom(q)
    ensures var body := codec.decode(frame).value.content;
      var r := RegisterClient(BroadcastFrame(h, frame, codec), c, q, order, codec);
      r.queues[c].items[|q.items|] == codec.encode(InitMessage(body, codec.render(body)))
  {
    var h1 := BroadcastFrame(h, frame, codec);
    var r := RegisterClient(h1, c, q, order, codec);
    var catchUp :| r.queues[c].items == q.items + [codec.encode(InitMessage(h1.document, codec.render(h1.document)))] + EncodeAll(catchUp, codec)
      && multiset(catchUp) == multiset(CatchUpDue(h1.cursors, c.userId));
  }

  /** The frame the hub offers for one received frame: none if it does not decode. */
  function EmittedFor(frame: Bytes, codec: Codec): (r: seq<Bytes>)
  {
    match codec.decode(frame)
    case None => []
    case Some(m) => [Outgoing(m, frame, codec)]
  }

  /** The frames the hub offers for a sequence of received frames. */
  function Emitted(frames: seq<Bytes>, codec: Codec): (r: seq<Bytes>)
    decreases |frames|
  {
    if frames == [] then [] else EmittedFor(frames[0], codec) + Emitted(frames[1..], codec)
  }

  /** The hub handling a sequence of received frames. */
  function BroadcastAll(h: State, frames: seq<Bytes>, codec: Codec): (r: State)
    requires Valid(h)
    ensures Valid(r)
    decreases |frames|
  {
    if frames == [] then h else BroadcastAll(BroadcastFrame(h, frames[0], codec), frames[1..], codec)
  }

  lemma BroadcastSeenOnce(h: State, frame: Bytes, codec: Codec, c: Client)
    requires Valid(h)
    requires c in BroadcastFrame(h, frame, codec).clients
    ensures c in h.clients
    ensures BroadcastFrame(h, frame, codec).queues[c].items == h.queues[c].items + EmittedFor(frame, codec)
  {
    var r := BroadcastFrame(h, frame, codec);
    match codec.decode(frame)
    case None =>
    case Some(m) =>
      assert OfferedTo(h.queues[c], r.queues[c], c in r.clients, Outgoing(m, frame, codec));
  }

  lemma AppendAssoc<T>(a: seq<T>, b: seq<T>, c: seq<T>, ab: seq<T>, abc: seq<T>)
    requires ab == a + b && abc == ab + c
    ensures abc == a + (b + c)
  {
  }

  /**
    Global order: a connection still active after a sequence of broadcasts
    was active throughout, and its channel received exactly `Emitted(frames)`,
    the same sequence of frames for every such connection.
  */
  lemma {:induction false} BroadcastsSeenInOneOrder(h: State, frames: seq<Bytes>, codec: Codec, c: Client)
    requires Valid(h)
    requires c in BroadcastAll(h, frames, codec).clients
    ensures c in h.clients
    ensures BroadcastAll(h, frames, codec).queues[c].items == h.queues[c].items + Emitted(frames, codec)
    decreases |frames|
  {
    if frames != [] {
      var h1 := BroadcastFrame(h, frames[0], codec);
      var rest := frames[1..];
      BroadcastsSeenInOneOrder(h1, rest, codec, c);
      BroadcastSeenOnce(h, frames[0], codec, c);
      AppendAssoc(h.queues[c].items, EmittedFor(frames[0], codec), Emitted(rest, codec),
        h1.queues[c].items, BroadcastAll(h1, rest, codec).queues[c].items);
    }
  }
}
