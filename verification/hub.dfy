/**
  The hub: a single-threaded arbiter that owns the set of active connections,
  one outbound queue per connection, the shared document and the cursor
  table, and handles one event at a time (Register, Unregister, Broadcast).
  Each handler is a pure function from the state before the event to the
  state after it.
*/
module Hub {
  import opened Envelope
  import opened Outbound

  /**
    A connection as the hub knows it. `handle` stands for the identity of the
    connection object (two connections may share a user id).
  */
  datatype Client = Client(handle: nat, userId: string, color: string)

  /**
    `queues` holds the send channel of every connection the hub has ever been
    handed, closed or not; `clients` is the active set.
  */
  datatype State = State(
    clients: set<Client>,
    queues: map<Client, Outbox>,
    document: string,
    cursors: map<string, CursorInfo>)

  datatype Event =
    | Register(client: Client, outbox: Outbox, order: seq<string>)
    | Unregister(client: Client)
    | Broadcast(frame: Bytes)
    | Drain(client: Client, count: nat)

  /** Every cursor is stored under its own user id. */
  ghost predicate KeyedByUser(cursors: map<string, CursorInfo>)
  {
    forall k :: k in cursors ==> cursors[k].userId == k
  }

  /** Every active connection has a send channel and it is still open. */
  ghost predicate OpenQueues(h: State)
  {
    forall c :: c in h.clients ==> c in h.queues && !h.queues[c].closed
  }

  /**
    The hub invariant: a connection is active exactly when its channel is
    open (every close is paired with removal from the active set), no
    channel holds more than its capacity, and cursors are keyed by user.
  */
  ghost predicate Valid(h: State)
  {
    && h.clients <= h.queues.Keys
    && (forall c :: c in h.queues ==> (c in h.clients <==> !h.queues[c].closed))
    && (forall c :: c in h.queues ==> |h.queues[c].items| <= h.queues[c].cap)
    && KeyedByUser(h.cursors)
  }

  /** The state the hub starts in. */
  function NewHub(): (h: State)
    ensures Valid(h)
    ensures h.clients == {} && h.document == "" && h.cursors == map[]
  {
    State({}, map[], "", map[])
  }

  /** `order` lists every element of `keys` exactly once (a map iteration order). */
  ghost predicate Enumerates(order: seq<string>, keys: set<string>)
  {
    && (forall i, j :: 0 <= i < j < |order| ==> order[i] != order[j])
    && (forall k :: k in order <==> k in keys)
  }

  lemma {:induction false} EnumerationLength(order: seq<string>, keys: set<string>)
    requires Enumerates(order, keys)
    ensures |order| == |keys|
    decreases |order|
  {
    if order != [] {
      var rest := keys - {order[0]};
      forall k
        ensures k in order[1..] <==> k in rest
      {
        if k in order[1..] {
          var j :| 0 <= j < |order[1..]| && order[1..][j] == k;
          assert order[j + 1] == k;
        }
        if k in rest {
          assert k in order;
          var j :| 0 <= j < |order| && order[j] == k;
          assert j != 0;
          assert order[1..][j - 1] == k;
        }
      }
      EnumerationLength(order[1..], rest);
    }
  }

  /** `select { case send <- m: default: close(send) }` left `after` from `before`; `kept` says the send went through. */
  ghost predicate OfferedTo(before: Outbox, after: Outbox, kept: bool, m: Bytes)
  {
    && after.cap == before.cap
    && (kept <==> HasRoom(before))
    && (kept ==> !after.closed && after.items == before.items + [m])
    && (!kept ==> after.closed && after.items == before.items)
  }

  /** Each of `recipients` was offered `m` once, under the drop-on-saturation policy. */
  ghost predicate FannedOut(h: State, r: State, recipients: set<Client>, m: Bytes)
  {
    && r.queues.Keys == h.queues.Keys
    && (forall c :: c in recipients ==> c in h.queues && OfferedTo(h.queues[c], r.queues[c], c in r.clients, m))
  }

  /** Channels of inactive connections are left alone. */
  ghost predicate InactiveUntouched(h: State, r: State)
  {
    forall c :: c in h.queues && c !in h.clients ==> c in r.queues && r.queues[c] == h.queues[c]
  }

  /**
    Offer `m` to every active connection. Each connection's fate depends only
    on its own channel, so the Go map iteration order does not matter: a
    connection whose channel is full is closed and leaves the active set,
    every other one gets `m` appended.
  */
  function FanOut(h: State, m: Bytes): (r: State)
    requires OpenQueues(h)
    ensures r.document == h.document && r.cursors == h.cursors
    ensures r.clients <= h.clients
    ensures FannedOut(h, r, h.clients, m)
    ensures InactiveUntouched(h, r)
    ensures Valid(h) ==> Valid(r)
  {
    State(
      set c | c in h.clients && HasRoom(h.queues[c]),
      map c | c in h.queues :: if c in h.clients then Offer(h.queues[c], m) else h.queues[c],
      h.document,
      h.cursors)
  }

  /**
    The fan-out loop as Go runs it: `for client := range h.clients`, visiting
    the active connections one at a time in an order the program does not
    control, deleting a saturated connection from the set while iterating.
    Whatever order is taken, the result is `FanOut`.
  */
  method FanOutInIterationOrder(h: State, m: Bytes) returns (r: State)
    requires OpenQueues(h)
    ensures r == FanOut(h, m)
  {
    r := h;
    var pending := h.clients;
    while pending != {}
      invariant pending <= h.clients
      invariant r.document == h.document && r.cursors == h.cursors
      invariant r.queues.Keys == h.queues.Keys
      invariant r.clients <= h.clients
      invariant forall c :: c in pending ==> c in r.clients && r.queues[c] == h.queues[c]
      invariant forall c :: c in h.clients && c !in pending ==>
        (c in r.clients <==> HasRoom(h.queues[c])) && r.queues[c] == Offer(h.queues[c], m)
      invariant forall c :: c in h.queues && c !in h.clients ==> r.queues[c] == h.queues[c]
      decreases pending
    {
      var c :| c in pending;
      var q := r.queues[c];
      if HasRoom(q) {
        r := r.(queues := r.queues[c := q.(items := q.items + [m])]);
      } else {
        r := r.(clients := r.clients - {c}, queues := r.queues[c := q.(closed := true)]);
      }
      pending := pending - {c};
    }
    var f := FanOut(h, m);
    assert r.clients == f.clients;
    assert r.queues == f.queues;
  }

  /** The catch-up envelopes for a new connection, in map iteration order `order`. */
  function CatchUp(cursors: map<string, CursorInfo>, self: string, order: seq<string>): (r: seq<Message>)
    requires forall k :: k in order ==> k in cursors
    ensures |r| <= |order|
    ensures forall i :: 0 <= i < |r| ==> r[i].kind == CursorType && r[i].userId != self
  {
    if order == [] then []
    else
      var k := order[0];
      var rest := CatchUp(cursors, self, order[1..]);
      if cursors[k].userId != self then [CursorMessage(cursors[k])] + rest else rest
  }

  /** One catch-up envelope per stored cursor of another user. */
  ghost function CatchUpDue(cursors: map<string, CursorInfo>, self: string): set<Message>
  {
    set k | k in cursors && cursors[k].userId != self :: CursorMessage(cursors[k])
  }

  /** The catch-up envelopes due for the cursors listed in `order`. */
  ghost function Announced(cursors: map<string, CursorInfo>, self: string, order: seq<string>): set<Message>
    requires forall k :: k in order ==> k in cursors
  {
    set k | k in order && cursors[k].userId != self :: CursorMessage(cursors[k])
  }

  lemma AnnouncedCons(cursors: map<string, CursorInfo>, self: string, order: seq<string>)
    requires order != []
    requires forall k :: k in order ==> k in cursors
    ensures Announced(cursors, self, order) ==
      Announced(cursors, self, order[1..])
      + (if cursors[order[0]].userId != self then {CursorMessage(cursors[order[0]])} else {})
  {
    assert forall k :: k in order <==> k == order[0] || k in order[1..];
  }

  lemma MultisetOfFreshUnion<T>(s: set<T>, x: T)
    requires x !in s
    ensures multiset(s + {x}) == multiset(s) + multiset{x}
  {
  }

  /**
    Whatever the iteration order, the catch-up holds exactly one envelope for
    each stored cursor of another user and nothing else.
  */
  lemma {:induction false} CatchUpCoversOthers(cursors: map<string, CursorInfo>, self: string, order: seq<string>)
    requires KeyedByUser(cursors)
    requires Enumerates(order, cursors.Keys)
    ensures multiset(CatchUp(cursors, self, order)) == multiset(CatchUpDue(cursors, self))
  {
    CatchUpCoversPrefix(cursors, self, order);
    assert Announced(cursors, self, order) == CatchUpDue(cursors, self);
  }

  lemma {:induction false} CatchUpCoversPrefix(cursors: map<string, CursorInfo>, self: string, order: seq<string>)
    requires KeyedByUser(cursors)
    requires forall k :: k in order ==> k in cursors
    requires forall i, j :: 0 <= i < j < |order| ==> order[i] != order[j]
    ensures multiset(CatchUp(cursors, self, order)) == multiset(Announced(cursors, self, order))
  {
    if order != [] {
      var k := order[0];
      var tail := order[1..];
      forall i, j | 0 <= i < j < |tail|
        ensures tail[i] != tail[j]
      {
        assert tail[i] == order[i + 1] && tail[j] == order[j + 1];
      }
      CatchUpCoversPrefix(cursors, self, tail);
      AnnouncedCons(cursors, self, order);
      if cursors[k].userId != self {
        var mk := CursorMessage(cursors[k]);
        var before := Announced(cursors, self, tail);
        assert mk !in before;
        MultisetOfFreshUnion(before, mk);
      }
    }
  }

  /** Frames for a sequence of envelopes, in order. */
  function EncodeAll(ms: seq<Message>, codec: Codec): (r: seq<Bytes>)
    ensures |r| == |ms|
    ensures forall i :: 0 <= i < |ms| ==> r[i] == codec.encode(ms[i])
  {
    if ms == [] then [] else [codec.encode(ms[0])] + EncodeAll(ms[1..], codec)
  }

  /**
    `items` is what a newly admitted connection's channel holds: what it held
    before, then the `init` snapshot of the document with its rendering, then
    some arrangement of one `cursor` envelope per other user's stored cursor.
  */
  ghost predicate CaughtUp(items: seq<Bytes>, before: seq<Bytes>, h: State, self: string, codec: Codec)
  {
    exists catchUp: seq<Message> ::
      && items == before + [codec.encode(InitMessage(h.document, codec.render(h.document)))] + EncodeAll(catchUp, codec)
      && multiset(catchUp) == multiset(CatchUpDue(h.cursors, self))
  }

  /** What the hub requires of a Register event in state `h`. */
  ghost predicate CanRegister(h: State, q: Outbox, order: seq<string>)
  {
    && !q.closed
    && |q.items| <= q.cap
    && Enumerates(order, h.cursors.Keys)
    && (HasRoom(q) ==> |q.items| + 1 + |h.cursors| <= q.cap)
  }

  /**
    Register: the connection joins the active set; if its channel takes the
    `init` snapshot, the catch-up cursors follow, otherwise the channel is
    closed and the connection is removed again.
  */
  function RegisterClient(h: State, c: Client, q: Outbox, order: seq<string>, codec: Codec): (r: State)
    requires Valid(h)
    requires CanRegister(h, q, order)
    ensures Valid(r)
    ensures r.document == h.document && r.cursors == h.cursors
    ensures c in r.clients <==> HasRoom(q)
    ensures forall d :: d != c ==> (d in r.clients <==> d in h.clients)
    ensures r.queues.Keys == h.queues.Keys + {c}
    ensures forall d :: d in h.queues && d != c ==> r.queues[d] == h.queues[d]
    ensures r.queues[c].cap == q.cap
    ensures !HasRoom(q) ==> r.queues[c].closed && r.queues[c].items == q.items
    ensures HasRoom(q) ==> !r.queues[c].closed && CaughtUp(r.queues[c].items, q.items, h, c.userId, codec)
  {
    if HasRoom(q) then
      var items := Admission(h, c, q, order, codec);
      var r := State(h.clients + {c}, h.queues[c := q.(items := items)], h.document, h.cursors);
      assert r.queues[c].items == items;
      r
    else
      State(h.clients - {c}, h.queues[c := Close(q)], h.document, h.cursors)
  }

  /** The channel contents of an admitted connection: `init`, then the catch-up, each a blocking send. */
  function Admission(h: State, c: Client, q: Outbox, order: seq<string>, codec: Codec): (items: seq<Bytes>)
    requires Valid(h)
    requires CanRegister(h, q, order) && HasRoom(q)
    ensures |items| <= q.cap
    ensures CaughtUp(items, q.items, h, c.userId, codec)
  {
    var init := codec.encode(InitMessage(h.document, codec.render(h.document)));
    var catchUp := CatchUp(h.cursors, c.userId, order);
    CatchUpCoversOthers(h.cursors, c.userId, order);
    EnumerationLength(order, h.cursors.Keys);
    var items := q.items + [init] + EncodeAll(catchUp, codec);
    assert CaughtUp(items, q.items, h, c.userId, codec);
    items
  }

  /**
    Unregister: a no-op for a connection that is not active; otherwise the
    connection leaves the active set, its channel is closed, its user's
    cursor is deleted, and every remaining active connection is offered one
    `cursor_disconnect` carrying that user id.
  */
  function UnregisterClient(h: State, c: Client, codec: Codec): (r: State)
    requires Valid(h)
    ensures Valid(r)
    ensures c !in h.clients ==> r == h
    ensures c in h.clients ==>
      && c !in r.clients
      && r.clients <= h.clients
      && r.document == h.document
      && c in r.queues && r.queues[c].closed && r.queues[c].items == h.queues[c].items
      && r.queues[c].cap == h.queues[c].cap
      && c.userId !in r.cursors
      && (forall k :: k != c.userId ==> (k in r.cursors <==> k in h.cursors))
      && (forall k :: k in r.cursors ==> r.cursors[k] == h.cursors[k])
      && FannedOut(h, r, h.clients - {c}, codec.encode(DisconnectMessage(c.userId)))
      && InactiveUntouched(h, r)
  {
    if c !in h.clients then h
    else
      var closed := State(h.clients - {c}, h.queues[c := Close(h.queues[c])], h.document, h.cursors - {c.userId});
      FanOut(closed, codec.encode(DisconnectMessage(c.userId)))
  }

  /** The frame fanned out for a decoded envelope: `update`s are re-encoded with their rendering, the rest go out verbatim. */
  function Outgoing(m: Message, frame: Bytes, codec: Codec): (out: Bytes)
    ensures m.kind != UpdateType ==> out == frame
    ensures m.kind == UpdateType ==>
      out == codec.encode(Message(UpdateType, m.content, codec.render(m.content), m.userId, m.position))
  {
    if m.kind == UpdateType then codec.encode(m.(renderedHtml := codec.render(m.content))) else frame
  }

  /**
    Broadcast: an undecodable frame is dropped without any effect. An `update`
    replaces the document, a `cursor` upserts the sender's cursor, any other
    type changes nothing; in every case the outgoing frame is offered to every
    active connection, the sender's included.
  */
  function BroadcastFrame(h: State, frame: Bytes, codec: Codec): (r: State)
    requires Valid(h)
    ensures Valid(r)
    ensures codec.decode(frame).None? ==> r == h
    ensures codec.decode(frame).Some? ==>
      var m := codec.decode(frame).value;
      && r.clients <= h.clients
      && FannedOut(h, r, h.clients, Outgoing(m, frame, codec))
      && InactiveUntouched(h, r)
    ensures codec.decode(frame).Some? && codec.decode(frame).value.kind == UpdateType ==>
      var m := codec.decode(frame).value;
      && r.document == m.content
      && r.cursors == h.cursors
      && Outgoing(m, frame, codec) == codec.encode(m.(renderedHtml := codec.render(m.content)))
    ensures codec.decode(frame).Some? && codec.decode(frame).value.kind == CursorType ==>
      var m := codec.decode(frame).value;
      && r.document == h.document
      && m.userId in r.cursors
      && r.cursors[m.userId] == CursorInfo(m.userId, m.position, m.content)
      && (forall k :: k != m.userId ==> (k in r.cursors <==> k in h.cursors))
      && (forall k :: k != m.userId && k in r.cursors ==> r.cursors[k] == h.cursors[k])
      && Outgoing(m, frame, codec) == frame
    ensures codec.decode(frame).Some? && codec.decode(frame).value.kind !in {UpdateType, CursorType} ==>
      && r.document == h.document
      && r.cursors == h.cursors
      && Outgoing(codec.decode(frame).value, frame, codec) == frame
  {
    match codec.decode(frame)
    case None => h
    case Some(m) =>
      var applied :=
        if m.kind == UpdateType then h.(document := m.content)
        else if m.kind == CursorType then h.(cursors := h.cursors[m.userId := CursorOf(m)])
        else h;
      FanOut(applied, Outgoing(m, frame, codec))
  }

  /**
    A connection's writer taking `n` frames off its channel, interleaved
    with the hub's events. Only that channel changes; a connection the hub
    was never handed is left alone.
  */
  function DrainQueue(h: State, c: Client, n: nat): (r: State)
    requires Valid(h)
    ensures Valid(r)
    ensures r.clients == h.clients && r.document == h.document && r.cursors == h.cursors
    ensures r.queues.Keys == h.queues.Keys
    ensures forall d :: d in h.queues && d != c ==> r.queues[d] == h.queues[d]
    ensures c in h.queues ==> r.queues[c] == Take(h.queues[c], n)
    ensures c !in h.queues ==> r == h
  {
    if c in h.queues then h.(queues := h.queues[c := Take(h.queues[c], n)]) else h
  }

  /** What an event requires of the state it is handled in. */
  ghost predicate Enabled(h: State, e: Event)
  {
    && Valid(h)
    && (e.Register? ==> CanRegister(h, e.outbox, e.order))
  }

  /** The arbiter handles one event to completion. */
  function Step(h: State, e: Event, codec: Codec): (r: State)
    requires Enabled(h, e)
    ensures Valid(r)
  {
    match e
    case Register(c, q, order) => RegisterClient(h, c, q, order, codec)
    case Unregister(c) => UnregisterClient(h, c, codec)
    case Broadcast(frame) => BroadcastFrame(h, frame, codec)
    case Drain(c, n) => DrainQueue(h, c, n)
  }

  /** Every event of `events` is enabled in the state it meets. */
  ghost predicate RunEnabled(h: State, events: seq<Event>, codec: Codec)
    decreases |events|
  {
    events != [] ==> Enabled(h, events[0]) && RunEnabled(Step(h, events[0], codec), events[1..], codec)
  }

  /** The arbiter's loop: the events handled one after another. */
  function Run(h: State, events: seq<Event>, codec: Codec): (r: State)
    requires Valid(h)
    requires RunEnabled(h, events, codec)
    ensures Valid(r)
    decreases |events|
  {
    if events == [] then h else Run(Step(h, events[0], codec), events[1..], codec)
  }
}
