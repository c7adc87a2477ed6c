/**
  The plain-JavaScript browser client: what it does with the envelopes the
  hub sends, when it sends its own `update` and `cursor` envelopes, and which
  cursors it draws. Incoming frames are modelled as already parsed envelopes;
  the page's DOM is reduced to the editor's text.
*/
module Browser {
  import opened Envelope
  import Cursors

  /** The colour every browser client puts in its `cursor` envelopes. */
  const CursorColor: string := "#FF6B6B"

  datatype Peer = Peer(userId: string, position: int)

  /**
    `sent` is everything handed to `ws.send`, in order; `lastContent` is the
    editor text of the last `update` sent.
  */
  datatype Page = Page(
    myUserId: string,
    editor: string,
    cursors: map<string, Peer>,
    lastContent: string,
    connected: bool,
    sent: seq<Message>)

  datatype PageEvent =
    | Opened
    | Closed
    | Input(value: string)
    | Received(message: Message)
    | CaretMoved(selection: int)
    | DebounceFired(selection: int)

  /** The page as loaded; `myUserId` is the randomly drawn id. */
  function Load(myUserId: string): (p: Page)
    ensures p.myUserId == myUserId
    ensures p.cursors == map[] && p.editor == "" && p.lastContent == ""
    ensures !p.connected && p.sent == []
  {
    Page(myUserId, "", map[], "", false, [])
  }

  /** `ws.onmessage`. */
  function OnMessage(p: Page, m: Message): (r: Page)
    ensures r.myUserId == p.myUserId
    ensures m.kind == InitType || m.kind == UpdateType ==>
      r.editor == m.content && r.(editor := p.editor) == p
    ensures (m.kind == InitType || m.kind == UpdateType) && p.editor == m.content ==> r == p
    ensures m.kind == CursorType && m.userId != p.myUserId ==>
      && m.userId in r.cursors
      && r.cursors[m.userId] == Peer(m.userId, m.position)
      && (forall k :: k != m.userId ==> (k in r.cursors <==> k in p.cursors))
      && (forall k :: k != m.userId && k in p.cursors ==> r.cursors[k] == p.cursors[k])
      && r.(cursors := p.cursors) == p
    ensures m.kind == CursorType && m.userId == p.myUserId ==> r == p
    ensures m.kind == DisconnectType ==>
      && m.userId !in r.cursors
      && (forall k :: k != m.userId ==> (k in r.cursors <==> k in p.cursors))
      && (forall k :: k in r.cursors ==> r.cursors[k] == p.cursors[k])
      && r.(cursors := p.cursors) == p
    ensures m.kind !in {InitType, UpdateType, CursorType, DisconnectType} ==> r == p
  {
    if m.kind == InitType || m.kind == UpdateType then
      if p.editor != m.content then p.(editor := m.content) else p
    else if m.kind == CursorType then
      if m.userId != p.myUserId then p.(cursors := p.cursors[m.userId := Peer(m.userId, m.position)]) else p
    else if m.kind == DisconnectType then
      p.(cursors := p.cursors - {m.userId})
    else
      p
  }

  /** The envelope `sendCursorPosition` serialises. */
  function CursorEnvelope(myUserId: string, selection: int): (m: Message)
  {
    Message(CursorType, CursorColor, "", myUserId, selection)
  }

  /** The envelope `sendUpdateMessage` serialises. */
  function UpdateEnvelope(content: string): (m: Message)
  {
    Message(UpdateType, content, "", "", 0)
  }

  /**
    The envelopes the hub builds have the effect on a page that their type
    promises: `init` shows the document, a catch-up `cursor` for another user
    stores that user's position, and `cursor_disconnect` removes that user.
  */
  lemma HubEnvelopesApplied(p: Page, document: string, rendered: string, c: CursorInfo, u: string)
    ensures OnMessage(p, InitMessage(document, rendered)).editor == document
    ensures c.userId != p.myUserId ==>
      OnMessage(p, CursorMessage(c)).cursors == p.cursors[c.userId := Peer(c.userId, c.position)]
    ensures c.userId == p.myUserId ==> OnMessage(p, CursorMessage(c)) == p
    ensures OnMessage(p, DisconnectMessage(u)).cursors == p.cursors - {u}
  {
  }

  /** `sendCursorPosition`: send the caret position when connected. */
  function SendCursorPosition(p: Page, selection: int): (r: Page)
    ensures p.connected ==> r.sent == p.sent + [CursorEnvelope(p.myUserId, selection)]
    ensures !p.connected ==> r == p
    ensures r.(sent := p.sent) == p
  {
    if p.connected then p.(sent := p.sent + [CursorEnvelope(p.myUserId, selection)]) else p
  }

  /**
    `sendUpdateMessage`: when connected and the editor differs from the last
    content sent, send the editor text and then the caret position, and
    remember the text; otherwise do nothing.
  */
  function SendUpdate(p: Page, selection: int): (r: Page)
    ensures p.connected && p.editor != p.lastContent ==>
      && r.sent == p.sent + [UpdateEnvelope(p.editor), CursorEnvelope(p.myUserId, selection)]
      && r.lastContent == p.editor
      && r.(sent := p.sent, lastContent := p.lastContent) == p
    ensures !(p.connected && p.editor != p.lastContent) ==> r == p
    ensures r.connected ==> r.lastContent == r.editor
  {
    if p.connected && p.editor != p.lastContent then
      SendCursorPosition(p.(sent := p.sent + [UpdateEnvelope(p.editor)], lastContent := p.editor), selection)
    else
      p
  }

  /** Two flushes with no edit in between send the update at most once. */
  lemma SendUpdateOnce(p: Page, s1: int, s2: int)
    ensures SendUpdate(SendUpdate(p, s1), s2) == SendUpdate(p, s1)
  {
  }

  /** `updateCursorDisplay`: the (line, column) drawn for every cursor but the local user's own. */
  function CursorOverlay(p: Page): (r: map<string, Cursors.CursorPosition>)
    ensures forall k :: k in r <==> k in p.cursors && k != p.myUserId
    ensures forall k :: k in r ==> r[k] == Cursors.CalculateCursorPosition(p.editor, p.cursors[k].position)
  {
    map k | k in p.cursors && k != p.myUserId :: Cursors.CalculateCursorPosition(p.editor, p.cursors[k].position)
  }

  /**
    The page's reaction to one event: `onopen`, `onclose`/`onerror`, an edit,
    `onmessage`, a caret listener, or the debounce timer firing
    `sendUpdateMessage`. Nothing is sent while disconnected, and what was
    sent is never taken back.
  */
  function Handle(p: Page, e: PageEvent): (r: Page)
    ensures r.myUserId == p.myUserId
    ensures p.sent <= r.sent
    ensures !p.connected ==> r.sent == p.sent
    ensures e.Opened? ==> r.connected && r.(connected := p.connected) == p
    ensures e.Closed? ==> !r.connected && r.(connected := p.connected) == p
    ensures e.Input? ==> r.editor == e.value && r.(editor := p.editor) == p
    ensures !e.Opened? && !e.Closed? ==> r.connected == p.connected
    ensures p.myUserId !in p.cursors ==> r.myUserId !in r.cursors
  {
    match e
    case Opened => p.(connected := true)
    case Closed => p.(connected := false)
    case Input(value) => p.(editor := value)
    case Received(m) => OnMessage(p, m)
    case CaretMoved(selection) => SendCursorPosition(p, selection)
    case DebounceFired(selection) => SendUpdate(p, selection)
  }

  /** The page after a sequence of events: the send log only grows. */
  function HandleAll(p: Page, events: seq<PageEvent>): (r: Page)
    ensures r.myUserId == p.myUserId
    ensures p.sent <= r.sent
    decreases |events|
  {
    if events == [] then p
    else
      var q := Handle(p, events[0]);
      var r := HandleAll(q, events[1..]);
      assert p.sent <= q.sent <= r.sent;
      r
  }

  /**
    The local user's cursor never enters the page's table, whatever the hub
    echoes back, so the overlay's self filter is only a second line of defence.
  */
  lemma {:induction false} OwnCursorNeverStored(myUserId: string, events: seq<PageEvent>)
    ensures myUserId !in HandleAll(Load(myUserId), events).cursors
  {
    OwnCursorStaysOut(Load(myUserId), events);
  }

  /** The overlay's self filter never drops an entry of a page's table. */
  lemma OverlayFilterRedundant(myUserId: string, events: seq<PageEvent>)
    ensures var p := HandleAll(Load(myUserId), events);
      CursorOverlay(p).Keys == p.cursors.Keys
  {
    OwnCursorNeverStored(myUserId, events);
  }

  lemma {:induction false} OwnCursorStaysOut(p: Page, events: seq<PageEvent>)
    requires p.myUserId !in p.cursors
    ensures p.myUserId !in HandleAll(p, events).cursors
    decreases |events|
  {
    if events != [] {
      var q := Handle(p, events[0]);
      assert q.myUserId !in q.cursors;
      OwnCursorStaysOut(q, events[1..]);
    }
  }
}
