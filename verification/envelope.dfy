/**
  The wire envelope exchanged between the hub and its connections, the cursor
  record the hub stores, and the foreign code the hub calls: the JSON codec and
  the Markdown renderer. The codec and renderer are not modelled; they are
  handed to every operation as a `Codec` value, so every property proved holds
  for any decoder, encoder and renderer.
*/
module Envelope {

  /** A raw WebSocket text frame. */
  type Bytes = seq<bv8>

  datatype Option<+T> = None | Some(value: T)

  /** The four envelope types the system knows about. */
  const InitType: string := "init"
  const UpdateType: string := "update"
  const CursorType: string := "cursor"
  const DisconnectType: string := "cursor_disconnect"

  /**
    The envelope of internal/websocket.go and main.go, as decoded. In the hub
    an absent JSON field decodes to Go's zero value: "" for strings and 0 for
    the position. The browser's `JSON.parse` leaves it undefined instead;
    the model hands the browser the same decoded values as the hub.
  */
  datatype Message = Message(
    kind: string,
    content: string,
    renderedHtml: string,
    userId: string,
    position: int)

  /** One stored cursor: who, where, and the colour string the client sent. */
  datatype CursorInfo = CursorInfo(userId: string, position: int, color: string)

  /**
    `decode` is `json.Unmarshal` into a Message (None on error), `encode` is
    `json.Marshal`, `render` is `renderMarkdown` (which yields "" on failure).
  */
  datatype Codec = Codec(
    decode: Bytes -> Option<Message>,
    encode: Message -> Bytes,
    render: string -> string)

  /** The snapshot sent to a newly registered client. */
  function InitMessage(document: string, rendered: string): (m: Message)
    ensures m.kind == InitType && m.content == document && m.renderedHtml == rendered
    ensures m.userId == "" && m.position == 0
  {
    Message(InitType, document, rendered, "", 0)
  }

  /** The catch-up envelope for one stored cursor; the colour travels in `content`. */
  function CursorMessage(c: CursorInfo): (m: Message)
    ensures m.kind == CursorType && m.userId == c.userId && m.position == c.position
    ensures m.content == c.color && m.renderedHtml == ""
  {
    Message(CursorType, c.color, "", c.userId, c.position)
  }

  /** The notice sent to the remaining clients when one unregisters. */
  function DisconnectMessage(userId: string): (m: Message)
    ensures m.kind == DisconnectType && m.userId == userId
    ensures m.content == "" && m.renderedHtml == "" && m.position == 0
  {
    Message(DisconnectType, "", "", userId, 0)
  }

  /** The cursor record the hub stores for an incoming `cursor` envelope. */
  function CursorOf(m: Message): (c: CursorInfo)
    ensures c.userId == m.userId && c.position == m.position && c.color == m.content
  {
    CursorInfo(m.userId, m.position, m.content)
  }

  /**
    A decoded `cursor` envelope without rendered HTML is rebuilt exactly from
    the cursor stored for it, so the catch-up a late joiner decodes equals
    the decoded envelope relayed live.
  */
  lemma CursorEnvelopeRoundTrip(m: Message)
    requires m.kind == CursorType && m.renderedHtml == ""
    ensures CursorMessage(CursorOf(m)) == m
  {
  }

  /**
    Storing a cursor and sending it back out as a catch-up envelope loses
    nothing: the envelope carries the stored user, position and colour.
  */
  lemma CursorRoundTrip(c: CursorInfo)
    ensures CursorOf(CursorMessage(c)) == c
    ensures CursorMessage(c).kind == CursorType && CursorMessage(c).userId == c.userId
  {
  }
}
