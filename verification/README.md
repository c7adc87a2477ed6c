# doc-share-poc: a Dafny model of the shared-document hub and its clients

doc-share-poc is a real-time relay for one shared Markdown document. Every
browser connects over a WebSocket to a hub. The hub owns the document text
and a table of cursor positions, and relays `update` and `cursor` envelopes
to everyone. This project models three pieces of its sequential logic as pure
functions over immutable state, and proves properties about them.

- **The hub's event loop** (`Hub.run` in `main.go`, and the identical
  `hub.Start` in `internal/websocket.go`). It is modelled once, in module
  `Hub`. The state (`Hub.State`) has four parts: the active connection set;
  one bounded send channel per connection (`Outbound.Outbox`, capacity 256);
  the document; and the cursor table. The hub's three events are Register,
  Unregister and Broadcast. A fourth event, Drain, is a connection's writer
  taking frames off its channel, interleaved with the hub's events. Each is
  handled by a function defined on every state where the event is enabled.
  - JSON decoding, JSON encoding and the Markdown renderer are foreign code.
    They are passed in as an `Envelope.Codec` value, so every result holds
    for any decoder, encoder and renderer.
  - Go's map iteration order is not fixed. Fan-out does not depend on it:
    each connection's fate depends only on its own channel. The
    register catch-up does depend on it. That order is a parameter of the
    Register event, and the contracts about the catch-up hold for every order.
- **The client-side cursor bookkeeping** (`src/composables/useCursors.ts`),
  in module `Cursors`. It covers `String.split`, `calculateCursorPosition`,
  the 32-bit colour hash of `generateUserColor` (with JavaScript's ToInt32
  written out), and the cursor table operations.
- **The browser client** (`web/main.js`), in module `Browser`. It covers the
  `onmessage` dispatch, the deduplicating `sendUpdateMessage`, the cursor
  sender, and the overlay's self filter.
- The server's identity generator (`generateUserID`, `generateColor` in
  `main.go`) is in module `Identity`. Its random draws are parameters.

The hub invariant `Hub.Valid` has three parts:
- a connection is active exactly when its channel is open, so every
  `close(send)` is paired with removal from the active set;
- no channel holds more than its capacity;
- every cursor is stored under its own user id.

Every handler preserves this invariant.

Some behaviours of the program that the model reproduces and proves:
- A connection dropped because its channel was full keeps its cursor entry.
  The Unregister its reader sends later finds it inactive and does nothing
  (`HubProperties.StaleCursorAfterSaturation`). So the entry stays until an
  active connection with the same server-assigned id unregisters, which
  deletes it and sends a `cursor_disconnect` naming it
  (`HubProperties.SharedIdClearsStaleCursor`). Server-assigned ids can
  collide, because they are drawn from 26³ values.
- The hub keys a connection by a server-assigned id (`generateUserID`, drawn
  when the connection is set up). That id is never sent to the connection's own browser. The
  browser keys every `cursor` frame with an id it draws itself. So the
  Unregister of a connection deletes only the cursor stored under the
  connection's server-assigned id, which no browser's cursor uses. The
  `cursor_disconnect` it fans out names that id too, so it removes nothing
  from any browser's table. The only event that deletes a cursor is the
  Unregister of a connection whose server-assigned id equals the key
  (`HubProperties.CursorKeptUnlessOwnerLeaves`). Over any run without such an
  Unregister the table only grows (`HubProperties.CursorNeverDeleted`). The
  register catch-up therefore grows with every browser that ever sent a
  cursor, and the capacity premise of `Hub.CanRegister` eventually fails.
  The split also disables the hub's catch-up self filter, which compares a
  stored cursor's user with the registering connection's server-assigned id.
  A page that reconnects keeps its own id, and its old cursor was never
  deleted, so that cursor comes back to it in the catch-up. Only the
  browser's own check drops it (`Browser.OwnCursorNeverStored`).
- Positions are stored as decoded, negative values included. The model
  stores any `int`.

## Model

| member | source | states |
|---|---|---|
| `Hub.NewHub` | internal/websocket.go:44-53 | The hub starts with no connections, an empty document and an empty cursor table, and satisfies the invariant. |
| `Outbound.NewOutbox` | internal/websocket.go:188 | A new connection's send channel is open, empty, and has capacity 256. |
| `Outbound.Take` | internal/websocket.go:168-174 | Receiving n frames from a channel removes its first n frames, or all of them if fewer are queued, and keeps its capacity and whether it is closed. |
| `Outbound.Offer` | internal/websocket.go:139-144 | A non-blocking send succeeds exactly when the channel has room, and then appends the frame. Otherwise the channel is closed and its contents stay the same. |
| `Hub.FanOut` | internal/websocket.go:138-145 | Every active connection is offered the frame. A connection with a full channel is closed and removed. Every other active connection gets the frame appended. Inactive channels, the document and the cursors do not change. The invariant is preserved. |
| `Hub.FanOutInIterationOrder` | main.go:200-207 | Visiting the active connections one at a time, in any order, and deleting saturated ones while iterating, gives exactly the result of `FanOut`. |
| `Hub.CatchUp` | internal/websocket.go:77-87 | The catch-up sends only `cursor` envelopes, none of them for the registering user's id. It sends at most one per visited key. |
| `Hub.CatchUpCoversOthers` | main.go:139-149 | For any iteration order over the cursor table, the catch-up holds, as a multiset, exactly one envelope per stored cursor of another user, carrying that cursor's user, position and colour. |
| `Hub.Admission` | main.go:137-149 | An admitted connection's channel holds its old contents, then `init` with the document and its rendering, then the catch-up envelopes. The total stays within capacity. |
| `Hub.RegisterClient` | internal/websocket.go:58-91 | A connection stays active exactly when its channel had room for `init`. If admitted, its channel holds `init` and then one envelope per other user's cursor. If not, its channel is closed. Other connections, the document and the cursors do not change. |
| `Hub.UnregisterClient` | internal/websocket.go:93-114 | If the connection is not active, nothing changes. Otherwise it is removed and its channel closed, exactly the cursor stored under the connection's server-assigned id is deleted, and every remaining active connection is offered one `cursor_disconnect` carrying that id, under the drop-on-full policy. |
| `Hub.Outgoing` | internal/websocket.go:123-128 | The frame fanned out for an `update` is the envelope re-encoded with the same content, user and position and with the rendering of its content. Every other type goes out as the frame that was received. |
| `Hub.BroadcastFrame` | internal/websocket.go:116-145 | An undecodable frame changes nothing. An `update` sets the document to its content, and every active connection is offered the envelope re-encoded with that content's rendering. A `cursor` upserts only the sender's entry, and the original frame goes out verbatim, to the sender too. Any other type changes no state and is passed through verbatim. |
| `Hub.DrainQueue` | internal/websocket.go:165-176 | The writer taking frames off one channel removes them from its front and changes nothing else: not the active set, the document, the cursors or any other channel. The invariant is preserved. |
| `Hub.Step` | main.go:117-210 | Handling any enabled event preserves the invariant, so every active connection has an open channel. |
| `Hub.Run` | main.go:118-209 | The invariant holds after any sequence of enabled events. |
| `Envelope.CursorRoundTrip` | internal/websocket.go:129-134 | Storing a cursor from an envelope and sending it back as a catch-up envelope loses nothing: user, position, and colour in `content`. |
| `Envelope.CursorEnvelopeRoundTrip` | internal/websocket.go:79-84 | A decoded `cursor` envelope without rendered HTML is rebuilt exactly from the cursor the hub stores for it, so the catch-up envelope a late joiner decodes equals the decoded envelope relayed live. |
| `Envelope.InitMessage` | internal/websocket.go:68-72 | The snapshot envelope has type `init`, the document as content and the document's rendering, with no user and position 0. |
| `Envelope.CursorMessage` | internal/websocket.go:79-84 | The catch-up envelope for a stored cursor has type `cursor` and carries its user and position, with its colour in `content`. |
| `Envelope.DisconnectMessage` | internal/websocket.go:101-104 | The disconnect notice has type `cursor_disconnect` and carries only the leaving connection's id. |
| `Envelope.CursorOf` | internal/websocket.go:130-134 | The stored cursor takes the envelope's user and position, and its `content` as the colour. |
| `HubProperties.UnregisterIdempotent` | main.go:155-156 | Unregistering a connection twice has the same effect as unregistering it once. |
| `HubProperties.StaleCursorAfterSaturation` | internal/websocket.go:93-145 | A connection dropped for a full channel during a broadcast leaves the active set with its channel closed. Its cursor stays in the table, and a later Unregister of it changes nothing. |
| `HubProperties.SharedIdClearsStaleCursor` | internal/websocket.go:93-114 | When a connection dropped for a full channel shares its server-assigned id with another active connection, the stale cursor survives the broadcast, and the other connection's Unregister deletes it and offers every remaining active connection a `cursor_disconnect` naming it. |
| `HubProperties.CursorKeptUnlessOwnerLeaves` | internal/websocket.go:93-135 | A stored cursor survives every event except the Unregister of an active connection whose server-assigned id is its key. It keeps its value unless a `cursor` frame from the same user arrives. |
| `HubProperties.CursorNeverDeleted` | main.go:117-210 | Over any run of events in which no unregistering connection has the cursor's key as its server-assigned id, the cursor stays in the table. |
| `HubProperties.AbsentCursorStaysAbsent` | main.go:117-210 | A key missing from the cursor table stays missing over any run of events that carries no `cursor` frame from that user. |
| `HubProperties.RegisterFreshAdmits` | main.go:120-149 | A connection with an empty channel large enough for the catch-up is always admitted. It receives `init` first, then exactly one envelope per other user's cursor. |
| `HubProperties.DisconnectedCursorNotCaughtUp` | main.go:155-175 | After a connection unregisters, no later catch-up includes a cursor envelope for its server-assigned id, over any run of events that brings no `cursor` frame with that id. A `cursor` frame with that id would store it again, as `Hub.BroadcastFrame` states. |
| `HubProperties.UpdateThenRegisterSeesDocument` | main.go:123-190 | A connection that registers after an `update` receives that update's body, and its rendering, in its `init` envelope. |
| `HubProperties.BroadcastSeenOnce` | main.go:178-207 | A connection still active after one broadcast was active before it. Its channel gained exactly the outgoing frame, or nothing if the frame did not decode. |
| `HubProperties.BroadcastsSeenInOneOrder` | internal/websocket.go:116-145 | A connection still active after a sequence of broadcasts was active throughout. Its channel gained exactly the same sequence of frames as every other such connection, in one global order. |
| `Identity.GenerateUserId` | main.go:106-109 | A user id is `user_` followed by three letters from A to Z, eight characters in all. |
| `Identity.UserIdRoundTrip` | main.go:108 | The three random draws can be read back from the id, so different draws give different ids. |
| `Identity.GenerateColor` | main.go:111-115 | The colour is one of the eight palette entries, a `#` followed by six hex digits. |
| `Cursors.Split` | src/composables/useCursors.ts:40 | Splitting on a one-character separator gives at least one part. No part contains the separator, and joining the parts back gives the original string. |
| `Cursors.SplitJoin` | src/composables/useCursors.ts:40 | Splitting undoes joining, for any parts that do not contain the separator. |
| `Cursors.SplitCount` | src/composables/useCursors.ts:41 | There is one more part than there are separators, so `lines.length - 1` counts the newlines. |
| `Cursors.SplitLast` | src/composables/useCursors.ts:42 | The last part is the separator-free tail after the last separator, or the whole string if there is no separator. |
| `Cursors.Prefix` | src/composables/useCursors.ts:40 | `substring(0, position)` clamps the position into the text. A negative position gives the empty prefix, and a position past the end gives the whole text. |
| `Cursors.CalculateCursorPosition` | src/composables/useCursors.ts:36-44 | The line is the number of newlines in the text before the position. The column is the length of the newline-free run at the end of that text, which starts at the text's start or right after a newline. |
| `Cursors.CursorPositionBounds` | web/main.js:14-19 | Line plus column never exceeds the length of the prefix. The browser's copy of the function is the same as the composable's. |
| `Cursors.CursorPositionEdges` | src/composables/useCursors.ts:40-43 | A text without newlines always gives line 0. A negative position gives (0, 0). |
| `Cursors.ToInt32` | src/composables/useCursors.ts:24 | The 32-bit conversion lands in the signed 32-bit range and differs from its input by a multiple of 2^32. |
| `Cursors.Hash` | src/composables/useCursors.ts:20-25 | The hash after every character stays within the signed 32-bit range. |
| `Cursors.HashIsPolynomial` | src/composables/useCursors.ts:18-25 | The shift-and-subtract loop, truncated after every character, equals the polynomial hash (sum of code units times powers of 31) truncated once at the end. |
| `Cursors.HashStepCongruent` | src/composables/useCursors.ts:23-24 | One round of `(hash << 5) - hash + char` with truncation is 31 times the hash plus the character code, modulo 2^32. |
| `Cursors.UserColor` | src/composables/useCursors.ts:27-32 | Hue is in [0, 360), saturation in [70, 90), and lightness in [45, 65). Both of the last two come from the same residue, so lightness is always saturation minus 25. Hue and saturation are the absolute value of the polynomial hash truncated to 32 bits, modulo 360 and modulo 20. |
| `Cursors.UpdateCursor` | src/composables/useCursors.ts:58-65 | After an upsert, the user maps to its own id, the given position and its generated colour. Every other key is unchanged. |
| `Cursors.UpdateCursorIdempotent` | src/composables/useCursors.ts:60 | Repeating the same upsert changes nothing. |
| `Cursors.RemoveCursor` | src/composables/useCursors.ts:68-70 | Only that user's key is deleted. Removing an absent user changes nothing. |
| `Cursors.RemoveUndoesUpdate` | src/composables/useCursors.ts:57-70 | Removing right after an upsert is the same as just removing. |
| `Cursors.ClearCursors` | src/composables/useCursors.ts:73-75 | Clearing leaves no entry. |
| `Cursors.OtherCursors` | src/composables/useCursors.ts:47-55 | The result holds exactly the entries whose key is not the local user's id, with their values unchanged. |
| `Cursors.OwnCursorHidden` | src/composables/useCursors.ts:46-65 | Upserting the local user's own cursor never changes what `otherCursors` shows. |
| `Browser.Load` | web/main.js:5-10 | The page starts disconnected, with the given id, an empty editor, an empty cursor table, no last content and nothing sent. |
| `Browser.OnMessage` | web/main.js:96-129 | `init` and `update` set only the editor text, and leave the page untouched when the text already matches. A `cursor` from another user upserts only that user's `{userId, position}`. A `cursor` with the local user's id is ignored. `cursor_disconnect` removes exactly that user. Any other type changes nothing. |
| `Browser.HubEnvelopesApplied` | web/main.js:99-128 | The envelopes the hub builds, once decoded, act on a page as their type says: `init` shows the document, a catch-up cursor of another user stores that user's position, an own-id cursor is ignored, and `cursor_disconnect` removes that user. |
| `Browser.SendCursorPosition` | web/main.js:57-68 | When connected, one `cursor` envelope is sent with the local id, the caret position and the fixed colour. When disconnected, nothing changes. |
| `Browser.SendUpdate` | web/main.js:70-80 | Only when connected and the editor text differs from the last content sent: an `update` with the text is sent, then a `cursor` envelope, and the text is remembered. Otherwise nothing changes. |
| `Browser.SendUpdateOnce` | web/main.js:70-79 | Two flushes with no edit in between send at most once. |
| `Browser.CursorOverlay` | web/main.js:30-55 | A marker is drawn for exactly the table entries other than the local user's, each at the line and column of its position in the editor text. |
| `Browser.OverlayFilterRedundant` | web/main.js:34-35 | From page load, after any sequence of events, the overlay draws a marker for every entry of the table: the self filter never drops one. |
| `Browser.Handle` | web/main.js:90-142 | `onopen` sets the page connected and `onclose`/`onerror` disconnected, changing nothing else. An edit changes only the editor. Nothing is sent while disconnected, the send log only grows, and the local id never enters the table. |
| `Browser.HandleAll` | web/main.js:145-149 | Over any sequence of page events, the local id stays the same and the send log only grows. |
| `Browser.OwnCursorNeverStored` | web/main.js:115-124 | From page load, after any sequence of page events, the local user's own cursor is never in the table, even though the hub echoes every cursor back to its sender. |

## Left out

- WebSocket transport: the upgrade, `readPump` and `writePump`, close frames (section 5.5.1 of RFC 6455) and the gorilla/websocket library. This is I/O. A received frame is modelled as a Broadcast event, and a reader's exit as an Unregister event.
- The writer's socket writes and its close frame are not modelled. Its receiving from the channel is the `Drain` event, with an arbitrary count, so a run may interleave it with the hub's events anywhere.
- Goroutines, channels as concurrent objects, and `sync.RWMutex`. The arbiter is single-threaded, so it is modelled as one event at a time.
- JSON encoding and decoding (RFC 8259, Go `encoding/json`) are abstract functions in `Envelope.Codec`. This includes `omitempty` dropping a position of 0 on the wire. In the browser, such a cursor therefore arrives with an undefined position. That consequence is not modelled: the browser is handed the decoded envelope, with position 0.
- `renderMarkdown` (goldmark with bluemonday) is an abstract `render` function. Its empty result on a conversion error is part of that function.
- The blocking sends of the register catch-up: `Hub.RegisterClient` requires that, if `init` fits, the channel also has room for one envelope per stored cursor. The source would block instead. The model never blocks.
- internal/render.go is not part of this model, apart from the shape of `CursorInfo`. Its identity generator reseeds from one start-up seed on every call, so every call returns the same id and colour. The model's `Identity` follows `main.go`, whose draws are parameters.
- `serveHome`, `main`, `ServeWS` and the static file server. These are the HTTP boundary and hold no logic.
- src/composables/useWebSocket.ts: connection status, reconnect timers and handler registration are UI and I/O plumbing.
- The DOM work of web/main.js. This covers `innerHTML`, the preview and its placeholder text, caret restoring with `setSelectionRange`, pixel offsets (8.4px and 21px per character and line, floating point), the status text, and the reconnect timer. The 300 ms debounce is reduced to a `DebounceFired` page event. A frame that fails `JSON.parse` is not modelled, because the browser is handed parsed envelopes.
- The HSL string formatting and Vue reactivity of `generateUserColor` and `useCursors`. Only the numeric colour components are modelled. The debug view `getAllCursors` is left out.
- Envelope.CursorEnvelopeRoundTrip: holds for decoded envelopes only. For a stored position of 0, the catch-up envelope the hub encodes has no `position` field (`omitempty`), while the live relay is the sender's own frame with `"position":0`. On the wire the two differ.
- Browser.HubEnvelopesApplied: for a catch-up cursor at position 0, the real page parses no `position` and stores `undefined`. `substring(0, undefined)` is then the whole text, so that peer's marker is drawn at the end of the document, while pages that saw the live frame draw it at the start. The model stores position 0.
- Browser.OnMessage: treats the page's cursor table as a dictionary for every key. In JavaScript the table is a plain object. A `cursor` envelope whose `userId` is `__proto__` therefore replaces the object's prototype instead of adding an entry, and the overlay's `for…in` then walks the inherited keys `userId` and `position`. The model stores such an envelope as an ordinary entry, so its claim that every other user's cursor is stored does not hold for that key.
- Cursors.OtherCursors: returns a map rather than an array in JavaScript `Map` insertion order. The order of the entries is not modelled.
- JavaScript strings are UTF-16. The model treats each `char` as one code unit, so characters outside the Basic Multilingual Plane are not split into surrogate pairs.
