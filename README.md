# peercall in Dafny

peercall is a two-party screen-sharing call. A small Node server hands out
session rooms and relays signaling text between the two browsers of a room;
each browser runs a negotiation engine that exchanges `polite` bits, SDP offers
and answers and ICE candidates with the other browser over that relay, and
resolves crossed offers ("glare") with the "perfect negotiation" rule of section
10.7 of the W3C WebRTC 1.0 specification.

This project models:

- **The relay** (`bin/server.ts`), module `Relay` with `SessionIds` and
  `JsString`:
  - session ids drawn from ten draws in 0..61 by `mapCharacter`/`randomId`;
  - the `SESSIONS` table as a `Registry` class whose map points to `Session`
    objects whose `clients` list is appended to in place;
  - the HTTP routes (allocation on `GET /`, the `..` refusal for assets, the
    session page);
  - the upgrade checks (header, unknown id, full room);
  - forwarding of text frames to the other client;
  - the close handler, which closes the other client and deletes the room.
- **The negotiation engine** (`src/webrtc.ts`), module `PeerEngine`: the
  `PeerConnection` class with its `connected`, `polite` and `makingOffer`
  flags, the messages it has sent and the events it has dispatched, its four
  message handlers, `_onNegotiationNeeded`, `_onOpen`, `_onClose`,
  `_onIceCandidate` and the `useinbandfec=1; stereo=1` SDP rewrite.
- **The earlier engine** (`src/main.ts`), module `MainPage`: the module-level
  `isPolite`, `makingOffer` and `ignoreOffer` as fields of a `Page` class,
  `onnegotiationneeded`, `onicecandidate` and `ws.onmessage`, whose messages
  may carry several fields at once.
- **The browser's peer connection** (module `Signaling`), kept abstract: the
  signaling state of section 3.2 of RFC 8829 (JSEP) carrying the pending
  offer, the current local and remote descriptions, which descriptions may be
  applied in which state, and the offer-collision predicate both engines use.

Socket writes are not performed: handlers return what they would send (a
`Delivery`, the socket to close, the rejection) or append it to a `sent`
field. `Math.random`, the SDP text the browser generates, and whether
`addIceCandidate` accepts a candidate are parameters.

The server keeps no creation time and never sweeps empty sessions. A close
deletes the whole session, not one participant. An allocation that draws an
existing id replaces that session.

Scenario methods pair two objects and state what happens to the pair:
- `PeerEngine.CrossedPoliteness` and `MainPage.CrossedPoliteness`: two fresh
  peers that each advertise their bit before hearing the other's both end
  polite.
- `PeerEngine.GlareWithBothPolite`: two such peers then refuse each other's
  answers and disagree on the negotiated descriptions.
- `PeerEngine.GlareResolves`: with complementary roles both peers converge.
- `MainPage.CandidateOfIgnoredOffer`: the two variants differ on a refused
  candidate that follows an ignored offer.

## Model

| member | source | states |
|---|---|---|
| SessionIds.MapCharacter | bin/server.ts:16-24 | draws 0..9 give '0'..'9', 10..35 give 'A'..'Z', 36..61 give 'a'..'z' (each an if-and-only-if), so every character is alphanumeric, and `ChoiceOf` recovers the draw |
| SessionIds.MapCharacterOnto | bin/server.ts:16-24 | every ASCII letter or digit is the image of exactly the draw `ChoiceOf` gives it |
| SessionIds.IdOf | bin/server.ts:26-30 | the id of n draws has n characters, all alphanumeric |
| SessionIds.DrawsOfIdOf | bin/server.ts:26-30 | reading the draws back out of an id gives the draws that made it |
| SessionIds.IdOfInjective | bin/server.ts:26-30 | different draws give different ids |
| SessionIds.IdOfOnto | bin/server.ts:26-30 | every alphanumeric string is the id of some valid draws |
| SessionIds.RandomId | bin/server.ts:13-33 | the loop returns exactly `length` alphanumeric characters, the id of the first `length` draws |
| JsString.IndexOf | bin/server.ts:85 | the result is -1 exactly when the pattern does not occur, and otherwise the first index where it occurs |
| JsString.ReplaceAllAbsent | src/webrtc.ts:99 | `replaceAll` leaves text without the pattern unchanged |
| JsString.ReplaceAllAtFirst | src/webrtc.ts:99 | `JsString.ReplaceAll` replaces the first occurrence that `indexOf` finds, keeps the text before it, and goes on after it, so with `ReplaceAllAbsent` it determines `replaceAll` |
| JsString.ReplaceAllInverse | src/webrtc.ts:99 | appending a suffix after every occurrence of a pattern is undone by replacing every pattern-plus-suffix with the pattern |
| Relay.FirstOther | bin/server.ts:52 | `find(client => client !== ws)` returns the first client other than `ws` (every earlier client is `ws`), and returns none exactly when every client is `ws` |
| Relay.StripSessionPrefix | bin/server.ts:132-133 | an id is extracted exactly when the path starts with `/session/`, and prefixing it again gives the path back |
| Relay.SessionPathRoundTrip | bin/server.ts:81 | the redirect target of an allocated id leads back to that id |
| Relay.RouteOf | bin/server.ts:73-118 | `GET /` allocates; a `GET` under `/assets/` is refused exactly when the rest of the path contains `..` and is served otherwise with a `..`-free path; a `GET` under `/session/` asks for a session page; everything else is 404 |
| Relay.DotDotNeverRead | bin/server.ts:84-89 | an asset path containing `..` is never routed to a file read and a `GET` for it is refused |
| Relay.Session.constructor | bin/server.ts:76-79 | a new session has its id and no clients |
| Relay.Session.Counterpart | bin/server.ts:59-62 | the counterpart is another client of the session; in a valid session it exists exactly when two clients have joined |
| Relay.Session.OnMessage | bin/server.ts:41-54 | a delivery happens exactly when two clients have joined and the frame is text; it goes to a client of the session other than the sender, with the text unchanged |
| Relay.Registry.constructor | bin/server.ts:11 | the table starts empty |
| Relay.Registry.Allocate | bin/server.ts:73-79 | the new id is the id of the first ten draws; it maps to a fresh session with no clients; an existing entry under that id is overwritten; every other entry is unchanged; the at-most-two-clients invariant is kept |
| Relay.Registry.HandleRequest | bin/server.ts:68-118 | per route: allocation answers 303 to `/session/<id>`, a refused asset and an unknown session answer 404, a known session gets the page; only allocation changes the table |
| Relay.Registry.HandleUpgrade | bin/server.ts:121-154 | a non-websocket upgrade is refused 400; a path outside `/session/` is left unanswered; an unknown id is refused 404; a session with two clients is refused; otherwise a fresh socket is appended; the table and all other sessions are unchanged, and no session ever exceeds two clients |
| Relay.Registry.Close | bin/server.ts:56-65 | the socket to close is the counterpart, if any; the session's id is deleted and nothing else; deleting an id already gone leaves the table unchanged |
| Relay.PairingScenario | bin/server.ts:41-154 | after two joins a third is refused, a text frame reaches the second client unchanged, the first close closes the second client and removes the session, and the second close removes nothing more |
| Relay.CollidingAllocation | bin/server.ts:73-79 | two allocations with the same draws produce the same id, the second replaces the first session, and a close in the replaced session deletes the new one |
| Relay.FullRejectionIsNotStatusLine | bin/server.ts:144 | the reply to a join of a full session is not an HTTP status line; the other two replies are the intended ones |
| Relay.RejectionResponse | bin/server.ts:124-147 | each refusal is a status line of RFC 9112 carrying the code for its reason (400, 404, 400) |
| Signaling.SetLocal | src/webrtc.ts:100 | a local offer is accepted unless a remote offer is pending and becomes the pending offer; a local answer is accepted exactly when a remote offer is pending and completes the exchange |
| Signaling.SetRemote | src/webrtc.ts:148 | a remote offer is always accepted (rolling back a pending local offer); a remote answer is accepted exactly when a local offer is pending and completes the exchange |
| Signaling.ImplicitDescription | src/main.ts:46 | `setLocalDescription()` without an argument makes an answer to a pending remote offer and an offer otherwise, which is always accepted |
| Signaling.ApplyPreservesWellFormed | src/webrtc.ts:148-153 | a pending description is always an offer, before and after any accepted call |
| Signaling.OfferAnswerAgrees | src/webrtc.ts:97-154 | a complete offer/answer exchange leaves both sides stable, each side's local description being the other's remote one |
| PeerEngine.EnableStereo | src/webrtc.ts:99 | `JsString.ReplaceAll` with `useinbandfec=1` as the pattern: the first `useinbandfec=1` becomes `useinbandfec=1; stereo=1` with the text before it kept; replacing every `useinbandfec=1; stereo=1` back with `useinbandfec=1` restores the SDP; SDP without `useinbandfec=1` is unchanged |
| PeerEngine.EnableStereoAtFirst | src/webrtc.ts:99 | the rewrite suffixes the first `useinbandfec=1` and then rewrites the rest of the SDP after it in the same way, so every occurrence gets the suffix |
| PeerEngine.EnableStereoInjective | src/webrtc.ts:152 | the rewrite maps different SDP to different SDP |
| PeerEngine.PeerConnection.constructor | src/webrtc.ts:26-29 | a new engine is disconnected, impolite, not making an offer, stable, and has sent nothing |
| PeerEngine.PeerConnection.OnOpen | src/webrtc.ts:109-111 | exactly one `connected` is sent |
| PeerEngine.PeerConnection.OnClose | src/webrtc.ts:113-116 | `connected` becomes false and one disconnect event fires |
| PeerEngine.PeerConnection.OnIceCandidate | src/webrtc.ts:73-75 | the candidate is sent to the other peer |
| PeerEngine.PeerConnection.BeginNegotiation | src/webrtc.ts:93-96 | `makingOffer` is raised and the current `polite` bit is sent |
| PeerEngine.PeerConnection.FinishNegotiation | src/webrtc.ts:97-106 | a created offer is rewritten, applied and sent when the state admits it; a failure is caught with nothing applied or sent; `makingOffer` is false in every case |
| PeerEngine.PeerConnection.OnNegotiationNeeded | src/webrtc.ts:93-107 | `polite` is sent before the offer; the handler completes exactly when an offer is created and accepted; otherwise it is caught and only `polite` was sent; `makingOffer` is false on exit |
| PeerEngine.PeerConnection.OnMessage | src/webrtc.ts:118-171 | `connected` replies once only when not yet connected, then marks connected and fires connect; `polite(p)` sets `polite` to not p and changes nothing else; a description is ignored with no change exactly when `Signaling.IgnoreOffer` holds, i.e. impolite and `Signaling.OfferCollision`; otherwise it is applied as remote, a refused one throws, an offer is answered with exactly one rewritten answer, a failed `createAnswer` throws after the offer was applied, and an answer sends nothing; a refused candidate always throws |
| PeerEngine.SimultaneousOpen | src/webrtc.ts:109-131 | two engines whose sockets open together each send exactly two `connected` and both end connected |
| PeerEngine.CrossedPoliteness | src/webrtc.ts:93-136 | two fresh engines that each send their bit before receiving the other's both end polite |
| PeerEngine.SequentialPoliteness | src/webrtc.ts:93-136 | when one engine receives the other's bit before sending its own, the roles end complementary |
| PeerEngine.GlareResolves | src/webrtc.ts:93-158 | with complementary roles and crossed offers, only the impolite engine ignores the incoming offer, and both end stable with matching descriptions: the impolite engine's rewritten offer and the polite engine's rewritten answer |
| PeerEngine.GlareWithBothPolite | src/webrtc.ts:93-158 | with both engines polite and crossed offers, both answers are refused and the engines end with mismatched descriptions |
| MainPage.Page.constructor | src/main.ts:40-55 | the page starts impolite, not making an offer, not ignoring an offer, stable, with nothing sent |
| MainPage.Page.OnIceCandidate | src/main.ts:20-22 | the candidate is sent to the other peer |
| MainPage.Page.BeginNegotiation | src/main.ts:42-45 | `makingOffer` is raised and `{polite}` is sent |
| MainPage.Page.FinishNegotiation | src/main.ts:46-52 | the implicitly created description is applied and sent; a failure is caught with nothing applied or sent; `makingOffer` is false in every case |
| MainPage.Page.OnNegotiationNeeded | src/main.ts:42-53 | `{polite}` is sent before `{description}`, and `makingOffer` is false on exit |
| MainPage.Page.OnMessage | src/main.ts:56-87 | a `polite` field p sets `isPolite` to not p before the description is looked at; `ignoreOffer` is recomputed only for a message with a description and equals `Signaling.IgnoreOffer` (impolite and `Signaling.OfferCollision`); an ignored offer returns before its own candidate with no change; otherwise the description is applied, an offer is answered with exactly one description (a failed `setLocalDescription()` throws after the offer was applied) and an answer sends nothing; a refused candidate throws exactly when `ignoreOffer` is false |
| MainPage.CrossedPoliteness | src/main.ts:40-61 | two fresh pages that each send their bit before receiving the other's both end polite |
| MainPage.CandidateOfIgnoredOffer | src/main.ts:55-87 | after an ignored offer a refused candidate is swallowed by the page, while the class-based engine of src/webrtc.ts rethrows it |
| MainPage.CombinedMessage | src/main.ts:56-87 | an ignored offer and a refused candidate in one message end without an error; `ignoreOffer` stays set until the next description, and a later refused candidate then throws |

## Left out

- Static file serving, MIME lookup, `server.listen` and logging in `bin/server.ts` are I/O. The route says which file would be read; a file that cannot be read (also 404) is not modelled.
- URL parsing is not modelled. Handlers receive the already-parsed `pathname`.
- The WebSocket handshake, socket writes and `socket.destroy` are I/O. An upgrade ends in one of accept, refusal or no answer.
- Relay.Registry.HandleUpgrade: the capacity check and the push happen in one step. In the server, `handleUpgrade` finishes asynchronously, so two concurrent joins could both pass the check; that race is not modelled.
- The relay's `error` handler only logs.
- Relay.Registry.Close: returns the counterpart to close instead of closing it, and the counterpart's own close event is a separate call.
- RTCPeerConnection internals are not modelled: SDP generation, ICE gathering, `restartIce` after a failed connection, media tracks, `_onTrack` and `remoteStream`. Whether a description is accepted depends only on the signaling state. Whether a candidate is accepted is a parameter.
- The `pranswer` and `rollback` description types are not modelled; neither engine sends them.
- JSON encoding of messages is replaced by the `PeerMessage` and `Message` datatypes.
- `offer.sdp?.replaceAll(...)` on an offer without SDP text is not modelled: SDP is always a string here.
- JsString.ReplaceAll: `$` patterns in the replacement string are not expanded. The only replacement used, `useinbandfec=1; stereo=1`, contains none.
- Event handlers run as atomic steps. Real interleaving across `await` points is not modelled, except that negotiation is split at its first `await` (`BeginNegotiation`/`FinishNegotiation`) so that a message can arrive while `makingOffer` is set.
- `addTrack`, `removeTrack`, the `connected` and `remoteStream` getters, and `CustomEvent` payloads are not modelled; dispatched events are recorded as `Connect` and `Disconnect`.
- `startCapture`, `getDisplayMedia` and the DOM video elements in `src/main.ts` are UI and media capture.
- src/userMediaSelect.ts (a device-picker UI component) and rollup.config.js (build configuration) are not part of this model.

## Findings

| source | as written | input that shows it | evidently intended | confidence | as-written member | corrected member |
|---|---|---|---|---|---|---|
| bin/server.ts:144 | a join of a full session is answered `HTTP 400 Bad Request`, with no protocol version, which is not an HTTP/1.1 status line | an upgrade to `/session/<id>` of a session that already has two clients | `HTTP/1.1 400 Bad Request`, like the refusal at line 125 | high, not executed | Relay.FullRejectionIsNotStatusLine | Relay.RejectionResponse |
