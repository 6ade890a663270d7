# Syncify backend: credential lifecycle and room relay

A Dafny model of the core of `backend/index.js` in Syncify, an Express and
Socket.IO server that lets listeners share a "room" and drives Spotify
playback for the logged-in session. The model covers:

- the `tokens` table (one row per session id, written by `INSERT OR REPLACE`)
  and its accessors `saveTokensForSession` and `getTokensForSession`
  (module `Tokens`, class `Backend.Store`);
- the lazy refresh of `refreshAccessTokenIfNeeded`: no row gives `null`; a
  token with more than 5000 ms left is returned as it is; otherwise the
  remote refresh is called, and on success the row is upserted with
  `expires_in || 3600` and the old refresh token kept when none comes back,
  while on failure nothing is written and `null` is returned (module
  `Credentials`, `Backend.Store.RefreshIfNeeded`);
- the `state` check and code exchange of `/callback`;
- `/spotify/command`: the refresh runs first, a falsy token answers 401, an
  unknown action 400, and each action issues its actuator calls in order;
  a rejected call answers 500 and stops the rest (module `Commands`,
  `Backend.Store.HandleCommand`);
- `/session-info`;
- the Socket.IO relay: room membership, the single `userName` of each
  connection, and which connections each `peer-joined`, `peer-left`,
  `playback-event` and HTTP `playback-command` reaches (module `Rooms`,
  class `Rooms.Relay`).

The clock (`Date.now()`) is the parameter `now` in milliseconds. The answers
of the Spotify token endpoint are the parameters `remote` (refresh) and
`exchange` (authorization code). The actuator's behaviour is the parameter
`failAt`, the index of the first call it rejects. Token strings that are
`undefined` or `null` in JavaScript are modelled as `""`, which is falsy
like them.

The pure decisions (`Credentials.Refresh`, `Credentials.Callback`,
`Commands.Plan`, `Commands.Respond`, `Rooms.Step`) carry the properties.
The mutable objects (`Backend.Store`, `Rooms.Relay`) are proved to make
exactly the state change those decisions describe. The relay is also
modelled as a sequence of handler runs (`Rooms.Run`), and lemmas over any
such sequence state what membership, names and the emission log become.

Behaviour of the code worth noting, which the model follows:

- the `disconnect` handler is empty (backend/index.js:238), so no
  `peer-left` is emitted on disconnect. Socket.IO itself removes a closed
  connection from all its rooms, and the model does that silently;
- a connection has one `userName` for all its rooms, overwritten by every
  join (backend/index.js:227). A `peer-left` carries the latest name, which
  may have been given for another room (`Rooms.LeaveAnnouncesLatestName`);
- the leaver is removed before `peer-left` is emitted (backend/index.js:231-232),
  so it does not receive its own `peer-left`;
- `expires_at` is in milliseconds: a refresh with `expires_in` 3600 stores
  `now + 3600000`;
- the token refresh, which may call the remote endpoint, runs before the
  action is validated, so an unknown action can still refresh and store a
  token (`Backend.UnknownActionStillRefreshes`);
- a refreshed expiry is guaranteed to be later than the old one only when
  the lifetime exceeds the 5-second margin (`Credentials.RefreshExtendsExpiry`,
  `Credentials.RefreshMayShortenExpiry`);
- joining a room and leaving it again restores the rooms only when the
  connection was not already a member (`Rooms.JoinLeaveRoundTrip`,
  `Rooms.JoinLeaveDropsPriorMember`);
- an actuator failure answers a generic 500; the remote status and body
  are not forwarded.

## Model

| member | source | states |
|---|---|---|
| Tokens.Record | backend/index.js:61-62 | the saved row holds the given tokens and expires `expires_in * 1000` ms after `now` |
| Tokens.Lookup | backend/index.js:66-72 | a lookup finds a row exactly when the session has one, and returns that row |
| Tokens.Upsert | backend/index.js:61-65 | `INSERT OR REPLACE` on the primary key: the session's row is replaced, every other row is kept, no row is removed |
| Tokens.LastWriterWins | backend/index.js:61-65 | after any sequence of saves, a session's row is the one written by its last save, or its original row if no save touched it; rows are never deleted |
| Credentials.EffectiveExpiresIn | backend/index.js:95 | `expires_in || 3600`: a missing or zero lifetime becomes 3600, any other is kept |
| Credentials.Refresh | backend/index.js:74-104 | no row: `null`, no remote call, no write; more than 5000 ms left: the cached token, no remote call, no write; otherwise one remote call with the stored refresh token; on success the row becomes (new access, new refresh token or the old one, now + lifetime * 1000) and the new access token is returned; on failure `null` and no write; a written row's access token is the one returned; a held refresh token is never lost |
| Credentials.RefreshAllKeepsRow | backend/index.js:74-104 | over any sequence of refreshes, a session gains no row it did not have, loses none, and keeps a non-empty refresh token once it has one |
| Credentials.RejectedRefreshesChangeNothing | backend/index.js:100-103 | any number of failed refreshes leave the row exactly as it was |
| Credentials.CachedAfterRefresh | backend/index.js:77-99 | after a successful refresh whose lifetime exceeds the margin, later calls before the new margin return the new token with no remote call |
| Credentials.RefreshExtendsExpiry | backend/index.js:93-98 | a successful refresh with a lifetime above 5 seconds moves the expiry strictly forward |
| Credentials.RefreshMayShortenExpiry | backend/index.js:93-98 | with `expires_in` of 1 second the refreshed expiry is earlier than the old one |
| Credentials.RefreshKeepsRefreshTokenExample | backend/index.js:93-99 | an answer without refresh token and with 3600 s gives (A2, R, now + 3600000) |
| Credentials.Callback | backend/index.js:118-146 | a missing, empty or mismatching `state` answers 400 with no exchange and no save; otherwise the code is exchanged; success saves the exchanged tokens and redirects, failure answers 500 and saves nothing |
| Commands.Plan | backend/index.js:161-207 | play sends `uris` exactly when `track_uri` is truthy and a second seek call exactly when `position_ms` is a number; pause, seek and transfer send one call each, transfer with `device_ids: [device_id], play: false`; any other action plans no call |
| Commands.Execute | backend/index.js:160-211 | the calls are awaited in order; the sent calls are a prefix of the plan, ending at the first rejected call; success exactly when all calls were sent and none was rejected |
| Commands.Respond | backend/index.js:158-211 | a falsy token answers 401 with no call; a known token with an unknown action answers 400 with no call; otherwise the planned calls are sent with the token as bearer, answering 200 when none is rejected and 500 otherwise; on a 500 every call up to and including the rejected one was sent and none after it, so a play whose seek is rejected stays sent |
| Js.OrElse | backend/index.js:97 | `a || b` on strings: the first when truthy, else the second; the result is truthy when either is |
| Backend.Store.constructor | backend/index.js:39-44 | the table starts empty |
| Backend.Store.Save | backend/index.js:61-65 | the table becomes the upsert of the session's new row |
| Backend.Store.Get | backend/index.js:66-73 | returns the session's row, or nothing when it has none |
| Backend.Store.RefreshIfNeeded | backend/index.js:74-104 | returns the token and makes the remote call that `Credentials.Refresh` decides, and the table changes by exactly its write |
| Backend.Store.HandleCallback | backend/index.js:118-146 | answers the status of `Credentials.Callback` and changes the table by exactly its write |
| Backend.Store.HandleCommand | backend/index.js:154-212 | refreshes first, whatever the action, then answers as `Commands.Respond` for the token obtained; the table changes only by the refresh |
| Backend.Store.SessionInfo | backend/index.js:148-151 | authenticated exactly when the session has a row |
| Backend.UnknownActionStillRefreshes | backend/index.js:156-159 | an unknown action answers 400 with no actuator call although the expired token was refreshed and stored |
| Rooms.AddMember | backend/index.js:226 | joining adds the connection to that room and changes no other room |
| Rooms.RemoveMember | backend/index.js:231 | leaving removes the connection from that room only; a room left empty disappears |
| Rooms.RemoveEverywhere | backend/index.js:238 | a closed connection is in no room afterwards; every other membership is kept |
| Rooms.Step | backend/index.js:215-239 | every handler keeps rooms non-empty and only appends to the emission log, at most one emission per message |
| Rooms.RunKeepsLogWellFormed | backend/index.js:215-239 | in any run, a joiner receives its own `peer-joined`, a leaver never its own `peer-left`, a playback event never returns to its sender and goes to the room its payload names, and only the HTTP handler emits `playback-command` |
| Rooms.RunMembership | backend/index.js:225-238 | after any run, a connection is in a room exactly when its last join, leave of that room or disconnect was a join |
| Rooms.RunUserName | backend/index.js:225-233 | after any run, a connection's `userName` is the one of its latest join in any room, none after a disconnect |
| Rooms.JoinLeaveRoundTrip | backend/index.js:225-233 | a join of a room the connection was not in, followed by a leave, restores the rooms exactly |
| Rooms.JoinLeaveDropsPriorMember | backend/index.js:225-233 | a join and leave of a room the connection was already in removes it |
| Rooms.PauseReachesOtherMember | backend/index.js:225-237 | c1 and c2 join "xyz"; c1's pause event reaches c2 and not c1 |
| Rooms.LeaveAnnouncesLatestName | backend/index.js:225-233 | the `peer-left` of a room carries the name of the connection's latest join, in whichever room |
| Rooms.Relay.Join | backend/index.js:225-229 | the connection joins, its one `userName` is overwritten, and `peer-joined` goes to every member, the joiner included |
| Rooms.Relay.Leave | backend/index.js:230-233 | the connection leaves first, and `peer-left` with its current name goes to the remaining members only |
| Rooms.Relay.PlaybackEvent | backend/index.js:234-237 | without a truthy `roomId` nothing is emitted; otherwise the payload goes to every member of that room except the sender and to nobody else |
| Rooms.Relay.RoomCommand | backend/index.js:215-220 | the command goes to every member of the room and the answer is 200 |
| Rooms.Relay.Disconnect | backend/index.js:238 | nothing is emitted; the connection is removed from every room and its name discarded |

## Left out

- SQLite, Express, express-session, cors and cookie-parser setup: the table is an in-memory map; a failing database query (the rejected promise of `getTokensForSession`) is not modelled.
- The HTTP requests to Spotify: URLs, headers, query parameters and client credentials are not built; each remote answer is a parameter.
- `/login`: it draws a random `state` and URL-encodes the authorize URL; the state it stores is the `sessionState` parameter of the callback.
- `req.session.authenticated` set by `/callback` is never read by the core and is not modelled.
- The race between concurrent refreshes of one session: handlers run one at a time; `Tokens.LastWriterWins` states the outcome of any order of their saves.
- Numbers that are not integers: `expires_in`, `position_ms` and timestamps are integers; a missing `expires_in` at `/callback` (which makes `expires_at` NaN in JavaScript) is not modelled.
- The remote refresh answers instantly: the validity check (backend/index.js:77) and the save after the answer (backend/index.js:62, called at :98) read the same clock `now`, where the code reads it twice and stores a later time plus the lifetime.
- Socket.IO's per-connection room: every connection is also in a room named by its own id from connect to disconnect, so a `playback-event` or `/room/:roomId/command` addressed to a connection id reaches that connection; the model has no connect step and no such rooms.
- Messages without a payload object: `join-room` or `playback-event` sent with no object makes the handler throw on the destructuring or on `payload.roomId`; the model's payload always exists.
- JSON values of other types than the model gives them: `track_uri`, `device_id` and `roomId` are strings or absent, `userName` is a string.
- Socket.IO transport: delivery order inside one broadcast, best-effort delivery and transport failures; an emission records its recipient set.
- `console.log` and `console.error` logging.
- frontend/src/App.jsx: React rendering and socket wiring, not part of this model.
