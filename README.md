# Group-ordering session server, modelled in Dafny

This project models the backend of a shared group-ordering service. Several
clients connect over a WebSocket, `join` a session by its code, and then add,
remove and tick off order items and set the tax rate. After every accepted
change the server sends the full order list and tax rate to every open client
of the session. An expiry sweeper removes sessions older than four hours. Two
HTTP endpoints create a session and look one up.

Everything modelled lives in `backend/server.js`. The modules follow its parts:

- `Wrappers`: `Option` and `Result`.
- `JsText`: JavaScript `trim` and the UTF-16 `length` the name and notes limits use.
- `Numbers`: the result of `parseFloat` (NaN, finite or infinite), the range
  test `isNaN(x) || x < 0 || x > hi`, and `Math.round(x * 100) / 100`.
- `Orders`: the `add_order` payload, the stored order, the validation (`Admit`),
  `findIndex`/toggle and `filter` by id.
- `Sessions`: the session record, the outgoing messages, the broadcast loop,
  the tax check and the expiry rule.
- `SessionServer`: the class `Server`. Its field `sessions` is the store. Its
  field `binding` holds each connection's `sessionId` variable. It has one method
  per handler (`join`, `add_order`, `remove_order`, `toggle_order_status`,
  `set_tax`, `close`), the sweeper, and the two HTTP operations.
- `Scenarios`: client methods that drive a `Server` through end-to-end
  sessions (create, join, add, expire, bad tax, re-join, unjoined sender) using
  only the handlers' contracts.

Things the environment decides are parameters:

- the current time in milliseconds;
- the fresh order id from `shortid.generate()`;
- the ISO timestamp;
- the generated session code;
- `open`, the set of connections whose `readyState` is OPEN.

Each handler returns the messages it sends as a sequence of `Delivery(to, msg)`.
So a postcondition can say whether a message went to the sender only or to
every open client.

`Server.Valid()` is the invariant every handler keeps. Every stored tax rate
lies in [0, 50] and is a whole number of hundredths. Every stored order has a
non-empty name of trimmed length at most 25 and trimmed notes of at most 30.
Its price, when present, lies in [0, 50000] and is a whole number of hundredths.

Some behaviour of the code is easy to miss; the model keeps it:

- A client-supplied `id` in the payload replaces the generated one, because the
  spread comes after it. So order ids are not always distinct.
  `Orders.PayloadIdCanRepeat` shows the duplicate.
  `Orders.AdmitKeepsIdsUnique` gives the one case where ids stay distinct: no
  payload id and a new generated id.
- A name made only of whitespace (but not empty) is accepted. Its trimmed
  length is 0 (`Orders.BlankItemNameAccepted`).
- A second `join` to another code leaves the connection in the first session's
  clients, because `close` only cleans up the last code joined.
- `POST /api/sessions` does not guard against a code collision. It replaces any
  session already stored under the code.
- The sweeper notifies and closes only the clients that are OPEN. The others
  stay in the set until the session is deleted.
- A lookup of an expired code reports `expired`, not `not_found`, and deletes it.
- A session is never deleted when its last client disconnects.

## Model

| member | source | states |
|---|---|---|
| JsText.TrimStart | backend/server.js:94 | the result is the input with a prefix dropped, and it is empty or starts with a non-whitespace character |
| JsText.TrimStartDropsWhitespace | backend/server.js:94 | every character dropped from the front is whitespace |
| JsText.TrimEnd | backend/server.js:94 | the result is a prefix of the input, and it is empty or ends with a non-whitespace character |
| JsText.TrimEndDropsWhitespace | backend/server.js:94 | every character dropped from the end is whitespace |
| JsText.Trim | backend/server.js:94 | the trimmed string neither starts nor ends with JavaScript whitespace |
| JsText.TrimIsSlice | backend/server.js:94 | what trim keeps is one contiguous run of the input, after its leading whitespace |
| JsText.TrimSurroundings | backend/server.js:94 | every character trim drops, before or after the kept run, is whitespace |
| JsText.TrimEmptyIffBlank | backend/server.js:94 | trim gives the empty string exactly when the input is all whitespace |
| JsText.Utf16Length | backend/server.js:94 | a string's JavaScript length lies between its character count and twice it, and is 0 only for the empty string |
| JsText.Utf16LengthOfBmp | backend/server.js:103 | for characters of the Basic Multilingual Plane the JavaScript length is the character count |
| Numbers.Rejected | backend/server.js:114 | the reject test on a parsed number, also used for the tax at line 196; AcceptedIsInRange gives its meaning as a range |
| Numbers.AcceptedIsInRange | backend/server.js:114 | a number passes the NaN/negative/too-large test exactly when it is finite and in [0, hi] |
| Numbers.Round2 | backend/server.js:122 | the rounding of prices, also used for the tax at line 204; its result is always a whole number of hundredths, and Round2InRange, Round2Nearest and Round2OfCents pin it down further |
| Numbers.Round2InRange | backend/server.js:122 | rounding a value in [0, hi] to hundredths stays in [0, hi] and gives whole hundredths |
| Numbers.Round2Nearest | backend/server.js:122 | rounding moves a value by less than half a hundredth downwards and at most half upwards |
| Numbers.Round2OfCents | backend/server.js:122 | a value already in hundredths is not changed by rounding (the same rounding stores the tax at line 204) |
| Orders.ItemRejected | backend/server.js:94 | a missing or empty name, or one whose trimmed JavaScript length is above 25, is refused; Admit and AdmitWellFormed use it |
| Orders.NotesRejected | backend/server.js:103 | notes are refused only when present, non-empty and above 30 once trimmed |
| Orders.PriceRejected | backend/server.js:112-114 | a price is refused only when present and NaN, negative or above 50000 |
| Orders.Admit | backend/server.js:94-130 | the payload is refused exactly when the item, notes or price check fails, with the first failing check's message; an accepted order keeps the payload's id if any, else the fresh id, copies item, name, quantity and notes, stores the rounded price, and has isOrdered false and the server timestamp |
| Orders.AdmitWellFormed | backend/server.js:94-123 | every accepted order has a non-empty name of trimmed length at most 25, trimmed notes at most 30, and a price in [0, 50000] in hundredths |
| Orders.BlankItemNameAccepted | backend/server.js:94 | a non-empty whitespace-only name is accepted and its trimmed form is empty |
| Orders.FindIndex | backend/server.js:166 | the result is the first position whose id matches, or none exactly when no order matches |
| Orders.FindIndexSameIds | backend/server.js:166 | the search answer depends only on the ids, position by position |
| Orders.Toggle | backend/server.js:166-171 | with no matching order it fails; otherwise isOrdered is flipped on the first match only, every other order and every id is unchanged |
| Orders.ToggleKeepsWellFormed | backend/server.js:170-171 | toggling changes only the status, so every order stays well formed |
| Orders.ToggleTwice | backend/server.js:170-171 | toggling the same id twice restores the original list |
| Orders.RemoveById | backend/server.js:149 | the filtered list is never longer than the input; RemoveByIdMembers, RemoveByIdAppend and RemoveByIdCount give its meaning |
| Orders.RemoveByIdMembers | backend/server.js:149 | an order survives the filter exactly when it was present and its id differs |
| Orders.RemoveKeepsWellFormed | backend/server.js:149 | filtering keeps every surviving order well formed |
| Orders.RemoveByIdAppend | backend/server.js:149 | filtering a concatenation is the concatenation of the filtered parts, so relative order is kept |
| Orders.RemoveAbsentId | backend/server.js:149 | removing an id no order has returns the list unchanged |
| Orders.RemoveByIdCount | backend/server.js:149 | the filter drops exactly as many orders as carry the id |
| Orders.AppendFreshKeepsUnique | backend/server.js:131 | appending an order with a new id keeps ids distinct |
| Orders.AdmitKeepsIdsUnique | backend/server.js:125-131 | with no payload id and a generated id not yet used, the appended order keeps ids distinct |
| Orders.PayloadIdCanRepeat | backend/server.js:125-127 | a payload id equal to the id of any existing order yields two orders with that id |
| Orders.RemoveKeepsUnique | backend/server.js:149 | filtering keeps distinct ids distinct |
| Sessions.IsExpired | backend/server.js:33 | a session is expired when strictly more than four hours have passed since it was created, the same test as line 255; SweepsCompose shows it is monotone in time |
| Sessions.NewSessionWellFormed | backend/server.js:72-77 | a new session (no orders, tax 13) satisfies the session invariant |
| Sessions.CheckTax | backend/server.js:195-204 | a tax is refused with the tax error exactly when it is NaN, negative or above 50; an accepted one is stored rounded, in [0, 50] and in hundredths |
| Sessions.FanoutAppend | backend/server.js:39-47 | two deliveries of one message to disjoint sets of connections together deliver it once to each connection of the union |
| Sessions.Broadcast | backend/server.js:134-142 | the message goes exactly once to each client in the set that is open, and to no one else |
| Sessions.FanoutSize | backend/server.js:151-159 | a broadcast sends as many messages as it has recipients |
| SessionServer.Surviving | backend/server.js:32-33 | a sweep keeps exactly the sessions that have not expired, each unchanged |
| SessionServer.SweepsCompose | backend/server.js:33 | expiry is monotone in time, so a sweep followed by a later one leaves what the later sweep alone leaves |
| SessionServer.Sweep | backend/server.js:32-50 | the remaining store is the unexpired sessions; the closed connections are the open clients of the expired sessions; each of them receives session_expired exactly once |
| SessionServer.Server.Active | backend/server.js:90 | the guard of every message handler (also lines 147, 164, 193 and 222): the connection has joined under a non-empty code whose session is still stored |
| SessionServer.Server.constructor | backend/server.js:19 | the store and the connection bindings start empty |
| SessionServer.Server.Join | backend/server.js:69-87 | the connection is bound to the code; an unknown code gets a session with no orders, tax 13 and the current time; the connection is added to the clients; the snapshot goes to the joining connection only |
| SessionServer.Server.AddOrder | backend/server.js:89-144 | on an inactive connection nothing changes or is sent; a refused payload sends the error to the sender only and changes nothing; an accepted one appends the order at the end and sends the snapshot to every open client |
| SessionServer.Server.RemoveOrder | backend/server.js:146-161 | the orders become the filtered list and the snapshot goes to every open client, even when nothing was removed; no error is ever sent |
| SessionServer.Server.ToggleOrderStatus | backend/server.js:163-190 | a missing id sends "Order not found" to the sender only and changes nothing; otherwise the first match is flipped and the snapshot goes to every open client |
| SessionServer.Server.SetTax | backend/server.js:192-217 | a refused value sends the tax error to the sender and keeps the rate; an accepted one is stored rounded and sent with the unchanged orders to every open client |
| SessionServer.Server.Close | backend/server.js:221-233 | the connection leaves the clients of its last-joined session, if it still exists; no session is deleted |
| SessionServer.Server.CleanupSessions | backend/server.js:30-51 | exactly the expired sessions are deleted, the rest untouched; their open clients are told once and closed |
| SessionServer.Server.CreateSession | backend/server.js:237-246 | a fresh session is stored under the generated code, replacing any session already there, and the code is returned |
| SessionServer.Server.LookupSession | backend/server.js:249-264 | an unknown code is not found; an expired code is deleted and reported expired; a live code is reported to exist and nothing changes |
| Scenarios.PizzaAccepted | backend/server.js:94-130 | the pizza payload (quantity 2, price 12.5) is accepted and stored with price 12.5 and isOrdered false |
| Scenarios.TwoClientsSeeNewOrder | backend/server.js:69-142 | after two joins and one add_order, both clients receive one orders message holding the new unordered order |
| Scenarios.SessionExpiresAfterTimeout | backend/server.js:30-51 | a session is found one second before the timeout; a sweep one second after it tells its open client, and a later lookup finds nothing |
| Scenarios.UnparsableTaxIsRefused | backend/server.js:192-202 | an unparsable tax sends one error to the requester only and the rate stays 13 |
| Scenarios.RejoinLeavesOldMembership | backend/server.js:69-79 | after joining two codes and closing, the connection is still a client of the first session but not of the second |
| Scenarios.UnjoinedConnectionIsIgnored | backend/server.js:89-90 | add_order from a connection that never joined sends nothing and adds nothing |

## Left out

- The Express and HTTP server, the `ws` library, CORS, dotenv and `server.listen`, which are I/O plumbing. Sends are returned as `Delivery` values. OPEN status is the `open` parameter.
- `client.close()` itself. The sweeper returns the connections it closes. Their later `close` events are separate `Close` calls.
- `JSON.parse` and malformed frames. A frame that does not parse, or an `add_order` without `order`, makes the source throw. The model takes already-parsed messages.
- JSON values of other types: a `sessionId`, `item`, `notes` or `id` that is not a string, a missing `sessionId` (`undefined` as a Map key), and extra payload fields the spread copies. Codes, names and ids are strings. The empty string stands for the falsy code. `quantity` is an optional integer and is not checked, as in the source.
- Strings holding an unpaired UTF-16 surrogate. `JSON.parse` accepts `"\ud800"` and JavaScript's `length` counts it as 1, but a Dafny `char` is a Unicode scalar value, so such an `item` or `notes` cannot be represented and the model says nothing about it.
- `parseFloat` text parsing and binary floating point. A `Number` is the parse result. Rounding is exact on reals.
- `shortid.generate()` and `generateSessionCode`, which are random. The order id and the session code are parameters.
- `Date.now()`, `toISOString()` and the `setInterval` schedule of the sweeper. Time is a parameter, and `CleanupSessions` is an ordinary method.
- `console.log` diagnostics.
- The order of deliveries within one broadcast (JavaScript `Set` iteration order). Each recipient gets one message, so no recipient can observe that order. For the sweeper, the order of visiting sessions is also free in the model. Its contract holds for every order.
- Session records are values in the `sessions` map rather than shared objects. Only the map refers to them, so no aliasing is observable.
- A message with another `type`: no case of the switch handles it and nothing happens, so no method models it.
- `Close` leaves the connection's `binding` entry in place, as the source leaves `sessionId`. A closed connection sends no further messages.
- The frontend (`Session.tsx`, `Home.tsx`, `Logo.tsx`, `App.tsx`) is UI, client-side reconnect timing and fetch calls.
