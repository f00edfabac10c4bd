# husky-zoom room lifecycle — a Dafny model

This project models the parts of husky-zoom that decide what happens to a
two-party video room and to the messages around it:

- the server's room store (`server/handler.ts`): creating a room record with
  a hashed host password, the periodic sweep that deletes expired rooms and
  emits `'admin-delete-room'` for each, and the password gate of
  `POST /room/check`;
- the credential hasher (`server/encrypt.ts`): salt, pbkdf2 hash, base64,
  and the comparison that re-derives the key with the stored salt;
- the connection-status transaction of the room-ready video component
  (`src/components/pages/room-ready/video-section.ts`) and the lifecycle
  hooks that run it;
- the toast stack (`src/components/structures/toast-stack.ts`);
- the client's error-message classification (`src/fetcher/parseErrMsg.ts`)
  and the entry page's rewrite and redirect (`src/pages/room-start.ts`).

Files: `wrappers.dfy` (Option/Result), `encrypt.dfy`, `room_record.dfy` (the
record shape of `server/handler.ts:52-93` and `src/config/room.ts`),
`handler.dfy`, `video_section.dfy`, `toasts.dfy`, `fetcher.dfy`,
`room_start.dfy`.

Modelling choices:

- The database is an in-memory `map` from room id to record inside the
  `Handler.RoomStore` class; the emitter is the log `emitted`. A record is
  always stored under its own id (`Handler.KeyedById`), which creation,
  the sweep and status changes keep; the sweep removes `rooms/<item.id>`
  and relies on it.
- Timestamps are integer seconds. `createRoom` reads `new Date()` twice, once
  for `created_at` and once for `expires_at`; the model uses one reading for
  both. It always adds nine hours; the sweep adds them only in production (`isProd`). So a
  room lives three minutes in production and nine hours three minutes
  elsewhere (`Handler.RoomLifetime`).
- The sweep's `failed` parameter is the set of ids whose removal the database
  rejected. Firebase calls the `remove` completion callback on failure as
  well, and the callback ignores its error argument. So the id is emitted
  either way, and the room stays for the next sweep.
- `crypto.randomBytes` and `crypto.pbkdf2` are function parameters. A Dafny
  function is deterministic, which is all the comparison relies on.
  `Buffer.toString('base64')` is modelled concretely (`Encrypt.Base64`).
- Statuses are `Disconnected | Ready`: those are the only values the code
  writes. No code writes a `connecting` status.
- `checkRoomPassword` on a missing room with a well-formed id reads
  `room.members` of `null`. That throws, so the answer is a 500
  (`RoomMissing`), not a not-found error. The room is looked up by key; the
  database path built from the id is not modelled (see "## Left out").
- A request body without a password makes pbkdf2 throw synchronously, inside
  the promise executor. Here that is pbkdf2's failure (the `kdf` parameter):
  an argument error from pbkdf2 is answered with a 500. A `Failure` from
  `kdf` or `randomBytes` stands only for such a synchronous argument error;
  an error handed to the library callback is not answered at all (see
  "## Left out").
- `createRoom` has no capacity check.
- `parseErrMsg` can return `undefined` when an error body has no `message`.
  It is `None` here, and the redirect then carries the text `undefined`.

## Model

| member | source | states |
|---|---|---|
| Encrypt.Base64 | server/encrypt.ts:9 | the base64 text of n bytes is 4·⌈n/3⌉ characters long |
| Encrypt.Base64Characters | server/encrypt.ts:9 | its characters come from the standard alphabet, except the last (3 − n mod 3) mod 3, which are '=' |
| Encrypt.CreateSalt | server/encrypt.ts:3-11 | asks for 64 random bytes; succeeds exactly when the entropy source does, with an 88-character salt ending "==", otherwise fails with the source's error |
| Encrypt.CreateHashedPassword | server/encrypt.ts:13-24 | hashes with the fixed pbkdf2 parameters (9999 rounds, 64 bytes, sha512); fails exactly when pbkdf2 does; the text has the base64 length of the derived key |
| Encrypt.HashedPasswordLength | server/encrypt.ts:18-22 | a 64-byte derived key gives an 88-character hash ending "==" |
| Encrypt.ComparePassword | server/encrypt.ts:26-35 | true exactly when hashing the candidate with the stored salt yields the stored value; fails only when pbkdf2 fails |
| Encrypt.CompareRoundTrip | server/encrypt.ts:13-35 | a password compares equal to the value it was hashed into with the same salt |
| Encrypt.CompareRejectsOtherKeys | server/encrypt.ts:26-35 | a candidate whose hash under the stored salt differs from the stored value is refused |
| Handler.NewRoom | server/handler.ts:52-93 | the new record has the given id, expires 3 minutes after it is created (created = clock + 9h), holds the caller's identity and {hash, salt} as host, an all-empty guest, and unused connections |
| Handler.CheckRoomPassword | server/handler.ts:103-129 | answers ok exactly when the room exists and the password matches the host's; answers the fixed 401 message exactly when the room exists and the password does not match; a pbkdf2 argument error answers 500 with that error; a missing room with a well-formed id answers 500 |
| Handler.RoomStore.RemoveRoomSchedule | server/handler.ts:11-37 | the collection becomes the swept one: exactly the rooms expiring strictly before the sweep instant are removed, unless the removal failed; every selected id is emitted once and no other id is emitted |
| Handler.RoomStore.CreateRoom | server/handler.ts:40-100 | succeeds exactly when salt, hash and write succeed; then adds the new record under the fresh id, one more record than before, and answers that id; on any failure nothing is written |
| Handler.SweepRemovesExactlyExpired | server/handler.ts:21-35 | the swept collection keeps every room except the expired ones removed successfully, each surviving record unchanged |
| Handler.ExpiryBoundary | server/handler.ts:22-23 | a room expiring exactly at the sweep instant survives; one second later it is removed |
| Handler.SweepEmpty | server/handler.ts:17-21 | an empty collection selects nothing and stays empty |
| Handler.SweepAgain | server/handler.ts:21-23 | a second sweep at the same instant selects only the rooms whose removal failed; after a clean sweep it changes nothing |
| Handler.SweptKeyedById | server/handler.ts:25-27 | the sweep keeps every record under its own id |
| Handler.RoomLifetime | server/handler.ts:13 | a new room is selected once the clock passes creation + 3 min in production, creation + 9h 3min otherwise |
| VideoSection.ChangeConnectionStatus | src/components/pages/room-ready/video-section.ts:128-141 | a missing room stays missing; the host's uid sets only the host status; any other uid sets the guest status and overwrites the guest identity; id, timestamps, passwords, host identity and connection stamps never change |
| VideoSection.ChangeIdempotent | src/components/pages/room-ready/video-section.ts:130-138 | applying the same change twice equals applying it once |
| VideoSection.HostAndGuestCommute | src/components/pages/room-ready/video-section.ts:130-138 | a host write and a guest write give the same record in either order |
| VideoSection.SecondGuestOverwrites | src/components/pages/room-ready/video-section.ts:132-138 | a second non-host writer replaces the recorded guest identity |
| VideoSection.ChangeKeepsKeyedById | src/components/pages/room-ready/video-section.ts:128-141 | a status change keeps the record under its own id |
| VideoSection.WriteBeforeSignInTakesGuestSlot | src/components/pages/room-ready/video-section.ts:74-79 | before sign-in the empty uid writes the guest slot and blanks the guest identity |
| VideoSection.VideoSection.constructor | src/components/pages/room-ready/video-section.ts:70-82 | the component starts with an empty user and no spinner |
| VideoSection.VideoSection.OnAuthStateChanged | src/components/pages/room-ready/video-section.ts:90-99 | a signed-in user is copied into the component; a signed-out one is sent to /auth/login |
| VideoSection.VideoSection.ChangeConnectionStatusTx | src/components/pages/room-ready/video-section.ts:123-142 | the room's record is replaced by the transaction result; a missing room stays missing; nothing else changes |
| VideoSection.VideoSection.OpenLocalVideo | src/components/pages/room-ready/video-section.ts:115-121 | writes 'ready' for the current user; the spinner ends off only when the camera opens, and stays on when it is refused |
| VideoSection.VideoSection.DisconnectedCallback | src/components/pages/room-ready/video-section.ts:104-113 | writes 'disconnected' for the current user |
| VideoSection.VideoSection.CloseConnection | src/components/pages/room-ready/video-section.ts:144-150 | writes 'disconnected' for the current user on page unload |
| Toasts.NatToString | src/components/structures/toast-stack.ts:41 | the id is rendered as non-empty decimal digits without a leading zero |
| Toasts.NatToStringRoundTrip | src/components/structures/toast-stack.ts:41 | the rendered id reads back as the id |
| Toasts.NatToStringInjective | src/components/structures/toast-stack.ts:41 | distinct ids render as distinct texts |
| Toasts.WithoutId | src/components/structures/toast-stack.ts:33 | keeps exactly the messages with another id |
| Toasts.WithoutIdConcat | src/components/structures/toast-stack.ts:33 | filtering preserves the order of the messages it keeps |
| Toasts.WithoutAbsentId | src/components/structures/toast-stack.ts:33 | removing an id no message carries is a no-op |
| Toasts.RemoveIdempotent | src/components/structures/toast-stack.ts:33 | removing an id twice equals removing it once |
| Toasts.WithoutIdKeepsIds | src/components/structures/toast-stack.ts:33 | filtering keeps ids strictly increasing and below the counter |
| Toasts.AddThenRemove | src/components/structures/toast-stack.ts:38-46 | the timer of a freshly added message removes exactly that message |
| Toasts.ToastStack.constructor | src/components/structures/toast-stack.ts:26-28 | a new stack is empty and its counter is 0, the initial message count |
| Toasts.ToastStack.AddToastEvent | src/components/structures/toast-stack.ts:38-44 | appends one message whose id is the counter and whose text is the id, a space and the detail as a template literal renders it; the counter grows by one; ids stay unique and increasing |
| Toasts.ObjectDetailText | src/components/structures/toast-stack.ts:41 | an object detail shows as the id followed by " [object Object]", whatever its title and message |
| Toasts.ToastStack.RemoveMsgTimeout | src/components/structures/toast-stack.ts:30-36 | the messages become those with another id, in order; ids stay unique and increasing |
| Fetcher.ParseErrMsg | src/fetcher/parseErrMsg.ts:3-22 | a response of status 400 or more gives its body's message; a lower status gives the error's message; no response but a request gives "Network Error"; neither gives the error's message |
| Fetcher.ResponseTakesPrecedence | src/fetcher/parseErrMsg.ts:5-13 | with a response, whether a request is recorded does not matter |
| Fetcher.UndefinedOnlyFromServer | src/fetcher/parseErrMsg.ts:7-10 | the message is undefined exactly when a 4xx/5xx body lacks one |
| RoomStart.OnVerifyError | src/pages/room-start.ts:27-37 | redirects to room/ready/<id>?message=<m>, m being the parsed message with 'jwt expired' and 'invalid token' turned into their user texts |
| RoomStart.OtherMessagesPassThrough | src/pages/room-start.ts:29-35 | any other message reaches the user unchanged |
| RoomStart.RewriteIsFinal | src/pages/room-start.ts:29-35 | at most one rewrite applies: a rewritten text is not rewritten again |
| RoomStart.GetParam | src/pages/room-start.ts:41-42 | the value of the first parameter with the key, or null exactly when no parameter has it |
| RoomStart.SendToken | src/pages/room-start.ts:40-47 | posts to /room/verify a body whose token is the first `token` query parameter, or null when there is none |

## Left out

- Firebase I/O: `roomsRef.get()`, `set`, `remove`, `onValue` and the network are replaced by the in-memory map. The outcome of each write is a parameter.
- `runTransaction`'s retry loop and concurrent writers: the transaction body is a function, applied once to the current record. `HostAndGuestCommute` states what two committed writes give.
- `crypto.randomBytes`, `crypto.pbkdf2`, `uuidv4` and `jwt.sign`: library calls, modelled as parameters (the uuid as the fresh `roomId`). `createJWTForRoom` (server/handler.ts:132-144) issues a token by `jwt.sign` alone and is not modelled. The verify handler for `/room/verify` is not part of this model.
- Handler.CheckRoomPassword: the room is looked up as a map key, not through the database path `rooms/<room_id>` (server/handler.ts:107). Two cases follow that the model does not capture. First, an id containing '.', '#', '$', '[' or ']' is an invalid path: `ref` throws before the `try`, and no answer is sent at all. Second, empty path segments are dropped, so `"abc/"` reads room `abc` and can answer ok or 401. The model answers 500 (`RoomMissing`) in both cases.
- Encrypt.ComparePassword: refusing the right password under a different salt needs collision resistance of pbkdf2, which an arbitrary function parameter lacks.
- The missing `return` after `reject` in `createSalt` and `createHashedPassword` (server/encrypt.ts:7-9, 20-22): when `randomBytes` or `pbkdf2` hands an error to its callback, the promise rejects, but the next line then calls `toString` on an undefined buffer. That TypeError is thrown from the library callback, outside any promise or `try`, so the process fails and no response is sent. The model does not capture this: its `Failure` results stand only for synchronous argument errors.
- Encrypt.CreateSalt: its `Failure` models the promise's rejection only; the uncaught TypeError that follows an entropy error in the server (see above) is not modelled.
- Handler.RoomStore.CreateRoom: `createSalt` has no synchronous failure (its only argument is the constant 64), so the `CreateFailed(CryptoFailed(..))` answer after a salt failure is one the server never sends; in the server an entropy error ends with no response, as the line above describes.
- dayjs parsing and formatting: timestamps are whole seconds. `isBefore` against a clock with milliseconds is not modelled.
- Handler.RoomStore.RemoveRoomSchedule: the interval that drives the sweep is not shown. The emission order of ids is the order the loop visits them, not the database's callback order.
- Logging (`console.log`) and the HTTP response plumbing beyond the answer's kind.
- Toasts.ToastStack.AddToastEvent: `detail` is rendered by `RenderDetail`. Every caller in the repository (src/components/pages/my-home/pw-modal.ts:70-77 and 85-92, src/pages/room-ready.ts:95-102 and 118-125) passes an object `{intent, title, message}`, so every toast reads "<id> [object Object]". Ids are unbounded naturals. In JavaScript, `_id += 1` is exact only below 2^53, and `${id}` switches to exponent form from 1e21.
- Handler.NewRoom: the source reads the clock twice and truncates each reading to whole seconds. When the two readings fall on either side of a second boundary, `expires_at - created_at` is 181 seconds, not 180. The model uses one reading, so it always gives 180.
- VideoSection.VideoSection.OpenLocalVideo: a rejected status transaction also leaves the spinner on. Transactions do not fail in this model.
- Toasts: the ten-second `setTimeout` is an explicit `RemoveMsgTimeout` call. `updateComplete` and rendering are left out.
- VideoSection: camera access (`getUserMedia`), stopping tracks, event listener registration and rendering are left out. A null `email`/`photoURL` from the auth provider is not modelled.
- RoomStart: URL parsing and decoding of `window.location.search` (the model takes the parsed parameter list), the success `alert` and the axios POST itself.
- All Lit rendering, styling, the sign-in page and build configuration.
