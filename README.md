# WalletConnect notification fan-out, modelled in Dafny

This project models the WalletConnect Notify provider of snapshot-discord
(`src/providers/walletconnectNotify.ts`). When a proposal starts, the provider:

1. fetches the list of CAIP-10 identifiers (`namespace:chainId:address`) that have
   subscribed on the WalletConnect Notify server;
2. cross-references that directory with the space's subscribers from the database (bare
   addresses). It keys each directory entry by the text after its last `:`, then keeps the
   directory entry for each database subscriber that is such a key;
3. formats the notification payload from the proposal;
4. posts the payload to the notify endpoint in slices of at most 500 accounts, one request at
   a time, pausing after every request.

Each notify request is timed by a metric. Failed requests and unparsable JSON bodies are reported
to an error sink instead of being thrown. A directory body that parses to an object, `null`,
a number or a boolean, or to a list holding a non-string, however, makes `send` throw (see
"## Left out").

Modules, one per piece of the provider:

- `Wrappers`: `Option`.
- `Types`: `Event` from `src/types.ts`, and the proposal, space and notification records.
- `Addresses`: `split(':').pop()`.
- `CrossReference`: `getSubscribersFromWalletConnect` and `crossReferenceSubscribers`.
- `Delivery`: `sendNotification`.
- `Batching`: the rate-limit constants and `queueNotificationsToSend`.
- `Format`: `formatMessage`.
- `Dispatch`: `send`.

The loops of the source are methods proved against specification functions:

- `CrossReferenceSubscribers` is proved against `AddressPrefixMap` and `CrossReferenced`.
- `QueueNotificationsToSend` is proved against `Chunks` and `Schedule`.

The lemmas state what those functions promise.

The outside world is given as parameters:

- The directory fetch is an `Option<seq<string>>`. `None` stands for a failed request or an
  unparsable body.
- The k-th notify call ends as `respond(k)`: a network error, an unparsable body, or a body
  that parsed as JSON, whatever the HTTP status. The code counts any parsed body as a
  success: an HTTP error reply with a JSON body is metered with status 200 and returned.
- The configured notification type is a parameter.

Effects are recorded as values rather than performed:

- the queue's requests and pauses are a trace of `Notify` and `Sleep` actions;
- each call's error report (`Capture`) and timer end (`EndTimer(status)`) are recorded in
  its `DeliveryReport`.

Behaviour the model keeps as the code has it:

- The notified event kind is `"proposal/start"`.
- A proposal without a space does not stop `send`. `formatMessage` returns null, and that
  null message is still queued for every chunk (`Dispatch.NullMessageStillQueued`).
- The queue also pauses after the last chunk.
- Cross-referenced results follow the order of the database subscribers and are not
  deduplicated.

## Model

| member | source | states |
|---|---|---|
| `Addresses.LastSegmentIsLastField` | src/providers/walletconnectNotify.ts:59 | `split(':').pop()` gives the last `:`-separated field: a `:`-free suffix that is preceded by `:` or is the whole string |
| `Addresses.Caip10Address` | src/providers/walletconnectNotify.ts:59 | the unprefixed address of `namespace:chainId:address` is `address` when the address holds no `:` |
| `CrossReference.AddressPrefixMap` | src/providers/walletconnectNotify.ts:57-63 | every key of the lookup is non-empty and maps to a directory entry whose unprefixed address is that key |
| `CrossReference.AddressPrefixMapKeys` | src/providers/walletconnectNotify.ts:58-62 | the keys are exactly the non-empty unprefixed addresses of the directory; entries with an empty one are skipped |
| `CrossReference.AddressPrefixMapLatest` | src/providers/walletconnectNotify.ts:58-62 | a key maps to the last directory entry with that unprefixed address; later entries overwrite earlier ones |
| `CrossReference.CrossReferenced` | src/providers/walletconnectNotify.ts:65-73 | the result is no longer than the database list, and it holds no empty (falsy) element |
| `CrossReference.CrossReferenceSubscribers` | src/providers/walletconnectNotify.ts:46-74 | both loops compute the lookup of the fetched directory and the resolved list; a fetch error is reported exactly when the fetch failed |
| `CrossReference.CrossReferencedAppend` | src/providers/walletconnectNotify.ts:65-70 | resolving a concatenation concatenates the results: database order is kept and a repeated subscriber gives a repeated result |
| `CrossReference.CrossReferencedSound` | src/providers/walletconnectNotify.ts:57-70 | every result is a directory entry whose non-empty unprefixed address is exactly one of the database subscribers |
| `CrossReference.CrossReferencedComplete` | src/providers/walletconnectNotify.ts:65-70 | a database subscriber that is the unprefixed address of a directory entry is kept, as its looked-up entry |
| `CrossReference.CrossReferencedKeepsAll` | src/providers/walletconnectNotify.ts:65-73 | the result has one element per database subscriber exactly when every subscriber is found in the lookup |
| `CrossReference.FailedFetchResolvesNobody` | src/providers/walletconnectNotify.ts:30-42 | a failed directory fetch yields the empty directory, so nobody is resolved and no error escapes |
| `CrossReference.CrossReferenceExample` | src/providers/walletconnectNotify.ts:57-70 | directory `["eip155:1:0xABC", "eip155:1:0xDEF"]` with database `["0xABC", "0xZZZ"]` resolves to `["eip155:1:0xABC"]` |
| `Delivery.SendNotification` | src/providers/walletconnectNotify.ts:87-117 | the request body is `{accounts, notification}`; the call resolves with the body exactly when it parsed as JSON, whatever the HTTP status; an error is reported exactly once when it did not; the timer ends exactly once, as the last effect, with 200 when the body parsed and 500 otherwise |
| `Batching.Chunks` | src/providers/walletconnectNotify.ts:77-81 | every chunk is non-empty and holds at most 500 accounts |
| `Batching.ChunkCount` | src/providers/walletconnectNotify.ts:77 | there are ceil(L/500) chunks for L accounts |
| `Batching.ChunkAt` | src/providers/walletconnectNotify.ts:77-81 | chunk k is `accounts.slice(500k, 500k + 500)` |
| `Batching.ChunksConcat` | src/providers/walletconnectNotify.ts:77-81 | joining the chunks in order gives back the account list |
| `Batching.ScheduleShape` | src/providers/walletconnectNotify.ts:77-84 | request j carries chunk j and the message, and it is followed by exactly one pause of WAIT_TIME, the last request included |
| `Batching.ScheduleSendsChunks` | src/providers/walletconnectNotify.ts:77-84 | the accounts of the requests, in order, are the chunks joined |
| `Batching.ScheduleSendsAll` | src/providers/walletconnectNotify.ts:77-84 | every account is sent exactly once and in order; an empty list gives no request and no pause |
| `Batching.QueueNotificationsToSend` | src/providers/walletconnectNotify.ts:76-85 | the loop issues the schedule of the chunks; it makes one notify call per chunk, with that chunk, and a failed call does not stop later ones |
| `Format.FormatMessage` | src/providers/walletconnectNotify.ts:120-135 | no message exactly when the proposal has no space; otherwise title, icon and type are taken over, the url is the link followed by `?app=web3inbox`, and the body names the space by name and id in the fixed template |
| `Dispatch.Send` | src/providers/walletconnectNotify.ts:137-149 | an event other than "proposal/start" fetches nothing and sends nothing; otherwise the call fetches, cross-references, formats and queues, and only resolved database subscribers are sent, each once per occurrence in the database list (repeats are kept) |
| `Dispatch.NullMessageStillQueued` | src/providers/walletconnectNotify.ts:143-147 | with no space the null message is still queued: every account is sent, and every request carries no notification |

## Left out

- Network I/O is not modelled. This covers the URLs built from the environment, the
  authorization header, `fetch` and `JSON.stringify`/`json()`. Their outcomes are parameters.
- A directory body that parses to something other than a list of strings is not modelled.
  The model takes any successful fetch as a list of strings. In the code, an object (for
  example a JSON error object from a 401 reply), `null`, a number or a boolean makes the
  loop at line 58 throw, and a list holding a non-string makes `.split` at line 59 throw.
  Both happen outside any `try`, so `send` rejects; the model does not capture that
  failure. A JSON string body does not throw: the loop at line 58 goes through it one
  character at a time, each character other than `:` becomes a key mapped to itself, and
  a `:` is skipped. The model does not take a string body either; it matches a fetch that
  gave the list of those one-character strings.
- Configuration from environment variables is not modelled; the notification type is a
  parameter. An unset variable (`undefined`) is not modelled.
- `console.log` is left out. Sentry's `capture` is recorded only as a `Capture` effect.
- The metric timer's start and its provider label are left out; only its end and status are
  recorded.
- The pause is a `Sleep(WAIT_TIME)` action with `WAIT_TIME = 1/2 + 0.25 = 0.75`, passed as in
  the code. Wall-clock time is not modelled. The unit of the sleep helper belongs to
  snapshot.js, which is not part of this model. If that helper takes milliseconds, the pause
  is 0.75 ms rather than the intended 0.75 s; the model cannot tell.
- `new Array(n)` followed by `push` and `filter` is not modelled as a sparse array. Only the
  net result is modelled: the pushed values, which are all non-empty, so the filter removes
  only the reserved holes.
- Missing fields in the loosely typed proposal are not modelled, because the model's
  `string` fields cannot be `undefined`. In the code none of them throws: a missing title
  or avatar leaves an `undefined` field that `JSON.stringify` drops from the request body;
  a missing link gives the url `"undefined?app=web3inbox"`; a missing space name or id puts
  the text `undefined` into the body. A null or undefined proposal is not modelled either;
  in the code it makes `send` throw when `proposal.space` is read at line 140. `null` and
  `undefined` spaces are both the absent space.
- The unused `space` argument of `crossReferenceSubscribers` is left out. `formatMessage`'s
  `event` argument is kept but never read.
- Promise scheduling is not modelled. The awaits are sequential, so the model runs the
  steps in order.
- `src/api.ts` is not part of this model. It holds the HTTP routes, the `/test` endpoint's
  URL check, signature verification and subscriber storage.
