# SmallChat connection registry and message routing, in Dafny

This project models the core of the SmallChat WebSocket relay: the class
`ChatServer` in `src/ChatServer.php`. The server keeps a shared table of the
open connections. Each row is `{fd, name, avatar}` and is keyed by the
connection id `fd`. The server reacts to three transport callbacks:

- `onOpen` gives the new connection a name from the configured pool and the
  first configured avatar, and stores the row. It then sends `openSuccess`
  with the full user list to the new connection and a join notice to
  everyone else.
- `onMessage` handles a decoded frame and classifies it with PHP's loose
  `switch`. A `public` line is broadcast to every connection, the sender
  included. A `private` line is pushed to the sender and then to
  `to_user_fd`. A frame that matches neither case is dropped.
- `onClose` sends a leave notice, naming the departing user, to everyone
  else. Then it deletes the row.

`pushMessage` does the fan-out. It reads the triggering connection's row once
and builds one envelope with one timestamp. It then visits every row of the
table and pushes that envelope to each one. It skips the triggering
connection unless the type is `public_message`.

## How the model is built

- `types.dfy` (module `ChatTypes`) holds the rows, the envelopes, the
  decoded requests and one `Push` record for each call of the transport's
  `push`.
- `identity.dfy` (module `IdentityPool`) builds the row for a new
  connection.
- `routing.dfy` (module `Routing`) is a pure description of the fan-out.
  `Fanout(order, table, …)` is the list of pushes when the table is visited
  in `order`. `Count(ps, fd)` is the number of those pushes addressed to
  `fd`. The lemmas here hold for every enumeration of the table's keys,
  because the table's iteration order is not specified. `Lookup(table, fd)`
  models `table->get(fd)` (`src/ChatServer.php:93`, `:124`, `:135`). It
  gives `None` when fd has no row, where PHP gives `false`. `NameOf` models
  `$user['name']` (`:71`, `:125`). On a missing row it gives the empty
  string, which is what PHP's null becomes in the concatenation.
- `server.dfy` (module `Server`) has the class `ChatServer`. Its field
  `table: map<int, User>` is the Swoole table. Its field `outbox: seq<Push>`
  records every push in call order. The handlers are methods that change
  these two fields. `AllUser` and `PushMessage` loop over the table. Each
  step of these loops picks an arbitrary key that has not been visited yet.
  `PushMessage` returns the visit order as a ghost out-parameter, so its
  postcondition can give the exact new outbox (`old(outbox) + Fanout(order,
  …)`). The handlers' postconditions also state the order-free facts:
  exactly how many envelopes each connection receives, and what those
  envelopes contain.
- `Valid()` is the object invariant: both pools are non-empty, and every row
  is stored under its own `fd`. The invariant matters because the loop
  compares the trigger with the row's `fd` field, not with the table key.
- `scenario.dfy` (module `Scenario`) replays a short session using nothing
  but the handlers' contracts. Connections 1 and 2 open as X and Y. X sends
  "hi", and both connections get it once. Y closes, and X alone is told that
  Y left. Y closes again, and X gets a second leave notice with no sender.

The environment supplies the nondeterminism and the clock as inputs. The
random choice of `array_rand` is the parameter `nameIndex`. The formatted
`date(...)` string is the parameter `dateTime`.

Some behaviours of the code are easy to miss, and the model keeps them:

- A duplicate close still broadcasts. `get` on a missing fd returns no row.
  `pushMessage` then sends every live connection a leave notice, with
  "离开聊天室" after an empty name and no sender (`src/ChatServer.php:124-126`).
  The table does not change. `Server.ChatServer.OnClose` states this case,
  and `Scenario.CloseAgain` exercises it.
- A frame from an fd with no row is still routed
  (`src/ChatServer.php:93-112`). Its `user` is false. A public line is still
  broadcast to every row, and a private line is still pushed twice. In the
  model the sender and the author are then `None`, because
  `Lookup(table, fd)` returns `None`.

## Model

| member | source | states |
|---|---|---|
| `IdentityPool.AssignIdentity` | src/ChatServer.php:55-59 | the new row carries the connection's own fd, a name from the configured pool and the first configured avatar |
| `IdentityPool.EveryNameAssignable` | src/ChatServer.php:57 | every configured name is the name of some choice of the random index |
| `Routing.FanoutCount` | src/ChatServer.php:136-147 | along any repetition-free visit order, a visited connection in the audience receives exactly one push and any other connection none; the audience is every row, minus the trigger unless the type is `public_message` |
| `Routing.FanoutReachesAudience` | src/ChatServer.php:136-147 | for any enumeration of the table, each audience member gets exactly one envelope and nobody else gets one; so notices skip the trigger and public lines include it |
| `Routing.FanoutEnvelope` | src/ChatServer.php:134-145 | every envelope of one broadcast has the same type, message and timestamp, and the same sender, which is the triggering connection's row read before the loop (none if it has no row) |
| `Routing.CountAppend` | src/ChatServer.php:140 | pushes to a connection add up over consecutive runs of pushes, since the outbox is only ever appended to |
| `Server.ChatServer.constructor` | src/ChatServer.php:16-20 | the server starts with an empty table, an empty outbox and the given non-empty name and avatar pools |
| `Server.ChatServer.AllUser` | src/ChatServer.php:77-84 | the result lists every row of the table exactly once, with its fd, and nothing else |
| `Server.ChatServer.PushMessage` | src/ChatServer.php:132-148 | the table is unchanged, and the outbox grows by exactly the fan-out of the table in the order the loop visited it |
| `Server.ChatServer.OnOpen` | src/ChatServer.php:53-72 | the table maps fd to the new row and nothing else changes; then comes one `openSuccess` envelope to fd, whose user list is a snapshot taken after the insertion that contains the new row; then the join notice goes to every other live fd; in this call every live connection, fd included, receives exactly one envelope |
| `Server.ChatServer.OnMessage` | src/ChatServer.php:91-115 | the table is unchanged. A public line reaches every live fd, the sender included, exactly once, with the sender's row as author and sender. A private line makes exactly two pushes of one envelope, first to the sender and then to the target, whether or not the target is live, and nobody else receives it. Any other request pushes nothing |
| `Server.ChatServer.OnClose` | src/ChatServer.php:122-127 | every connection other than fd that was in the table receives exactly one leave notice; the notice names the row looked up before the delete; afterwards fd is gone and every other row is unchanged; if fd had no row, every live connection is notified and no sender is named |

## Left out

- `run` and the Swoole `Server` bootstrap (`src/ChatServer.php:25-34`) are left out: they bind the socket and register the callbacks, which is transport I/O. The `$ws` / `$server` handle each handler receives is replaced by the `outbox` field.
- `redisConnect` and the Predis client (`src/ChatServer.php:39-46`) are left out, along with the commented-out Redis calls in `onOpen`: that storage is never used for state.
- JSON encoding and decoding are left out. Envelopes and requests are datatypes.
- The classification of an inbound frame is left out (`src/ChatServer.php:94-95`). `Inbound` is the result of that classification. `switch ($data->type)` compares loosely and tries `"public"` first. So `Public` covers every `type` value loosely equal to `"public"`, such as `true`. `Private` covers the remaining values loosely equal to `"private"`. `Other` covers all other values, and also a frame that does not decode.
- A `private` frame with no `to_user_fd` is not modelled. The model's private request always carries an integer target. The source would push to the sender and then attempt a push to a null fd.
- `date(...)` and `array_rand` are inputs (`dateTime`, `nameIndex`). The clock and the random choice come from the environment.
- `Config::instance()` loading is left out. The name and avatar pools are constructor arguments that must be non-empty. The source indexes `avatar[0]` and picks a random name, neither of which works on an empty pool.
- The internals of `swoole_table` are left out (`src/ChatServer.php:153-160`). The 1024-row capacity and the 255-byte truncation of string columns belong to the library, so the table is an unbounded map.
- Whether a push succeeds is not modelled. Every call of `push` is recorded, including one to an fd that is not open, which the transport silently fails.
- Concurrency between Swoole workers is left out. Each callback runs as one atomic sequential step.
- `IdentityPool.AssignIdentity`: states that the name is one of the pool's names, not which one, because in the source the pick is random.
