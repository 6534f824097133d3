# ionmc-gui back end: a Dafny model

This project models the core of the back end of ionmc-gui, a web panel that
hosts Minecraft servers. Each module is proved against its own contracts.
The modelled parts are:

- **Port allocation and the registry of running servers** (`ServerManager.ts`).
  - New servers get the lowest free port in [25000, 35000), provided every stored port is at least 25000 (see the note on the port bounds below).
  - The module-level list of launched server handles is appended to on start and spliced on stop.
  - Start reconciles the `server-port` entry of `server.properties` with the database row.
- **Users, roles and permissions** (`sequelize.ts`).
  - Usernames are validated.
  - Role permission lists are stored as comma-joined strings and deduplicated by `uniqueList`.
  - A role inherits its parent role's full list, following parent links without a cycle check.
  - A user holds a permission when one of its roles is named `admin` in any letter case, or when a role's full list contains it.
- **Server console logs** (`sequelize.ts`).
  - `getLogs` returns a window of a server's log rows.
  - `Server.log` keeps a process-wide queue that a one-second timer flushes in one bulk insert.
- **The `/server` request handlers** (`ServerController.ts`).
  - Create is validated: required fields, then the RAM bounds.
  - Every modelled per-server route admits the owner or a holder of the route's permission. Two routes outside the model have no permission check: the world download (its checks are commented out) and the datapack `pack.png` icon.
  - Start and stop are guarded by the registry.
  - The properties update moves a server's port only to a free port inside the allowed range.
  - Each console line is queued for the log before it is emitted on the room `server/<id>`.
- **The socket gateway** (`index.ts`).
  - Per connected socket, the model keeps the rooms joined, the one command listener bound per server id, and the disconnect listeners.

Modelling conventions:

- Database queries are lookups in a `Store.Directory` value.
  - `sessions` maps a token to the id of the user it verifies to. It stands for JWT verification plus `User.fromToken`.
  - `servers`, `roles` and `userRoles` are the tables.
- A `server.properties` file is a `Store.PropsFile`: missing, unreadable, or a map of values.
- Awaiting `getFullPermissionList` follows parent links. On a cycle it never settles.
  - The recursion takes a `fuel` bound, and `None` stands for "has not settled".
  - A permission answer is therefore an `Option<bool>`.
  - A route handler that awaits a `None` answer never replies (`ServerController.Outcome.Unanswered`).
  - The owner of a server never waits on the query, because the owner test comes first.
- Objects whose fields the source updates in place are classes:
  - `Permissions.Role`;
  - `ServerManager.Registry` (the `runningServers` list);
  - `ServerLogs.LogQueue` (the static `toSave` and `saveIncrement`);
  - `ServerController.Hub` (what was emitted to rooms);
  - `Gateway.Socket`.
- A server handle (`ServerManager.McServer`) is a class.
  - `stop` finds entries by object identity (`indexOf`).
  - `isRunning` and `getRunningServerById` find them by name.
  - Each start creates a fresh handle whose name is the row id.
- The log queue's one-second timer is split into two explicit steps: `TimerFires` (the batch is taken) and `WriteSettles` (the bulk insert commits or rejects).
  - The rejected insert happens inside the un-awaited timer callback, and no `unhandledRejection` handler appears in the sources at hand. Under Node's default since version 15 such a rejection ends the process. The model assumes a process that survives it, as with that default changed.
  - In a surviving process, a rejected insert leaves `saveIncrement` at 1 forever.
  - From then on nothing is scheduled again. The ghost flag `stalled` records this.
  - A line logged while a batch is being written waits, with nothing scheduled, until the next `log` call (`ServerLogs.StrandedLineScenario`).
- `ServerManager.minServerPort` and `maxServerPort` are referenced by the properties handler but not defined in `ServerManager.ts`, so they are parameters here.
  - `ServerController.ts` calls about twenty `ServerManager` members that this `ServerManager.ts` does not define, and passes `client` and `forgeVersion` to a `create` that does not take them. The controller was evidently written against another revision of `ServerManager.ts`, and what the bounds are there is unknown.
  - If the bounds are `undefined`, comparing with `undefined` is false and the range test never refuses. A row could then store a port below 25000 (say 24000), and `findFirstAvailablePort` could report a port that a row already uses (`PortAllocator.PortBelowRangeExample`).

## Model

| member | source | states |
|---|---|---|
| PortAllocator.FindFirstAvailablePort | server/src/ServerManager.ts:72-82 | the result lies in [25000, 35000); its index is the first whose sorted entry is not 25000 plus the index, and every earlier index holds exactly that port; "No available ports" exactly when all 10000 entries do |
| PortAllocator.ScanStopsAtLowestFreePort | server/src/ServerManager.ts:76-80 | over ascending ports all at least 25000, the port the scan stops at is not stored and every port from 25000 below it is |
| PortAllocator.ExhaustedMeansRangeFull | server/src/ServerManager.ts:77-81 | when the scan runs out, every port of [25000, 35000) is stored |
| PortAllocator.PortLowerBound | server/src/ServerManager.ts:76 | in ascending ports at least 25000, the entry at index k is at least 25000 + k |
| PortAllocator.LowestGapExample | server/src/ServerManager.ts:76-80 | stored ports 25000, 25001, 25003 give 25002 |
| PortAllocator.PortBelowRangeExample | server/src/ServerManager.ts:79 | a stored port below the range makes the scan report 25000 although a row holds it |
| ServerManager.FindByName | server/src/ServerManager.ts:95 | none exactly when no entry has the name; otherwise the first entry with it |
| ServerManager.IndexOfServer | server/src/ServerManager.ts:143 | -1 exactly when the handle is absent; otherwise its first position |
| ServerManager.WithoutSplice | server/src/ServerManager.ts:143-144 | splicing out one occurrence leaves the same list once all occurrences are removed |
| ServerManager.WithoutCounts | server/src/ServerManager.ts:142-145 | after removal the handle no longer occurs and every other handle occurs as often as before |
| ServerManager.StopClearsName | server/src/ServerManager.ts:152-157 | with one entry per name, stopping the entry found for a name leaves none with that name |
| ServerManager.UnguardedStartDuplicates | server/src/ServerManager.ts:128-129 | start does not check names: appending a handle whose name is registered breaks one-entry-per-name |
| ServerManager.GuardedStartKeepsUnique | server/src/controllers/ServerController.ts:130-132 | appending a handle whose name is not registered keeps one entry per name |
| ServerManager.ReconcilePort | server/src/ServerManager.ts:107-125 | an unreadable file is an error and the only one; otherwise the file's `server-port` becomes the database port, other entries stay, a missing file becomes exactly `server-port=<db port>`, and a file already agreeing is untouched |
| ServerManager.Registry.IsRunning | server/src/ServerManager.ts:152-157 | true exactly when some registered handle has the name |
| ServerManager.Registry.GetRunningServerById | server/src/ServerManager.ts:94-96 | found exactly when the name is running; then it is the handle at the first position holding that name |
| ServerManager.Registry.Start | server/src/ServerManager.ts:101-130 | a handle without a row is "Server not found"; otherwise the reconciled file, and on success exactly this handle is appended, on failure the list is unchanged |
| ServerManager.Registry.Stop | server/src/ServerManager.ts:135-147 | the list becomes the old list with every occurrence of the handle removed, the rest in order; it always completes |
| Text.Split | server/src/sequelize.ts:390 | at least one piece, and no piece holds the separator |
| Text.SplitJoin | server/src/sequelize.ts:389-390 | splitting a join of separator-free pieces gives the pieces back |
| Text.JoinSplit | server/src/sequelize.ts:389-390 | joining the pieces of a split gives the string back |
| Text.Join | server/src/sequelize.ts:389 | `parts.join(c)`; its round trips with `Split` are `Text.SplitJoin` and `Text.JoinSplit` |
| Text.SplitKeepsTail | server/src/sequelize.ts:390 | splitting `p + c + rest` yields every piece of splitting `rest`, whatever `p` holds |
| Text.JoinSplitKeepsPiece | server/src/sequelize.ts:389-390 | a piece without the separator survives a join and a split, even when other pieces hold the separator |
| Permissions.UniqueList | server/src/sequelize.ts:376 | `[...new Set(xs)].filter(Boolean)`: deduplication at first occurrences, then the empty strings dropped; the lemmas below state its properties |
| Permissions.UniqueListMembers | server/src/sequelize.ts:376 | `uniqueList` keeps exactly the non-empty elements of its input |
| Permissions.UniqueListDistinct | server/src/sequelize.ts:376 | `uniqueList` output has no duplicates and no empty string |
| Permissions.UniqueListFirstOccurrenceOrder | server/src/sequelize.ts:376 | `uniqueList` output follows the order of first occurrence in the input |
| Permissions.UniqueListIdempotent | server/src/sequelize.ts:376 | `uniqueList` of `uniqueList` is `uniqueList` |
| Permissions.UniqueListNoop | server/src/sequelize.ts:376 | a list already distinct and without empty strings is unchanged |
| Permissions.UniqueListSnoc | server/src/sequelize.ts:376 | appending an element adds it at the end exactly when it is new and non-empty |
| Permissions.DistinctSnoc | server/src/sequelize.ts:376 | a list with a last element has no repeats exactly when its front has none and the last element is new |
| Permissions.UniqueListExtends | server/src/sequelize.ts:391 | the `uniqueList` of a list is a prefix of the `uniqueList` of any extension of it |
| Permissions.RemoveMembers | server/src/sequelize.ts:392 | the filter keeps exactly the other elements, and keeps a distinct list distinct |
| Permissions.PermissionListClean | server/src/sequelize.ts:390 | a parsed permission list holds no empty string and no comma |
| Permissions.StoredListRoundTrip | server/src/sequelize.ts:389-390 | parsing the joined form of a clean list gives the list back |
| Permissions.SetThenGet | server/src/sequelize.ts:389-390 | reading after setting comma-free permissions gives their `uniqueList` |
| Permissions.CommaSplitsPermission | server/src/sequelize.ts:389-390 | a permission holding a comma is read back as two: `["A,B"]` reads back as `["A", "B"]` |
| Permissions.PermissionList | server/src/sequelize.ts:390 | the stored string split at commas with the empty pieces dropped; `Permissions.PermissionListClean` states that no piece is empty or holds a comma |
| Permissions.StoredListKeeps | server/src/sequelize.ts:389-390 | storing a list keeps every non-empty, comma-free element of it, whatever the other elements hold |
| Permissions.MergedListKeeps | server/src/sequelize.ts:391 | what `addPermission` stores keeps the current permissions and every non-empty comma-free added one |
| Permissions.Role.GetPermissionList | server/src/sequelize.ts:390 | the parsed list never holds an empty or comma-holding permission |
| Permissions.Role.HasPermission | server/src/sequelize.ts:393 | only a non-empty, comma-free permission can be held |
| Permissions.Role.SetPermissionList | server/src/sequelize.ts:389 | the stored string is the comma-join of the `uniqueList`; for comma-free input reading it back gives that `uniqueList` |
| Permissions.Role.AddPermission | server/src/sequelize.ts:391 | stores the comma-join of the `uniqueList` of old plus added; every permission held before is still held and every non-empty comma-free added one is held, whatever the other added ones contain; for comma-free input the list is exactly that `uniqueList`, nothing else is gained, and a distinct old list is kept as a prefix |
| Permissions.Role.RemovePermission | server/src/sequelize.ts:392 | stores the comma-join of the `uniqueList` of the filtered list; the permission is no longer held, every other permission is held exactly as before, and a distinct list keeps its order |
| Permissions.Lineage | server/src/sequelize.ts:399-409 | a settled walk of parent links starts at the role itself and visits at most as many roles as the bound allows |
| Permissions.FullPermissionList | server/src/sequelize.ts:399-409 | settles only with at least one visit left; its contents are stated by `FullListShape`, `FullListSound` and `FullListComplete` |
| Permissions.LineageStep | server/src/sequelize.ts:400-406 | a role without a usable parent ends the walk; otherwise the parent's settled walk follows the role |
| Permissions.LineageAt | server/src/sequelize.ts:400-406 | a settled walk lists exactly the ancestors of the role, the one k links up at index k |
| Permissions.MergeMembers | server/src/sequelize.ts:403 | merging the lists along a walk holds exactly the own permissions of the roles on it |
| Permissions.FullListShape | server/src/sequelize.ts:399-409 | without a usable parent the full list is the own list; with one it holds exactly the own permissions and the parent's full list, the own first when distinct |
| Permissions.FullListSound | server/src/sequelize.ts:399-409 | every permission of the full list is an own permission of the role or of an ancestor |
| Permissions.FullListComplete | server/src/sequelize.ts:399-409 | every own permission of the role or of an ancestor is in the full list |
| Permissions.AcyclicChainSettles | server/src/sequelize.ts:401-405 | a parent chain that ends after n links settles within n + 1 visits |
| Permissions.LineageFuelMonotone | server/src/sequelize.ts:400-406 | once the walk has ended, a larger bound gives the same walk |
| Permissions.FullListFuelMonotone | server/src/sequelize.ts:399-409 | once settled, the full list does not depend on the bound |
| Permissions.CycleNeverSettles | server/src/sequelize.ts:401-405 | a role on a cycle of parent links never settles |
| Users.VerifyUsername | server/src/sequelize.ts:78-88 | accepted exactly for 3 to 32 ASCII letters and digits; too short, too long and bad characters are reported in that order and each exactly when it applies |
| Users.AdminNameIgnoresCase | server/src/sequelize.ts:128 | a role name lowercases to `admin` exactly when it spells admin in any mix of cases |
| Users.IsAdminRole | server/src/sequelize.ts:128 | a role name lower-cased is `admin`; `Users.AdminNameIgnoresCase` states which names those are |
| Users.AnyAdmin | server/src/sequelize.ts:128 | `roles.some(...)`: some role of the list is an admin role |
| Users.HasPermissionInherit | server/src/sequelize.ts:394 | settles exactly when the full list does; yes means the role or an ancestor lists the permission itself, no means none of them does |
| Users.FullListAbsent | server/src/sequelize.ts:399-409 | a permission missing from a settled full list is listed by no ancestor |
| Users.HasPermission | server/src/sequelize.ts:126-138 | the answer is the admin test, then the first role whose full list holds the permission, waiting on each role in turn |
| Users.FirstGrantStep | server/src/sequelize.ts:132-136 | one turn of the loop: an unsettled role blocks, a role whose full list holds the permission grants, otherwise the remaining roles decide |
| Users.SettledDecision | server/src/sequelize.ts:126-138 | when every role settles, the answer is: some role is admin, or some role's full list holds the permission |
| Users.PendingDecision | server/src/sequelize.ts:132-136 | an answer that never settles means no admin role and some role whose inherited list never settles |
| ServerLogs.LogsOf | server/src/sequelize.ts:650-654 | exactly the rows of the server |
| ServerLogs.Reverse | server/src/sequelize.ts:661 | newest first: the k-th of the result is the k-th from the end |
| ServerLogs.GetLogs | server/src/sequelize.ts:645-663 | limit 0 gives none; no limit gives all the server's rows; otherwise min(abs(limit), rows) rows, the oldest first for a positive limit and the newest first for a negative one |
| ServerLogs.GetLogsBounded | server/src/sequelize.ts:656-662 | never more rows than the absolute limit, all of the server |
| ServerLogs.LogQueue.constructor | server/src/sequelize.ts:698-699 | an empty queue, the flag clear and nothing scheduled |
| ServerLogs.LogQueue.Log | server/src/sequelize.ts:681-696 | the entry is appended in call order; a flush is scheduled exactly when the flag was clear, and the flag ends set |
| ServerLogs.LogQueue.TimerFires | server/src/sequelize.ts:684-687 | the whole queue, in order, becomes one batch and the queue empties |
| ServerLogs.LogQueue.WriteSettles | server/src/sequelize.ts:687-688 | a committed batch is stored in order and clears the flag; a rejected one stores nothing and leaves the flag set for good |
| ServerLogs.StrandedLineScenario | server/src/sequelize.ts:681-696 | a line logged while a batch is written stays queued with no flush scheduled |
| ServerController.RefusedExactly | server/src/controllers/ServerController.ts:67-69 | with settled roles, a caller is refused exactly when it is not the owner, has no admin role and no role grants the route's permission |
| ServerController.AccessDecision | server/src/controllers/ServerController.ts:67-69 | the owner is admitted without a query, anyone else gets the permission answer; `ServerController.RefusedExactly` states when that is a refusal |
| Store.RolesOf | server/src/sequelize.ts:48-60 | a role is returned exactly when it is a row of the roles table whose id is assigned to the user; every role returned is such a row |
| ServerController.Authorize | server/src/controllers/ServerController.ts:174-178 | no row gives 404; the owner is admitted; others get the permission answer, 403 with the route's text on refusal, no reply while pending |
| ServerController.ValidateCreate | server/src/controllers/ServerController.ts:25-48 | a falsy name, version or ram gives 400 "Missing required fields"; without `SERVER.RAM` ram outside [512, 1024] gives 400; with it any ram passes; the client defaults to vanilla |
| ServerController.ChannelInjective | server/src/controllers/ServerController.ts:134 | different server ids have different rooms |
| ServerController.StartRoute | server/src/controllers/ServerController.ts:113-169 | a missing row gives 404 "Server not found", a refused caller 403 with the start text, a pending permission query no reply, and none of these changes anything; for an admitted caller a running name gives 400 and changes nothing; otherwise start runs, appends one fresh handle named by the row, emits one status on the room and replies "Server started"; one entry per name is preserved |
| ServerController.StopRoute | server/src/controllers/ServerController.ts:172-185 | a missing row gives 404 "Server not found", a refused caller 403 with the stop text, a pending permission query no reply, and none of these changes anything; for an admitted caller no registered handle gives 400 "Server is not running"; otherwise the first handle for the id is removed, and with one entry per name the id is no longer running |
| ServerController.StopKeepsUnique | server/src/ServerManager.ts:142-145 | removing a handle keeps names distinct |
| ServerController.Hub.Emit | server/src/controllers/ServerController.ts:140 | the emission is appended to what the rooms received |
| ServerController.OnData | server/src/controllers/ServerController.ts:136-141 | the line is queued for the log and then emitted on the room, nothing else changes |
| ServerController.RelayLines | server/src/controllers/ServerController.ts:136-145 | a run of lines is logged and emitted in the same order |
| ServerController.UpdateProperties | server/src/controllers/ServerController.ts:216-256 | a non-object gives 400; a missing row gives 404 "Server not found", a refused non-owner 403 with the edit-properties message, and an unsettled permission query no reply, all with rows and file unchanged; the row's port changes only for a number different from it, inside the range and unused by every row; a refused port is dropped from the merged settings with the matching explanation, so the saved file keeps its own port entry and the row its port; an accepted port is saved to the row and the file alike; an unloadable file gives 500 after the row was saved; rows keep distinct ports |
| ServerController.AcceptedPortKeepsPortsDistinct | server/src/controllers/ServerController.ts:228-240 | an accepted change keeps every port used by at most one row |
| Gateway.Socket.constructor | server/src/index.ts:6 | a new socket has no rooms and no listeners other than subscribe and unsubscribe |
| Gateway.Socket.Subscribe | server/src/index.ts:6-45 | only a valid token, an existing row and the owner or `SERVER.VIEW` join `server/<id>`, replace the id's command listener and add a disconnect listener; otherwise nothing changes |
| Gateway.Socket.Join | server/src/index.ts:14-44 | an admitted subscription adds the room, binds the id's command listener to the row and token, and appends one disconnect listener; the socket stays consistent |
| Gateway.Socket.Command | server/src/index.ts:19-37 | a command is written, with a newline, to the first running handle for the captured row only when the token still resolves and the user owns the row or holds `SERVER.COMMAND`; a failing write is caught |
| Gateway.Socket.Unsubscribe | server/src/index.ts:47-51 | leaves the room and removes the id's command listener, nothing else |
| Gateway.Socket.Disconnect | server/src/index.ts:40-44 | every disconnect listener fires, so every room is left and every listener removed |

## Left out

- `ServerManager.create` and the EULA file write in `start`: file-system I/O, downloads and calls into the `ionmc` library. `ValidateCreate` ends where `create` would be called.
- `deleteServer`, `updateServer`, `zipWorld`, `getWorldPath` and the other `ServerManager` members the controller calls but `ServerManager.ts` does not define, other than `getStatus`, `removeFromRunning` and the port bounds (treated below): their definitions are not part of this model, and the routes that use them are left out.
- `ServerManager.getMCServer` is modelled as a fresh `McServer` handle named by the row id (in `ServerController.StartRoute`); the jar path it builds and the `preventStart` option are not modelled.
- `ServerManager.updateServerConfig` writes the `.ion` server configuration file; the controller never calls it (both calls are commented out), so it is not modelled.
- ServerManager.Registry.Start: the process launch `mcserver.start()`, a call into the `ionmc` library, is assumed not to throw. If it threw, the handle would not be appended and the route's promise would reject; the model instead always appends after a reconciled file.
- The asset, world, datapack and mod routes, and the `GET /server` listing: zip and file-system I/O, or plain queries.
- Sequelize model set-up, bcrypt hashing, JWT signing and verification, `$middleware` and `fromToken`: foreign libraries. A session map from token to user stands for them.
- `ServerManager.getStatus`, `removeFromRunning`, `minServerPort` and `maxServerPort` are not defined in `ServerManager.ts`. The status is an opaque string and the range bounds are parameters.
- The `join`, `leave`, `ready` and `exit` listeners that start attaches, the 5-second listener removal and the 500 ms status push: timers and process events.
- Interleaving of concurrent asynchronous handlers: each handler runs to completion here. For example, two starts of one server that both pass `isRunning` before either appends are not modelled.
- The client application and the version API controllers.
- Users.VerifyUsername: lengths are counted in characters, while JavaScript counts UTF-16 code units. A name outside the Basic Multilingual Plane is rejected either way and only the reported reason can differ.
- ServerController.UpdateProperties: body values are modelled as integers, strings and booleans. Fractional numbers (a port such as 25000.5, which the source accepts and writes to the row when in range and unused), `null` (which skips the port check and is written into the properties), arrays and nested objects are not modelled.
- ServerController.ValidateCreate: `ram` is an integer or absent. Other JSON values and JavaScript's coercions in `ram < min` are not modelled.
- Store.RolesOf: a user's roles come in the order of the user's role assignments, and a role assigned twice appears twice. `getRoles` queries `Role.findAll` with `Op.in`, which returns each role once, in the order the database returns rows; that order is not modelled. The answer of `Users.HasPermission` does not depend on the order when every role settles (`Users.SettledDecision`). When some role never settles, the order decides whether a granting role is reached first.
- ServerLogs.GetLogs: rows are taken in insertion order, standing for `createdAt` order. Ties in `createdAt` are not modelled.
- Permissions.FullPermissionList: recursion through parent roles is bounded by `fuel`. A call that does not settle within it is `None`, which stands for the unbounded recursion a cycle causes. The recursion is stated as a walk over the role's lineage (`Permissions.Lineage`) followed by the merge of the lists along it (`Permissions.MergeLineage`), which computes the same list in the same order.
- Gateway.Socket.Command: `requestStatusUpdate` is a boolean. The delayed status push is only recorded in the result, not performed.
- ServerController.StartRoute: the status sent after start is emitted at once rather than after `getStatus` resolves.
