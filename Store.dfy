/**
 * The records the back end reads from its database and from the hosted
 * servers' `server.properties` files. Queries against the database are
 * modelled as lookups in these values.
 */
module Store {
  import opened Wrappers

  /** A row of the `Servers` table; `port` is unique across rows. */
  datatype ServerRow = ServerRow(id: string, name: string, version: string, ram: int, port: int, userId: string)

  /**
   * A row of the `Roles` table. `inherit` is the id of the parent role;
   * `permissions` is the stored comma-joined permission list.
   */
  datatype RoleRow = RoleRow(id: string, name: string, inherit: Option<string>, permissions: string)

  /** A row of the `ServerLogs` table, and an entry of the pending log queue. */
  datatype LogEntry = LogEntry(serverId: string, data: string)

  /** A value of a JSON request body or of a parsed `server.properties` entry. */
  datatype Value = Num(n: int) | Str(s: string) | Flag(b: bool)

  /** The key of the listening port in `server.properties`. */
  const PortKey := "server-port"

  /** What reading a server's `server.properties` yields. */
  datatype PropsFile =
    | Missing                              // the file does not exist
    | Unreadable                           // the file exists but reading or writing it throws
    | Loaded(props: map<string, Value>)

  /** The external records consulted by request handlers. */
  datatype Directory = Directory(
    sessions: map<string, string>,        // token -> id of the user it verifies to
    servers: map<string, ServerRow>,      // server id -> row
    roles: map<string, RoleRow>,          // role id -> row
    userRoles: map<string, seq<string>>)  // user id -> ids of the roles assigned to it

  /** Every server row is stored under its own id, as a primary key is. */
  predicate KeyedById(servers: map<string, ServerRow>)
  {
    forall k :: k in servers ==> servers[k].id == k
  }

  /** No two server rows share a port. */
  ghost predicate DistinctPorts(servers: map<string, ServerRow>)
  {
    forall a, b :: a in servers && b in servers && a != b ==> servers[a].port != servers[b].port
  }

  /** The socket room a server's console lines and status updates are emitted on: `server/<id>`. */
  function Channel(serverId: string): string
  {
    "server/" + serverId
  }

  /** `user.getRoles()`: the existing roles assigned to a user. */
  function RolesOf(dir: Directory, userId: string): (rs: seq<RoleRow>)
    ensures forall k :: 0 <= k < |rs| ==> rs[k] in dir.roles.Values
    ensures forall r :: r in rs <==>
              userId in dir.userRoles && exists i :: i in dir.userRoles[userId] && i in dir.roles && dir.roles[i] == r
  {
    if userId in dir.userRoles then Resolve(dir.userRoles[userId], dir.roles) else []
  }

  /** The rows of the given role ids that exist, in the given order. */
  function Resolve(ids: seq<string>, roles: map<string, RoleRow>): (rs: seq<RoleRow>)
    ensures |rs| <= |ids|
    ensures forall k :: 0 <= k < |rs| ==> rs[k] in roles.Values
    ensures forall r :: r in rs <==> exists i :: i in ids && i in roles && roles[i] == r
  {
    if ids == [] then []
    else (if ids[0] in roles then [roles[ids[0]]] else []) + Resolve(ids[1..], roles)
  }
}
