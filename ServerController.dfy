/**
 * The request handlers of the `/server` routes: validation of a new
 * server, the owner-or-permission guard every per-server route applies,
 * starting and stopping, the port rule of the properties update, and the
 * relay of console lines to the log queue and the server's socket room.
 */
module ServerController {
  import opened Wrappers
  import opened Text
  import opened Store
  import opened ServerManager
  import opened Users
  import opened ServerLogs
  import opened Permissions

  /** A JSON reply: `{ message }` with status 200, `{ error }` with another status, or a 500 carrying a caught error's message. */
  datatype Reply = Success(message: string) | Failure(status: int, error: string) | CaughtError

  /**
   * How a handler ends: it replies; it waits forever on a permission query
   * that never settles; or it rejects with an uncaught error and sends nothing.
   */
  datatype Outcome = Replied(reply: Reply) | Unanswered | Thrown(error: StartError)

  /** The per-server routes, each guarded by its own permission and refusal text. */
  datatype Action =
    | DeleteServer | ViewServer | UpdateVersion | StartServer | StopServer
    | ViewLogs | ViewProperties | EditProperties | ViewStatus

  function RequiredPermission(a: Action): string
  {
    match a
    case DeleteServer => "SERVER.DELETE"
    case ViewServer | ViewLogs | ViewProperties | ViewStatus => "SERVER.VIEW"
    case UpdateVersion | EditProperties => "SERVER.EDIT"
    case StartServer => "SERVER.START"
    case StopServer => "SERVER.STOP"
  }

  function DeniedMessage(a: Action): string
  {
    match a
    case DeleteServer => "You don't have permission to delete this server"
    case ViewServer => "You don't have permission to view this server"
    case UpdateVersion => "You don't have permission to update this server"
    case StartServer => "You don't have permission to start this server"
    case StopServer => "You don't have permission to stop this server"
    case ViewLogs => "You don't have permission to view this server's logs"
    case ViewProperties | ViewStatus => "You don't have permission to view this server's properties"
    case EditProperties => "You don't have permission to edit this server's properties"
  }

  /**
   * `server.userId !== user.id && !await user.hasPermission(p)` negated:
   * the owner is admitted without the query being made; anyone else gets
   * the query's answer.
   */
  function AccessDecision(dir: Directory, fuel: nat, userId: string, server: ServerRow, p: string): Option<bool>
  {
    if server.userId == userId then Some(true)
    else PermissionDecision(RolesOf(dir, userId), dir.roles, fuel, p)
  }

  /**
   * When the caller's roles all settle, a caller is refused exactly when it
   * does not own the server, holds no admin role and no role's full list
   * grants the permission.
   */
  lemma RefusedExactly(dir: Directory, fuel: nat, userId: string, server: ServerRow, p: string)
    requires forall k :: 0 <= k < |RolesOf(dir, userId)| ==> FullPermissionList(RolesOf(dir, userId)[k], dir.roles, fuel).Some?
    ensures AccessDecision(dir, fuel, userId, server, p).Some?
    ensures AccessDecision(dir, fuel, userId, server, p) == Some(false) <==>
              && server.userId != userId
              && !AnyAdmin(RolesOf(dir, userId))
              && forall k :: 0 <= k < |RolesOf(dir, userId)| ==> p !in FullPermissionList(RolesOf(dir, userId)[k], dir.roles, fuel).value
  {
    SettledDecision(RolesOf(dir, userId), dir.roles, fuel, p);
  }

  /**
   * The prologue of every per-server route: `Server.findByPk`, a 404 when
   * there is no such row, then the owner-or-permission test with a 403 on
   * refusal. Yields the row when the caller is admitted.
   */
  method Authorize(dir: Directory, fuel: nat, userId: string, id: string, action: Action) returns (r: Result<ServerRow, Outcome>)
    ensures id !in dir.servers ==> r == Err(Replied(Failure(404, "Server not found")))
    ensures id in dir.servers ==>
              var d := AccessDecision(dir, fuel, userId, dir.servers[id], RequiredPermission(action));
              && (d == Some(true) ==> r == Ok(dir.servers[id]))
              && (d == Some(false) ==> r == Err(Replied(Failure(403, DeniedMessage(action)))))
              && (d.None? ==> r == Err(Unanswered))
    ensures r.Ok? <==> Admitted(dir, fuel, userId, id, action)
    ensures r.Ok? ==> r.value == dir.servers[id]
    ensures r.Err? ==> !(r.error.Replied? && r.error.reply.Success?)
  {
    if id !in dir.servers {
      return Err(Replied(Failure(404, "Server not found")));
    }
    var server := dir.servers[id];
    if server.userId == userId {
      return Ok(server);
    }
    var granted := HasPermission(dir, userId, fuel, RequiredPermission(action));
    assert Admitted(dir, fuel, userId, id, action) <==> granted == Some(true);
    match granted
    case None => r := Err(Unanswered);
    case Some(true) => r := Ok(server);
    case Some(false) => r := Err(Replied(Failure(403, DeniedMessage(action))));
  }

  /** Whether the requested owner-independent route is admitted. */
  predicate Admitted(dir: Directory, fuel: nat, userId: string, id: string, action: Action)
  {
    id in dir.servers && AccessDecision(dir, fuel, userId, dir.servers[id], RequiredPermission(action)) == Some(true)
  }

  // ---------------------------------------------------------------- create

  /** The body of `POST /server`; an absent field is `None`. */
  datatype CreateBody = CreateBody(
    name: Option<string>, version: Option<string>, ram: Option<int>,
    client: Option<string>, forgeVersion: Option<string>)

  /** The arguments `ServerManager.create` is called with. */
  datatype NewServer = NewServer(
    name: string, version: string, ram: int, client: string,
    forgeVersion: Option<string>, userId: string)

  const MinRam := 512
  const MaxRam := 1024

  /** A string field is truthy: present and non-empty. */
  predicate Given(s: Option<string>)
  {
    s.Some? && s.value != ""
  }

  /** A number field is truthy: present and not zero. */
  predicate GivenRam(n: Option<int>)
  {
    n.Some? && n.value != 0
  }

  /**
   * The validation of `POST /server`: every required field truthy (400
   * otherwise), then, for a caller without `SERVER.RAM`, a RAM amount
   * between 512 and 1024 inclusive (400 otherwise). The permission query
   * is made only once the fields are present. Yields what is handed to
   * `ServerManager.create`, with the client defaulting to `vanilla`.
   */
  method ValidateCreate(dir: Directory, fuel: nat, userId: string, body: CreateBody) returns (r: Result<NewServer, Outcome>)
    ensures !(Given(body.name) && Given(body.version) && GivenRam(body.ram)) ==>
              r == Err(Replied(Failure(400, "Missing required fields")))
    ensures Given(body.name) && Given(body.version) && GivenRam(body.ram) ==>
              var d := PermissionDecision(RolesOf(dir, userId), dir.roles, fuel, "SERVER.RAM");
              && (d.None? ==> r == Err(Unanswered))
              && (d == Some(true) ==> r.Ok?)
              && (d == Some(false) ==> (r.Ok? <==> MinRam <= body.ram.value <= MaxRam))
              && (d == Some(false) && r.Err? ==> r == Err(Replied(Failure(400, "RAM must be between 512 and 1024"))))
    ensures r.Ok? ==>
              r.value == NewServer(body.name.value, body.version.value, body.ram.value,
                                   if body.client.Some? then body.client.value else "vanilla",
                                   body.forgeVersion, userId)
  {
    if !Given(body.name) || !Given(body.version) || !GivenRam(body.ram) {
      return Err(Replied(Failure(400, "Missing required fields")));
    }
    var mayExceed := HasPermission(dir, userId, fuel, "SERVER.RAM");
    if mayExceed.None? {
      return Err(Unanswered);
    }
    var ram := body.ram.value;
    if !mayExceed.value && (ram < MinRam || ram > MaxRam) {
      return Err(Replied(Failure(400, "RAM must be between 512 and 1024")));
    }
    var client := if body.client.Some? then body.client.value else "vanilla";
    return Ok(NewServer(body.name.value, body.version.value, ram, client, body.forgeVersion, userId));
  }

  // ---------------------------------------------------------------- socket room

  /** The arguments of one `emit` on a room: a console line, or `null` followed by a status. */
  datatype Payload = Line(text: string) | Status(snapshot: string)

  datatype Emission = Emission(channel: string, payload: Payload)

  /** The socket.io server, seen as the sequence of everything emitted to rooms. */
  class Hub {
    var emitted: seq<Emission>

    constructor ()
      ensures emitted == []
    {
      emitted := [];
    }

    /** `io.to(channel).emit(channel, ...)`. */
    method Emit(channel: string, payload: Payload)
      modifies this
      ensures emitted == old(emitted) + [Emission(channel, payload)]
    {
      emitted := emitted + [Emission(channel, payload)];
    }
  }

  /** Distinct servers have distinct rooms. */
  lemma {:induction false} ChannelInjective(a: string, b: string)
    requires Channel(a) == Channel(b)
    ensures a == b
  {
    var prefix := "server/";
    assert Channel(a)[|prefix|..] == a;
    assert Channel(b)[|prefix|..] == b;
  }

  // ---------------------------------------------------------------- start and stop

  /**
   * `GET /server/:id/start`: after the guard, a handle is made for the
   * row; a 400 when a handle with that name is registered; otherwise
   * `ServerManager.start` (whose failure rejects the handler), one status
   * emission on the server's room, and `Server started`. `status` is what
   * `getStatus` yields. Yields the properties file afterwards.
   */
  method StartRoute(reg: Registry, hub: Hub, dir: Directory, fuel: nat, userId: string, id: string,
                    props: PropsFile, status: string)
    returns (o: Outcome, file: PropsFile)
    requires KeyedById(dir.servers)
    modifies reg, hub
    ensures !Admitted(dir, fuel, userId, id, StartServer) ==>
              && o != Replied(Success("Server started"))
              && reg.running == old(reg.running) && hub.emitted == old(hub.emitted) && file == props
    ensures id !in dir.servers ==> o == Replied(Failure(404, "Server not found"))
    ensures id in dir.servers ==>
              var d := AccessDecision(dir, fuel, userId, dir.servers[id], RequiredPermission(StartServer));
              && (d == Some(false) ==> o == Replied(Failure(403, DeniedMessage(StartServer))))
              && (d.None? ==> o == Unanswered)
    ensures Admitted(dir, fuel, userId, id, StartServer) && old(reg.IsRunning(id)) ==>
              && o == Replied(Failure(400, "Server is already started"))
              && reg.running == old(reg.running) && hub.emitted == old(hub.emitted) && file == props
    ensures Admitted(dir, fuel, userId, id, StartServer) && !old(reg.IsRunning(id)) ==>
              match ReconcilePort(props, dir.servers[id].port)
              case Err(e) =>
                o == Thrown(e) && reg.running == old(reg.running) && hub.emitted == old(hub.emitted) && file == props
              case Ok(reconciled) =>
                && o == Replied(Success("Server started")) && file == reconciled
                && |reg.running| == |old(reg.running)| + 1
                && reg.running[..|old(reg.running)|] == old(reg.running)
                && reg.running[|old(reg.running)|].name == id
                && fresh(reg.running[|old(reg.running)|])
                && hub.emitted == old(hub.emitted) + [Emission(Channel(id), Status(status))]
    ensures UniqueNames(old(reg.running)) ==> UniqueNames(reg.running)
  {
    var g := Authorize(dir, fuel, userId, id, StartServer);
    if g.Err? {
      return g.error, props;
    }
    var server := g.value;
    assert server.id == id;
    var mcserver := new McServer(server.id);
    if reg.IsRunning(mcserver.name) {
      return Replied(Failure(400, "Server is already started")), props;
    }
    ghost var before := reg.running;
    var started := reg.Start(mcserver, dir.servers, props);
    if started.Err? {
      return Thrown(started.error), props;
    }
    if UniqueNames(before) {
      GuardedStartKeepsUnique(before, mcserver);
    }
    hub.Emit(Channel(server.id), Status(status));
    return Replied(Success("Server started")), started.value;
  }

  /**
   * `GET /server/:id/stop`: after the guard, a 400 when no handle is
   * registered under the row's id; otherwise that handle is stopped and
   * removed.
   */
  method StopRoute(reg: Registry, dir: Directory, fuel: nat, userId: string, id: string) returns (o: Outcome)
    requires KeyedById(dir.servers)
    modifies reg
    ensures !Admitted(dir, fuel, userId, id, StopServer) ==>
              o != Replied(Success("Server stopped")) && reg.running == old(reg.running)
    ensures id !in dir.servers ==> o == Replied(Failure(404, "Server not found"))
    ensures id in dir.servers ==>
              var d := AccessDecision(dir, fuel, userId, dir.servers[id], RequiredPermission(StopServer));
              && (d == Some(false) ==> o == Replied(Failure(403, DeniedMessage(StopServer))))
              && (d.None? ==> o == Unanswered)
    ensures Admitted(dir, fuel, userId, id, StopServer) && !old(reg.IsRunning(id)) ==>
              o == Replied(Failure(400, "Server is not running")) && reg.running == old(reg.running)
    ensures Admitted(dir, fuel, userId, id, StopServer) && old(reg.IsRunning(id)) ==>
              && o == Replied(Success("Server stopped"))
              && reg.running == Without(old(reg.running), old(reg.GetRunningServerById(id)).value)
    ensures UniqueNames(old(reg.running)) && o == Replied(Success("Server stopped")) ==> !reg.IsRunning(id)
    ensures UniqueNames(old(reg.running)) ==> UniqueNames(reg.running)
  {
    var g := Authorize(dir, fuel, userId, id, StopServer);
    if g.Err? {
      return g.error;
    }
    var server := g.value;
    assert server.id == id;
    var found := reg.GetRunningServerById(server.id);
    if found.None? {
      return Replied(Failure(400, "Server is not running"));
    }
    ghost var before := reg.running;
    reg.Stop(found.value);
    if UniqueNames(before) {
      StopClearsName(before, id, found.value);
      StopKeepsUnique(before, found.value);
    }
    return Replied(Success("Server stopped"));
  }

  /** Removing entries keeps the remaining names distinct. */
  lemma {:induction false} StopKeepsUnique(s: seq<McServer>, m: McServer)
    requires UniqueNames(s)
    ensures UniqueNames(Without(s, m))
  {
    if s != [] {
      assert UniqueNames(s[1..]) by {
        forall j, k | 0 <= j < k < |s[1..]|
          ensures s[1..][j].name != s[1..][k].name
        {
          assert s[1..][j] == s[j + 1] && s[1..][k] == s[k + 1];
        }
      }
      StopKeepsUnique(s[1..], m);
      if s[0] != m {
        var rest := Without(s[1..], m);
        forall x | x in rest
          ensures x.name != s[0].name
        {
          WithoutSubset(s[1..], m, x);
          var k :| 0 <= k < |s[1..]| && s[1..][k] == x;
          assert s[k + 1] == x;
        }
        assert Without(s, m) == [s[0]] + rest;
        forall j, k | 0 <= j < k < |[s[0]] + rest|
          ensures ([s[0]] + rest)[j].name != ([s[0]] + rest)[k].name
        {
          if j == 0 {
            assert ([s[0]] + rest)[k] == rest[k - 1];
            assert rest[k - 1] in rest;
          } else {
            assert ([s[0]] + rest)[j] == rest[j - 1];
            assert ([s[0]] + rest)[k] == rest[k - 1];
          }
        }
      } else {
        assert Without(s, m) == Without(s[1..], m);
      }
    }
  }

  // ---------------------------------------------------------------- console relay

  /**
   * The `data` listener attached on start: the formatted line is queued
   * for the server's log first, then emitted on the server's room.
   */
  method OnData(queue: LogQueue, hub: Hub, serverId: string, txt: string)
    requires queue.Valid()
    modifies queue, hub
    ensures queue.Valid()
    ensures queue.toSave == old(queue.toSave) + [LogEntry(serverId, txt)]
    ensures queue.logged == old(queue.logged) + [LogEntry(serverId, txt)]
    ensures queue.stored == old(queue.stored) && queue.writing == old(queue.writing)
    ensures hub.emitted == old(hub.emitted) + [Emission(Channel(serverId), Line(txt))]
  {
    queue.Log(serverId, txt);
    hub.Emit(Channel(serverId), Line(txt));
  }

  /** The log entries a run of console lines of one server produces, in order. */
  function Entries(serverId: string, lines: seq<string>): seq<LogEntry>
  {
    if lines == [] then [] else Entries(serverId, lines[..|lines| - 1]) + [LogEntry(serverId, lines[|lines| - 1])]
  }

  /** The room emissions a run of console lines of one server produces, in order. */
  function Emissions(serverId: string, lines: seq<string>): seq<Emission>
  {
    if lines == [] then [] else Emissions(serverId, lines[..|lines| - 1]) + [Emission(Channel(serverId), Line(lines[|lines| - 1]))]
  }

  /**
   * A run of console lines delivered one by one: the queue receives them
   * in the order the room does, so the log and the live console agree.
   */
  method RelayLines(queue: LogQueue, hub: Hub, serverId: string, lines: seq<string>)
    requires queue.Valid()
    modifies queue, hub
    ensures queue.Valid()
    ensures queue.logged == old(queue.logged) + Entries(serverId, lines)
    ensures hub.emitted == old(hub.emitted) + Emissions(serverId, lines)
  {
    var i := 0;
    while i < |lines|
      invariant 0 <= i <= |lines|
      invariant queue.Valid()
      invariant queue.logged == old(queue.logged) + Entries(serverId, lines[..i])
      invariant hub.emitted == old(hub.emitted) + Emissions(serverId, lines[..i])
    {
      OnData(queue, hub, serverId, lines[i]);
      assert lines[..i + 1][..i] == lines[..i];
      i := i + 1;
    }
    assert lines[..i] == lines;
  }

  // ---------------------------------------------------------------- properties update

  /** The body of `PUT /server/:id/properties`. */
  datatype Settings = NotAnObject | Settings(entries: map<string, Value>)

  /** The body asks for a numeric port other than the row's current one. */
  predicate PortRequested(entries: map<string, Value>, current: int)
  {
    PortKey in entries && entries[PortKey].Num? && entries[PortKey].n != current
  }

  /** No server row listens on `n`. */
  predicate PortFree(servers: map<string, ServerRow>, n: int)
  {
    forall k :: k in servers ==> servers[k].port != n
  }

  /** A requested port change goes through: inside the range and unused. */
  predicate PortAccepted(entries: map<string, Value>, server: ServerRow, servers: map<string, ServerRow>, minPort: int, maxPort: int)
  {
    PortRequested(entries, server.port)
    && minPort <= entries[PortKey].n <= maxPort
    && PortFree(servers, entries[PortKey].n)
  }

  /** A requested port change is refused: outside the range or already used. */
  predicate PortRefused(entries: map<string, Value>, server: ServerRow, servers: map<string, ServerRow>, minPort: int, maxPort: int)
  {
    PortRequested(entries, server.port) && !PortAccepted(entries, server, servers, minPort, maxPort)
  }

  function RangeMessage(minPort: int, maxPort: int): string
  {
    "Port must be between " + IntToString(minPort) + " and " + IntToString(maxPort) + ". Port is unchanged."
  }

  const InUseMessage := "Port is already in use and couldn't be changed."

  /**
   * `PUT /server/:id/properties`: a 400 for a body that is not an object,
   * then the guard. A numeric port different from the row's is checked
   * against the range and against every row; an accepted one is saved to
   * the row at once, a refused one is dropped from the settings with an
   * explanation. The settings are then merged over the loaded properties
   * file and saved; a file that cannot be loaded gives a 500 after the row
   * was already saved. Yields the server rows and the file afterwards.
   */
  method UpdateProperties(dir: Directory, fuel: nat, userId: string, id: string, body: Settings,
                          minPort: int, maxPort: int, file: PropsFile)
    returns (o: Outcome, servers: map<string, ServerRow>, saved: PropsFile)
    ensures body.NotAnObject? ==>
              o == Replied(Failure(400, "Invalid settings")) && servers == dir.servers && saved == file
    ensures !(body.Settings? && Admitted(dir, fuel, userId, id, EditProperties)) ==>
              servers == dir.servers && saved == file && !(o.Replied? && o.reply.Success?)
    ensures body.Settings? && Admitted(dir, fuel, userId, id, EditProperties) ==>
              var server := dir.servers[id];
              var wanted := body.entries;
              && servers == (if PortAccepted(wanted, server, dir.servers, minPort, maxPort)
                             then dir.servers[id := server.(port := wanted[PortKey].n)]
                             else dir.servers)
              && (!file.Loaded? ==> o == Replied(CaughtError) && saved == file)
              && (file.Loaded? && PortRefused(wanted, server, dir.servers, minPort, maxPort) ==>
                    && saved == Loaded(file.props + (wanted - {PortKey}))
                    && o.Replied? && o.reply.Success?
                    && o.reply.message == (if minPort <= wanted[PortKey].n <= maxPort then InUseMessage
                                           else RangeMessage(minPort, maxPort)) + "\nOther settings are saved.")
              && (file.Loaded? && !PortRefused(wanted, server, dir.servers, minPort, maxPort) ==>
                    saved == Loaded(file.props + wanted) && o == Replied(Success("Server properties updated.")))
    ensures body.Settings? && Admitted(dir, fuel, userId, id, EditProperties) && file.Loaded? &&
            PortAccepted(body.entries, dir.servers[id], dir.servers, minPort, maxPort) ==>
              saved.Loaded? && PortKey in saved.props && saved.props[PortKey] == Num(servers[id].port)
    ensures body.Settings? && Admitted(dir, fuel, userId, id, EditProperties) && file.Loaded? &&
            PortRefused(body.entries, dir.servers[id], dir.servers, minPort, maxPort) ==>
              && servers[id].port == dir.servers[id].port
              && saved.Loaded? && (PortKey in saved.props <==> PortKey in file.props)
              && (PortKey in file.props ==> saved.props[PortKey] == file.props[PortKey])
    ensures body.Settings? && id !in dir.servers ==> o == Replied(Failure(404, "Server not found"))
    ensures body.Settings? && id in dir.servers ==>
              var d := AccessDecision(dir, fuel, userId, dir.servers[id], RequiredPermission(EditProperties));
              && (d == Some(false) ==> o == Replied(Failure(403, DeniedMessage(EditProperties))))
              && (d.None? ==> o == Unanswered)
    ensures DistinctPorts(dir.servers) ==> DistinctPorts(servers)
  {
    servers, saved := dir.servers, file;
    if body.NotAnObject? {
      return Replied(Failure(400, "Invalid settings")), servers, saved;
    }
    var g := Authorize(dir, fuel, userId, id, EditProperties);
    if g.Err? {
      return g.error, servers, saved;
    }
    var server := g.value;
    var settings := body.entries;
    var error: Option<string> := None;
    if PortKey in settings && settings[PortKey].Num? && settings[PortKey].n != server.port {
      var n := settings[PortKey].n;
      if n < minPort || n > maxPort {
        error := Some(RangeMessage(minPort, maxPort));
        settings := settings - {PortKey};
      } else if exists k :: k in dir.servers && dir.servers[k].port == n {
        error := Some(InUseMessage);
        settings := settings - {PortKey};
      } else {
        if DistinctPorts(dir.servers) {
          AcceptedPortKeepsPortsDistinct(dir.servers, id, n);
        }
        servers := dir.servers[id := server.(port := n)];
      }
    }
    if !file.Loaded? {
      return Replied(CaughtError), servers, saved;
    }
    saved := Loaded(file.props + settings);
    if error.Some? {
      o := Replied(Success(error.value + "\nOther settings are saved."));
    } else {
      o := Replied(Success("Server properties updated."));
    }
  }

  /** An accepted port change keeps every port used by at most one row. */
  lemma AcceptedPortKeepsPortsDistinct(servers: map<string, ServerRow>, id: string, n: int)
    requires id in servers && DistinctPorts(servers) && PortFree(servers, n)
    ensures DistinctPorts(servers[id := servers[id].(port := n)])
  {
    var after := servers[id := servers[id].(port := n)];
    forall a, b | a in after && b in after && a != b
      ensures after[a].port != after[b].port
    {
      if a == id {
        assert after[b] == servers[b];
      } else if b == id {
        assert after[a] == servers[a];
      }
    }
  }
}
