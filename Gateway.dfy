/**
 * The socket.io connection handler: per connected socket, the rooms it has
 * joined, the one `server/<id>/command` listener bound per server id, and
 * the `disconnect` listeners each subscription registers.
 */
module Gateway {
  import opened Wrappers
  import opened Store
  import opened ServerManager
  import opened Users
  import opened ServerController

  /** What a `server/<id>/command` listener captured when it was bound: the row found then, and the token. */
  datatype Binding = Binding(server: ServerRow, token: string)

  /**
   * What one command event does: nothing, or a line written to the
   * registered process's input (the write may fail; its error is caught),
   * followed by a status push to this socket when one was requested.
   */
  datatype CommandEffect =
    | Ignored
    | Written(target: McServer, line: string, delivered: bool, statusPush: bool)

  /**
   * A subscription is admitted: the token resolves to a user, the server
   * row exists, and the user owns it or holds `SERVER.VIEW`.
   */
  predicate MaySubscribe(dir: Directory, fuel: nat, id: string, token: string)
  {
    token in dir.sessions && Admitted(dir, fuel, dir.sessions[token], id, ViewServer)
  }

  /**
   * A command through a binding is admitted: the token still resolves to a
   * user, who owns the captured row or holds `SERVER.COMMAND`.
   */
  predicate MayCommand(dir: Directory, fuel: nat, b: Binding)
  {
    b.token in dir.sessions && AccessDecision(dir, fuel, dir.sessions[b.token], b.server, "SERVER.COMMAND") == Some(true)
  }

  /** Joining the room of `id` while attaching a disconnect listener for `id` keeps every room covered. */
  lemma RoomsStayCovered(rooms: set<string>, ids: seq<string>, id: string)
    requires forall r :: r in rooms ==> exists k :: 0 <= k < |ids| && r == Channel(ids[k])
    ensures forall r :: r in rooms + {Channel(id)} ==> exists k :: 0 <= k < |ids + [id]| && r == Channel((ids + [id])[k])
  {
    var ids' := ids + [id];
    forall r | r in rooms + {Channel(id)}
      ensures exists k :: 0 <= k < |ids'| && r == Channel(ids'[k])
    {
      if r == Channel(id) {
        assert r == Channel(ids'[|ids|]);
      } else {
        var k :| 0 <= k < |ids| && r == Channel(ids[k]);
        assert ids'[k] == ids[k];
      }
    }
  }

  class Socket {
    var rooms: set<string>                    // rooms joined, by name
    var commandHandlers: map<string, Binding> // server id -> the listener bound on `server/<id>/command`
    var disconnectIds: seq<string>            // ids whose `once("disconnect")` listener is attached, in order
    var listening: bool                       // the `subscribe` and `unsubscribe` listeners are attached

    /**
     * Every bound command listener belongs to a joined room, every joined
     * room has a disconnect listener that leaves it, and a socket whose
     * listeners were all removed holds nothing.
     */
    ghost predicate Valid()
      reads this
    {
      && (forall id :: id in commandHandlers ==> Channel(id) in rooms)
      && (forall r :: r in rooms ==> exists k :: 0 <= k < |disconnectIds| && r == Channel(disconnectIds[k]))
      && (!listening ==> rooms == {} && commandHandlers == map[] && disconnectIds == [])
    }

    /** A new connection: the `subscribe` and `unsubscribe` listeners are attached. */
    constructor ()
      ensures Valid() && listening
      ensures rooms == {} && commandHandlers == map[] && disconnectIds == []
    {
      rooms, commandHandlers, disconnectIds, listening := {}, map[], [], true;
    }

    /**
     * `subscribe(id, token)`: when admitted, joins `server/<id>`, replaces
     * any command listener for `id` with one bound to the row and token,
     * and attaches one more disconnect listener. Otherwise nothing changes
     * and nothing is sent back.
     */
    method Subscribe(dir: Directory, fuel: nat, id: string, token: string)
      requires Valid()
      modifies this
      ensures Valid()
      ensures !(listening && MaySubscribe(dir, fuel, id, token)) ==>
                rooms == old(rooms) && commandHandlers == old(commandHandlers) && disconnectIds == old(disconnectIds)
      ensures listening && MaySubscribe(dir, fuel, id, token) ==>
                && rooms == old(rooms) + {Channel(id)}
                && commandHandlers == old(commandHandlers)[id := Binding(dir.servers[id], token)]
                && disconnectIds == old(disconnectIds) + [id]
      ensures listening == old(listening)
    {
      if !listening || token !in dir.sessions {
        return;
      }
      var userId := dir.sessions[token];
      var g := Authorize(dir, fuel, userId, id, ViewServer);
      if g.Err? {
        return;
      }
      Join(id, Binding(g.value, token));
    }

    /** The admitted part of `subscribe`: join the room, bind the command listener, attach a disconnect listener. */
    method Join(id: string, b: Binding)
      requires Valid() && listening
      modifies this
      ensures Valid() && listening
      ensures rooms == old(rooms) + {Channel(id)}
      ensures commandHandlers == old(commandHandlers)[id := b]
      ensures disconnectIds == old(disconnectIds) + [id]
    {
      RoomsStayCovered(rooms, disconnectIds, id);
      rooms := rooms + {Channel(id)};
      commandHandlers := commandHandlers[id := b];
      disconnectIds := disconnectIds + [id];
    }

    /**
     * An event on `server/<id>/command`: ignored unless a listener is bound
     * for `id`, the listener's token still resolves, the user owns the
     * captured row or holds `SERVER.COMMAND`, and a process is registered
     * under the row's id; otherwise `command` plus a newline is written to
     * the first such process. `writeFails` says whether that write throws.
     */
    method Command(reg: Registry, dir: Directory, fuel: nat, id: string, command: string,
                   requestStatusUpdate: bool, writeFails: bool)
      returns (e: CommandEffect)
      requires Valid()
      ensures e.Written? ==> listening && id in commandHandlers && Channel(id) in rooms
      ensures id !in commandHandlers ==> e == Ignored
      ensures id in commandHandlers ==>
                var b := commandHandlers[id];
                && (!MayCommand(dir, fuel, b) || !reg.IsRunning(b.server.id) ==> e == Ignored)
                && (MayCommand(dir, fuel, b) && reg.IsRunning(b.server.id) ==>
                      e == Written(reg.GetRunningServerById(b.server.id).value, command + "\n",
                                   !writeFails, requestStatusUpdate))
    {
      if id !in commandHandlers {
        return Ignored;
      }
      var b := commandHandlers[id];
      if b.token !in dir.sessions {
        return Ignored;
      }
      var userId := dir.sessions[b.token];
      if b.server.userId != userId {
        var granted := HasPermission(dir, userId, fuel, "SERVER.COMMAND");
        if granted != Some(true) {
          return Ignored;
        }
      }
      var target := reg.GetRunningServerById(b.server.id);
      if target.None? {
        return Ignored;
      }
      return Written(target.value, command + "\n", !writeFails, requestStatusUpdate);
    }

    /**
     * `unsubscribe(id)`: leaves `server/<id>` and removes the command
     * listener for `id`; the disconnect listener stays attached.
     */
    method Unsubscribe(id: string)
      requires Valid()
      modifies this
      ensures Valid()
      ensures listening ==> rooms == old(rooms) - {Channel(id)} && commandHandlers == old(commandHandlers) - {id}
      ensures !listening ==> rooms == old(rooms) && commandHandlers == old(commandHandlers)
      ensures disconnectIds == old(disconnectIds) && listening == old(listening)
    {
      if !listening {
        return;
      }
      forall other | other in commandHandlers - {id}
        ensures Channel(other) != Channel(id)
      {
        if Channel(other) == Channel(id) {
          ChannelInjective(other, id);
        }
      }
      rooms := rooms - {Channel(id)};
      commandHandlers := commandHandlers - {id};
    }

    /**
     * The connection closes: every attached disconnect listener fires in
     * the order attached, each leaving its room and removing every
     * listener of the socket.
     */
    method Disconnect()
      requires Valid()
      modifies this
      ensures Valid()
      ensures rooms == {} && commandHandlers == map[] && disconnectIds == [] && !listening
    {
      var ids := disconnectIds;
      var i := 0;
      while i < |ids|
        invariant 0 <= i <= |ids|
        invariant ids == disconnectIds
        invariant rooms == old(rooms) - set k | 0 <= k < i :: Channel(ids[k])
      {
        rooms := rooms - {Channel(ids[i])};
        i := i + 1;
      }
      forall r | r in old(rooms)
        ensures r !in rooms
      {
        var k :| 0 <= k < |ids| && r == Channel(ids[k]);
        assert r in set j | 0 <= j < |ids| :: Channel(ids[j]);
      }
      commandHandlers, disconnectIds, listening := map[], [], false;
    }
  }
}
