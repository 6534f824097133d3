/**
 * The module-level `runningServers` list of `ServerManager` and the
 * operations over it (`start`, `stop`, `isRunning`,
 * `getRunningServerById`), with the reconciliation of a server's
 * `server.properties` port against its database row that `start` performs.
 */
module ServerManager {
  import opened Wrappers
  import opened Store

  /**
   * A handle on one Minecraft server process. Its name is the id of the
   * server row it runs; two handles for the same row are distinct objects.
   */
  class McServer {
    const name: string

    constructor (name: string)
      ensures this.name == name
    {
      this.name := name;
    }
  }

  /** Index of the first entry named `name`, or `|s|` when there is none. */
  function FirstNamed(s: seq<McServer>, name: string): (k: nat)
    ensures k <= |s|
    ensures k < |s| ==> s[k].name == name
    ensures forall j :: 0 <= j < k ==> s[j].name != name
  {
    if s == [] then 0
    else if s[0].name == name then 0
    else 1 + FirstNamed(s[1..], name)
  }

  /** `s.find(x => x.name === name)`. */
  function FindByName(s: seq<McServer>, name: string): (r: Option<McServer>)
    ensures r.None? <==> forall k :: 0 <= k < |s| ==> s[k].name != name
    ensures r.Some? ==> r.value == s[FirstNamed(s, name)] && r.value.name == name
  {
    var k := FirstNamed(s, name);
    if k < |s| then Some(s[k]) else None
  }

  /** `s.indexOf(m)`: the first position holding this very object, or -1. */
  function IndexOfServer(s: seq<McServer>, m: McServer): (i: int)
    ensures -1 <= i < |s|
    ensures i == -1 <==> m !in s
    ensures i >= 0 ==> s[i] == m && m !in s[..i]
  {
    if s == [] then -1
    else if s[0] == m then 0
    else
      var i := IndexOfServer(s[1..], m);
      assert s[1..][..if i < 0 then 0 else i] == s[1..if i < 0 then 1 else i + 1];
      if i == -1 then -1 else i + 1
  }

  /** `s` with every occurrence of the object `m` taken out, the rest in order. */
  function Without(s: seq<McServer>, m: McServer): seq<McServer>
  {
    if s == [] then []
    else (if s[0] == m then [] else [s[0]]) + Without(s[1..], m)
  }

  lemma {:induction false} WithoutConcat(a: seq<McServer>, b: seq<McServer>, m: McServer)
    ensures Without(a + b, m) == Without(a, m) + Without(b, m)
  {
    if a == [] {
      assert a + b == b;
    } else {
      assert (a + b)[0] == a[0];
      assert (a + b)[1..] == a[1..] + b;
      WithoutConcat(a[1..], b, m);
    }
  }

  lemma {:induction false} WithoutAbsent(s: seq<McServer>, m: McServer)
    requires m !in s
    ensures Without(s, m) == s
  {
    if s != [] {
      WithoutAbsent(s[1..], m);
    }
  }

  /** Removing one occurrence does not change what removing all of them gives. */
  lemma WithoutSplice(s: seq<McServer>, i: nat, m: McServer)
    requires i < |s| && s[i] == m
    ensures Without(s[..i] + s[i + 1..], m) == Without(s, m)
  {
    assert s == s[..i] + ([m] + s[i + 1..]);
    WithoutConcat(s[..i], [m] + s[i + 1..], m);
    WithoutConcat([m], s[i + 1..], m);
    assert Without([m], m) == [];
    WithoutConcat(s[..i], s[i + 1..], m);
  }

  /**
   * After removal `m` no longer occurs and every other entry occurs exactly
   * as often as before.
   */
  lemma {:induction false} WithoutCounts(s: seq<McServer>, m: McServer)
    ensures m !in Without(s, m)
    ensures forall x :: x != m ==> multiset(Without(s, m))[x] == multiset(s)[x]
  {
    if s != [] {
      WithoutCounts(s[1..], m);
      assert s == [s[0]] + s[1..];
      WithoutConcat([s[0]], s[1..], m);
    }
  }

  /** At most one entry per name: the guarantee callers maintain by checking `isRunning` first. */
  ghost predicate UniqueNames(s: seq<McServer>)
  {
    forall j, k :: 0 <= j < k < |s| ==> s[j].name != s[k].name
  }

  /** When names are unique, stopping the entry found for a name leaves no entry with that name. */
  lemma {:induction false} StopClearsName(s: seq<McServer>, name: string, m: McServer)
    requires UniqueNames(s)
    requires FindByName(s, name) == Some(m)
    ensures FindByName(Without(s, m), name).None?
  {
    var k := FirstNamed(s, name);
    var w := Without(s, m);
    WithoutCounts(s, m);
    forall i | 0 <= i < |w|
      ensures w[i].name != name
    {
      var x := w[i];
      WithoutSubset(s, m, x);
      var j :| 0 <= j < |s| && s[j] == x;
      assert j != k;
    }
  }

  lemma {:induction false} WithoutSubset(s: seq<McServer>, m: McServer, x: McServer)
    ensures x in Without(s, m) ==> x in s
  {
    if s != [] {
      WithoutSubset(s[1..], m, x);
    }
  }

  /** Appending an entry whose name is already registered breaks the one-per-name guarantee. */
  lemma UnguardedStartDuplicates(s: seq<McServer>, m: McServer)
    requires FindByName(s, m.name).Some?
    ensures !UniqueNames(s + [m])
  {
    var k := FirstNamed(s, m.name);
    assert (s + [m])[k].name == (s + [m])[|s|].name;
  }

  /** Appending an entry whose name is not registered keeps names unique. */
  lemma GuardedStartKeepsUnique(s: seq<McServer>, m: McServer)
    requires UniqueNames(s)
    requires FindByName(s, m.name).None?
    ensures UniqueNames(s + [m])
  {
  }

  datatype StartError = ServerNotFound | PropertiesError

  /**
   * The port reconciliation `start` performs before launching: the
   * database port wins over the one in `server.properties`, a missing file
   * is created holding only the database port, and an error reading or
   * writing an existing file is rethrown. Yields the file afterwards.
   */
  function ReconcilePort(file: PropsFile, dbPort: int): (r: Result<PropsFile, StartError>)
    ensures r.Err? <==> file.Unreadable?
    ensures r.Ok? ==> r.value.Loaded? && PortKey in r.value.props && r.value.props[PortKey] == Num(dbPort)
    ensures file.Missing? ==> r == Ok(Loaded(map[PortKey := Num(dbPort)]))
    ensures file.Loaded? ==> r.Ok? && r.value.props - {PortKey} == file.props - {PortKey}
    ensures file.Loaded? && PortKey in file.props && file.props[PortKey] == Num(dbPort) ==> r == Ok(file)
  {
    match file
    case Loaded(props) =>
      var current := if PortKey in props then Some(props[PortKey]) else None;
      if current != Some(Num(dbPort)) then Ok(Loaded(props[PortKey := Num(dbPort)])) else Ok(file)
    case Missing => Ok(Loaded(map[PortKey := Num(dbPort)]))
    case Unreadable => Err(PropertiesError)
  }

  /** The list of launched servers, in launch order. */
  class Registry {
    var running: seq<McServer>

    constructor ()
      ensures running == []
    {
      running := [];
    }

    /** `isRunning`: some registered entry has this name (the handle's name, or the row's id). */
    function IsRunning(name: string): (b: bool)
      reads this
      ensures b <==> exists k :: 0 <= k < |running| && running[k].name == name
    {
      FindByName(running, name).Some?
    }

    /** `getRunningServerById`: the first registered entry named `id`. */
    function GetRunningServerById(id: string): (r: Option<McServer>)
      reads this
      ensures r.Some? <==> IsRunning(id)
      ensures r.Some? ==> r.value in running && r.value.name == id
      ensures r.Some? ==> FirstNamed(running, id) < |running| && r.value == running[FirstNamed(running, id)]
    {
      FindByName(running, id)
    }

    /**
     * `start`: looks up the row named by the handle, reconciles the port
     * in `server.properties`, launches the process and appends the handle.
     * It does not look for an entry with the same name. Yields the
     * properties file afterwards.
     */
    method Start(m: McServer, db: map<string, ServerRow>, props: PropsFile) returns (r: Result<PropsFile, StartError>)
      modifies this
      ensures m.name !in db ==> r == Err(ServerNotFound)
      ensures m.name in db ==> r == ReconcilePort(props, db[m.name].port)
      ensures r.Ok? ==> running == old(running) + [m]
      ensures r.Err? ==> running == old(running)
    {
      if m.name !in db {
        return Err(ServerNotFound);
      }
      var entry := db[m.name];
      r := ReconcilePort(props, entry.port);
      if r.Ok? {
        running := running + [m];
      }
    }

    /**
     * `stop`: asks the process to stop (an error from it is swallowed, so
     * the call always completes) and splices out every occurrence of the
     * handle.
     */
    method Stop(m: McServer)
      modifies this
      ensures running == Without(old(running), m)
    {
      var index := IndexOfServer(running, m);
      while index != -1
        invariant index == IndexOfServer(running, m)
        invariant Without(running, m) == Without(old(running), m)
        decreases |running|
      {
        WithoutSplice(running, index, m);
        running := running[..index] + running[index + 1..];
        index := IndexOfServer(running, m);
      }
      WithoutAbsent(running, m);
    }
  }
}
