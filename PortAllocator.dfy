/**
 * `ServerManager.findFirstAvailablePort`: the port given to a newly created
 * server, found by scanning the ports stored in the database in ascending
 * order for the first index whose port is not `25000 + index`.
 */
module PortAllocator {
  import opened Wrappers

  const MinPort: int := 25000
  const MaxPort: int := 35000

  datatype AllocError = NoAvailablePorts

  /** The scan finds index `i` occupied: the `i`-th stored port is `MinPort + i`. */
  predicate Occupied(ports: seq<int>, i: int)
  {
    0 <= i < |ports| && ports[i] == MinPort + i
  }

  /**
   * `ports` is the `port` column of every server row, ordered ascending.
   * Returns the port at the first index the scan does not find occupied,
   * or fails when the first `MaxPort - MinPort` indices all are.
   */
  method FindFirstAvailablePort(ports: seq<int>) returns (r: Result<int, AllocError>)
    ensures r.Ok? ==> MinPort <= r.value < MaxPort
    ensures r.Ok? ==> !Occupied(ports, r.value - MinPort)
    ensures r.Ok? ==> forall j :: 0 <= j < r.value - MinPort ==> Occupied(ports, j)
    ensures r.Err? <==> forall j :: 0 <= j < MaxPort - MinPort ==> Occupied(ports, j)
  {
    var total := MaxPort - MinPort;
    var i := 0;
    while i < total
      invariant 0 <= i <= total
      invariant forall j :: 0 <= j < i ==> Occupied(ports, j)
    {
      var port := MinPort + i;
      if i >= |ports| || ports[i] != port {
        return Ok(port);
      }
      i := i + 1;
    }
    return Err(NoAvailablePorts);
  }

  /** What the `Servers` table guarantees: ascending (ORDER BY), distinct (UNIQUE), and allocated from the range. */
  ghost predicate WellFormedPorts(ports: seq<int>)
  {
    (forall j, k :: 0 <= j < k < |ports| ==> ports[j] < ports[k]) &&
    (forall j :: 0 <= j < |ports| ==> MinPort <= ports[j])
  }

  /** In a strictly ascending list that starts at `MinPort` or above, the `k`-th port is at least `MinPort + k`. */
  lemma {:induction false} PortLowerBound(ports: seq<int>, k: nat)
    requires WellFormedPorts(ports)
    requires k < |ports|
    ensures ports[k] >= MinPort + k
  {
    if k > 0 {
      PortLowerBound(ports, k - 1);
    }
  }

  /**
   * On well-formed stored ports the index the scan stops at gives a free
   * port, and every port below it is taken: the lowest free port.
   */
  lemma ScanStopsAtLowestFreePort(ports: seq<int>, i: nat)
    requires WellFormedPorts(ports)
    requires forall j :: 0 <= j < i ==> Occupied(ports, j)
    requires !Occupied(ports, i)
    ensures MinPort + i !in ports
    ensures forall q :: MinPort <= q < MinPort + i ==> q in ports
  {
    forall k | 0 <= k < |ports|
      ensures ports[k] != MinPort + i
    {
      if k < i {
        assert Occupied(ports, k);
      } else if k == i {
      } else {
        PortLowerBound(ports, i);
      }
    }
    forall q | MinPort <= q < MinPort + i
      ensures q in ports
    {
      assert Occupied(ports, q - MinPort);
    }
  }

  /** The scan fails only when every port of the range is stored. */
  lemma ExhaustedMeansRangeFull(ports: seq<int>)
    requires forall j :: 0 <= j < MaxPort - MinPort ==> Occupied(ports, j)
    ensures forall q :: MinPort <= q < MaxPort ==> q in ports
  {
    forall q | MinPort <= q < MaxPort
      ensures q in ports
    {
      assert Occupied(ports, q - MinPort);
    }
  }

  /** With 25000, 25001 and 25003 stored, the lowest gap, 25002, is allocated. */
  method LowestGapExample() returns (r: Result<int, AllocError>)
    ensures r == Ok(25002)
  {
    var ports := [25000, 25001, 25003];
    r := FindFirstAvailablePort(ports);
    assert !Occupied(ports, 2);
    assert Occupied(ports, 0) && Occupied(ports, 1);
  }

  /**
   * Without the table's guarantees the allocated port can be taken: a stored
   * port below the range shifts every index, so with 24000 and 25000 stored
   * the scan allocates 25000.
   */
  method PortBelowRangeExample() returns (r: Result<int, AllocError>)
    ensures r == Ok(25000) && r.value in [24000, 25000]
  {
    var ports := [24000, 25000];
    r := FindFirstAvailablePort(ports);
    assert !Occupied(ports, 0);
  }
}
