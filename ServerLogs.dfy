/**
 * Server console logs: the window `Server.getLogs` selects from the
 * `ServerLogs` table, and the process-wide queue `Server.log` fills and a
 * one-second timer drains into one `bulkCreate` call.
 */
module ServerLogs {
  import opened Wrappers
  import opened Store

  /** The rows of one server, in creation order. */
  function LogsOf(all: seq<LogEntry>, serverId: string): (r: seq<LogEntry>)
    ensures |r| <= |all|
    ensures forall e :: e in r <==> e in all && e.serverId == serverId
  {
    if all == [] then []
    else (if all[0].serverId == serverId then [all[0]] else []) + LogsOf(all[1..], serverId)
  }

  function Reverse(s: seq<LogEntry>): (r: seq<LogEntry>)
    ensures |r| == |s|
    ensures forall k :: 0 <= k < |s| ==> r[k] == s[|s| - 1 - k]
  {
    if s == [] then [] else Reverse(s[1..]) + [s[0]]
  }

  function Abs(n: int): nat
  {
    if n < 0 then -n else n
  }

  function Min(a: int, b: int): int
  {
    if a < b then a else b
  }

  /**
   * `server.getLogs({ limit })`: no limit gives every row; a positive limit
   * the oldest rows, oldest first; a negative one the newest rows, newest
   * first; zero none.
   */
  function GetLogs(all: seq<LogEntry>, serverId: string, limit: Option<int>): (r: seq<LogEntry>)
    ensures limit == Some(0) ==> r == []
    ensures limit.None? ==> r == LogsOf(all, serverId)
    ensures limit.Some? ==> |r| == Min(Abs(limit.value), |LogsOf(all, serverId)|)
    ensures limit.Some? && limit.value > 0 ==> r <= LogsOf(all, serverId)
    ensures limit.Some? && limit.value < 0 ==>
              var own := LogsOf(all, serverId);
              forall k :: 0 <= k < |r| ==> r[k] == own[|own| - 1 - k]
  {
    var own := LogsOf(all, serverId);
    match limit
    case None => own
    case Some(n) =>
      if n == 0 then []
      else
        var ordered := if n > 0 then own else Reverse(own);
        ordered[..Min(Abs(n), |ordered|)]
  }

  /** The window never holds more rows than the limit asks for, and every row belongs to the server. */
  lemma GetLogsBounded(all: seq<LogEntry>, serverId: string, limit: int)
    ensures |GetLogs(all, serverId, Some(limit))| <= Abs(limit)
    ensures forall e :: e in GetLogs(all, serverId, Some(limit)) ==> e in all && e.serverId == serverId
  {
    var own := LogsOf(all, serverId);
    var r := GetLogs(all, serverId, Some(limit));
    WindowWithin(own, r, limit);
  }

  /** A window taken from the front of a list, or read backwards from its end, holds only its elements. */
  lemma WindowWithin(own: seq<LogEntry>, r: seq<LogEntry>, n: int)
    requires n == 0 ==> r == []
    requires n > 0 ==> r <= own
    requires n < 0 ==> |r| <= |own| && forall k :: 0 <= k < |r| ==> r[k] == own[|own| - 1 - k]
    ensures forall e :: e in r ==> e in own
  {
    forall e | e in r
      ensures e in own
    {
      var k :| 0 <= k < |r| && r[k] == e;
      if n > 0 {
        assert r[k] == own[k];
      } else {
        assert r[k] == own[|own| - 1 - k];
      }
    }
  }

  /**
   * The process-wide log queue (`Server.toSave`, `Server.saveIncrement`)
   * and the rows its flushes have committed. The one-second timer is the
   * explicit step `TimerFires`; the end of the `bulkCreate` it starts is
   * `WriteSettles`.
   */
  class LogQueue {
    var toSave: seq<LogEntry>
    var saveIncrement: int
    var timerPending: bool                 // a flush is scheduled and has not fired
    var writing: Option<seq<LogEntry>>     // the batch handed to bulkCreate, not yet settled
    var stored: seq<LogEntry>              // rows committed by bulkCreate, in commit order
    ghost var logged: seq<LogEntry>        // every entry passed to Log, in call order
    ghost var taken: seq<LogEntry>         // every entry a fired timer took from the queue
    ghost var stalled: bool                // a bulkCreate rejected, so the flag is never reset

    ghost function InFlight(): seq<LogEntry>
      reads this
    {
      if writing.Some? then writing.value else []
    }

    ghost predicate Valid()
      reads this
    {
      && (saveIncrement == 0 || saveIncrement == 1)
      && (saveIncrement == 1 <==> timerPending || writing.Some? || stalled)
      && !(timerPending && writing.Some?)
      && (stalled ==> !timerPending && writing.None?)
      && taken + toSave == logged
      && (!stalled ==> stored + InFlight() == taken)
    }

    constructor ()
      ensures Valid()
      ensures toSave == [] && saveIncrement == 0 && !timerPending && writing.None? && stored == []
      ensures logged == [] && !stalled
    {
      toSave, saveIncrement, timerPending, writing, stored := [], 0, false, None, [];
      logged, taken, stalled := [], [], false;
    }

    /**
     * `server.log(data)`: schedules a flush when the flag is clear, then
     * queues the entry. While a flush is scheduled or writing, nothing new
     * is scheduled.
     */
    method Log(serverId: string, data: string)
      requires Valid()
      modifies this
      ensures Valid()
      ensures toSave == old(toSave) + [LogEntry(serverId, data)]
      ensures logged == old(logged) + [LogEntry(serverId, data)]
      ensures timerPending == (old(timerPending) || old(saveIncrement) == 0)
      ensures saveIncrement == 1
      ensures writing == old(writing) && stored == old(stored) && stalled == old(stalled)
    {
      if saveIncrement == 0 {
        saveIncrement := saveIncrement + 1;
        timerPending := true;
      }
      toSave := toSave + [LogEntry(serverId, data)];
      logged := logged + [LogEntry(serverId, data)];
    }

    /** The scheduled flush fires: the whole queue, in order, becomes one batch and the queue empties. */
    method TimerFires()
      requires Valid() && timerPending
      modifies this
      ensures Valid()
      ensures writing == Some(old(toSave)) && toSave == [] && !timerPending
      ensures saveIncrement == old(saveIncrement) && stored == old(stored)
      ensures logged == old(logged) && stalled == old(stalled)
    {
      var batch := toSave;
      toSave := [];
      timerPending := false;
      writing := Some(batch);
      taken := taken + batch;
    }

    /**
     * The batch's `bulkCreate` settles. On success the rows are committed
     * and the flag is reset; on a rejection the rest of the timer callback
     * never runs, so the flag stays set. Either way, entries queued during
     * the write stay queued and no flush is scheduled for them.
     */
    method WriteSettles(committed: bool)
      requires Valid() && writing.Some?
      modifies this
      ensures Valid()
      ensures writing.None? && !timerPending && toSave == old(toSave) && logged == old(logged)
      ensures committed ==> stored == old(stored) + old(writing).value && saveIncrement == 0 && stalled == old(stalled)
      ensures !committed ==> stored == old(stored) && saveIncrement == 1 && stalled
    {
      if committed {
        stored := stored + writing.value;
        saveIncrement := 0;
      } else {
        stalled := true;
      }
      writing := None;
    }
  }

  /**
   * A line logged while a batch is being written is queued, but it waits
   * in the queue with nothing scheduled until a later `log` call.
   */
  method StrandedLineScenario() returns (q: LogQueue)
    ensures q.Valid()
    ensures q.stored == [LogEntry("s", "a")]
    ensures q.toSave == [LogEntry("s", "b")] && !q.timerPending && q.saveIncrement == 0
  {
    q := new LogQueue();
    q.Log("s", "a");
    q.TimerFires();
    q.Log("s", "b");
    q.WriteSettles(true);
  }
}
