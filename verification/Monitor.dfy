/** The monitor object: one set of global counters and one per port, changed in place. */
module Monitor {
  import opened Wrappers
  import opened MonitorSpec

  const MAX_HISTORY := 86400

  class Monitor {
    var stats: Totals
    var portStats: map<string, Totals>
    var backendStats: Backends
    // (total connections, time) at each refresh.
    var connHistory: seq<(int, int)>

    function View(): State
      reads this
    {
      State(stats, portStats)
    }

    constructor ()
      ensures View() == EMPTY && backendStats == map[] && connHistory == []
    {
      stats, portStats, backendStats, connHistory := ZERO, map[], map[], [];
    }

    method RecordConn(port: string)
      modifies this
      ensures View() == After(old(View()), Open(port))
      ensures backendStats == old(backendStats) && connHistory == old(connHistory)
    {
      stats := stats.(conns := stats.conns + 1);
      stats := stats.(active := stats.active + 1);
      if port !in portStats {
        portStats := portStats[port := ZERO];
      }
      var ps := portStats[port];
      portStats := portStats[port := ps.(conns := ps.conns + 1, active := ps.active + 1)];
    }

    method RecordConnClose(port: string, read: int, written: int)
      modifies this
      ensures View() == After(old(View()), Close(port, read, written))
      ensures backendStats == old(backendStats) && connHistory == old(connHistory)
    {
      stats := stats.(active := stats.active - 1);
      stats := stats.(bytesRead := stats.bytesRead + read);
      stats := stats.(bytesWritten := stats.bytesWritten + written);
      if port in portStats {
        var ps := portStats[port];
        portStats := portStats[port :=
          ps.(active := ps.active - 1, bytesRead := ps.bytesRead + read, bytesWritten := ps.bytesWritten + written)];
      }
    }

    method RecordReject(port: string)
      modifies this
      ensures View() == After(old(View()), Reject(port))
      ensures backendStats == old(backendStats) && connHistory == old(connHistory)
    {
      stats := stats.(rejects := stats.rejects + 1);
      if port !in portStats {
        portStats := portStats[port := ZERO];
      }
      var ps := portStats[port];
      portStats := portStats[port := ps.(rejects := ps.rejects + 1)];
    }

    method UpdateBackend(addr: string, isAlive: bool, failCount: int, now: int)
      modifies this
      ensures View() == old(View()) && connHistory == old(connHistory)
      ensures backendStats == Updated(old(backendStats), addr, isAlive, failCount, now)
    {
      if addr !in backendStats {
        backendStats := backendStats[addr := NEW_BACKEND];
      }
      var bs := backendStats[addr];
      backendStats := backendStats[addr := bs.(alive := isAlive, fails := failCount, lastCheck := Some(now))];
    }

    method RecordBackendConn(addr: string, delta: int)
      modifies this
      ensures View() == old(View()) && connHistory == old(connHistory)
      ensures backendStats == ConnCounted(old(backendStats), addr, delta)
    {
      if addr !in backendStats {
        backendStats := backendStats[addr := NEW_BACKEND];
      }
      var bs := backendStats[addr];
      backendStats := backendStats[addr := bs.(total := bs.total + 1, active := bs.active + delta)];
    }

    /** The refresh tick: append a snapshot, drop the oldest once the history is full. */
    method Snapshot(now: int)
      requires |connHistory| <= 86_400
      modifies this
      ensures View() == old(View()) && backendStats == old(backendStats) && |connHistory| <= 86_400
      ensures connHistory == old(connHistory) + [(stats.conns, now)] ||
              (|old(connHistory)| == 86_400 && connHistory == old(connHistory)[1..] + [(stats.conns, now)])
    {
      connHistory := connHistory + [(stats.conns, now)];
      if |connHistory| > MAX_HISTORY {
        connHistory := connHistory[1..];
      }
    }

    /** The latest snapshots; a limit that is not positive or too large means all. */
    method GetConnHistory(limit: int) returns (h: seq<(int, int)>)
      ensures |h| == if 0 < limit < |connHistory| then limit else |connHistory|
      ensures h == connHistory[|connHistory| - |h|..]
    {
      var n := limit;
      if n <= 0 || n > |connHistory| {
        n := |connHistory|;
      }
      var start := |connHistory| - n;
      return connHistory[start..];
    }
  }
}
