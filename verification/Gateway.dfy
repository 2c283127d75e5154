/** The proxy object: one connection through the filters and on to a backend. */
module Gateway {
  import opened Relay
  import L = LimiterSpec
  import B = BlacklistSpec
  import R = RoutingSpec
  import M = MonitorSpec
  import BB = BackendSpec
  import Mon = Monitor
  import An = Analyzer
  import opened Limiter
  import opened Blacklist
  import opened Routing
  import opened FilterSpec
  import opened GatewaySpec

  class ProxyServer {
    const rateLimiter: RateLimiter
    const blacklistMgr: BlacklistManager
    const route: RouteEntry
    const strategy: R.Strategy
    const listenAddr: string
    const monitor: Mon.Monitor
    const analyzer: An.LogAnalyzer

    constructor (rl: RateLimiter, bl: BlacklistManager, entry: RouteEntry, s: R.Strategy, listen: string,
                 mon: Mon.Monitor, log: An.LogAnalyzer)
      ensures rateLimiter == rl && blacklistMgr == bl && route == entry && strategy == s
      ensures listenAddr == listen && monitor == mon && analyzer == log
    {
      rateLimiter, blacklistMgr, route, strategy := rl, bl, entry, s;
      listenAddr, monitor, analyzer := listen, mon, log;
    }

    function View(): Filters
      reads rateLimiter, blacklistMgr
    {
      Filters(rateLimiter.View(), blacklistMgr.State())
    }

    ghost function Here(): Site
      requires route.Valid()
      reads rateLimiter, blacklistMgr, monitor, route, route.Cells()
    {
      Site(View(), route.View(), monitor.backendStats)
    }

    /** The security filter: step 2 of handling a connection. */
    method FilterConnection(c: Conn) returns (outcome: Outcome)
      modifies rateLimiter, blacklistMgr, monitor, analyzer
      ensures rateLimiter.config == old(rateLimiter.config) && blacklistMgr.config == old(blacklistMgr.config)
      ensures outcome == Decision(rateLimiter.config, old(View()), c.ip, c.Uid(), c.now)
      ensures Filtered(rateLimiter.config, blacklistMgr.config, old(View()), c.ip, c.Uid(), c.now, View())
      ensures monitor.backendStats == old(monitor.backendStats)
      ensures monitor.View() == if Refused(outcome) then M.After(old(monitor.View()), M.Reject(listenAddr))
                                else old(monitor.View())
      ensures analyzer.entries == Noted(old(analyzer.entries), analyzer.maxSize,
                                        if Refused(outcome) then Lines(c, Rejected(outcome)) else [])
    {
      var isWhitelisted := blacklistMgr.IsIPWhitelisted(c.ip);
      if isWhitelisted {
        return Whitelisted;
      }
      var answer := blacklistMgr.CheckBlacklisted(c.ip, c.Uid(), c.now);
      if answer != B.Clear {
        monitor.RecordReject(listenAddr);
        analyzer.LogConnEntry(LogOf(c, "rejected", "blacklist"));
        return RefusedByBan(answer);
      }
      var result := rateLimiter.CheckAll(c.ip, c.Uid(), false, c.now);
      if result.Refused? {
        monitor.RecordReject(listenAddr);
        analyzer.LogConnEntry(LogOf(c, "rejected", L.ReasonText(result)));
        blacklistMgr.RecordReject(c.ip, c.Uid(), c.now);
        return RefusedByLimit(result);
      }
      return Admitted;
    }

    // ---------- Backends ----------

    method MarkBackendDown(addr: string, now: int)
      requires route.Valid()
      modifies route.alive, monitor
      ensures monitor.View() == old(monitor.View())
      ensures Here() == Site(View(), R.After(old(route.View()), R.MarkDown(addr)),
                             BB.Noted(old(monitor.backendStats), old(route.View()), R.MarkDown(addr), now))
      ensures View() == old(View())
    {
      var found := route.MarkBackendDown(addr);
      ghost var r := route.View();
      if found {
        monitor.UpdateBackend(addr, false, 1, now);
      }
      assert route.View() == r;
    }

    method RecordBackendConn(addr: string, now: int)
      requires route.Valid()
      modifies route.conns, monitor
      ensures monitor.View() == old(monitor.View())
      ensures Here() == Site(View(), R.After(old(route.View()), R.Connected(addr)),
                             BB.Noted(old(monitor.backendStats), old(route.View()), R.Connected(addr), now))
      ensures View() == old(View())
    {
      var found := route.RecordBackendConn(addr);
      ghost var r := route.View();
      if found {
        monitor.RecordBackendConn(addr, 1);
      }
      assert route.View() == r;
    }

    /** The health check of one backend. */
    method CheckOne(i: nat, now: int, probe: bool)
      requires route.Valid() && i < |route.addrs|
      modifies route.alive, route.protoStats[i], monitor
      ensures monitor.View() == old(monitor.View())
      ensures route.View() == old(route.View())[i := R.Checked(old(route.View())[i], now, probe)]
      ensures monitor.backendStats ==
              if R.Reports(old(route.View())[i], now, probe)
              then M.Updated(old(monitor.backendStats), route.addrs[i], true, 0, now) else old(monitor.backendStats)
    {
      var reported := route.CheckBackend(i, now, probe);
      ghost var r := route.View();
      if reported {
        monitor.UpdateBackend(route.addrs[i], true, 0, now);
      }
      assert route.View() == r;
    }

    /** The health tick. probes[i] is what dialling backend i would give. */
    method CheckBackends(now: int, probes: seq<bool>)
      requires route.Valid() && |probes| == |route.addrs|
      modifies route.alive, route.protoStats, monitor
      ensures monitor.View() == old(monitor.View())
      ensures route.View() == R.After(old(route.View()), R.Tick(now, probes))
      ensures monitor.backendStats ==
              BB.Noted(old(monitor.backendStats), old(route.View()), R.Tick(now, probes), now)
    {
      ghost var r, m := route.View(), monitor.backendStats;
      for i := 0 to |route.addrs|
        invariant |route.View()| == |r| && monitor.View() == old(monitor.View())
        invariant forall k :: 0 <= k < |r| ==>
          route.View()[k] == if k < i then R.Checked(r[k], now, probes[k]) else r[k]
        invariant monitor.backendStats == BB.Ticked(m, r, i, now, probes)
      {
        assert route.View()[i] == r[i] && r[i].addr == route.addrs[i];
        CheckOne(i, now, probes[i]);
      }
    }

    /** Chooses a backend and dials it; seed stands for the clock reading that drives random. */
    method PlaceConnection(c: Conn, seed: nat) returns (addr: string, idx: int)
      requires route.Valid()
      modifies route.conns, route.alive, monitor
      ensures monitor.View() == old(monitor.View())
      ensures Placed(old(Here()), Here(), strategy, c, addr, idx)
    {
      ghost var s := Here();
      addr := route.SelectBackend(strategy, seed);
      idx := -1;
      assert Here() == s;
      ghost var choice :| R.MaySelect(s.r, strategy, choice) && addr == R.AddrOf(s.r, choice);
      if addr == "" {
        return;
      }
      if !c.dialOk {
        MarkBackendDown(addr, c.now);
      } else {
        RecordBackendConn(addr, c.now);
        idx := route.FindBackendIndex(addr);
      }
    }

    method RecordTraffic(idx: int, events: seq<R.Traffic>, now: int)
      requires route.Valid()
      modifies route.protoStats
      ensures route.View() == R.Trafficked(old(route.View()), idx, events, now)
    {
      for i := 0 to |events|
        invariant route.View() == R.Trafficked(old(route.View()), idx, events[..i], now)
      {
        route.RecordProto(events[i], idx, now);
        assert events[..i + 1][..i] == events[..i];
      }
      assert events[..|events|] == events;
    }

    /** One call of the monitor about this port, which changes nothing else. */
    method Book(op: M.Op)
      requires route.Valid() && op.port == listenAddr
      modifies monitor
      ensures Here() == old(Here()) && monitor.View() == M.After(old(monitor.View()), op)
    {
      ghost var r := route.View();
      match op {
        case Open(port) => monitor.RecordConn(port);
        case Close(port, read, written) => monitor.RecordConnClose(port, read, written);
        case Reject(port) => monitor.RecordReject(port);
      }
      assert route.View() == r;
    }

    /** Steps 4 and 5: forward both ways and count the traffic seen. */
    method RelayConnection(c: Conn, addr: string, idx: int) returns (handled: Handled)
      requires route.Valid()
      modifies route.protoStats, analyzer
      ensures handled.Relayed? && handled.addr == addr && handled.backendIdx == idx
      ensures Exchanged(c.script, idx, handled.up, handled.down, handled.events)
      ensures Here() == old(Here()).(r := R.Trafficked(old(Here()).r, idx, handled.events, c.now))
      ensures analyzer.entries == Noted(old(analyzer.entries), analyzer.maxSize, Lines(c, handled))
    {
      ghost var s := Here();
      analyzer.LogConnEntry(LogOf(c, "connect", ""));
      var up, down, events := Exchange(c.script, idx);
      assert route.View() == s.r;
      RecordTraffic(idx, events, c.now);
      assert Here() == Site(s.f, R.Trafficked(s.r, idx, events, c.now), s.m);
      handled := Relayed(addr, idx, up, down, events);
    }

    /** Steps 3 to 5: place the connection, then forward both ways. */
    method RouteConnection(c: Conn, seed: nat) returns (handled: Handled)
      requires route.Valid()
      modifies route.conns, route.alive, route.protoStats, monitor, analyzer
      ensures Routed(old(Here()), Here(), strategy, c, handled)
      ensures monitor.View() == if handled.Relayed? then old(monitor.View())
                                else M.After(old(monitor.View()), M.Reject(listenAddr))
      ensures analyzer.entries == Noted(old(analyzer.entries), analyzer.maxSize, Lines(c, handled))
    {
      ghost var s := Here();
      var addr, idx := PlaceConnection(c, seed);
      ghost var s1 := Here();
      if addr == "" || !c.dialOk {
        Book(M.Reject(listenAddr));
        handled := if addr == "" then NoBackend else DialFailed(addr);
      } else {
        handled := RelayConnection(c, addr, idx);
        assert Placed(s, s1, strategy, c, addr, idx);
      }
    }

    /** Everything between opening and closing: filter, then route. */
    method ServeConnection(c: Conn, seed: nat) returns (handled: Handled)
      requires route.Valid()
      modifies rateLimiter, blacklistMgr, route.conns, route.alive, route.protoStats, monitor, analyzer
      ensures rateLimiter.config == old(rateLimiter.config) && blacklistMgr.config == old(blacklistMgr.config)
      ensures Handles(rateLimiter.config, blacklistMgr.config, strategy, c, old(Here()), Here(), handled)
      ensures analyzer.entries == Noted(old(analyzer.entries), analyzer.maxSize, Lines(c, handled))
      ensures !handled.BackendCritical?
      ensures monitor.View() == if handled.Relayed? then old(monitor.View())
                                else M.After(old(monitor.View()), M.Reject(listenAddr))
    {
      ghost var r := route.View();
      var outcome := FilterConnection(c);
      assert route.View() == r;
      if Refused(outcome) {
        return Rejected(outcome);
      }
      handled := RouteConnection(c, seed);
    }

    /** The whole of handling a connection; however it ends, the close is recorded. */
    method HandleConnection(c: Conn, seed: nat) returns (handled: Handled)
      requires route.Valid()
      modifies rateLimiter, blacklistMgr, route.conns, route.alive, route.protoStats, monitor, analyzer
      ensures rateLimiter.config == old(rateLimiter.config) && blacklistMgr.config == old(blacklistMgr.config)
      ensures !handled.BackendCritical?
      ensures Handles(rateLimiter.config, blacklistMgr.config, strategy, c, old(Here()), Here(), handled)
      ensures analyzer.entries == Noted(old(analyzer.entries), analyzer.maxSize, Lines(c, handled))
      ensures monitor.View() == Booked(old(monitor.View()), listenAddr, handled)
    {
      Book(M.Open(listenAddr));
      handled := ServeConnection(c, seed);
      if handled.Relayed? {
        Book(M.Close(listenAddr, handled.up.count, handled.down.count));
      } else {
        Book(M.Close(listenAddr, 0, 0));
      }
    }

    /** What the accept loop does with a socket: turn it away unseen while the gate is closed. */
    method AcceptConnection(c: Conn, seed: nat) returns (handled: Handled)
      requires route.Valid()
      modifies rateLimiter, blacklistMgr, route.conns, route.alive, route.protoStats, monitor, analyzer
      ensures handled.BackendCritical? <==> R.GateClosed(old(route.View()))
      ensures if handled.BackendCritical? then Here() == old(Here())
              else Handles(rateLimiter.config, blacklistMgr.config, strategy, c, old(Here()), Here(), handled)
      ensures analyzer.entries == Noted(old(analyzer.entries), analyzer.maxSize, Lines(c, handled))
      ensures monitor.View() == Booked(old(monitor.View()), listenAddr, handled)
    {
      ghost var s := Here();
      var closed := route.IsBackendCritical();
      assert Here() == s;
      if closed {
        Book(M.Reject(listenAddr));
        return BackendCritical;
      }
      handled := HandleConnection(c, seed);
    }
  }

  /** Steps 4 and 5: the first packet, then both directions. */
  method Exchange(s: Script, backendIdx: int) returns (up: Transfer, down: Transfer, events: seq<R.Traffic>)
    ensures Exchanged(s, backendIdx, up, down, events)
  {
    var out, count, written, sniffed, end := ForwardClient(s.first, s.client, s.toBackend);
    up, down, events := Transfer(out, count, written, end == WriteFailed), NO_TRANSFER, sniffed;
    if |s.first.data| > 0 && Fails(s.toBackend, 0) {
      return;
    }
    var back, backCount, backWritten, backEvents, backEnd := ForwardBackend(s.backend, s.toClient, backendIdx);
    down := Transfer(back, backCount, backWritten, backEnd == WriteFailed);
    events := sniffed + backEvents;
    assert events[|sniffed|..] == backEvents;
  }
}
