/** The route entry object: parallel arrays changed in place, scanned by counting loops. */
module Routing {
  import opened Wrappers
  import opened Protocol
  import opened RoutingSpec

  class RouteEntry {
    const addrs: seq<string>
    const conns: array<int>
    const alive: array<bool>
    // A slice of structs: one fixed cell per backend.
    const protoStats: seq<ProtocolStats>

    predicate Valid()
      reads this
    {
      && |addrs| == conns.Length == alive.Length == |protoStats|
      && forall i, j :: 0 <= i < j < |protoStats| ==> protoStats[i] != protoStats[j]
    }

    ghost function Cells(): set<object>
      reads this
    {
      {conns, alive} + set s | s in protoStats
    }

    ghost function BackendAt(i: nat): Backend
      requires Valid() && i < |addrs|
      reads this, conns, alive, protoStats[i]
    {
      Backend(addrs[i], alive[i], conns[i], protoStats[i].View())
    }

    ghost function View(): (r: Route)
      requires Valid()
      reads this, Cells()
      ensures |r| == |addrs| && forall i :: 0 <= i < |addrs| ==> r[i] == BackendAt(i)
    {
      seq(|addrs|, i requires Valid() && 0 <= i < |addrs| reads this, Cells() => BackendAt(i))
    }

    constructor (backendAddrs: seq<string>)
      ensures Valid() && fresh(Cells())
      ensures Initial(View()) && addrs == backendAddrs
    {
      var n := |backendAddrs|;
      addrs := backendAddrs;
      var cells: seq<ProtocolStats> := [];
      for i := 0 to n
        invariant |cells| == i && forall k :: 0 <= k < i ==> fresh(cells[k]) && cells[k].View() == ZERO_STATS
        invariant forall j, k :: 0 <= j < k < i ==> cells[j] != cells[k]
      {
        var cell := new ProtocolStats();
        cells := cells + [cell];
      }
      protoStats := cells;
      conns := new int[n](_ => 0);
      alive := new bool[n](_ => true);
      new;
      assert forall i :: 0 <= i < n ==> BackendAt(i) == Backend(backendAddrs[i], true, 0, ZERO_STATS);
    }

    // ---------- Gate and selection: loops that only read ----------

    method IsBackendCritical() returns (closed: bool)
      requires Valid()
      ensures closed <==> GateClosed(View())
    {
      var criticalCount := 0;
      ghost var r := View();
      for i := 0 to |addrs|
        invariant criticalCount == CountShaky(r[..i])
      {
        assert r[..i + 1][..i] == r[..i];
        if alive[i] {
          var health := CalcCrashRisk(protoStats[i].View());
          if health == Critical || health == Down {
            criticalCount := criticalCount + 1;
          }
        }
      }
      var aliveCount := 0;
      for i := 0 to alive.Length
        invariant aliveCount == CountAlive(r[..i])
      {
        assert r[..i + 1][..i] == r[..i];
        if alive[i] {
          aliveCount := aliveCount + 1;
        }
      }
      assert r[..|r|] == r;
      CountsDecide(r);
      return aliveCount > 0 && criticalCount >= aliveCount;
    }

    /** seed stands for the clock reading that drives the random strategy. */
    method SelectBackend(strategy: Strategy, seed: nat) returns (addr: string)
      requires Valid()
      ensures exists choice :: MaySelect(View(), strategy, choice) && addr == AddrOf(View(), choice)
    {
      var available: seq<nat> := [];
      ghost var r := View();
      for i := 0 to alive.Length
        invariant ListsUsable(r, i, available)
      {
        assert r[i] == BackendAt(i);
        if alive[i] {
          var health := CalcCrashRisk(protoStats[i].View());
          if health != Down {
            available := available + [i];
          }
        }
      }
      if |available| == 0 {
        assert MaySelect(r, strategy, None) && AddrOf(r, None) == "";
        return "";
      }
      var choice: Option<nat>;
      match strategy {
        case LeastConn => choice := LeastConnSelect(r, available);
        case Random => choice := Some(available[seed % |available|]);
        case RoundRobin => choice := FirstUsable(r);
      }
      assert View() == r;
      assert MaySelect(View(), strategy, choice);
      return if choice.Some? then addrs[choice.value] else "";
    }

    method FirstUsable(ghost r: Route) returns (choice: Option<nat>)
      requires Valid() && r == View()
      ensures MaySelect(r, RoundRobin, choice)
    {
      for i := 0 to |addrs|
        invariant forall j :: 0 <= j < i ==> !Usable(r[j])
      {
        assert r[i] == BackendAt(i);
        if alive[i] {
          var health := CalcCrashRisk(protoStats[i].View());
          if health != Down {
            return Some(i);
          }
        }
      }
      return None;
    }

    method LeastConnSelect(ghost r: Route, available: seq<nat>) returns (choice: Option<nat>)
      requires Valid() && r == View() && ListsUsable(r, |r|, available)
      ensures MaySelect(r, LeastConn, choice)
    {
      if |available| == 0 {
        return None;
      }
      var minIdx := available[0];
      var minConns := conns[minIdx];
      for k := 1 to |available|
        invariant minIdx < |r| && Usable(r[minIdx]) && minConns == conns[minIdx]
        invariant forall m :: 0 <= m < k ==>
          minConns < r[available[m]].conns || (minConns == r[available[m]].conns && minIdx <= available[m])
        invariant forall m :: k <= m < |available| ==> minIdx < available[m]
      {
        assert r[available[k]] == BackendAt(available[k]);
        var idx := available[k];
        if conns[idx] < minConns {
          minConns := conns[idx];
          minIdx := idx;
        }
      }
      forall i | 0 <= i < |r| && Usable(r[i])
        ensures r[minIdx].conns < r[i].conns || (r[minIdx].conns == r[i].conns && minIdx <= i)
      {
        assert i in available;
      }
      return Some(minIdx);
    }

    method FindBackendIndex(addr: string) returns (idx: int)
      requires Valid()
      ensures var f := FirstAt(View(), addr); idx == if f.Some? then f.value else -1
    {
      ghost var r := View();
      ghost var f := FirstAt(r, addr);
      for i := 0 to |addrs|
        invariant forall j :: 0 <= j < i ==> r[j].addr != addr
      {
        assert r[i].addr == addrs[i];
        if addrs[i] == addr {
          assert f.Some? && f.value == i;
          return i;
        }
      }
      return -1;
    }

    // ---------- Updates in place ----------

    method MarkBackendDown(addr: string) returns (found: bool)
      requires Valid()
      modifies alive
      ensures View() == After(old(View()), MarkDown(addr))
      ensures found <==> FirstAt(old(View()), addr).Some?
    {
      ghost var r := View();
      var idx := FindBackendIndex(addr);
      assert View() == r;
      found := idx >= 0;
      if found {
        SetAlive(idx, false);
      }
    }

    method RecordBackendConn(addr: string) returns (found: bool)
      requires Valid()
      modifies conns
      ensures View() == After(old(View()), Connected(addr))
      ensures found <==> FirstAt(old(View()), addr).Some?
    {
      ghost var r := View();
      var idx := FindBackendIndex(addr);
      assert View() == r;
      found := idx >= 0;
      if found {
        AddConn(idx);
      }
    }

    method SetAlive(i: nat, a: bool)
      requires Valid() && i < |addrs|
      modifies alive
      ensures View() == old(View())[i := old(View())[i].(alive := a)]
    {
      alive[i] := a;
      assert forall k :: 0 <= k < |addrs| && k != i ==> BackendAt(k) == old(BackendAt(k));
    }

    method AddConn(i: nat)
      requires Valid() && i < |addrs|
      modifies conns
      ensures View() == old(View())[i := old(View())[i].(conns := old(View())[i].conns + 1)]
    {
      conns[i] := conns[i] + 1;
      assert forall k :: 0 <= k < |addrs| && k != i ==> BackendAt(k) == old(BackendAt(k));
    }

    /** The five recordProto functions: they differ only in the counter they raise. */
    method RecordProto(kind: Traffic, idx: int, now: int)
      requires Valid()
      modifies protoStats
      ensures View() == After(old(View()), RoutingSpec.Protocol(kind, idx, now))
    {
      if idx < 0 || idx >= |protoStats| {
        return;
      }
      var s := protoStats[idx];
      match kind {
        case LoginSeen => s.TotalLogins := s.TotalLogins + 1;
        case AckSeen => s.TotalLoginAcks := s.TotalLoginAcks + 1;
        case NackSeen => s.TotalLoginNacks := s.TotalLoginNacks + 1;
        case HeartbeatSeen => s.TotalHeartbeats := s.TotalHeartbeats + 1;
        case TimeoutSeen => s.TotalBackendTimeouts := s.TotalBackendTimeouts + 1;
      }
      s.Touch(now);
      if !kind.LoginSeen? && !kind.HeartbeatSeen? {
        s.BackendHealth := CalcCrashRisk(s.View());
      }
    }

    /** The health check of one backend; probe is what dialling it would give, and reported
        whether it was dialled with success. */
    method CheckBackend(i: nat, now: int, probe: bool) returns (reported: bool)
      requires Valid() && i < |addrs|
      modifies alive, protoStats[i]
      ensures BackendAt(i) == Checked(old(BackendAt(i)), now, probe)
      ensures forall k :: 0 <= k < |addrs| && k != i ==> BackendAt(k) == old(BackendAt(k))
      ensures reported <==> Reports(old(BackendAt(i)), now, probe)
    {
      if !alive[i] {
        if probe {
          alive[i] := true;
          protoStats[i].Reset();
        }
        return probe;
      }
      var health := CalcCrashRisk(protoStats[i].View());
      if health == Down || health == Critical {
        var recovered := protoStats[i].DecayIfIdle(now, MAX_IDLE);
        if recovered {
          return false;
        }
        if probe {
          protoStats[i].Reset();
        }
        return probe;
      }
      return false;
    }
  }

  /** available holds the usable indices below n in ascending order. */
  predicate ListsUsable(r: Route, n: nat, available: seq<nat>)
    requires n <= |r|
  {
    && (forall k :: 0 <= k < |available| ==> available[k] < n && Usable(r[available[k]]))
    && (forall i :: 0 <= i < n && Usable(r[i]) ==> i in available)
    && (forall k, m :: 0 <= k < m < |available| ==> available[k] < available[m])
  }

  function CountAlive(r: Route): nat {
    if r == [] then 0 else CountAlive(r[..|r| - 1]) + if r[|r| - 1].alive then 1 else 0
  }

  function CountShaky(r: Route): nat {
    if r == [] then 0 else CountShaky(r[..|r| - 1]) + if r[|r| - 1].alive && Shaky(r[|r| - 1]) then 1 else 0
  }

  /** The two counts decide the gate. */
  lemma {:induction false} CountsDecide(r: Route)
    ensures CountShaky(r) <= CountAlive(r)
    ensures CountAlive(r) > 0 <==> exists i :: 0 <= i < |r| && r[i].alive
    ensures CountShaky(r) == CountAlive(r) <==> forall i :: 0 <= i < |r| && r[i].alive ==> Shaky(r[i])
  {
    if r != [] {
      var n := |r| - 1;
      CountsDecide(r[..n]);
      if CountAlive(r[..n]) > 0 {
        var i :| 0 <= i < n && r[..n][i].alive;
        assert r[i].alive;
      }
      assert forall i :: 0 <= i < n ==> r[..n][i] == r[i];
    }
  }
}
