/** What the route, the monitor and the log say about the sockets the gateway accepted. */
module GatewayBooks {
  import opened Sequences
  import opened FilterSpec
  import opened GatewaySpec
  import opened Relay
  import R = RoutingSpec
  import RR = RoutingRuns
  import M = MonitorSpec
  import An = Analyzer
  import L = LimiterSpec

  // ---------- The route ----------

  function TrafficOps(idx: int, events: seq<R.Traffic>, now: int): (ops: seq<R.Op>)
    ensures |ops| == |events| && forall i :: 0 <= i < |events| ==> ops[i] == R.Protocol(events[i], idx, now)
  {
    if events == [] then []
    else TrafficOps(idx, events[..|events| - 1], now) + [R.Protocol(events[|events| - 1], idx, now)]
  }

  lemma {:induction false} TraffickedIsRun(r: R.Route, idx: int, events: seq<R.Traffic>, now: int)
    ensures R.Trafficked(r, idx, events, now) == RR.Run(r, TrafficOps(idx, events, now))
  {
    if events != [] {
      var n := |events| - 1;
      TraffickedIsRun(r, idx, events[..n], now);
      RR.RunAppend(r, TrafficOps(idx, events[..n], now), R.Protocol(events[n], idx, now));
    }
  }

  lemma RunOne(r: R.Route, op: R.Op)
    ensures RR.Run(r, [op]) == R.After(r, op)
  {
    assert [op][..0] == [];
  }

  /** Routing a connection is a run of the route: any connection it counts goes where the strategy
      chose, and traffic is counted only after that, of the same backend. */
  lemma {:induction false} RoutedIsRun(s: Site, s': Site, strategy: R.Strategy, c: Conn, handled: Handled)
    returns (ops: seq<R.Op>)
    requires Routed(s, s', strategy, c, handled)
    ensures s'.r == RR.Run(s.r, ops) && RR.Driven(s.r, strategy, ops) && RR.TrafficFollows(s.r, ops)
  {
    match handled
    case NoBackend => ops := [];
    case DialFailed(addr) =>
      ops := [R.MarkDown(addr)];
      RunOne(s.r, ops[0]);
    case Relayed(addr, idx, _, _, events) =>
      var s1 :| Placed(s, s1, strategy, c, addr, idx) && s' == s1.(r := R.Trafficked(s1.r, idx, events, c.now));
      ops := PlacedThenTraffic(s, s1, strategy, c, addr, idx, events);
  }

  lemma {:induction false} PlacedThenTraffic(s: Site, s1: Site, strategy: R.Strategy, c: Conn, addr: string, idx: int,
                                             events: seq<R.Traffic>) returns (ops: seq<R.Op>)
    requires Placed(s, s1, strategy, c, addr, idx) && addr != "" && c.dialOk
    ensures R.Trafficked(s1.r, idx, events, c.now) == RR.Run(s.r, ops)
    ensures RR.Driven(s.r, strategy, ops) && RR.TrafficFollows(s.r, ops)
  {
    var traffic := TrafficOps(idx, events, c.now);
    ops := [R.Connected(addr)] + traffic;
    RunOne(s.r, R.Connected(addr));
    RR.RunSplits(s.r, [R.Connected(addr)], traffic);
    TraffickedIsRun(s1.r, idx, events, c.now);
    forall k | 0 <= k < |ops| && ops[k].Connected?
      ensures RR.ChosenBy(RR.Run(s.r, ops[..k]), strategy, ops[k].addr)
    {
      assert k == 0 && ops[..0] == [];
    }
    forall k | 0 <= k < |ops| && ops[k].Protocol? && 0 <= ops[k].idx < |s.r|
      ensures exists j :: 0 <= j < k && ops[j] == R.Connected(s.r[ops[k].idx].addr)
    {
      assert ops[k].idx == idx && s1.r[idx].addr == addr == s.r[idx].addr;
      assert 0 < k && ops[0] == R.Connected(addr);
    }
  }

  /** An open gate leaves an admitted connection without a backend only if none is alive. */
  lemma OpenGateFindsBackend(s: Site, s': Site, strategy: R.Strategy, c: Conn, handled: Handled)
    requires Routed(s, s', strategy, c, handled) && !R.GateClosed(s.r)
    requires forall i :: 0 <= i < |s.r| ==> s.r[i].addr != ""
    ensures handled.NoBackend? <==> forall i :: 0 <= i < |s.r| ==> !s.r[i].alive
  {
  }

  // ---------- The monitor ----------

  /** Every accepted socket is booked exactly once, at its port and globally, and the totals go
      on adding up. */
  lemma BookedOnce(s: M.State, port: string, handled: Handled)
    ensures var relayed := handled.Relayed?;
            var read, written := if relayed then handled.up.count else 0, if relayed then handled.down.count else 0;
            M.Adds(s, Booked(s, port, handled), port,
                   M.Totals(if handled.BackendCritical? then 0 else 1, 0, if relayed then 0 else 1, read, written))
  {
    if handled.BackendCritical? {
      M.AfterAdds(s, M.Reject(port));
    } else if handled.Relayed? {
      var s1 := M.After(s, M.Open(port));
      M.AfterAdds(s, M.Open(port));
      BookClose(s, s1, port, M.OPENED, Share(handled), handled.up.count, handled.down.count);
    } else {
      BookRefused(s, port, Share(handled));
    }
  }

  lemma BookRefused(s: M.State, port: string, t: M.Totals)
    requires t == M.Totals(1, 0, 1, 0, 0)
    ensures M.Adds(s, M.After(M.After(M.After(s, M.Open(port)), M.Reject(port)), M.Close(port, 0, 0)), port, t)
  {
    var s1 := M.After(s, M.Open(port));
    M.AfterAdds(s, M.Open(port));
    M.AfterAdds(s1, M.Reject(port));
    var both := M.Totals(1, 1, 1, 0, 0);
    M.AddsTwice(s, s1, M.After(s1, M.Reject(port)), port, M.OPENED, M.REJECTED, both);
    BookClose(s, M.After(s1, M.Reject(port)), port, both, t, 0, 0);
  }

  lemma BookClose(s: M.State, s1: M.State, port: string, t1: M.Totals, t: M.Totals, read: int,
                  written: int)
    requires M.Adds(s, s1, port, t1) && port in s1.ports
    requires t == M.Totals(t1.conns, t1.active - 1, t1.rejects, t1.bytesRead + read, t1.bytesWritten + written)
    ensures M.Adds(s, M.After(s1, M.Close(port, read, written)), port, t)
  {
    M.AfterAdds(s1, M.Close(port, read, written));
    M.AddsTwice(s, s1, M.After(s1, M.Close(port, read, written)), port, t1, M.Closed(read, written), t);
  }

  // ---------- The log ----------

  // An accepted socket and what became of it.
  datatype Socket = Socket(c: Conn, handled: Handled)

  predicate RefusedFrom(k: Socket, who: string) {
    k.handled.Rejected? && k.c.ip == who
  }

  /** What is logged as rejected was refused by a filter. */
  predicate Proper(k: Socket) {
    k.handled.Rejected? ==>
      Refused(k.handled.outcome) && (k.handled.outcome.RefusedByLimit? ==> k.handled.outcome.verdict.Refused?)
  }

  /** A socket is logged when a filter refuses it or it is relayed, by one line with its time,
      address and uid. Only a refusal has a reason: "blacklist" or the limiter's text. */
  lemma LineTells(k: Socket)
    requires Proper(k)
    ensures var lines, h := Lines(k.c, k.handled), k.handled;
            && |lines| == (if h.Rejected? || h.Relayed? then 1 else 0)
            && forall e :: e in lines ==>
                 && e.timestamp == k.c.now && e.clientIP == k.c.ip && e.userIdx == SniffedUid(k.c.script.first.data)
                 && e.state == 4 && e.bytesRead == e.bytesWrite == 0
                 && e.action == (if h.Relayed? then "connect" else "rejected")
                 && (h.Relayed? ==> e.rejectReason == "")
                 && (h.Rejected? && h.outcome.RefusedByBan? ==> e.rejectReason == "blacklist")
                 && (h.Rejected? && h.outcome.RefusedByLimit? ==> e.rejectReason == L.ReasonText(h.outcome.verdict))
                 && (h.Rejected? <==> e.rejectReason != "")
  {
  }

  predicate IsRejectOf(e: An.Entry, who: string) {
    e.rejectReason != "" && e.clientIP == who
  }

  lemma {:induction false} RejectsFirst(es: seq<An.Entry>, who: string)
    requires es != []
    ensures An.RejectsOf(es, who) == An.RejectsOf(es[1..], who) + One(IsRejectOf(es[0], who))
  {
    var n := |es| - 1;
    if n == 0 {
      assert es[..0] == [] && es[1..] == [];
    } else {
      RejectsFirst(es[..n], who);
      assert es[..n][1..] == es[1..][..n - 1];
    }
  }

  lemma RejectsAppend(es: seq<An.Entry>, k: Socket, who: string)
    requires Proper(k)
    ensures An.RejectsOf(es + Lines(k.c, k.handled), who) == An.RejectsOf(es, who) + One(RefusedFrom(k, who))
  {
    var lines := Lines(k.c, k.handled);
    if lines == [] {
      assert es + lines == es;
    } else {
      assert (es + lines)[..|es|] == es;
    }
  }

  /** The reject count of an address in the log grows by its refused connections and, once the
      log is full, shrinks by the oldest line when that is a reject of the address. */
  lemma RefusalsAreLogged(entries: seq<An.Entry>, max: nat, k: Socket, who: string)
    requires Proper(k) && max > 0 && |entries| <= max
    ensures var lines := Lines(k.c, k.handled);
            var drops := lines != [] && |entries| == max;
            An.RejectsOf(Noted(entries, max, lines), who) ==
            An.RejectsOf(entries, who) + One(RefusedFrom(k, who)) - One(drops && IsRejectOf(entries[0], who))
  {
    var all := entries + Lines(k.c, k.handled);
    RejectsAppend(entries, k, who);
    if Lines(k.c, k.handled) != [] && |entries| == max {
      RejectsFirst(all, who);
      assert An.LastOf(all, max) == all[1..];
    }
  }

  /** The log after these sockets were handled one by one. */
  function LogAfter(ks: seq<Socket>, max: nat): seq<An.Entry> {
    if ks == [] then []
    else Noted(LogAfter(ks[..|ks| - 1], max), max, Lines(ks[|ks| - 1].c, ks[|ks| - 1].handled))
  }

  function LinesOfOne(k: Socket): seq<An.Entry> {
    Lines(k.c, k.handled)
  }

  /** All lines they gave rise to. */
  function LinesOf(ks: seq<Socket>): seq<An.Entry> {
    Collected(LinesOfOne, ks)
  }

  /** How many of them were refused from this address. */
  function RefusedIn(ks: seq<Socket>, who: string): nat {
    if ks == [] then 0 else RefusedIn(ks[..|ks| - 1], who) + if RefusedFrom(ks[|ks| - 1], who) then 1 else 0
  }

  lemma NotedIsLast(es: seq<An.Entry>, max: nat, lines: seq<An.Entry>)
    requires |lines| <= 1
    ensures Noted(An.LastOf(es, max), max, lines) == An.LastOf(es + lines, max)
  {
    if lines == [] {
      assert es + lines == es;
    } else {
      assert lines == [lines[0]];
      An.LastOfAppend(es, lines[0], max);
    }
  }

  lemma {:induction false} LogIsLast(ks: seq<Socket>, max: nat)
    ensures LogAfter(ks, max) == An.LastOf(LinesOf(ks), max)
  {
    if ks != [] {
      var n := |ks| - 1;
      LogIsLast(ks[..n], max);
      NotedIsLast(LinesOf(ks[..n]), max, LinesOfOne(ks[n]));
    }
  }

  /** The last n lines are all the lines of the latest sockets. */
  lemma {:induction false} LatestLines(ks: seq<Socket>, n: nat) returns (k: nat)
    requires n <= |LinesOf(ks)|
    ensures k <= |ks| && LinesOf(ks[k..]) == LinesOf(ks)[|LinesOf(ks)| - n..]
    ensures n == |LinesOf(ks)| ==> k == 0
  {
    if n == |LinesOf(ks)| {
      k := 0;
      assert ks[0..] == ks;
    } else {
      CollectedFirst(LinesOfOne, ks[0], ks[1..]);
      assert [ks[0]] + ks[1..] == ks;
      var rest := LatestLines(ks[1..], n);
      k := rest + 1;
      assert ks[1..][rest..] == ks[k..];
    }
  }

  lemma {:induction false} LinesCountRefusals(ks: seq<Socket>, who: string)
    requires forall i :: 0 <= i < |ks| ==> Proper(ks[i])
    ensures An.RejectsOf(LinesOf(ks), who) == RefusedIn(ks, who)
  {
    if ks != [] {
      var n := |ks| - 1;
      LinesCountRefusals(ks[..n], who);
      RejectsAppend(LinesOf(ks[..n]), ks[n], who);
    }
  }

  /** The log holds exactly the lines of the latest sockets, and is full if any were dropped. So
      its reject counts are the refusals among exactly those. */
  lemma LogIsOfTheLatest(ks: seq<Socket>, max: nat) returns (k: nat)
    requires forall i :: 0 <= i < |ks| ==> Proper(ks[i])
    ensures k <= |ks| && LogAfter(ks, max) == LinesOf(ks[k..]) && (k > 0 ==> |LogAfter(ks, max)| == max)
    ensures forall who :: An.RejectsOf(LogAfter(ks, max), who) == RefusedIn(ks[k..], who)
  {
    LogIsLast(ks, max);
    var lines := LinesOf(ks);
    k := LatestLines(ks, if |lines| > max then max else |lines|);
    forall who
      ensures An.RejectsOf(LinesOf(ks[k..]), who) == RefusedIn(ks[k..], who)
    {
      LinesCountRefusals(ks[k..], who);
    }
  }

  /** It began at or after the cutoff, from this address, "" standing for every address. */
  predicate Asked(k: Socket, who: string, cutoff: int) {
    k.c.now >= cutoff && (who == "" || k.c.ip == who)
  }

  /** How many of these sockets were logged. */
  function LoggedSince(ks: seq<Socket>, who: string, cutoff: int): nat {
    if ks == [] then 0
    else
      var k := ks[|ks| - 1];
      LoggedSince(ks[..|ks| - 1], who, cutoff)
      + if Asked(k, who, cutoff) && (k.handled.Rejected? || k.handled.Relayed?) then 1 else 0
  }

  /** And how many refused by a filter. */
  function RefusedSince(ks: seq<Socket>, who: string, cutoff: int): nat {
    if ks == [] then 0
    else
      var k := ks[|ks| - 1];
      RefusedSince(ks[..|ks| - 1], who, cutoff) + if Asked(k, who, cutoff) && k.handled.Rejected? then 1 else 0
  }

  lemma LineAnswersQuery(es: seq<An.Entry>, k: Socket, who: string, cutoff: int)
    requires Proper(k)
    ensures var all, asked := es + LinesOfOne(k), Asked(k, who, cutoff);
            && An.MatchCount(all, who, cutoff) ==
               An.MatchCount(es, who, cutoff) + One(asked && (k.handled.Rejected? || k.handled.Relayed?))
            && An.RejectCount(all, who, cutoff) == An.RejectCount(es, who, cutoff) + One(asked && k.handled.Rejected?)
            && An.BytesRead(all, who, cutoff) == An.BytesRead(es, who, cutoff)
            && An.BytesWrite(all, who, cutoff) == An.BytesWrite(es, who, cutoff)
  {
    LineTells(k);
    var lines := LinesOfOne(k);
    if lines == [] {
      assert es + lines == es;
    } else {
      assert lines[0] in lines && lines == [lines[0]];
      An.CountsAppend(es, lines[0], who, cutoff);
    }
  }

  lemma {:induction false} LinesAnswerQuery(ks: seq<Socket>, who: string, cutoff: int)
    requires forall i :: 0 <= i < |ks| ==> Proper(ks[i])
    ensures An.MatchCount(LinesOf(ks), who, cutoff) == LoggedSince(ks, who, cutoff)
    ensures An.RejectCount(LinesOf(ks), who, cutoff) == RefusedSince(ks, who, cutoff)
    ensures An.BytesRead(LinesOf(ks), who, cutoff) == An.BytesWrite(LinesOf(ks), who, cutoff) == 0
  {
    if ks != [] {
      var n := |ks| - 1;
      LinesAnswerQuery(ks[..n], who, cutoff);
      LineAnswersQuery(LinesOf(ks[..n]), ks[n], who, cutoff);
    }
  }

  /** A frequency query of the log counts exactly those of the latest sockets that began at or after
      the cutoff: all that were logged, and those refused by a filter. The bytes it sums are none,
      as the gateway logs none. */
  lemma QueriesCountSockets(ks: seq<Socket>, max: nat) returns (k: nat)
    requires forall i :: 0 <= i < |ks| ==> Proper(ks[i])
    ensures k <= |ks| && (k > 0 ==> |LinesOf(ks[k..])| == max)
    ensures forall who, cutoff :: An.MatchCount(LogAfter(ks, max), who, cutoff) == LoggedSince(ks[k..], who, cutoff)
    ensures forall who, cutoff :: An.RejectCount(LogAfter(ks, max), who, cutoff) == RefusedSince(ks[k..], who, cutoff)
    ensures forall who, cutoff :: An.BytesRead(LogAfter(ks, max), who, cutoff) == 0
  {
    k := LogIsOfTheLatest(ks, max);
    forall who, cutoff
      ensures An.MatchCount(LogAfter(ks, max), who, cutoff) == LoggedSince(ks[k..], who, cutoff)
      ensures An.RejectCount(LogAfter(ks, max), who, cutoff) == RefusedSince(ks[k..], who, cutoff)
      ensures An.BytesRead(LogAfter(ks, max), who, cutoff) == 0
    {
      LinesAnswerQuery(ks[k..], who, cutoff);
    }
  }

  /** The top attackers of the log are the addresses refused most among the latest sockets. */
  lemma TopAttackersAreRefused(ks: seq<Socket>, max: nat, top: seq<An.Attacker>, n: nat) returns (k: nat)
    requires (forall i :: 0 <= i < |ks| ==> Proper(ks[i])) && An.IsTop(top, LogAfter(ks, max), n)
    ensures k <= |ks| && (k > 0 ==> |LinesOf(ks[k..])| == max)
    ensures forall a :: a in top ==> a.rejects == RefusedIn(ks[k..], a.ip) > 0
    ensures forall a, ip :: a in top && RefusedIn(ks[k..], ip) > 0 && ip !in An.IPs(top)
              ==> RefusedIn(ks[k..], ip) <= a.rejects
  {
    k := LogIsOfTheLatest(ks, max);
    var log := LogAfter(ks, max);
    forall a, ip | a in top && RefusedIn(ks[k..], ip) > 0 && ip !in An.IPs(top)
      ensures RefusedIn(ks[k..], ip) <= a.rejects
    {
      An.AttackersHaveRejects(log, ip);
    }
  }
}
