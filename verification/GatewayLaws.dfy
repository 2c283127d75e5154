/**
 What becomes of a connection attempt and of a relayed connection, told in the bans in force, the
 requests accepted before, and literal bytes, without the functions that compute it.
*/
module GatewayLaws {
  import opened Wrappers
  import opened Sequences
  import opened FilterSpec
  import opened GatewaySpec
  import opened Relay
  import opened RelayLaws
  import L = LimiterSpec
  import LR = LimiterRuns
  import B = BlacklistSpec
  import BN = BanRuns
  import BL = BlacklistLaws
  import GR = GatewayRuns
  import GB = GatewayBooks
  import R = RoutingSpec
  import RL = RoutingLaws
  import M = MonitorSpec
  import P = Protocol

  // ---------- The filters ----------

  /** Some ban that is meant for the connection is in force. */
  ghost predicate Banned(l: B.Lists, ip: string, uid: int, now: int) {
    exists t :: BN.Meant(t, ip, uid) && BN.InForce(l, t, now)
  }

  /** The outcome of an attempt at any point of any run, and all it leaves behind. A whitelisted
      address passes whatever bans and limits there are. Any other is refused by a ban iff one
      that is meant for it is in force; else by the limiter iff its past says so; else admitted.
      Only an admission is remembered by the limiter, and only a limiter refusal is noted as a
      reject; the other two outcomes change nothing at all. */
  lemma {:induction false} AttemptOutcome(lc: L.Config, bc: B.Config, start: int, tr: seq<GR.World>, ops: seq<GR.Op>,
                                          n: nat)
    requires GR.Behaviour(lc, bc, start, tr, ops) && n < |ops| && ops[n].Attempt?
    ensures var ip, uid, at, w, w' := ops[n].ip, ops[n].uid, ops[n].at, tr[n], tr[n + 1];
            var outcome, req := Decision(lc, w.f, ip, uid, at), L.Request(ip, uid, false, at);
            var white, banned := ip in w.f.sys.lists.white, Banned(w.f.sys.lists, ip, uid, at);
            var verdict := L.HistoryVerdict(lc, w.log, req);
            && (outcome.Whitelisted? <==> white)
            && (outcome.RefusedByBan? <==> !white && banned)
            && (outcome.RefusedByLimit? <==> !white && !banned && verdict.Refused?)
            && (outcome.RefusedByLimit? ==> outcome.verdict == verdict)
            && (outcome.Admitted? <==> !white && !banned && verdict.Allowed?)
            && (white || banned ==> w' == w)
            && (!white && !banned ==> if verdict.Allowed? then w'.log == w.log + [L.Accepted(req)] && w'.past == w.past
                                      else w'.log == w.log && w'.past == w.past + [B.Reject(ip, uid, at)])
  {
    var ip, uid, at, w := ops[n].ip, ops[n].uid, ops[n].at, tr[n];
    GR.AlwaysSound(lc, bc, start, tr, ops, n);
    GR.BehaviourSteps(lc, bc, start, tr, ops, n);
    LR.VerdictsAgree(lc, w.f.tables, w.log, GR.ClockAt(start, ops, n), L.Request(ip, uid, false, at));
    BL.BlockedIffBanned(w.f.sys.lists, ip, uid, at);
  }

  lemma WhiteStep(lc: L.Config, bc: B.Config, w: GR.World, op: GR.Op, w': GR.World, ip: string)
    requires GR.Step(lc, bc, w, op, w') && !GR.Restarts(op) && ip in w.f.sys.lists.white
    ensures ip in w'.f.sys.lists.white
  {
  }

  lemma {:induction false} WhiteStays(lc: L.Config, bc: B.Config, start: int, tr: seq<GR.World>, ops: seq<GR.Op>,
                                      i: nat, n: nat, ip: string)
    requires GR.Behaviour(lc, bc, start, tr, ops) && i <= n <= |ops| && ip in tr[i].f.sys.lists.white
    requires forall k :: i <= k < n ==> !GR.Restarts(ops[k])
    ensures ip in tr[n].f.sys.lists.white
    decreases n
  {
    if i < n {
      var k := n - 1;
      WhiteStays(lc, bc, start, tr, ops, i, k, ip);
      GR.BehaviourSteps(lc, bc, start, tr, ops, k);
      WhiteStep(lc, bc, tr[k], ops[k], tr[k + 1], ip);
    }
  }

  /** Once an address has been whitelisted, and until a restart, every attempt from it passes and
      leaves no trace, whatever bans and limits exist and whatever else happens. */
  lemma {:induction false} WhitelistedAlwaysPasses(lc: L.Config, bc: B.Config, start: int, tr: seq<GR.World>,
                                                   ops: seq<GR.Op>, i: nat, n: nat, ip: string, note: string, at: int)
    requires GR.Behaviour(lc, bc, start, tr, ops) && i < n < |ops|
    requires ops[i] == GR.Blacklist(B.AddWhite(ip, note, at)) && forall k :: i < k < n ==> !GR.Restarts(ops[k])
    requires ops[n].Attempt? && ops[n].ip == ip
    ensures Decision(lc, tr[n].f, ip, ops[n].uid, ops[n].at) == Whitelisted && !Refused(Whitelisted)
    ensures tr[n + 1] == tr[n]
  {
    var j := i + 1;
    GR.BehaviourSteps(lc, bc, start, tr, ops, i);
    BL.WhitelistingWrites(bc, tr[i].f.sys.lists, ip, note, at);
    WhiteStays(lc, bc, start, tr, ops, j, n, ip);
    AttemptOutcome(lc, bc, start, tr, ops, n);
  }

  // ---------- The traffic of a relayed connection ----------

  /** The chunks handed to the backend and to the client, a last failing write included. */
  function Up(c: Conn, up: Transfer): seq<seq<byte>> {
    var chunks := ClientChunks(c.script.first, c.script.client);
    if up.written <= |chunks| then chunks[..up.written] else chunks
  }

  function Down(c: Conn, down: Transfer): seq<seq<byte>> {
    var chunks := Chunks(c.script.backend);
    if down.written <= |chunks| then chunks[..down.written] else chunks
  }

  /** The backend's stream broke off while it was being relayed. */
  predicate Breaks(c: Conn, down: Transfer) {
    !(c.script.first.data != [] && 0 < |c.script.toBackend| && c.script.toBackend[0].Failed?)
    && !down.failed && BreaksOff(c.script.backend)
  }

  lemma {:induction false} TrafficEvents(idx: nat, events: seq<R.Traffic>, now: int, i: nat, kind: R.Traffic)
    ensures var ops := GB.TrafficOps(idx, events, now);
            && RL.NoTicks(ops) && RL.EventsOf(ops, i, kind) == (if i == idx then Number(events, kind) else 0)
            && RL.LastEvent(ops, i) == if i == idx && events != [] then Some(now) else None
  {
    if events != [] {
      var n := |events| - 1;
      TrafficEvents(idx, events[..n], now, i, kind);
    }
  }

  /** What relaying counts at the backend: as many logins as chunks of at least twenty bytes went
      up, as many refusals, acknowledgements and heartbeats as chunks that start with the bytes of
      each came down, and one broken stream if it broke. */
  predicate CountedTraffic(s: P.Stats, s': P.Stats, c: Conn, up: Transfer, down: Transfer) {
    && s'.logins == s.logins + LoginSized(Up(c, up))
    && s'.nacks == s.nacks + StartingWith(Down(c, down), [3, 0, 2, 0])
    && s'.acks == s.acks + StartingWith(Down(c, down), [3, 0, 1, 0])
    && s'.heartbeats == s.heartbeats + StartingWith(Down(c, down), [3, 0, 7, 0])
    && s'.timeouts == s.timeouts + (if Breaks(c, down) then 1 else 0)
    && s'.heartbeatResponses == s.heartbeatResponses && s'.responses == s.responses
    && s'.last == if s'.logins == s.logins && s'.nacks == s.nacks && s'.acks == s.acks
                     && s'.heartbeats == s.heartbeats && s'.timeouts == s.timeouts then s.last else Some(c.now)
  }

  lemma EventsOfExchange(c: Conn, idx: nat, up: Transfer, down: Transfer, events: seq<R.Traffic>)
    requires Exchanged(c.script, idx, up, down, events)
    ensures Number(events, R.LoginSeen) == LoginSized(Up(c, up))
    ensures Number(events, R.NackSeen) == StartingWith(Down(c, down), [3, 0, 2, 0])
    ensures Number(events, R.AckSeen) == StartingWith(Down(c, down), [3, 0, 1, 0])
    ensures Number(events, R.HeartbeatSeen) == StartingWith(Down(c, down), [3, 0, 7, 0])
    ensures Number(events, R.TimeoutSeen) == if Breaks(c, down) then 1 else 0
  {
    var sniffed := Collected(ClientSniff, Up(c, up));
    var replies := events[|sniffed|..];
    assert events == sniffed + replies;
    LoginsAreCounted(Up(c, up));
    forall kind
      ensures Number(events, kind) == Number(sniffed, kind) + Number(replies, kind)
    {
      NumberAppend(sniffed, replies, kind);
    }
    RepliesOfExchange(c, idx, up, down, events, replies);
  }

  lemma RepliesOfExchange(c: Conn, idx: nat, up: Transfer, down: Transfer, events: seq<R.Traffic>,
                          replies: seq<R.Traffic>)
    requires Exchanged(c.script, idx, up, down, events)
    requires replies == events[|Collected(ClientSniff, Up(c, up))|..]
    ensures Number(replies, R.LoginSeen) == 0
    ensures Number(replies, R.NackSeen) == StartingWith(Down(c, down), [3, 0, 2, 0])
    ensures Number(replies, R.AckSeen) == StartingWith(Down(c, down), [3, 0, 1, 0])
    ensures Number(replies, R.HeartbeatSeen) == StartingWith(Down(c, down), [3, 0, 7, 0])
    ensures Number(replies, R.TimeoutSeen) == if Breaks(c, down) then 1 else 0
  {
    var seen := Collected(BackendSniff, Down(c, down));
    RepliesAreCounted(Down(c, down));
    BrokenIsBreaksOff(c.script.backend);
    if Breaks(c, down) {
      assert replies == seen + [R.TimeoutSeen];
      forall kind
        ensures Number(replies, kind) == Number(seen, kind) + if kind == R.TimeoutSeen then 1 else 0
      {
        NumberAppend(seen, [R.TimeoutSeen], kind);
        NumberOfOne(R.TimeoutSeen, kind);
      }
    } else {
      assert seen + [] == seen;
      assert replies == seen;
    }
  }

  lemma {:induction false} TrafficStaysAt(r: R.Route, idx: nat, events: seq<R.Traffic>, now: int)
    requires idx < |r|
    ensures var r' := R.Trafficked(r, idx, events, now);
            && r'[idx] == r[idx].(stats := r'[idx].stats)
            && forall i :: 0 <= i < |r| && i != idx ==> r'[i] == r[i]
  {
    if events != [] {
      TrafficStaysAt(r, idx, events[..|events| - 1], now);
    }
  }

  lemma TrafficIsNumbered(r: R.Route, idx: nat, c: Conn, up: Transfer, down: Transfer, events: seq<R.Traffic>)
    requires idx < |r| && Exchanged(c.script, idx, up, down, events)
    ensures CountedTraffic(r[idx].stats, R.Trafficked(r, idx, events, c.now)[idx].stats, c, up, down)
  {
    var ops := GB.TrafficOps(idx, events, c.now);
    GB.TraffickedIsRun(r, idx, events, c.now);
    forall kind
      ensures RL.NoTicks(ops) && RL.EventsOf(ops, idx, kind) == Number(events, kind)
      ensures RL.LastEvent(ops, idx) == if events != [] then Some(c.now) else None
    {
      TrafficEvents(idx, events, c.now, idx, kind);
    }
    assert RL.EventsOf(ops, idx, R.LoginSeen) == Number(events, R.LoginSeen);
    RL.TrafficIsCounted(r, ops, idx);
    EventsOfExchange(c, idx, up, down, events);
    SomeEvent(events);
  }

  lemma {:induction false} SomeEvent(events: seq<R.Traffic>)
    ensures events != [] <==> exists kind: R.Traffic :: Number(events, kind) > 0
  {
    if events != [] {
      assert Number(events, events[|events| - 1]) > 0;
    }
  }

  /** The strategy chose a backend with this address. */
  ghost predicate Chose(r: R.Route, strategy: R.Strategy, addr: string) {
    exists choice: nat :: choice < |r| && R.MaySelect(r, strategy, Some(choice)) && r[choice].addr == addr
  }

  predicate FirstWith(r: R.Route, addr: string, idx: int) {
    0 <= idx < |r| && r[idx].addr == addr && forall j :: 0 <= j < idx ==> r[j].addr != addr
  }

  lemma PlacedIsCounted(s: Site, s1: Site, strategy: R.Strategy, c: Conn, addr: string, idx: int)
    requires Placed(s, s1, strategy, c, addr, idx) && addr != "" && c.dialOk
    ensures Chose(s.r, strategy, addr) && FirstWith(s.r, addr, idx)
    ensures s1.r == s.r[idx := s.r[idx].(conns := s.r[idx].conns + 1)] && s1.f == s.f
    ensures var info := M.InfoOf(s.m, addr);
            s1.m == s.m[addr := info.(total := info.total + 1, active := info.active + 1)]
  {
    var choice :| R.MaySelect(s.r, strategy, choice) && addr == R.AddrOf(s.r, choice) && PlacedTo(s, s1, c, addr, idx);
    assert choice.Some?;
  }

  /** A relayed connection is counted at the first backend with the address it was placed at, which
      the strategy chose: one connection, and the traffic that went through. No other backend
      changes. The monitor counts one connection of that address. */
  lemma RelayedIsCounted(s: Site, s': Site, strategy: R.Strategy, c: Conn, addr: string, idx: int, up: Transfer,
                         down: Transfer, events: seq<R.Traffic>)
    requires Routed(s, s', strategy, c, Relayed(addr, idx, up, down, events))
    ensures c.dialOk && Chose(s.r, strategy, addr) && FirstWith(s.r, addr, idx) && |s'.r| == |s.r|
    ensures var b, b' := s.r[idx], s'.r[idx];
            b' == b.(conns := b.conns + 1, stats := b'.stats) && CountedTraffic(b.stats, b'.stats, c, up, down)
    ensures forall i :: 0 <= i < |s.r| && i != idx ==> s'.r[i] == s.r[i]
    ensures s'.f == s.f && var info := M.InfoOf(s.m, addr);
            s'.m == s.m[addr := info.(total := info.total + 1, active := info.active + 1)]
  {
    var s1 :| Placed(s, s1, strategy, c, addr, idx) && s' == s1.(r := R.Trafficked(s1.r, idx, events, c.now));
    PlacedIsCounted(s, s1, strategy, c, addr, idx);
    TrafficStaysAt(s1.r, idx, events, c.now);
    TrafficIsNumbered(s1.r, idx, c, up, down, events);
  }

  /** A failed dial marks the first backend with that address dead, in the route and in the
      monitor, so that it is not chosen again, and changes nothing else. */
  lemma FailedDialIsMarked(s: Site, s': Site, strategy: R.Strategy, c: Conn, addr: string)
    requires Routed(s, s', strategy, c, DialFailed(addr))
    ensures !c.dialOk && Chose(s.r, strategy, addr)
    ensures exists i :: FirstWith(s.r, addr, i) && s'.r == s.r[i := s.r[i].(alive := false)]
    ensures s'.f == s.f && var info := M.InfoOf(s.m, addr);
            s'.m == s.m[addr := info.(fails := 1, alive := false, lastCheck := Some(c.now))]
  {
    var choice :| R.MaySelect(s.r, strategy, choice) && addr == R.AddrOf(s.r, choice) && PlacedTo(s, s', c, addr, -1);
    var i := R.FirstAt(s.r, addr).value;
    assert FirstWith(s.r, addr, i) && s'.r == s.r[i := s.r[i].(alive := false)];
  }

  /** Without a usable backend nothing changes. */
  lemma NoBackendChangesNothing(s: Site, s': Site, strategy: R.Strategy, c: Conn)
    requires Routed(s, s', strategy, c, NoBackend) && forall i :: 0 <= i < |s.r| ==> s.r[i].addr != ""
    ensures s' == s && forall i :: 0 <= i < |s.r| ==> !s.r[i].alive || P.CalcCrashRisk(s.r[i].stats) == P.Down
  {
  }

  // ---------- A backend that refuses logins ----------

  function Times<T>(x: T, n: nat): seq<T> {
    seq(n, _ => x)
  }

  lemma {:induction false} TimesOf(c: seq<byte>, head: seq<byte>, n: nat)
    ensures LoginSized(Times(c, n)) == if |c| >= 20 then n else 0
    ensures StartingWith(Times(c, n), head) == if |c| >= 4 && c[..4] == head then n else 0
  {
    if n > 0 {
      assert Times(c, n)[..n - 1] == Times(c, n - 1);
      TimesOf(c, head, n - 1);
    }
  }

  /** A fresh backend through which five or more login-sized chunks went, and that refused half of
      them or more, is Critical afterwards. */
  lemma RefusingBackendTurnsCritical(s: P.Stats, s': P.Stats, c: Conn, up: Transfer, down: Transfer)
    requires s == P.ZERO_STATS && CountedTraffic(s, s', c, up, down)
    requires LoginSized(Up(c, up)) >= 5 && 2 * StartingWith(Down(c, down), [3, 0, 2, 0]) >= LoginSized(Up(c, up))
    ensures P.CalcCrashRisk(s') == P.Critical
  {
    RL.RiskIsRead(s');
    assert RL.Failing(s') <==> P.CalcCrashRisk(s') in {P.Critical, P.Down};
  }

  lemma {:induction false} ChunksOfTimes(data: seq<byte>, n: nat)
    requires data != []
    ensures Chunks(Times(ReadResult(data, None), n)) == Times(data, n)
  {
    if n > 0 {
      var script := Times(ReadResult(data, None), n);
      assert script[1..] == Times(ReadResult(data, None), n - 1);
      ChunksOfTimes(data, n - 1);
      assert [data] + Times(data, n - 1) == Times(data, n);
    }
  }

  lemma WrittenAll(c: Conn, idx: int, up: Transfer, down: Transfer, events: seq<R.Traffic>)
    requires Exchanged(c.script, idx, up, down, events) && c.script.toBackend == [] == c.script.toClient
    ensures Up(c, up) == ClientChunks(c.script.first, c.script.client) && Down(c, down) == Chunks(c.script.backend)
  {
    var chunks := ClientChunks(c.script.first, c.script.client);
    WholeWritesAreCounted(chunks, [], up.out, up.count, up.written, up.failed);
    WholeWritesAreCounted(Chunks(c.script.backend), [], down.out, down.count, down.written, down.failed);
    assert chunks[..|chunks|] == chunks;
  }

  lemma LoginsAndRefusals(c: Conn, login: seq<byte>, refusal: seq<byte>, n: nat, idx: int, up: Transfer,
                          down: Transfer, events: seq<R.Traffic>)
    requires |login| >= 20 && |refusal| == 4 && c.script.toBackend == [] == c.script.toClient
    requires c.script.first == ReadResult(login, None) && c.script.client == Times(ReadResult(login, None), n)
    requires c.script.backend == Times(ReadResult(refusal, None), n + 1)
    requires Exchanged(c.script, idx, up, down, events)
    ensures LoginSized(Up(c, up)) == StartingWith(Down(c, down), refusal) == n + 1
  {
    ChunksOfTimes(login, n);
    ChunksOfTimes(refusal, n + 1);
    assert [login] + Times(login, n) == Times(login, n + 1);
    WrittenAll(c, idx, up, down, events);
    TimesOf(login, [], n + 1);
    TimesOf(refusal, refusal, n + 1);
    assert refusal[..4] == refusal;
  }

  /** For one: a single fresh backend, a client that logs in five times or more in twenty-byte
      packets, and as many replies 3, 0, 2, 0. Once this is relayed the gate is closed. */
  lemma RefusedLoginsCloseGate(s: Site, s': Site, strategy: R.Strategy, c: Conn, n: nat, addr: string, idx: int,
                               up: Transfer, down: Transfer, events: seq<R.Traffic>)
    requires |s.r| == 1 && s.r[0].alive && s.r[0].stats == P.ZERO_STATS && n >= 4
    requires c.script.toBackend == [] == c.script.toClient && c.script.first == ReadResult(Times(0, 20), None)
    requires c.script.client == Times(c.script.first, n)
    requires c.script.backend == Times(ReadResult([3, 0, 2, 0], None), n + 1)
    requires Routed(s, s', strategy, c, Relayed(addr, idx, up, down, events))
    ensures R.GateClosed(s'.r)
  {
    LoginsAndRefusals(c, Times(0, 20), [3, 0, 2, 0], n, idx, up, down, events);
    RelayedIsCounted(s, s', strategy, c, addr, idx, up, down, events);
    RefusingBackendTurnsCritical(s.r[0].stats, s'.r[0].stats, c, up, down);
    assert s'.r[0].alive && R.Shaky(s'.r[0]);
  }
}
