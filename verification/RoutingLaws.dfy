/**
 What a route does, told from outside: in the events that happened, in counts and rates, and in
 nanoseconds, without the functions that compute it.
*/
module RoutingLaws {
  import opened Wrappers
  import opened Protocol
  import opened RoutingSpec
  import opened RoutingRuns

  // ---------- Risk levels, in rates ----------

  lemma RatioAtLeast(a: int, b: nat, p: nat, q: nat)
    requires b > 0 && q > 0
    ensures a as real / b as real >= p as real / q as real <==> q * a >= p * b
  {
    var x, y := a as real / b as real, p as real / q as real;
    assert a as real == x * b as real && p as real == y * q as real;
    assert (q * a) as real - (p * b) as real == (b as real * q as real) * (x - y);
  }

  /** Refused logins in proportion to logins. */
  function FailRate(s: Stats): real
    requires s.logins > 0
  {
    s.nacks as real / s.logins as real
  }

  /** Heartbeats without an answer in proportion to heartbeats. */
  function LossRate(s: Stats): real
    requires s.heartbeats > 0
  {
    (s.heartbeats - s.heartbeatResponses) as real / s.heartbeats as real
  }

  /** Down: more than ten broken streams and no response. Otherwise, from five logins on, Critical
      when half of them or more were refused and Degraded when three in ten were; and Degraded,
      from three heartbeats on, when three in ten or more were lost. */
  lemma RiskIsRead(s: Stats)
    ensures var down := s.timeouts >= 11 && s.responses == 0;
            var critical := s.logins >= 5 && FailRate(s) >= 0.5;
            var degraded := (s.logins >= 5 && FailRate(s) >= 0.3) || (s.heartbeats >= 3 && LossRate(s) >= 0.3);
            && (CalcCrashRisk(s) == Down <==> down)
            && (CalcCrashRisk(s) == Critical <==> !down && critical)
            && (CalcCrashRisk(s) == Degraded <==> !down && !critical && degraded)
  {
    if s.logins >= 5 {
      RatioAtLeast(s.nacks, s.logins, 1, 2);
      RatioAtLeast(s.nacks, s.logins, 3, 10);
    }
    if s.heartbeats >= 3 {
      RatioAtLeast(s.heartbeats - s.heartbeatResponses, s.heartbeats, 3, 10);
    }
  }

  /** Critical or Down, in counts. */
  predicate Failing(s: Stats) {
    (s.timeouts >= 11 && s.responses == 0) || (s.logins >= 5 && 2 * s.nacks >= s.logins)
  }

  /** The gate is closed iff something is alive and all of it is failing; a backend can be selected
      iff it is alive and not past ten broken streams without a response. */
  lemma GateAndUseInCounts(r: Route)
    ensures GateClosed(r) <==>
            (exists i :: 0 <= i < |r| && r[i].alive) && (forall i :: 0 <= i < |r| && r[i].alive ==> Failing(r[i].stats))
    ensures forall i: nat :: MaySelect(r, Random, Some(i)) <==>
              i < |r| && r[i].alive && (r[i].stats.timeouts <= 10 || r[i].stats.responses > 0)
  {
    assert forall i :: 0 <= i < |r| ==> (Shaky(r[i]) <==> Failing(r[i].stats));
  }

  // ---------- Runs without a health check ----------

  predicate NoTicks(ops: seq<Op>) {
    forall k :: 0 <= k < |ops| ==> !ops[k].Tick?
  }

  /** How many events of this kind were counted at index i. */
  function EventsOf(ops: seq<Op>, i: nat, kind: Traffic): nat {
    if ops == [] then 0
    else
      var op := ops[|ops| - 1];
      EventsOf(ops[..|ops| - 1], i, kind) + if op.Protocol? && op.kind == kind && op.idx == i then 1 else 0
  }

  /** When the last event of any kind was counted at index i. */
  function LastEvent(ops: seq<Op>, i: nat): Option<int> {
    if ops == [] then None
    else
      var op := ops[|ops| - 1];
      if op.Protocol? && op.idx == i then Some(op.now) else LastEvent(ops[..|ops| - 1], i)
  }

  /** The counters of a backend after a run, from those before it and what happened. */
  predicate CountedBy(s: Stats, s': Stats, ops: seq<Op>, i: nat) {
    && s'.logins == s.logins + EventsOf(ops, i, LoginSeen)
    && s'.acks == s.acks + EventsOf(ops, i, AckSeen)
    && s'.nacks == s.nacks + EventsOf(ops, i, NackSeen)
    && s'.heartbeats == s.heartbeats + EventsOf(ops, i, HeartbeatSeen)
    && s'.timeouts == s.timeouts + EventsOf(ops, i, TimeoutSeen)
    && s'.heartbeatResponses == s.heartbeatResponses && s'.responses == s.responses
    && s'.last == if LastEvent(ops, i).Some? then LastEvent(ops, i) else s.last
  }

  /** Between health checks every counter grows by exactly the events of its kind at its index,
      whatever else happens, and the timestamp is that of the last of them. */
  lemma {:induction false} TrafficIsCounted(r: Route, ops: seq<Op>, i: nat)
    requires NoTicks(ops) && i < |r|
    ensures CountedBy(r[i].stats, Run(r, ops)[i].stats, ops, i)
  {
    if ops != [] {
      var n := |ops| - 1;
      TrafficIsCounted(r, ops[..n], i);
      OneEventIsCounted(Run(r, ops[..n]), ops[n], i);
    }
  }

  lemma OneEventIsCounted(r: Route, op: Op, i: nat)
    requires i < |r| && !op.Tick?
    ensures CountedBy(r[i].stats, After(r, op)[i].stats, [op], i)
  {
    assert [op][..0] == [];
    assert forall kind :: EventsOf([op][..0], i, kind) == 0;
  }

  function ConnectionsTo(ops: seq<Op>, addr: string): nat {
    if ops == [] then 0
    else ConnectionsTo(ops[..|ops| - 1], addr) + if ops[|ops| - 1] == Connected(addr) then 1 else 0
  }

  /** And its connections grow by exactly those made to its address, and it is alive iff it was
      and has not been marked down. */
  lemma {:induction false} ConnectionsAreCounted(r: Route, ops: seq<Op>, i: nat)
    requires DistinctAddrs(r) && NoTicks(ops) && i < |r|
    ensures Run(r, ops)[i].conns == r[i].conns + ConnectionsTo(ops, r[i].addr)
    ensures Run(r, ops)[i].alive <==> r[i].alive && MarkDown(r[i].addr) !in ops
  {
    if ops != [] {
      var n := |ops| - 1;
      ConnectionsAreCounted(r, ops[..n], i);
      OneConnectionIsCounted(Run(r, ops[..n]), ops[n], i);
      assert ops == ops[..n] + [ops[n]];
    }
  }

  lemma OneConnectionIsCounted(r: Route, op: Op, i: nat)
    requires DistinctAddrs(r) && i < |r| && !op.Tick?
    ensures After(r, op)[i].conns == r[i].conns + if op == Connected(r[i].addr) then 1 else 0
    ensures After(r, op)[i].alive <==> r[i].alive && op != MarkDown(r[i].addr)
  {
    AddressFindsItsIndex(r, i);
  }

  /** Only acknowledgements, refusals and broken streams refresh the cached health. */
  lemma CachedHealth(s: Stats, kind: Traffic, now: int)
    ensures Seen(s, kind, now).health ==
            if kind == LoginSeen || kind == HeartbeatSeen then s.health else CalcCrashRisk(Seen(s, kind, now))
  {
  }

  lemma FromInitial(r: Route, ops: seq<Op>, i: nat)
    requires Initial(r) && DistinctAddrs(r) && NoTicks(ops) && i < |r|
    ensures var b := Run(r, ops)[i];
            && (b.alive <==> MarkDown(r[i].addr) !in ops)
            && b.stats.responses == 0 && b.stats.timeouts == EventsOf(ops, i, TimeoutSeen)
            && b.stats.logins == EventsOf(ops, i, LoginSeen) && b.stats.nacks == EventsOf(ops, i, NackSeen)
  {
    TrafficIsCounted(r, ops, i);
    ConnectionsAreCounted(r, ops, i);
  }

  /** From the start and between health checks, a backend not marked down can be selected iff it
      has counted at most ten broken streams: by an eleventh every strategy leaves it out. */
  lemma EleventhTimeoutIsDown(r: Route, ops: seq<Op>, i: nat, strategy: Strategy, choice: Option<nat>)
    requires Initial(r) && DistinctAddrs(r) && NoTicks(ops) && i < |r| && MarkDown(r[i].addr) !in ops
    requires MaySelect(Run(r, ops), strategy, choice)
    ensures MaySelect(Run(r, ops), Random, Some(i)) <==> EventsOf(ops, i, TimeoutSeen) <= 10
    ensures EventsOf(ops, i, TimeoutSeen) >= 11 ==> choice != Some(i)
    ensures EventsOf(ops, i, TimeoutSeen) <= 10 ==> choice.Some?
  {
    FromInitial(r, ops, i);
    GateAndUseInCounts(Run(r, ops));
    assert Usable(Run(r, ops)[i]) <==> MaySelect(Run(r, ops), Random, Some(i));
  }

  /** What closes the gate, in events. */
  predicate HasFailed(ops: seq<Op>, i: nat) {
    || EventsOf(ops, i, TimeoutSeen) >= 11
    || (EventsOf(ops, i, LoginSeen) >= 5 && 2 * EventsOf(ops, i, NackSeen) >= EventsOf(ops, i, LoginSeen))
  }

  predicate Standing(r: Route, ops: seq<Op>, i: nat)
    requires i < |r|
  {
    MarkDown(r[i].addr) !in ops
  }

  /** From the start and between health checks, the gate is closed iff some backend was not marked
      down and each of those has counted eleven broken streams, or five logins of which half or
      more were refused. */
  lemma GateClosesExactly(r: Route, ops: seq<Op>)
    requires Initial(r) && DistinctAddrs(r) && NoTicks(ops)
    ensures GateClosed(Run(r, ops)) <==>
            && (exists i :: 0 <= i < |r| && Standing(r, ops, i))
            && (forall i :: 0 <= i < |r| && Standing(r, ops, i) ==> HasFailed(ops, i))
  {
    var r' := Run(r, ops);
    GateAndUseInCounts(r');
    forall i | 0 <= i < |r|
      ensures r'[i].alive <==> Standing(r, ops, i)
      ensures Failing(r'[i].stats) <==> HasFailed(ops, i)
    {
      FromInitial(r, ops, i);
    }
    if i :| 0 <= i < |r| && Standing(r, ops, i) {
      assert r'[i].alive;
    }
    if i :| 0 <= i < |r'| && r'[i].alive {
      assert Standing(r, ops, i);
    }
  }

  // ---------- A health check ----------

  /** How often the counters of a backend are halved by a check: once per half minute without
      traffic, five times at most. */
  function HalvingsDue(s: Stats, now: int): nat {
    if s.last.None? || now - s.last.value < 30_000_000_000 then 0
    else if now - s.last.value >= 150_000_000_000 then 5
    else (now - s.last.value) / 30_000_000_000
  }

  /** s' has the counters of s divided by p, the same timestamp and response count. */
  predicate DividedBy(s: Stats, s': Stats, p: nat)
    requires p > 0
  {
    && s'.logins == s.logins / p && s'.acks == s.acks / p && s'.nacks == s.nacks / p && s'.timeouts == s.timeouts / p
    && s'.heartbeats == s.heartbeats / p && s'.heartbeatResponses == s.heartbeatResponses / p
    && s'.last == s.last && s'.responses == s.responses
  }

  predicate Zeroed(s: Stats) {
    s.logins == s.acks == s.nacks == s.timeouts == s.heartbeats == s.heartbeatResponses == 0
    && s.last.None? && s.health == Normal
  }

  predicate Reached(probes: seq<bool>, i: nat) {
    i < |probes| && probes[i]
  }

  lemma DecayInNumbers(s: Stats, now: int)
    ensures DividedBy(s, Decayed(s, now, MAX_IDLE), Pow2(HalvingsDue(s, now)))
    ensures Idle(s, now, MAX_IDLE) <==> HalvingsDue(s, now) > 0
  {
    if Idle(s, now, MAX_IDLE) {
      DecayLaw(s, now, MAX_IDLE);
      var idle := now - s.last.value;
      assert idle == MAX_IDLE * (idle / MAX_IDLE) + idle % MAX_IDLE;
    }
  }

  /** What a check does to a backend: nothing to a healthy live one or an unreachable dead one; a
      reached dead one comes back zeroed; a live failing one is decayed, and zeroed instead if it
      is reached and that decay alone does not make it Normal. */
  lemma CheckInNumbers(b: Backend, now: int, reached: bool)
    ensures var b' := Checked(b, now, reached);
            var p := Pow2(HalvingsDue(b.stats, now));
            && b'.addr == b.addr && b'.conns == b.conns && (b'.alive <==> b.alive || reached)
            && b'.stats.responses == b.stats.responses
            && (!b.alive && !reached ==> b' == b)
            && (b.alive && !Failing(b.stats) ==> b' == b)
            && (!b.alive && reached ==> Zeroed(b'.stats))
            && (b.alive && Failing(b.stats) && !reached ==> DividedBy(b.stats, b'.stats, p))
            && (b.alive && Failing(b.stats) && reached ==>
                  || Zeroed(b'.stats)
                  || (HalvingsDue(b.stats, now) > 0 && DividedBy(b.stats, b'.stats, p)
                      && CalcCrashRisk(b'.stats) == Normal))
  {
    DecayInNumbers(b.stats, now);
  }

  /** Decay alone makes it Normal. */
  predicate RecoversAlone(s: Stats, now: int) {
    HalvingsDue(s, now) > 0 && CalcCrashRisk(Halved(s, HalvingsDue(s, now))) == Normal
  }

  /** A dead backend is dialled, and a failing live one unless decay alone makes it Normal. */
  predicate Dialled(b: Backend, now: int) {
    !b.alive || (Failing(b.stats) && !RecoversAlone(b.stats, now))
  }

  /** A check that reaches a backend it dials leaves it alive and zeroed, and only that is
      reported. */
  lemma ReachedIsZeroed(b: Backend, now: int, reached: bool)
    ensures Dialled(b, now) && reached ==> Zeroed(Checked(b, now, true).stats) && Checked(b, now, true).alive
    ensures Reports(b, now, reached) <==> Dialled(b, now) && reached
  {
    DecayInNumbers(b.stats, now);
    if Idle(b.stats, now, MAX_IDLE) {
      var idle := now - b.stats.last.value;
      assert idle == MAX_IDLE * (idle / MAX_IDLE) + idle % MAX_IDLE;
      assert Rounds(idle, MAX_IDLE) == HalvingsDue(b.stats, now);
    }
  }

  lemma TickIsCheck(r: Route, now: int, probes: seq<bool>, i: nat)
    requires i < |r|
    ensures After(r, Tick(now, probes))[i] == Checked(r[i], now, Reached(probes, i))
  {
  }

  /** For every route and tick: a backend that the check reaches is alive and neither Critical nor
      Down afterwards, whatever it was before. */
  lemma ReachedIsHealthy(r: Route, now: int, probes: seq<bool>, i: nat)
    requires i < |r| && Reached(probes, i)
    ensures var b := After(r, Tick(now, probes))[i];
            b.alive && CalcCrashRisk(b.stats) != Critical && CalcCrashRisk(b.stats) != Down
  {
    TickIsCheck(r, now, probes, i);
    CheckInNumbers(r[i], now, true);
  }

  /** So after a tick that reaches any backend the gate is open and every strategy answers. */
  lemma ReachingTickOpensGate(r: Route, now: int, probes: seq<bool>, i: nat, strategy: Strategy, choice: Option<nat>)
    requires i < |r| && Reached(probes, i) && MaySelect(After(r, Tick(now, probes)), strategy, choice)
    ensures !GateClosed(After(r, Tick(now, probes))) && choice.Some?
  {
    ReachedIsHealthy(r, now, probes, i);
    var b := After(r, Tick(now, probes))[i];
    assert b.alive && !Shaky(b) && Usable(b);
  }

  /** Five refused logins at time 0 close the gate of a single backend. A tick ten seconds later
      that reaches it opens the gate and clears the counters. */
  lemma OneBackendIsReached(r: Route)
    requires |r| == 1 && r[0].alive && r[0].stats == ZERO_STATS.(logins := 5, nacks := 5, last := Some(0))
    ensures GateClosed(r)
    ensures var r' := After(r, Tick(10_000_000_000, [true]));
            !GateClosed(r') && r'[0].stats.logins == r'[0].stats.nacks == 0
  {
    GateAndUseInCounts(r);
    var r' := After(r, Tick(10_000_000_000, [true]));
    assert Reached([true], 0);
    ReachedIsHealthy(r, 10_000_000_000, [true], 0);
    assert !Shaky(r'[0]) && r'[0].alive;
    CheckInNumbers(r[0], 10_000_000_000, true);
  }

  /** Unreached, it is left as it was for 30 seconds less a nanosecond, and halved from then on. */
  lemma OneBackendIsDecayed(b: Backend)
    requires b.alive && b.stats == ZERO_STATS.(logins := 5, nacks := 5, last := Some(0))
    ensures Checked(b, 29_999_999_999, false).stats.logins == 5
    ensures Checked(b, 30_000_000_000, false).stats.logins == 2
  {
    CheckInNumbers(b, 29_999_999_999, false);
    CheckInNumbers(b, 30_000_000_000, false);
    assert Pow2(0) == 1 && Pow2(1) == 2;
  }
}
