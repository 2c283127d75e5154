/** Whole runs of a route: recovery, exclusion of dead backends, and balance. */
module RoutingRuns {
  import opened Wrappers
  import opened Protocol
  import opened RoutingSpec

  function Run(r: Route, ops: seq<Op>): (r': Route)
    ensures |r'| == |r| && forall i :: 0 <= i < |r| ==> r'[i].addr == r[i].addr
  {
    if ops == [] then r else After(Run(r, ops[..|ops| - 1]), ops[|ops| - 1])
  }

  lemma RunAppend(r: Route, ops: seq<Op>, op: Op)
    ensures Run(r, ops + [op]) == After(Run(r, ops), op)
  {
    assert (ops + [op])[..|ops|] == ops;
  }

  lemma {:induction false} RunSplits(r: Route, ops1: seq<Op>, ops2: seq<Op>)
    ensures Run(r, ops1 + ops2) == Run(Run(r, ops1), ops2)
  {
    if ops2 == [] {
      assert ops1 + ops2 == ops1;
    } else {
      var n := |ops2| - 1;
      RunSplits(r, ops1, ops2[..n]);
      assert ops1 + ops2 == (ops1 + ops2[..n]) + [ops2[n]];
      RunAppend(r, ops1 + ops2[..n], ops2[n]);
    }
  }

  // ---------- Gate and selector ----------

  /** In one state: selection comes back empty past an open gate iff nothing is alive, and
      whatever is selected is alive and not Down. */
  lemma GateAndSelectorAgree(r: Route, strategy: Strategy, choice: Option<nat>)
    requires MaySelect(r, strategy, choice)
    ensures !GateClosed(r) && choice.None? <==> forall i :: 0 <= i < |r| ==> !r[i].alive
    ensures choice.Some? ==> r[choice.value].alive && CalcCrashRisk(r[choice.value].stats) != Down
  {
  }

  /** The selector still answers behind a closed gate iff some live backend is only Critical. */
  lemma ClosedGateStillSelectsIff(r: Route, strategy: Strategy, choice: Option<nat>)
    requires MaySelect(r, strategy, choice) && GateClosed(r)
    ensures choice.Some? <==> exists i :: 0 <= i < |r| && LiveCritical(r[i])
  {
  }

  // ---------- Runs the gateway makes ----------

  /** The strategy may choose the backend at addr. */
  ghost predicate ChosenBy(r: Route, strategy: Strategy, addr: string) {
    exists c: nat :: MaySelect(r, strategy, Some(c)) && r[c].addr == addr
  }

  /** Every connection counted in the run went to a backend the strategy chose. */
  ghost predicate Driven(r: Route, strategy: Strategy, ops: seq<Op>) {
    forall k :: 0 <= k < |ops| && ops[k].Connected? ==> ChosenBy(Run(r, ops[..k]), strategy, ops[k].addr)
  }

  /** Traffic of a backend comes only after a connection to it. */
  predicate TrafficFollows(r: Route, ops: seq<Op>) {
    forall k :: 0 <= k < |ops| && ops[k].Protocol? && 0 <= ops[k].idx < |r| ==>
      exists j :: 0 <= j < k && ops[j] == Connected(r[ops[k].idx].addr)
  }

  lemma TrafficFollowsPrefix(r: Route, ops: seq<Op>, n: nat)
    requires TrafficFollows(r, ops) && n <= |ops|
    ensures TrafficFollows(r, ops[..n])
  {
    forall k | 0 <= k < n && ops[k].Protocol? && 0 <= ops[k].idx < |r|
      ensures exists j :: 0 <= j < k && ops[..n][j] == Connected(r[ops[k].idx].addr)
    {
      var j :| 0 <= j < k && ops[j] == Connected(r[ops[k].idx].addr);
      assert ops[..n][j] == ops[j];
    }
  }

  lemma {:induction false} ConnectedIsCounted(r: Route, ops: seq<Op>, j: nat, i: nat)
    requires Initial(r) && DistinctAddrs(r) && j < |ops| && i < |r| && ops[j] == Connected(r[i].addr)
    ensures Run(r, ops)[i].conns > 0
  {
    var n := |ops| - 1;
    CountsNeverShrink(Run(r, ops[..n]), ops[n], i);
    if j < n {
      ConnectedIsCounted(r, ops[..n], j, i);
    } else {
      NoNegativeCounts(r, ops[..n], i);
      ConnectedCounts(Run(r, ops[..n]), r[i].addr, i);
    }
  }

  lemma CountsNeverShrink(r: Route, op: Op, i: nat)
    requires i < |r|
    ensures After(r, op)[i].conns >= r[i].conns
  {
  }

  lemma {:induction false} NoNegativeCounts(r: Route, ops: seq<Op>, i: nat)
    requires Initial(r) && i < |r|
    ensures Run(r, ops)[i].conns >= 0
  {
    if ops != [] {
      NoNegativeCounts(r, ops[..|ops| - 1], i);
      CountsNeverShrink(Run(r, ops[..|ops| - 1]), ops[|ops| - 1], i);
    }
  }

  lemma UntouchedStep(r: Route, op: Op, i: nat)
    requires i < |r| && Untouched(r[i].stats) && !Untouched(After(r, op)[i].stats)
    ensures op.Protocol? && op.idx == i
  {
  }

  /** In such runs a backend that has counted any traffic has counted a connection. */
  lemma {:induction false} TrafficNeedsConnection(r: Route, ops: seq<Op>, i: nat)
    requires Initial(r) && DistinctAddrs(r) && TrafficFollows(r, ops) && i < |r|
    ensures !Untouched(Run(r, ops)[i].stats) ==> Run(r, ops)[i].conns > 0
  {
    if ops != [] {
      var n := |ops| - 1;
      TrafficFollowsPrefix(r, ops, n);
      TrafficNeedsConnection(r, ops[..n], i);
      CountsNeverShrink(Run(r, ops[..n]), ops[n], i);
      if Untouched(Run(r, ops[..n])[i].stats) && !Untouched(Run(r, ops)[i].stats) {
        UntouchedStep(Run(r, ops[..n]), ops[n], i);
        var j :| 0 <= j < n && ops[j] == Connected(r[i].addr);
        ConnectedIsCounted(r, ops, j, i);
      }
    }
  }

  /** Two kinds of traffic counted at one moment commute, up to the cached health: the order in
      which the two directions of a connection are sniffed does not matter. */
  lemma TrafficCommutes(s: Stats, k1: Traffic, k2: Traffic, now: int)
    ensures Seen(Seen(s, k1, now), k2, now).(health := Normal) == Seen(Seen(s, k2, now), k1, now).(health := Normal)
  {
  }

  predicate OnlyConnections(ops: seq<Op>) {
    forall k :: 0 <= k < |ops| ==> ops[k].Connected?
  }

  // ---------- A Critical backend can be chosen ----------

  predicate LiveCritical(b: Backend) {
    b.alive && CalcCrashRisk(b.stats) == Critical
  }

  predicate ChoosesCritical(r: Route, choice: Option<nat>) {
    choice.Some? && choice.value < |r| && LiveCritical(r[choice.value])
  }

  /** Backend i is served before backend j: fewer connections, or as many at a smaller index. */
  predicate Lighter(r: Route, i: nat, j: nat)
    requires i < |r| && j < |r|
  {
    r[i].conns < r[j].conns || (r[i].conns == r[j].conns && i < j)
  }

  /** The scan picks a Critical backend iff every live backend before some live Critical one is
      Down, whatever the gate says. */
  lemma RoundRobinPicksCriticalIff(r: Route, choice: Option<nat>)
    requires MaySelect(r, RoundRobin, choice)
    ensures ChoosesCritical(r, choice) <==>
            exists i :: 0 <= i < |r| && LiveCritical(r[i]) && forall j :: 0 <= j < i ==> !Usable(r[j])
  {
    if i :| 0 <= i < |r| && LiveCritical(r[i]) && forall j :: 0 <= j < i ==> !Usable(r[j]) {
      assert Usable(r[i]);
      assert choice == Some(i);
    }
  }

  /** least_conn picks a Critical backend iff some live Critical one is lighter than every
      usable backend that is not Critical. */
  lemma LeastConnPicksCriticalIff(r: Route, choice: Option<nat>)
    requires MaySelect(r, LeastConn, choice)
    ensures ChoosesCritical(r, choice) <==>
            exists i :: 0 <= i < |r| && LiveCritical(r[i])
                        && forall j :: 0 <= j < |r| && Usable(r[j]) && !LiveCritical(r[j]) ==> Lighter(r, i, j)
  {
    if i :| 0 <= i < |r| && LiveCritical(r[i])
            && forall j :: 0 <= j < |r| && Usable(r[j]) && !LiveCritical(r[j]) ==> Lighter(r, i, j) {
      assert Usable(r[i]) && Usable(r[choice.value]);
    }
  }

  /** random may pick a Critical backend iff there is a live one. */
  lemma RandomMayPickCriticalIff(r: Route)
    ensures (exists choice :: MaySelect(r, Random, choice) && ChoosesCritical(r, choice)) <==>
            exists i :: 0 <= i < |r| && LiveCritical(r[i])
  {
    if i: nat :| i < |r| && LiveCritical(r[i]) {
      assert MaySelect(r, Random, Some(i)) && ChoosesCritical(r, Some(i));
    }
  }

  function Times(n: nat, op: Op): (ops: seq<Op>)
    ensures |ops| == n && forall i :: 0 <= i < n ==> ops[i] == op
  {
    if n == 0 then [] else Times(n - 1, op) + [op]
  }

  predicate CountedTimes(r: Route, r': Route, n: nat, kind: Traffic, idx: nat)
    requires idx < |r| == |r'|
  {
    var b, b' := r[idx], r'[idx];
    && b'.alive == b.alive && b'.conns == b.conns
    && b'.stats.timeouts == b.stats.timeouts && b'.stats.responses == b.stats.responses
    && b'.stats.logins == b.stats.logins + (if kind.LoginSeen? then n else 0)
    && b'.stats.nacks == b.stats.nacks + (if kind.NackSeen? then n else 0)
    && forall i :: 0 <= i < |r| && i != idx ==> r'[i] == r[i]
  }

  lemma CountedOnce(r: Route, m: Route, n: nat, kind: Traffic, idx: nat)
    requires idx < |r| == |m| && (kind == LoginSeen || kind == NackSeen) && CountedTimes(r, m, n, kind, idx)
    ensures CountedTimes(r, After(m, RoutingSpec.Protocol(kind, idx, 0)), n + 1, kind, idx)
  {
  }

  lemma {:induction false} TimesCounts(r: Route, n: nat, kind: Traffic, idx: nat)
    requires idx < |r| && (kind == LoginSeen || kind == NackSeen)
    ensures CountedTimes(r, Run(r, Times(n, RoutingSpec.Protocol(kind, idx, 0))), n, kind, idx)
  {
    if n > 0 {
      var op := RoutingSpec.Protocol(kind, idx, 0);
      var before := Times(n - 1, op);
      TimesCounts(r, n - 1, kind, idx);
      CountedOnce(r, Run(r, before), n - 1, kind, idx);
      RunAppend(r, before, op);
    }
  }

  /** Five logins of backend 0 and their refusals. */
  function Refusals(): seq<Op> {
    Times(5, RoutingSpec.Protocol(LoginSeen, 0, 0)) + Times(5, RoutingSpec.Protocol(NackSeen, 0, 0))
  }

  /** The connections the strategy places first: round_robin never reaches the second backend. */
  function FirstConnections(strategy: Strategy): seq<Op> {
    if strategy.RoundRobin? then [Connected("a")] else [Connected("a"), Connected("b")]
  }

  predicate TwoBackends(r: Route) {
    Initial(r) && |r| == 2 && r[0].addr == "a" && r[1].addr == "b"
  }

  /** It happens past an open gate, with a healthy backend at hand, by every strategy, in a run
      the gateway makes: connections placed by the strategy, and five refused logins on the first. */
  lemma {:induction false} OpenGatePicksCritical(r0: Route, strategy: Strategy)
    requires TwoBackends(r0)
    ensures var ops := FirstConnections(strategy) + Refusals();
            var r := Run(r0, ops);
            && Driven(r0, strategy, ops) && TrafficFollows(r0, ops)
            && !GateClosed(r) && LiveCritical(r[0]) && CalcCrashRisk(r[1].stats) == Normal
            && MaySelect(r, strategy, Some(0))
  {
    var m := Run(r0, FirstConnections(strategy));
    PlacedCounts(r0, strategy);
    PlacedIsDriven(r0, strategy);
    RunSplits(r0, FirstConnections(strategy), Refusals());
    RefusalsCount(m);
    FailingIsChosen(Run(m, Refusals()), strategy);
  }

  lemma {:induction false} PlacedCounts(r0: Route, strategy: Strategy)
    requires TwoBackends(r0)
    ensures var m := Run(r0, FirstConnections(strategy));
            && m[0] == r0[0].(conns := 1)
            && m[1] == r0[1].(conns := if strategy.RoundRobin? then 0 else 1)
  {
    RunAppend(r0, [], Connected("a"));
    ConnectedCounts(r0, "a", 0);
    assert [] + [Connected("a")] == [Connected("a")];
    if !strategy.RoundRobin? {
      RunAppend(r0, [Connected("a")], Connected("b"));
      ConnectedCounts(Run(r0, [Connected("a")]), "b", 1);
      assert [Connected("a")] + [Connected("b")] == FirstConnections(strategy);
    }
  }

  lemma {:induction false} PlacedIsDriven(r0: Route, strategy: Strategy)
    requires TwoBackends(r0)
    ensures var ops := FirstConnections(strategy) + Refusals(); Driven(r0, strategy, ops) && TrafficFollows(r0, ops)
  {
    var ops := FirstConnections(strategy) + Refusals();
    PlacedCounts(r0, RoundRobin);
    forall k | 0 <= k < |ops| && ops[k].Connected?
      ensures ChosenBy(Run(r0, ops[..k]), strategy, ops[k].addr)
    {
      assert k == 0 || (k == 1 && !strategy.RoundRobin?);
      if k == 0 {
        assert ops[..k] == [];
        assert MaySelect(r0, strategy, Some(0));
      } else {
        assert ops[..k] == FirstConnections(RoundRobin);
        assert MaySelect(Run(r0, ops[..k]), strategy, Some(1));
      }
    }
    forall k | 0 <= k < |ops| && ops[k].Protocol?
      ensures ops[k].idx == 0 && 0 < k && ops[0] == Connected(r0[0].addr)
    {
    }
  }

  lemma {:induction false} RefusalsCount(m: Route)
    requires |m| == 2
    ensures var r := Run(m, Refusals());
            && r[0].alive == m[0].alive && r[0].conns == m[0].conns && r[1] == m[1]
            && r[0].stats.logins == m[0].stats.logins + 5 && r[0].stats.nacks == m[0].stats.nacks + 5
            && r[0].stats.timeouts == m[0].stats.timeouts
  {
    var logins := Times(5, RoutingSpec.Protocol(LoginSeen, 0, 0));
    RunSplits(m, logins, Times(5, RoutingSpec.Protocol(NackSeen, 0, 0)));
    TimesCounts(m, 5, LoginSeen, 0);
    TimesCounts(Run(m, logins), 5, NackSeen, 0);
  }

  lemma {:induction false} FailingIsChosen(r: Route, strategy: Strategy)
    requires |r| == 2 && r[0].alive && r[1].alive && r[1].stats == ZERO_STATS
    requires r[0].stats.logins == r[0].stats.nacks == 5 && r[0].stats.timeouts == 0
    requires strategy.RoundRobin? || r[0].conns == r[1].conns
    ensures !GateClosed(r) && LiveCritical(r[0]) && CalcCrashRisk(r[1].stats) == Normal
    ensures MaySelect(r, strategy, Some(0))
  {
    assert CalcCrashRisk(r[0].stats) == Critical && CalcCrashRisk(r[1].stats) == Normal;
  }

  // ---------- round_robin does not rotate ----------

  /** Backend i is usable in both states or in neither. */
  predicate SameUse(r: Route, r': Route, i: nat)
    requires |r| == |r'| && i < |r|
  {
    Usable(r[i]) <==> Usable(r'[i])
  }

  /** How far a scan that ended with this choice looked. */
  function Scanned(r: Route, choice: Option<nat>): (n: nat)
    requires choice.Some? ==> choice.value < |r|
    ensures n <= |r|
  {
    if choice.Some? then choice.value + 1 else |r|
  }

  /** One of the first n backends became usable or unusable. */
  predicate UseChanges(r: Route, r': Route, n: nat)
    requires n <= |r| == |r'|
  {
    exists i :: 0 <= i < n && !SameUse(r, r', i)
  }

  /** Over any run the answer of round_robin changes iff a backend the first scan looked at
      became usable or unusable: how many connections were placed does not matter. */
  lemma {:induction false} RoundRobinChangesIff(r: Route, ops: seq<Op>, choice1: Option<nat>, choice2: Option<nat>)
    requires MaySelect(r, RoundRobin, choice1) && MaySelect(Run(r, ops), RoundRobin, choice2)
    ensures choice1 != choice2 <==> UseChanges(r, Run(r, ops), Scanned(r, choice1))
  {
    ScansDifferIff(r, Run(r, ops), choice1, choice2);
  }

  lemma ScansDifferIff(r: Route, r': Route, choice1: Option<nat>, choice2: Option<nat>)
    requires |r| == |r'| && MaySelect(r, RoundRobin, choice1) && MaySelect(r', RoundRobin, choice2)
    ensures choice1 != choice2 <==> UseChanges(r, r', Scanned(r, choice1))
  {
    if choice1 != choice2 {
      var first := choice2.Some? && (choice1.None? || choice2.value < choice1.value);
      var i := if first then choice2.value else choice1.value;
      assert Usable(r[i]) != Usable(r'[i]);
      assert !SameUse(r, r', i);
    }
  }

  lemma {:induction false} ConnectionsKeepUse(r: Route, ops: seq<Op>)
    requires OnlyConnections(ops)
    ensures forall i :: 0 <= i < |r| ==> SameUse(r, Run(r, ops), i)
  {
    if ops != [] {
      var n := |ops| - 1;
      ConnectionsKeepUse(r, ops[..n]);
      var m, r' := Run(r, ops[..n]), Run(r, ops);
      forall i | 0 <= i < |r|
        ensures SameUse(r, r', i)
      {
        assert SameUse(r, m, i);
        assert r'[i].alive == m[i].alive && r'[i].stats == m[i].stats;
      }
    }
  }

  /** However many connections are placed, the next goes where the first did. */
  lemma {:induction false} RoundRobinSticks(r: Route, ops: seq<Op>, choice1: Option<nat>, choice2: Option<nat>)
    requires OnlyConnections(ops)
    requires MaySelect(r, RoundRobin, choice1) && MaySelect(Run(r, ops), RoundRobin, choice2)
    ensures choice1 == choice2
  {
    ConnectionsKeepUse(r, ops);
    RoundRobinChangesIff(r, ops, choice1, choice2);
  }

  /** One backend gets all connections, and the others none, while nothing but connections
      happens: where least_conn deals n connections in turn, this hands n to one. */
  lemma {:induction false} RoundRobinLoadsOne(r: Route, ops: seq<Op>, c: nat)
    requires DistinctAddrs(r) && MaySelect(r, RoundRobin, Some(c)) && Driven(r, RoundRobin, ops) && OnlyConnections(ops)
    ensures forall i :: 0 <= i < |r| ==> Run(r, ops)[i].conns == r[i].conns + if i == c then |ops| else 0
  {
    if ops != [] {
      var n := |ops| - 1;
      RoundRobinPrefix(r, ops, n);
      RoundRobinLoadsOne(r, ops[..n], c);
      var m := Run(r, ops[..n]);
      var d := RoundRobinLast(r, ops, n);
      RoundRobinSticks(r, ops[..n], Some(c), Some(d));
      ConnectedCounts(m, ops[n].addr, c);
    }
  }

  lemma RoundRobinPrefix(r: Route, ops: seq<Op>, n: nat)
    requires Driven(r, RoundRobin, ops) && OnlyConnections(ops) && n <= |ops|
    ensures Driven(r, RoundRobin, ops[..n]) && OnlyConnections(ops[..n])
  {
    forall k | 0 <= k < n
      ensures ops[..n][..k] == ops[..k]
    {
    }
  }

  lemma RoundRobinLast(r: Route, ops: seq<Op>, n: nat) returns (d: nat)
    requires Driven(r, RoundRobin, ops) && OnlyConnections(ops) && |ops| == n + 1
    ensures ops[n].Connected? && MaySelect(Run(r, ops[..n]), RoundRobin, Some(d)) && r[d].addr == ops[n].addr
  {
    d :| MaySelect(Run(r, ops[..n]), RoundRobin, Some(d)) && r[d].addr == ops[n].addr;
  }

  /** With distinct addresses the selected index, the index counted and the index found again
      by address are the same. */
  lemma AddressFindsItsIndex(r: Route, i: nat)
    requires DistinctAddrs(r) && i < |r|
    ensures FirstAt(r, r[i].addr) == Some(i)
  {
  }

  // ---------- No permanent lockout ----------

  /** Nonzero counters carry a timestamp, so decay can always see how idle they are. */
  predicate Stamped(r: Route) {
    forall i :: 0 <= i < |r| ==> Untouched(r[i].stats) || r[i].stats.last.Some?
  }

  lemma {:induction false} AlwaysStamped(r: Route, ops: seq<Op>)
    requires Stamped(r)
    ensures Stamped(Run(r, ops))
  {
    if ops != [] {
      AlwaysStamped(r, ops[..|ops| - 1]);
      StampedStep(Run(r, ops[..|ops| - 1]), ops[|ops| - 1]);
    }
  }

  lemma StampedStep(r: Route, op: Op)
    requires Stamped(r)
    ensures Stamped(After(r, op))
  {
    forall i | 0 <= i < |r|
      ensures Untouched(After(r, op)[i].stats) || After(r, op)[i].stats.last.Some?
    {
      assert Untouched(r[i].stats) || r[i].stats.last.Some?;
    }
  }

  /** op neither reports traffic of backend i nor marks it down, and a tick finds it idle for
      the full limit since its last traffic. */
  predicate Quiet(r: Route, op: Op, i: nat)
    requires i < |r|
  {
    match op
    case Protocol(_, idx, _) => idx != i
    case MarkDown(addr) => FirstAt(r, addr) != Some(i)
    case Connected(_) => true
    case Tick(now, _) => r[i].stats.last.Some? ==> Idle(r[i].stats, now, MAX_IDLE)
  }

  function Ticks(ops: seq<Op>): nat {
    if ops == [] then 0 else Ticks(ops[..|ops| - 1]) + if ops[|ops| - 1].Tick? then 1 else 0
  }

  /** After n ticks: recovered for good, or still shaky with what is left of the counters. */
  predicate Draining(b: Backend, b0: Backend, n: nat) {
    && b.alive
    && (b.stats.last == b0.stats.last || b.stats.last == None)
    && (Shaky(b) ==> b.stats.timeouts <= Shifted(b0.stats.timeouts, n) && b.stats.logins <= Shifted(b0.stats.logins, n))
  }

  lemma CheckedDrains(b: Backend, b0: Backend, n: nat, now: int, probe: bool)
    requires Draining(b, b0, n) && (Untouched(b.stats) || b.stats.last.Some?)
    requires b.stats.last.Some? ==> Idle(b.stats, now, MAX_IDLE)
    ensures Draining(Checked(b, now, probe), b0, n + 1)
  {
    if Shaky(b) {
      DecayHalves(b.stats, now, MAX_IDLE);
    }
  }

  lemma StepDrains(r: Route, m: Route, op: Op, i: nat, n: nat)
    requires |r| == |m| && i < |r| && (forall k :: 0 <= k < |r| ==> r[k].addr == m[k].addr)
    requires Stamped(m) && Draining(m[i], r[i], n) && Quiet(r, op, i)
    ensures Draining(After(m, op)[i], r[i], n + if op.Tick? then 1 else 0)
  {
    match op
    case Tick(now, probes) => CheckedDrains(m[i], r[i], n, now, Answers(probes, i));
    case MarkDown(addr) => SameAddrsSameFirst(r, m, addr);
    case Connected(_) =>
    case Protocol(_, _, _) =>
  }

  lemma {:induction false} TicksDrain(r: Route, ops: seq<Op>, i: nat)
    requires Stamped(r) && i < |r| && r[i].alive
    requires forall k :: 0 <= k < |ops| ==> Quiet(r, ops[k], i)
    ensures Draining(Run(r, ops)[i], r[i], Ticks(ops))
  {
    if ops != [] {
      var before, op := ops[..|ops| - 1], ops[|ops| - 1];
      TicksDrain(r, before, i);
      AlwaysStamped(r, before);
      StepDrains(r, Run(r, before), op, i, Ticks(before));
    }
  }

  lemma SameAddrsSameFirst(r: Route, r': Route, addr: string)
    requires |r| == |r'| && forall i :: 0 <= i < |r| ==> r[i].addr == r'[i].addr
    ensures FirstAt(r, addr) == FirstAt(r', addr)
  {
    var i, i' := FirstAt(r, addr), FirstAt(r', addr);
    if i.Some? {
      assert r'[i.value].addr == addr;
    }
    if i'.Some? {
      assert r[i'.value].addr == addr;
    }
  }

  lemma ShiftBelow(c: nat, n: nat, k: nat)
    requires k * Pow2(n) > c
    ensures Shifted(c, n) < k
  {
    ShiftedIsQuotient(c, n);
  }

  /** From every reachable state: a live backend left without traffic is neither Down nor
      Critical once n idle ticks have passed with 11 * 2^n > timeouts and 5 * 2^n > logins,
      and it stays so, even if every probe fails. */
  lemma {:induction false} NoPermanentLockout(r: Route, ops: seq<Op>, i: nat)
    requires Stamped(r) && i < |r| && r[i].alive
    requires forall k :: 0 <= k < |ops| ==> Quiet(r, ops[k], i)
    requires 11 * Pow2(Ticks(ops)) > r[i].stats.timeouts && 5 * Pow2(Ticks(ops)) > r[i].stats.logins
    ensures Run(r, ops)[i].alive && !Shaky(Run(r, ops)[i])
  {
    TicksDrain(r, ops, i);
    ShiftBelow(r[i].stats.timeouts, Ticks(ops), 11);
    ShiftBelow(r[i].stats.logins, Ticks(ops), 5);
  }

  /** Hence, from the initial state on, traffic of any kind can close the gate only for a
      number of idle ticks: it reopens and every strategy answers. */
  lemma {:induction false} GateReopens(r0: Route, past: seq<Op>, ops: seq<Op>, i: nat, strategy: Strategy,
                    choice: Option<nat>)
    requires Initial(r0) && i < |r0|
    requires var r := Run(r0, past);
             && r[i].alive
             && (forall k :: 0 <= k < |ops| ==> Quiet(r, ops[k], i))
             && 11 * Pow2(Ticks(ops)) > r[i].stats.timeouts && 5 * Pow2(Ticks(ops)) > r[i].stats.logins
    requires MaySelect(Run(r0, past + ops), strategy, choice)
    ensures !GateClosed(Run(r0, past + ops)) && choice.Some?
  {
    AlwaysStamped(r0, past);
    RunSplits(r0, past, ops);
    NoPermanentLockout(Run(r0, past), ops, i);
    var b := Run(r0, past + ops)[i];
    assert b.alive && !Shaky(b) && Usable(b);
  }

  /** A health check never raises a backend's risk level: it decays only what is Critical or
      Down, from where halving cannot make it worse. */
  lemma CheckNeverRaisesRisk(b: Backend, now: int, probe: bool)
    ensures Rank(CalcCrashRisk(Checked(b, now, probe).stats)) <= Rank(CalcCrashRisk(b.stats))
  {
    if Shaky(b) && Idle(b.stats, now, MAX_IDLE) {
      HalvingNeverWorsensShaky(b.stats, Rounds(now - b.stats.last.value, MAX_IDLE));
    }
  }

  // ---------- Down stays out ----------

  predicate Revives(op: Op, i: nat) {
    op.Tick? && Answers(op.probes, i)
  }

  lemma {:induction false} DeadStaysDead(r: Route, ops: seq<Op>, i: nat)
    requires i < |r| && !r[i].alive && forall k :: 0 <= k < |ops| ==> !Revives(ops[k], i)
    ensures !Run(r, ops)[i].alive
  {
    if ops != [] {
      DeadStaysDead(r, ops[..|ops| - 1], i);
      assert !Revives(ops[|ops| - 1], i);
    }
  }

  /** Once marked down, an address is never selected, by any strategy, until a health check
      reaches it. */
  lemma {:induction false} DownStaysOut(r: Route, ops: seq<Op>, i: nat, strategy: Strategy, choice: Option<nat>)
    requires DistinctAddrs(r) && i < |r| && forall k :: 0 <= k < |ops| ==> !Revives(ops[k], i)
    requires MaySelect(Run(After(r, MarkDown(r[i].addr)), ops), strategy, choice)
    ensures AddrOf(Run(After(r, MarkDown(r[i].addr)), ops), choice) == r[i].addr ==> choice.None?
  {
    AddressFindsItsIndex(r, i);
    DeadStaysDead(After(r, MarkDown(r[i].addr)), ops, i);
  }

  /** A check that reaches it brings it back with a clean slate. */
  lemma RevivedIsClean(r: Route, i: nat, now: int, probes: seq<bool>)
    requires i < |r| && !r[i].alive && Answers(probes, i) && r[i].stats.responses == 0
    ensures var b := After(r, Tick(now, probes))[i];
            b.alive && b.stats == ZERO_STATS && CalcCrashRisk(b.stats) == Normal && Usable(b)
  {
  }

  predicate NoResponses(s: Stats) {
    s.responses == 0 && s.heartbeatResponses == 0
  }

  /** The guard of RevivedIsClean on responses always holds: nothing counts responses. */
  lemma {:induction false} ResponsesNeverCounted(r: Route, ops: seq<Op>)
    requires forall i :: 0 <= i < |r| ==> NoResponses(r[i].stats)
    ensures forall i :: 0 <= i < |r| ==> NoResponses(Run(r, ops)[i].stats)
  {
    if ops != [] {
      var m, op := Run(r, ops[..|ops| - 1]), ops[|ops| - 1];
      ResponsesNeverCounted(r, ops[..|ops| - 1]);
      forall i | 0 <= i < |r|
        ensures NoResponses(After(m, op)[i].stats)
      {
        if op.Tick? {
          CheckedNoResponses(m[i], op.now, Answers(op.probes, i));
        }
      }
    }
  }

  lemma CheckedNoResponses(b: Backend, now: int, probe: bool)
    requires NoResponses(b.stats)
    ensures NoResponses(Checked(b, now, probe).stats)
  {
    if Idle(b.stats, now, MAX_IDLE) {
      DecayHalves(b.stats, now, MAX_IDLE);
    }
  }

  // ---------- Least-connection balance ----------

  ghost predicate UsableAtEachConnection(r: Route, ops: seq<Op>, i: nat)
    requires i < |r|
  {
    forall k :: 0 <= k < |ops| && ops[k].Connected? ==> Usable(Run(r, ops[..k])[i])
  }

  /** How many connections backends i and j are apart. */
  function Gap(r: Route, i: nat, j: nat): nat
    requires i < |r| && j < |r|
  {
    if r[i].conns < r[j].conns then r[j].conns - r[i].conns else r[i].conns - r[j].conns
  }

  function Max(a: int, b: int): int {
    if a < b then b else a
  }

  lemma ConnectedCounts(r: Route, addr: string, c: nat)
    requires DistinctAddrs(r) && c < |r| && r[c].addr == addr
    ensures After(r, Connected(addr)) == r[c := r[c].(conns := r[c].conns + 1)]
  {
    AddressFindsItsIndex(r, c);
  }

  /** Two backends that are both usable whenever a connection is placed never drift apart,
      whatever becomes of the others: at every moment n of the run the gap is within max(1, its
      initial size). */
  lemma {:induction false} GapStaysSmall(r: Route, ops: seq<Op>, i: nat, j: nat, n: nat)
    requires DistinctAddrs(r) && i < |r| && j < |r| && Driven(r, LeastConn, ops) && n <= |ops|
    requires UsableAtEachConnection(r, ops, i) && UsableAtEachConnection(r, ops, j)
    ensures Gap(Run(r, ops[..n]), i, j) <= Max(1, Gap(r, i, j))
  {
    if n > 0 {
      var k := n - 1;
      GapStaysSmall(r, ops, i, j, k);
      OneMore(r, ops, k);
      LastConnection(r, ops, k, i);
      LastConnection(r, ops, k, j);
      GapAfter(Run(r, ops[..k]), ops[k], i, j);
    }
  }

  lemma LastConnection(r: Route, ops: seq<Op>, n: nat, i: nat)
    requires n < |ops| && i < |r| && Driven(r, LeastConn, ops) && UsableAtEachConnection(r, ops, i)
    ensures ops[n].Connected? ==> ChosenBy(Run(r, ops[..n]), LeastConn, ops[n].addr) && Usable(Run(r, ops[..n])[i])
  {
  }

  lemma GapAfter(r: Route, op: Op, i: nat, j: nat)
    requires DistinctAddrs(r) && i < |r| && j < |r|
    requires op.Connected? ==> ChosenBy(r, LeastConn, op.addr) && Usable(r[i]) && Usable(r[j])
    ensures Gap(After(r, op), i, j) <= Max(1, Gap(r, i, j))
  {
    if op.Connected? {
      GapStep(r, op.addr, i, j);
    } else {
      CountsKept(r, op);
    }
  }

  lemma CountsKept(r: Route, op: Op)
    requires !op.Connected?
    ensures forall i :: 0 <= i < |r| ==> After(r, op)[i].conns == r[i].conns
  {
  }

  lemma GapStep(r: Route, addr: string, i: nat, j: nat)
    requires DistinctAddrs(r) && ChosenBy(r, LeastConn, addr) && i < |r| && j < |r| && Usable(r[i]) && Usable(r[j])
    ensures Gap(After(r, Connected(addr)), i, j) <= Max(1, Gap(r, i, j))
  {
    var c: nat :| MaySelect(r, LeastConn, Some(c)) && r[c].addr == addr;
    ConnectedCounts(r, addr, c);
  }

  function Connections(ops: seq<Op>): nat {
    if ops == [] then 0 else Connections(ops[..|ops| - 1]) + if ops[|ops| - 1].Connected? then 1 else 0
  }

  /** n connections dealt to k backends in turn. */
  predicate Dealt(r: Route, n: nat)
    requires |r| > 0
  {
    DealtAs(r, Deal(n / |r|, n % |r|))
  }

  // How far dealing has come: full rounds, and the place of the next.
  datatype Deal = Deal(round: nat, place: nat)

  predicate DealtAs(r: Route, d: Deal) {
    d.place < |r| && forall i :: 0 <= i < |r| ==> r[i].conns == d.round + if i < d.place then 1 else 0
  }

  function NextDeal(d: Deal, k: nat): Deal {
    if d.place + 1 == k then Deal(d.round + 1, 0) else Deal(d.round, d.place + 1)
  }

  function DealAfter(n: nat, k: nat): Deal {
    if n == 0 then Deal(0, 0) else NextDeal(DealAfter(n - 1, k), k)
  }

  lemma {:induction false} DealCounts(n: nat, k: nat)
    requires k > 0
    ensures var d := DealAfter(n, k); n == k * d.round + d.place && d.place < k
  {
    if n > 0 {
      DealCounts(n - 1, k);
      var d := DealAfter(n - 1, k);
      assert k * (d.round + 1) == k * d.round + k;
    }
  }

  lemma DealIsQuotient(n: nat, k: nat)
    requires k > 0
    ensures DealAfter(n, k) == Deal(n / k, n % k)
  {
    var d := DealAfter(n, k);
    DealCounts(n, k);
    QuotientUnique(n, k, d.round, d.place);
  }

  predicate AllUsableNow(r: Route) {
    forall i :: 0 <= i < |r| ==> Usable(r[i])
  }

  lemma DealOne(r: Route, addr: string, d: Deal)
    requires DistinctAddrs(r) && ChosenBy(r, LeastConn, addr) && DealtAs(r, d) && AllUsableNow(r)
    ensures DealtAs(After(r, Connected(addr)), NextDeal(d, |r|))
    ensures addr == r[d.place].addr
  {
    var c: nat :| MaySelect(r, LeastConn, Some(c)) && r[c].addr == addr;
    assert Usable(r[d.place]) && Usable(r[c]);
    ConnectedCounts(r, addr, c);
  }

  lemma OneMore(r: Route, ops: seq<Op>, k: nat)
    requires k < |ops|
    ensures Run(r, ops[..k + 1]) == After(Run(r, ops[..k]), ops[k])
    ensures Connections(ops[..k + 1]) == Connections(ops[..k]) + if ops[k].Connected? then 1 else 0
  {
    assert ops[..k + 1][..k] == ops[..k];
  }

  lemma {:induction false} DealtSoFar(r: Route, ops: seq<Op>, n: nat)
    requires |r| > 0 && DistinctAddrs(r) && (forall i :: 0 <= i < |r| ==> r[i].conns == 0)
    requires Driven(r, LeastConn, ops) && AllUsable(r, ops) && n <= |ops|
    ensures DealtAs(Run(r, ops[..n]), DealAfter(Connections(ops[..n]), |r|))
  {
    if n > 0 {
      var k := n - 1;
      DealtSoFar(r, ops, k);
      OneMore(r, ops, k);
      if ops[k].Connected? {
        AllUsableAt(r, ops, k);
        DealOne(Run(r, ops[..k]), ops[k].addr, DealAfter(Connections(ops[..k]), |r|));
      } else {
        CountsKept(Run(r, ops[..k]), ops[k]);
      }
    }
  }

  /** With every backend usable whenever a connection is placed, all counts are n/k rounded
      down or up after n connections to k backends. */
  lemma {:induction false} LeastConnDealsEvenly(r: Route, ops: seq<Op>)
    requires |r| > 0 && DistinctAddrs(r) && (forall i :: 0 <= i < |r| ==> r[i].conns == 0)
    requires Driven(r, LeastConn, ops) && AllUsable(r, ops)
    ensures Dealt(Run(r, ops), Connections(ops))
  {
    DealtSoFar(r, ops, |ops|);
    assert ops[..|ops|] == ops;
    DealIsQuotient(Connections(ops), |r|);
  }

  /** And they are dealt in turn: the n-th connection (from 0) goes to backend n mod k. */
  lemma {:induction false} LeastConnDealsInTurn(r: Route, ops: seq<Op>, k: nat)
    requires |r| > 0 && DistinctAddrs(r) && (forall i :: 0 <= i < |r| ==> r[i].conns == 0)
    requires Driven(r, LeastConn, ops) && AllUsable(r, ops) && k < |ops| && ops[k].Connected?
    ensures ops[k].addr == r[Connections(ops[..k]) % |r|].addr
  {
    DealtSoFar(r, ops, k);
    AllUsableAt(r, ops, k);
    DealIsQuotient(Connections(ops[..k]), |r|);
    DealOne(Run(r, ops[..k]), ops[k].addr, DealAfter(Connections(ops[..k]), |r|));
  }

  ghost predicate AllUsable(r: Route, ops: seq<Op>) {
    forall i :: 0 <= i < |r| ==> UsableAtEachConnection(r, ops, i)
  }

  lemma AllUsableAt(r: Route, ops: seq<Op>, n: nat)
    requires n < |ops| && ops[n].Connected? && Driven(r, LeastConn, ops) && AllUsable(r, ops)
    ensures ChosenBy(Run(r, ops[..n]), LeastConn, ops[n].addr) && AllUsableNow(Run(r, ops[..n]))
  {
    forall i | 0 <= i < |r|
      ensures Usable(Run(r, ops[..n])[i])
    {
      assert UsableAtEachConnection(r, ops, i);
    }
  }

  function TotalConns(r: Route): int {
    if r == [] then 0 else TotalConns(r[..|r| - 1]) + r[|r| - 1].conns
  }

  lemma {:induction false} TotalAfterBump(r: Route, r': Route, c: nat, d: int)
    requires |r| == |r'| && c < |r| && r'[c].conns == r[c].conns + d
    requires forall i :: 0 <= i < |r| && i != c ==> r'[i].conns == r[i].conns
    ensures TotalConns(r') == TotalConns(r) + d
  {
    var n := |r| - 1;
    if c < n {
      TotalAfterBump(r[..n], r'[..n], c, d);
    } else if n > 0 {
      TotalAfterBump(r[..n], r'[..n], 0, 0);
    }
  }

  lemma TotalUnchanged(r: Route, r': Route)
    requires |r| == |r'| && forall i :: 0 <= i < |r| ==> r'[i].conns == r[i].conns
    ensures TotalConns(r') == TotalConns(r)
  {
    if |r| > 0 {
      TotalAfterBump(r, r', 0, 0);
    }
  }

  /** No count is ever taken back: with known, distinct addresses the counts add up to the
      connections made, whatever else happens. */
  lemma {:induction false} CountsAddUp(r: Route, ops: seq<Op>)
    requires DistinctAddrs(r)
    requires forall k :: 0 <= k < |ops| && ops[k].Connected? ==> exists i :: 0 <= i < |r| && r[i].addr == ops[k].addr
    ensures TotalConns(Run(r, ops)) == TotalConns(r) + Connections(ops)
  {
    if ops != [] {
      var n := |ops| - 1;
      CountsAddUp(r, ops[..n]);
      var m := Run(r, ops[..n]);
      if ops[n].Connected? {
        var i :| 0 <= i < |r| && r[i].addr == ops[n].addr;
        ConnectedCounts(m, ops[n].addr, i);
        TotalAfterBump(m, After(m, ops[n]), i, 1);
      } else {
        TotalUnchanged(m, After(m, ops[n]));
      }
    }
  }
}
