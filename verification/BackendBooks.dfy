/** When the backends as the monitor shows them agree with the route they are counted in. */
module BackendBooks {
  import opened Wrappers
  import opened RoutingSpec
  import opened MonitorSpec
  import opened BackendSpec
  import RL = RoutingLaws
  import RR = RoutingRuns

  // ---------- What is shown ----------

  /** The monitor's line of a backend: connections are only ever counted up, so those shown as
      active are all there ever were; liveness and failures are right once they were reported,
      and until then a live backend is shown as dead. */
  predicate ShownAs(b: Backend, info: BackendInfo) {
    && info.total == info.active == b.conns
    && (info.lastCheck.Some? ==> info.alive == b.alive && info.fails == if b.alive then 0 else 1)
    && (info.lastCheck.None? ==> !info.alive && b.alive && info.fails == 0)
  }

  predicate Shown(r: Route, m: Backends) {
    forall i :: 0 <= i < |r| ==> ShownAs(r[i], InfoOf(m, r[i].addr))
  }

  lemma {:induction false} TickedAt(m: Backends, r: Route, n: nat, now: int, probes: seq<bool>, i: nat)
    requires DistinctAddrs(r) && n <= |r| && i < |r|
    ensures InfoOf(Ticked(m, r, n, now, probes), r[i].addr) ==
            if i < n && Reports(r[i], now, Answers(probes, i))
            then InfoOf(m, r[i].addr).(alive := true, fails := 0, lastCheck := Some(now))
            else InfoOf(m, r[i].addr)
  {
    if n > 0 {
      TickedAt(m, r, n - 1, now, probes, i);
    }
  }

  /** After a tick the monitor shows a backend as alive, checked now and without failures if it was
      dialled and reached; otherwise as before. */
  lemma {:induction false} TickReports(m: Backends, r: Route, now: int, probes: seq<bool>, i: nat)
    requires DistinctAddrs(r) && i < |r|
    ensures InfoOf(Noted(m, r, Tick(now, probes), now), r[i].addr) ==
            if RL.Dialled(r[i], now) && i < |probes| && probes[i]
            then InfoOf(m, r[i].addr).(alive := true, fails := 0, lastCheck := Some(now))
            else InfoOf(m, r[i].addr)
  {
    TickedAt(m, r, |r|, now, probes, i);
    RL.ReachedIsZeroed(r[i], now, Answers(probes, i));
  }

  lemma TickShown(r: Route, m: Backends, now: int, probes: seq<bool>)
    requires DistinctAddrs(r) && Shown(r, m)
    ensures Shown(RoutingSpec.After(r, Tick(now, probes)), Ticked(m, r, |r|, now, probes))
  {
    var r' := RoutingSpec.After(r, Tick(now, probes));
    forall i | 0 <= i < |r|
      ensures ShownAs(r'[i], InfoOf(Ticked(m, r, |r|, now, probes), r'[i].addr))
    {
      TickedAt(m, r, |r|, now, probes, i);
      assert ShownAs(r[i], InfoOf(m, r[i].addr));
    }
  }

  lemma StepShown(r: Route, m: Backends, op: RoutingSpec.Op, now: int)
    requires DistinctAddrs(r) && Shown(r, m)
    ensures Shown(RoutingSpec.After(r, op), Noted(m, r, op, now))
  {
    if op.Tick? {
      TickShown(r, m, op.now, op.probes);
    } else {
      var r', m' := RoutingSpec.After(r, op), Noted(m, r, op, now);
      forall i | 0 <= i < |r|
        ensures ShownAs(r'[i], InfoOf(m', r'[i].addr))
      {
        assert ShownAs(r[i], InfoOf(m, r[i].addr));
      }
    }
  }

  /** The monitor after ops, reported at these times. */
  function BooksOf(r: Route, ops: seq<RoutingSpec.Op>, times: seq<int>): Backends
    requires |times| == |ops|
  {
    if ops == [] then map[]
    else
      var n := |ops| - 1;
      Noted(BooksOf(r, ops[..n], times[..n]), RR.Run(r, ops[..n]), ops[n], times[n])
  }

  lemma {:induction false} AlwaysShown(r: Route, ops: seq<RoutingSpec.Op>, times: seq<int>)
    requires Initial(r) && DistinctAddrs(r) && |times| == |ops|
    ensures Shown(RR.Run(r, ops), BooksOf(r, ops, times))
  {
    if ops != [] {
      var n := |ops| - 1;
      AlwaysShown(r, ops[..n], times[..n]);
      StepShown(RR.Run(r, ops[..n]), BooksOf(r, ops[..n], times[..n]), ops[n], times[n]);
    }
  }

  /** In every reachable state the monitor counts each backend's connections as the route does,
      and shows whether it is alive iff something has been reported of it: before that, it shows
      a live backend as dead. */
  lemma {:induction false} LivenessIsShownIff(r: Route, ops: seq<RoutingSpec.Op>, times: seq<int>, i: nat)
    requires Initial(r) && DistinctAddrs(r) && |times| == |ops| && i < |r|
    ensures var b, info := RR.Run(r, ops)[i], InfoOf(BooksOf(r, ops, times), r[i].addr);
            && (info.alive == b.alive <==> info.lastCheck.Some?)
            && info.total == info.active == b.conns
  {
    AlwaysShown(r, ops, times);
    assert ShownAs(RR.Run(r, ops)[i], InfoOf(BooksOf(r, ops, times), r[i].addr));
  }
}
