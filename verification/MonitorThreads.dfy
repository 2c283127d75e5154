/**
 The monitor under concurrency. RecordConn and RecordConnClose update the global counters by
 separate atomic additions before they take the lock for the port's counters, so between the
 two other connections interleave freely. Each connection is a thread that opens, then
 closes with the byte counts it moved; each refused socket is a thread that rejects.
*/
module MonitorThreads {
  import opened Wrappers
  import opened MapSums
  import opened MonitorSpec

  // How far a thread is in the call it has begun.
  datatype Phase =
    | Opening1                          // connection counted globally
    | Opening2                          // also counted active; lock not yet taken
    | Opened                            // RecordConn has returned
    | Closing1(read: int, written: int) // no longer active globally
    | Closing2(read: int, written: int) // bytes read added
    | Closing3(read: int, written: int) // bytes written added; lock not yet taken
    | Rejecting                         // reject counted globally; lock not yet taken

  datatype Thread = Thread(port: string, phase: Phase)

  datatype World = World(s: State, threads: map<nat, Thread>)

  const START := World(EMPTY, map[])

  datatype Step =
    | BeginOpen(id: nat, port: string)
    | BeginReject(id: nat, port: string)
    | BeginClose(id: nat, read: int, written: int)
    | Advance(id: nat)

  function Find(threads: map<nat, Thread>, id: nat): Option<Thread> {
    if id in threads then Some(threads[id]) else None
  }

  predicate Enabled(t: Option<Thread>, step: Step) {
    match step
    case BeginOpen(_, _) => t.None?
    case BeginReject(_, _) => t.None?
    case BeginClose(_, _, _) => t.Some? && t.value.phase.Opened?
    case Advance(_) => t.Some? && !t.value.phase.Opened?
  }

  /** What a step adds globally and, under the lock, to the thread's port, and what becomes of
      the thread. No step does both additions. */
  datatype Effect = Effect(global: Totals, port: Totals, after: Option<Thread>)

  function EffectOf(t: Option<Thread>, step: Step): Effect
    requires Enabled(t, step)
  {
    match step
    case BeginOpen(_, port) => Effect(Totals(1, 0, 0, 0, 0), ZERO, Some(Thread(port, Opening1)))
    case BeginReject(_, port) => Effect(REJECTED, ZERO, Some(Thread(port, Rejecting)))
    case BeginClose(_, r, b) => Effect(Totals(0, -1, 0, 0, 0), ZERO, Some(t.value.(phase := Closing1(r, b))))
    case Advance(_) =>
      match t.value.phase
      case Opening1 => Effect(Totals(0, 1, 0, 0, 0), ZERO, Some(t.value.(phase := Opening2)))
      case Opening2 => Effect(ZERO, OPENED, Some(t.value.(phase := Opened)))
      case Closing1(r, b) => Effect(Totals(0, 0, 0, r, 0), ZERO, Some(t.value.(phase := Closing2(r, b))))
      case Closing2(r, b) => Effect(Totals(0, 0, 0, 0, b), ZERO, Some(t.value.(phase := Closing3(r, b))))
      case Closing3(r, b) => Effect(ZERO, Closed(r, b), None)
      case Rejecting => Effect(ZERO, REJECTED, None)
  }

  /** The step takes the lock to change its port's counters; a close skips an unseen port. */
  predicate Credits(t: Option<Thread>, step: Step, ports: map<string, Totals>) {
    step.Advance? && t.Some? &&
    (t.value.phase.Opening2? || t.value.phase.Rejecting? || (t.value.phase.Closing3? && t.value.port in ports))
  }

  function Next(w: World, step: Step): World
    requires Enabled(Find(w.threads, step.id), step)
  {
    var t := Find(w.threads, step.id);
    var e := EffectOf(t, step);
    World(
      State(Plus(w.s.global, e.global),
            if Credits(t, step, w.s.ports) then Credit(w.s.ports, t.value.port, e.port) else w.s.ports),
      if e.after.Some? then w.threads[step.id := e.after.value] else w.threads - {step.id})
  }

  predicate Runs(tr: seq<World>, steps: seq<Step>) {
    && |tr| == |steps| + 1 && tr[0] == START
    && forall i :: 0 <= i < |steps| ==>
         Enabled(Find(tr[i].threads, steps[i].id), steps[i]) && tr[i + 1] == Next(tr[i], steps[i])
  }

  // ---------- One thread ----------

  /** What a thread has already added globally and not yet to its port. */
  function Owed(t: Thread): Totals {
    match t.phase
    case Opening1 => Totals(1, 0, 0, 0, 0)
    case Opening2 => OPENED
    case Opened => ZERO
    case Closing1(_, _) => Totals(0, -1, 0, 0, 0)
    case Closing2(r, _) => Totals(0, -1, 0, r, 0)
    case Closing3(r, w) => Closed(r, w)
    case Rejecting => REJECTED
  }

  function OwedOf(t: Option<Thread>): Totals {
    if t.Some? then Owed(t.value) else ZERO
  }

  /** The port has been credited with the connection. */
  predicate PastOpening(t: Thread) {
    !t.phase.Opening1? && !t.phase.Opening2? && !t.phase.Rejecting?
  }

  /** Counted as active globally, and at a port. */
  function LiveFlag(t: Option<Thread>): int {
    if t.Some? && (t.value.phase.Opening2? || t.value.phase.Opened?) then 1 else 0
  }

  function LiveFlagAt(t: Option<Thread>, port: string): int {
    if t.Some? && t.value.port == port && PastOpening(t.value) then 1 else 0
  }

  lemma EffectBalances(t: Option<Thread>, step: Step, c: Counter)
    requires Enabled(t, step)
    ensures var e := EffectOf(t, step);
            Get(OwedOf(t), c) + Get(e.global, c) == Get(e.port, c) + Get(OwedOf(e.after), c)
  {
  }

  lemma EffectCountsLive(t: Option<Thread>, step: Step, port: string)
    requires Enabled(t, step)
    ensures var e := EffectOf(t, step);
            && LiveFlag(e.after) == LiveFlag(t) + e.global.active
            && LiveFlagAt(e.after, port) ==
               LiveFlagAt(t, port) + if t.Some? && t.value.port == port then e.port.active else 0
  {
  }

  // ---------- The invariant of every interleaving ----------

  function OwedBy(threads: map<nat, Thread>): map<nat, Totals> {
    map id | id in threads :: Owed(threads[id])
  }

  ghost predicate BalancedIn(w: World, c: Counter) {
    Get(w.s.global, c) == SumOf(w.s.ports, c) + SumOf(OwedBy(w.threads), c)
  }

  ghost predicate PortsKnown(w: World) {
    forall id :: id in w.threads && PastOpening(w.threads[id]) ==> w.threads[id].port in w.s.ports
  }

  /** Global counters are the ports' plus what threads owe; opened ports are known. */
  ghost predicate Balanced(w: World) {
    PortsKnown(w) && forall c: Counter :: BalancedIn(w, c)
  }

  lemma OwedReplace(threads: map<nat, Thread>, id: nat, after: Option<Thread>, c: Counter)
    ensures var threads' := if after.Some? then threads[id := after.value] else threads - {id};
            SumOf(OwedBy(threads'), c) ==
            SumOf(OwedBy(threads), c) - Get(OwedOf(Find(threads, id)), c) + Get(OwedOf(after), c)
  {
    assert At(OwedBy(threads), id) == OwedOf(Find(threads, id));
    if after.Some? {
      assert OwedBy(threads[id := after.value]) == OwedBy(threads)[id := Owed(after.value)];
      SumOfUpdate(OwedBy(threads), id, Owed(after.value), c);
    } else {
      assert OwedBy(threads - {id}) == OwedBy(threads) - {id};
      SumOfRemove(OwedBy(threads), id, c);
    }
  }

  lemma NextBalancesIn(w: World, step: Step, c: Counter)
    requires BalancedIn(w, c) && PortsKnown(w) && Enabled(Find(w.threads, step.id), step)
    ensures BalancedIn(Next(w, step), c)
  {
    var t := Find(w.threads, step.id);
    var e := EffectOf(t, step);
    EffectBalances(t, step, c);
    OwedReplace(w.threads, step.id, e.after, c);
    if Credits(t, step, w.s.ports) {
      CreditSums(w.s.ports, t.value.port, e.port, c);
    } else {
      assert e.port == ZERO;
    }
  }

  lemma NextKnowsPorts(w: World, step: Step)
    requires PortsKnown(w) && Enabled(Find(w.threads, step.id), step)
    ensures PortsKnown(Next(w, step))
  {
  }

  lemma {:induction false} AlwaysBalanced(tr: seq<World>, steps: seq<Step>, n: nat)
    requires Runs(tr, steps) && n <= |steps|
    ensures Balanced(tr[n])
  {
    if n == 0 {
      forall c: Counter
        ensures BalancedIn(tr[0], c)
      {
        assert Column(tr[0].s.ports, c) == map[] && Column(OwedBy(tr[0].threads), c) == map[];
      }
    } else {
      var k := n - 1;
      AlwaysBalanced(tr, steps, k);
      var w' := tr[k + 1];
      assert w' == Next(tr[k], steps[k]);
      NextKnowsPorts(tr[k], steps[k]);
      forall c: Counter
        ensures BalancedIn(w', c)
      {
        assert BalancedIn(tr[k], c);
        NextBalancesIn(tr[k], steps[k], c);
      }
    }
  }

  /** No call is in flight: every thread is between its open and its close. */
  predicate Quiescent(w: World) {
    forall id :: id in w.threads ==> w.threads[id].phase.Opened?
  }

  lemma {:induction false} ZeroSum<K>(m: map<K, int>)
    requires forall k :: k in m ==> m[k] == 0
    ensures Sum(m) == 0
    decreases |m|
  {
    if m != map[] {
      var k :| k in m;
      SumRemove(m, k);
      ZeroSum(m - {k});
    }
  }

  /** Whatever the interleaving, the global counters are the sums over the ports whenever no
      call is in flight; in particular no close is ever booked on an unseen port. */
  lemma TotalsAddUpWhenQuiescent(tr: seq<World>, steps: seq<Step>, n: nat)
    requires Runs(tr, steps) && n <= |steps| && Quiescent(tr[n])
    ensures Conserved(tr[n].s)
  {
    AlwaysBalanced(tr, steps, n);
    forall c: Counter
      ensures ConservedIn(tr[n].s, c)
    {
      assert BalancedIn(tr[n], c);
      ZeroSum(Column(OwedBy(tr[n].threads), c));
    }
  }

  // ---------- Active connections are the live ones ----------

  function Live(threads: map<nat, Thread>): map<nat, int> {
    map id | id in threads :: LiveFlag(Some(threads[id]))
  }

  function LiveAt(threads: map<nat, Thread>, port: string): map<nat, int> {
    map id | id in threads :: LiveFlagAt(Some(threads[id]), port)
  }

  ghost predicate ActiveAt(w: World, port: string) {
    At(w.s.ports, port).active == Sum(LiveAt(w.threads, port))
  }

  lemma SumReplace(m: map<nat, int>, id: nat, after: Option<int>)
    ensures var m' := if after.Some? then m[id := after.value] else m - {id};
            Sum(m') == Sum(m) - GetOr(m, id) + if after.Some? then after.value else 0
  {
    if after.Some? {
      SumUpdate(m, id, after.value);
    } else if id in m {
      SumRemove(m, id);
    } else {
      assert m - {id} == m;
    }
  }

  lemma LiveReplace(threads: map<nat, Thread>, id: nat, after: Option<Thread>, port: string)
    ensures var threads' := if after.Some? then threads[id := after.value] else threads - {id};
            && Sum(Live(threads')) == Sum(Live(threads)) - LiveFlag(Find(threads, id)) + LiveFlag(after)
            && Sum(LiveAt(threads', port)) ==
               Sum(LiveAt(threads, port)) - LiveFlagAt(Find(threads, id), port) + LiveFlagAt(after, port)
  {
    var m, p := Live(threads), LiveAt(threads, port);
    if after.Some? {
      assert Live(threads[id := after.value]) == m[id := LiveFlag(after)];
      assert LiveAt(threads[id := after.value], port) == p[id := LiveFlagAt(after, port)];
      SumReplace(m, id, Some(LiveFlag(after)));
      SumReplace(p, id, Some(LiveFlagAt(after, port)));
    } else {
      assert Live(threads - {id}) == m - {id};
      assert LiveAt(threads - {id}, port) == p - {id};
      SumReplace(m, id, None);
      SumReplace(p, id, None);
    }
  }

  lemma NextCountsLiveAt(w: World, step: Step, port: string)
    requires PortsKnown(w) && Enabled(Find(w.threads, step.id), step)
    requires w.s.global.active == Sum(Live(w.threads)) && ActiveAt(w, port)
    ensures Next(w, step).s.global.active == Sum(Live(Next(w, step).threads)) && ActiveAt(Next(w, step), port)
  {
    var t := Find(w.threads, step.id);
    EffectCountsLive(t, step, port);
    LiveReplace(w.threads, step.id, EffectOf(t, step).after, port);
  }

  lemma {:induction false} AlwaysCountsLive(tr: seq<World>, steps: seq<Step>, n: nat, port: string)
    requires Runs(tr, steps) && n <= |steps|
    ensures tr[n].s.global.active == Sum(Live(tr[n].threads)) && ActiveAt(tr[n], port)
  {
    if n == 0 {
      assert Live(START.threads) == map[] && LiveAt(START.threads, port) == map[];
    } else {
      var k := n - 1;
      AlwaysCountsLive(tr, steps, k, port);
      AlwaysBalanced(tr, steps, k);
      assert tr[k + 1] == Next(tr[k], steps[k]);
      NextCountsLiveAt(tr[k], steps[k], port);
    }
  }

  /** In every interleaving and at every moment the active counters, global and per port,
      count live connections, and so are never negative. */
  lemma ActiveIsLiveAndNonNegative(tr: seq<World>, steps: seq<Step>, n: nat, port: string)
    requires Runs(tr, steps) && n <= |steps|
    ensures tr[n].s.global.active == Sum(Live(tr[n].threads)) >= 0
    ensures At(tr[n].s.ports, port).active == Sum(LiveAt(tr[n].threads, port)) >= 0
  {
    AlwaysCountsLive(tr, steps, n, port);
    SumNonNegative(Live(tr[n].threads));
    SumNonNegative(LiveAt(tr[n].threads, port));
  }
}
