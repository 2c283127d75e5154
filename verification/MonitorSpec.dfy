/** Global and per-port totals, and what it means that they add up. */
module MonitorSpec {
  import opened Wrappers
  import opened MapSums

  // One set of counters: the whole gateway's, or one port's.
  datatype Totals = Totals(conns: int, active: int, rejects: int, bytesRead: int, bytesWritten: int)

  const ZERO := Totals(0, 0, 0, 0, 0)

  function Plus(a: Totals, b: Totals): Totals {
    Totals(a.conns + b.conns, a.active + b.active, a.rejects + b.rejects,
           a.bytesRead + b.bytesRead, a.bytesWritten + b.bytesWritten)
  }

  datatype Counter = Conns | Active | Rejects | BytesRead | BytesWritten

  function Get(t: Totals, c: Counter): int {
    match c
    case Conns => t.conns
    case Active => t.active
    case Rejects => t.rejects
    case BytesRead => t.bytesRead
    case BytesWritten => t.bytesWritten
  }

  function Column<K>(m: map<K, Totals>, c: Counter): map<K, int> {
    map k | k in m :: Get(m[k], c)
  }

  /** The sum of one counter over all keys. */
  ghost function SumOf<K>(m: map<K, Totals>, c: Counter): int {
    Sum(Column(m, c))
  }

  function At<K(==)>(m: map<K, Totals>, k: K): Totals {
    if k in m then m[k] else ZERO
  }

  lemma SumOfUpdate<K>(m: map<K, Totals>, k: K, t: Totals, c: Counter)
    ensures SumOf(m[k := t], c) == SumOf(m, c) - Get(At(m, k), c) + Get(t, c)
  {
    assert Column(m[k := t], c) == Column(m, c)[k := Get(t, c)];
    SumUpdate(Column(m, c), k, Get(t, c));
  }

  lemma SumOfRemove<K>(m: map<K, Totals>, k: K, c: Counter)
    ensures SumOf(m - {k}, c) == SumOf(m, c) - Get(At(m, k), c)
  {
    assert Column(m - {k}, c) == Column(m, c) - {k};
    if k in m {
      SumRemove(Column(m, c), k);
    } else {
      assert m - {k} == m;
    }
  }

  datatype State = State(global: Totals, ports: map<string, Totals>)

  const EMPTY := State(ZERO, map[])

  ghost predicate ConservedIn(s: State, c: Counter) {
    Get(s.global, c) == SumOf(s.ports, c)
  }

  /** Every global counter is the sum of the ports' counters. */
  ghost predicate Conserved(s: State) {
    forall c: Counter :: ConservedIn(s, c)
  }

  // ---------- Whole calls ----------

  datatype Op =
    | Open(port: string)
    | Close(port: string, read: int, written: int)
    | Reject(port: string)

  const OPENED := Totals(1, 1, 0, 0, 0)
  const REJECTED := Totals(0, 0, 1, 0, 0)

  function Closed(read: int, written: int): Totals {
    Totals(0, -1, 0, read, written)
  }

  function Credit(ports: map<string, Totals>, port: string, t: Totals): map<string, Totals> {
    ports[port := Plus(At(ports, port), t)]
  }

  function WithOpen(t: Totals): Totals {
    t.(conns := t.conns + 1, active := t.active + 1)
  }

  function WithClose(t: Totals, read: int, written: int): Totals {
    t.(active := t.active - 1, bytesRead := t.bytesRead + read, bytesWritten := t.bytesWritten + written)
  }

  function WithReject(t: Totals): Totals {
    t.(rejects := t.rejects + 1)
  }

  /** A close on a port that was never seen is booked globally only. */
  function After(s: State, op: Op): State {
    match op
    case Open(port) => State(WithOpen(s.global), s.ports[port := WithOpen(At(s.ports, port))])
    case Close(port, r, w) =>
      State(WithClose(s.global, r, w),
            if port in s.ports then s.ports[port := WithClose(s.ports[port], r, w)] else s.ports)
    case Reject(port) => State(WithReject(s.global), s.ports[port := WithReject(At(s.ports, port))])
  }

  function Run(ops: seq<Op>): State {
    if ops == [] then EMPTY else After(Run(ops[..|ops| - 1]), ops[|ops| - 1])
  }

  predicate Stray(ops: seq<Op>, i: nat)
    requires i < |ops|
  {
    ops[i].Close? && ops[i].port !in Run(ops[..i]).ports
  }

  function Strays(ops: seq<Op>): nat {
    if ops == [] then 0 else Strays(ops[..|ops| - 1]) + if Stray(ops, |ops| - 1) then 1 else 0
  }

  lemma CreditSums(ports: map<string, Totals>, port: string, t: Totals, c: Counter)
    ensures SumOf(Credit(ports, port, t), c) == SumOf(ports, c) + Get(t, c)
  {
    SumOfUpdate(ports, port, Plus(At(ports, port), t), c);
  }

  lemma AfterSums(s: State, op: Op, c: Counter)
    ensures var s' := After(s, op);
            Get(s'.global, c) - SumOf(s'.ports, c) == Get(s.global, c) - SumOf(s.ports, c) +
            if op.Close? && op.port !in s.ports then Get(Closed(op.read, op.written), c) else 0
  {
    SumOfUpdate(s.ports, op.port, At(After(s, op).ports, op.port), c);
  }

  /** What a call adds to the counters. */
  function Delta(op: Op): Totals {
    match op
    case Open(_) => OPENED
    case Close(_, read, written) => Closed(read, written)
    case Reject(_) => REJECTED
  }

  /** From s to s' each counter grew by the same globally and at one port, no other port changed,
      and the totals go on adding up. */
  ghost predicate Adds(s: State, s': State, port: string, t: Totals) {
    && (forall c: Counter :: AddsIn(s, s', port, t, c))
    && (forall p :: p != port ==> At(s'.ports, p) == At(s.ports, p))
    && (Conserved(s) ==> Conserved(s'))
  }

  predicate AddsIn(s: State, s': State, port: string, t: Totals, c: Counter) {
    && Get(s'.global, c) == Get(s.global, c) + Get(t, c)
    && Get(At(s'.ports, port), c) == Get(At(s.ports, port), c) + Get(t, c)
  }

  /** A call does that unless it is a stray close. */
  lemma AfterAdds(s: State, op: Op)
    requires op.Close? ==> op.port in s.ports
    ensures Adds(s, After(s, op), op.port, Delta(op)) && op.port in After(s, op).ports
  {
    forall c: Counter | Conserved(s)
      ensures ConservedIn(After(s, op), c)
    {
      assert ConservedIn(s, c);
      AfterSums(s, op, c);
    }
  }

  lemma AddsTwice(s: State, s1: State, s2: State, port: string, t1: Totals, t2: Totals, t: Totals)
    requires Adds(s, s1, port, t1) && Adds(s1, s2, port, t2)
    requires forall c: Counter :: Get(t, c) == Get(t1, c) + Get(t2, c)
    ensures Adds(s, s2, port, t)
  {
    forall c: Counter
      ensures AddsIn(s, s2, port, t, c)
    {
      assert AddsIn(s, s1, port, t1, c) && AddsIn(s1, s2, port, t2, c);
    }
  }

  lemma {:induction false} ActiveDrift(ops: seq<Op>)
    ensures Run(ops).global.active == SumOf(Run(ops).ports, Active) - Strays(ops)
  {
    if ops == [] {
      assert Column(EMPTY.ports, Active) == map[];
    } else {
      var n := |ops| - 1;
      ActiveDrift(ops[..n]);
      AfterSums(Run(ops[..n]), ops[n], Active);
    }
  }

  lemma {:induction false} ConservedWithoutStrays(ops: seq<Op>)
    requires Strays(ops) == 0
    ensures Conserved(Run(ops))
  {
    if ops == [] {
      forall c: Counter
        ensures ConservedIn(EMPTY, c)
      {
        assert Column(EMPTY.ports, c) == map[];
      }
    } else {
      var n := |ops| - 1;
      ConservedWithoutStrays(ops[..n]);
      forall c: Counter
        ensures ConservedIn(Run(ops), c)
      {
        assert ConservedIn(Run(ops[..n]), c);
        AfterSums(Run(ops[..n]), ops[n], c);
      }
    }
  }

  /** The totals add up after a run of whole calls iff no close named an unseen port. */
  lemma ConservedIffNoStrayClose(ops: seq<Op>)
    ensures Conserved(Run(ops)) <==> forall i :: 0 <= i < |ops| ==> !Stray(ops, i)
  {
    StraysCount(ops);
    ActiveDrift(ops);
    if Strays(ops) == 0 {
      ConservedWithoutStrays(ops);
    } else {
      assert !ConservedIn(Run(ops), Active);
    }
  }

  lemma {:induction false} StraysCount(ops: seq<Op>)
    ensures Strays(ops) == 0 <==> forall i :: 0 <= i < |ops| ==> !Stray(ops, i)
  {
    if ops != [] {
      var n := |ops| - 1;
      StraysCount(ops[..n]);
      forall i | 0 <= i < n
        ensures Stray(ops[..n], i) <==> Stray(ops, i)
      {
        assert ops[..n][..i] == ops[..i];
      }
    }
  }

  // ---------- Backends ----------

  // What the monitor shows of a backend; a zero check time is None.
  datatype BackendInfo = BackendInfo(total: int, active: int, fails: int, alive: bool, lastCheck: Option<int>)

  const NEW_BACKEND := BackendInfo(0, 0, 0, false, None)

  type Backends = map<string, BackendInfo>

  function InfoOf(m: Backends, addr: string): BackendInfo {
    if addr in m then m[addr] else NEW_BACKEND
  }

  function Updated(m: Backends, addr: string, alive: bool, fails: int, now: int): Backends {
    m[addr := InfoOf(m, addr).(alive := alive, fails := fails, lastCheck := Some(now))]
  }

  function ConnCounted(m: Backends, addr: string, delta: int): Backends {
    var info := InfoOf(m, addr);
    m[addr := info.(total := info.total + 1, active := info.active + delta)]
  }
}
