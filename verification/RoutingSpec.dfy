/** Backends of one forwarding rule on values: the admission gate, the choice of a backend,
    and what each event does to the route. */
module RoutingSpec {
  import opened Wrappers
  import opened Protocol

  const SECOND := 1_000_000_000
  const MAX_IDLE := 30 * SECOND

  datatype Backend = Backend(addr: string, alive: bool, conns: int, stats: Stats)

  type Route = seq<Backend>

  /** The route a rule starts with. */
  predicate Initial(r: Route) {
    forall i :: 0 <= i < |r| ==> r[i].alive && r[i].conns == 0 && r[i].stats == ZERO_STATS
  }

  predicate DistinctAddrs(r: Route) {
    forall i, j :: 0 <= i < j < |r| ==> r[i].addr != r[j].addr
  }

  predicate Shaky(b: Backend) {
    CalcCrashRisk(b.stats) == Critical || CalcCrashRisk(b.stats) == Down
  }

  predicate Usable(b: Backend) {
    b.alive && CalcCrashRisk(b.stats) != Down
  }

  /** New connections are turned away: something is alive, and all that is alive is shaky. */
  predicate GateClosed(r: Route) {
    && (exists i :: 0 <= i < |r| && r[i].alive)
    && (forall i :: 0 <= i < |r| && r[i].alive ==> Shaky(r[i]))
  }

  datatype Strategy = LeastConn | Random | RoundRobin

  /** choice is one the strategy may make in this state. "round_robin", and any strategy that
      is not named otherwise, takes the first usable backend. */
  predicate MaySelect(r: Route, strategy: Strategy, choice: Option<nat>) {
    match choice
    case None => forall i :: 0 <= i < |r| ==> !Usable(r[i])
    case Some(c) =>
      && c < |r| && Usable(r[c])
      && match strategy
         case LeastConn =>
           forall i :: 0 <= i < |r| && Usable(r[i]) ==> r[c].conns < r[i].conns || (r[c].conns == r[i].conns && c <= i)
         case Random => true
         case RoundRobin => forall i :: 0 <= i < c ==> !Usable(r[i])
  }

  /** The address reported for a choice; "" when there is none. */
  function AddrOf(r: Route, choice: Option<nat>): string
    requires choice.Some? ==> choice.value < |r|
  {
    if choice.Some? then r[choice.value].addr else ""
  }

  /** The first backend with the address. */
  function FirstAt(r: Route, addr: string): (i: Option<nat>)
    ensures i.Some? ==> i.value < |r| && r[i.value].addr == addr && forall j :: 0 <= j < i.value ==> r[j].addr != addr
    ensures i.None? ==> forall j :: 0 <= j < |r| ==> r[j].addr != addr
  {
    if r == [] then None
    else
      var i := FirstAt(r[..|r| - 1], addr);
      if i.Some? then i
      else if r[|r| - 1].addr == addr then Some(|r| - 1)
      else None
  }

  // ---------- Events ----------

  datatype Traffic = LoginSeen | AckSeen | NackSeen | HeartbeatSeen | TimeoutSeen

  datatype Op =
    | Protocol(kind: Traffic, idx: int, now: int)
    | Connected(addr: string)
    | MarkDown(addr: string)
    | Tick(now: int, probes: seq<bool>)

  /** Counting one protocol event; only some kinds refresh the cached health. */
  function Seen(s: Stats, kind: Traffic, now: int): Stats {
    match kind
    case LoginSeen => s.(logins := s.logins + 1, last := Some(now))
    case HeartbeatSeen => s.(heartbeats := s.heartbeats + 1, last := Some(now))
    case AckSeen => Judged(s.(acks := s.acks + 1, last := Some(now)))
    case NackSeen => Judged(s.(nacks := s.nacks + 1, last := Some(now)))
    case TimeoutSeen => Judged(s.(timeouts := s.timeouts + 1, last := Some(now)))
  }

  function Judged(s: Stats): Stats {
    s.(health := CalcCrashRisk(s))
  }

  /** Dialling backend i succeeds; a probe not listed fails. */
  predicate Answers(probes: seq<bool>, i: nat) {
    i < |probes| && probes[i]
  }

  /** The health check of one backend; probe tells whether dialling it would succeed. */
  function Checked(b: Backend, now: int, probe: bool): Backend {
    if !b.alive then
      if probe then b.(alive := true, stats := ResetStats(b.stats)) else b
    else if Shaky(b) then
      var d := Decayed(b.stats, now, MAX_IDLE);
      if !Recovered(b.stats, now, MAX_IDLE) && probe then b.(stats := ResetStats(d)) else b.(stats := d)
    else b
  }

  /** A health check that dials this backend with success and so reports it up. */
  predicate Reports(b: Backend, now: int, probe: bool) {
    probe && (!b.alive || (Shaky(b) && !Recovered(b.stats, now, MAX_IDLE)))
  }

  function CheckedAll(r: Route, now: int, probes: seq<bool>): (r': Route)
    ensures |r'| == |r| && forall i :: 0 <= i < |r| ==> r'[i] == Checked(r[i], now, Answers(probes, i))
  {
    if r == [] then []
    else
      var n := |r| - 1;
      CheckedAll(r[..n], now, probes) + [Checked(r[n], now, Answers(probes, n))]
  }

  function After(r: Route, op: Op): (r': Route)
    ensures |r'| == |r| && forall i :: 0 <= i < |r| ==> r'[i].addr == r[i].addr
  {
    match op
    case Protocol(kind, idx, now) =>
      if 0 <= idx < |r| then r[idx := r[idx].(stats := Seen(r[idx].stats, kind, now))] else r
    case Connected(addr) =>
      var i := FirstAt(r, addr);
      if i.Some? then r[i.value := r[i.value].(conns := r[i.value].conns + 1)] else r
    case MarkDown(addr) =>
      var i := FirstAt(r, addr);
      if i.Some? then r[i.value := r[i.value].(alive := false)] else r
    case Tick(now, probes) =>
      CheckedAll(r, now, probes)
  }

  /** The route after these protocol events of one backend. */
  function Trafficked(r: Route, idx: int, events: seq<Traffic>, now: int): (r': Route)
    ensures |r'| == |r| && forall i :: 0 <= i < |r| ==> r'[i].addr == r[i].addr
  {
    if events == [] then r
    else After(Trafficked(r, idx, events[..|events| - 1], now), Protocol(events[|events| - 1], idx, now))
  }
}
