/** What each event of a route does to the backends as the monitor shows them. */
module BackendSpec {
  import opened RoutingSpec
  import opened MonitorSpec

  /** The first n backends have been checked. */
  function Ticked(m: Backends, r: Route, n: nat, now: int, probes: seq<bool>): Backends
    requires n <= |r|
  {
    if n == 0 then m
    else
      var before := Ticked(m, r, n - 1, now, probes);
      if Reports(r[n - 1], now, Answers(probes, n - 1)) then Updated(before, r[n - 1].addr, true, 0, now) else before
  }

  /** What an event of route r does to the monitor; an address that is not in the route is not
      reported. */
  function Noted(m: Backends, r: Route, op: RoutingSpec.Op, now: int): Backends {
    match op
    case Protocol(_, _, _) => m
    case Connected(addr) => if FirstAt(r, addr).Some? then ConnCounted(m, addr, 1) else m
    case MarkDown(addr) => if FirstAt(r, addr).Some? then Updated(m, addr, false, 1, now) else m
    case Tick(at, probes) => Ticked(m, r, |r|, at, probes)
  }
}
