/** A connection on values: through the filters, on to a backend, and into the books. */
module GatewaySpec {
  import opened FilterSpec
  import opened Sequences
  import opened Relay
  import L = LimiterSpec
  import B = BlacklistSpec
  import R = RoutingSpec
  import M = MonitorSpec
  import BB = BackendSpec
  import An = Analyzer

  // ---------- After the filters ----------

  // What both ends of a connection do: reads and the fate of writes, in each direction.
  datatype Script = Script(
    first: ReadResult, client: seq<ReadResult>, toBackend: seq<WriteResult>,
    backend: seq<ReadResult>, toClient: seq<WriteResult>)

  // What was moved in one direction, and the byte count kept of it.
  datatype Transfer = Transfer(out: seq<byte>, count: nat, written: nat, failed: bool)

  const NO_TRANSFER := Transfer([], 0, 0, false)

  predicate Carried(chunks: seq<seq<byte>>, writes: seq<WriteResult>, x: Transfer) {
    Delivered(chunks, writes, x.out, x.count, x.written, x.failed)
  }

  predicate FirstWriteFails(s: Script) {
    s.first.data != [] && Fails(s.toBackend, 0)
  }

  /** What was moved each way and what was counted of it, the client's direction first. Nothing is
      read from the backend when the first packet could not be handed to it. */
  predicate Exchanged(s: Script, backendIdx: int, up: Transfer, down: Transfer, events: seq<R.Traffic>) {
    && Carried(ClientChunks(s.first, s.client), s.toBackend, up)
    && up.written <= |ClientChunks(s.first, s.client)|
    && var sniffed := Collected(ClientSniff, ClientChunks(s.first, s.client)[..up.written]);
       if FirstWriteFails(s) then down == NO_TRANSFER && events == sniffed
       else
         && Carried(Chunks(s.backend), s.toClient, down)
         && |sniffed| <= |events| && events[..|sniffed|] == sniffed
         && BackendEvents(s.backend, down.written, down.failed, backendIdx, events[|sniffed|..])
  }

  // A client connection: who, when, and what dialling a backend and both ends will do.
  datatype Conn = Conn(ip: string, now: int, dialOk: bool, script: Script)
  {
    function Uid(): nat {
      SniffedUid(script.first.data)
    }
  }

  // What became of an accepted socket.
  datatype Handled =
    | BackendCritical
    | Rejected(outcome: Outcome)
    | NoBackend
    | DialFailed(addr: string)
    | Relayed(addr: string, backendIdx: int, up: Transfer, down: Transfer, events: seq<R.Traffic>)

  // The filters, the route, and the route's backends as the monitor shows them.
  datatype Site = Site(f: Filters, r: R.Route, m: M.Backends)

  /** Choosing a backend and dialling it: a failed dial marks it down, a successful one is
      counted, in the route and in the monitor, and idx is the index that traffic is counted at. */
  ghost predicate Placed(s: Site, s': Site, strategy: R.Strategy, c: Conn, addr: string, idx: int) {
    exists choice ::
      R.MaySelect(s.r, strategy, choice) && addr == R.AddrOf(s.r, choice) && PlacedTo(s, s', c, addr, idx)
  }

  predicate PlacedTo(s: Site, s': Site, c: Conn, addr: string, idx: int) {
    if addr == "" then s' == s && idx == -1
    else
      var op := if c.dialOk then R.Connected(addr) else R.MarkDown(addr);
      var f := R.FirstAt(s'.r, addr);
      && s' == Site(s.f, R.After(s.r, op), BB.Noted(s.m, s.r, op, c.now))
      && idx == if c.dialOk && f.Some? then f.value else -1
  }

  /** Where an admitted connection leads. */
  ghost predicate Routed(s: Site, s': Site, strategy: R.Strategy, c: Conn, handled: Handled) {
    match handled
    case NoBackend => Placed(s, s', strategy, c, "", -1)
    case DialFailed(addr) => addr != "" && !c.dialOk && Placed(s, s', strategy, c, addr, -1)
    case Relayed(addr, idx, up, down, events) =>
      && addr != "" && c.dialOk && Exchanged(c.script, idx, up, down, events)
      && exists s1 :: Placed(s, s1, strategy, c, addr, idx) && s' == s1.(r := R.Trafficked(s1.r, idx, events, c.now))
    case _ => false
  }

  /** What handling a connection does. */
  ghost predicate Handles(lc: L.Config, bc: B.Config, strategy: R.Strategy, c: Conn, s: Site, s': Site,
                          handled: Handled)
  {
    var outcome := Decision(lc, s.f, c.ip, c.Uid(), c.now);
    && Filtered(lc, bc, s.f, c.ip, c.Uid(), c.now, s'.f)
    && if Refused(outcome) then handled == Rejected(outcome) && s'.r == s.r && s'.m == s.m
       else Routed(Site(s'.f, s.r, s.m), s', strategy, c, handled)
  }

  // ---------- The books ----------

  function LogOf(c: Conn, action: string, reason: string): An.Entry {
    An.Entry(c.now, c.ip, c.Uid(), 4, action, 0, 0, reason)
  }

  /** The log lines of a connection: one for a refusal, one for an established connection. */
  function Lines(c: Conn, handled: Handled): seq<An.Entry> {
    match handled
    case Rejected(RefusedByBan(_)) => [LogOf(c, "rejected", "blacklist")]
    case Rejected(RefusedByLimit(v)) => [LogOf(c, "rejected", L.ReasonText(v))]
    case Relayed(_, _, _, _, _) => [LogOf(c, "connect", "")]
    case _ => []
  }

  function Noted(entries: seq<An.Entry>, max: nat, lines: seq<An.Entry>): seq<An.Entry> {
    if lines == [] then entries else An.LastOf(entries + lines, max)
  }

  function One(b: bool): int {
    if b then 1 else 0
  }

  /** What an accepted socket adds to the totals: a connection unless the gate was closed, a
      reject unless it was relayed, and the bytes relayed; nothing stays active. */
  function Share(handled: Handled): M.Totals {
    M.Totals(One(!handled.BackendCritical?), 0, One(!handled.Relayed?),
             if handled.Relayed? then handled.up.count else 0, if handled.Relayed? then handled.down.count else 0)
  }

  /** The monitor after a socket that ended like this. */
  function Booked(s: M.State, port: string, handled: Handled): M.State {
    if handled.BackendCritical? then M.After(s, M.Reject(port))
    else if handled.Relayed? then M.After(M.After(s, M.Open(port)), M.Close(port, handled.up.count, handled.down.count))
    else M.After(M.After(M.After(s, M.Open(port)), M.Reject(port)), M.Close(port, 0, 0))
  }
}
