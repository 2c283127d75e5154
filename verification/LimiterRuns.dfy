/** Whole runs of the limiter under a fixed configuration and a clock that never goes back. */
module LimiterRuns {
  import opened Wrappers
  import opened Windows
  import opened Keys
  import opened LimiterSpec

  datatype Op =
    | Check(req: Request)
    | Sweep(now: int)
    | ResetIP(ip: string, now: int)
    | ResetUID(uid: int, now: int)
  {
    function At(): int {
      if Check? then req.now else now
    }
  }

  predicate Timed(ops: seq<Op>) {
    forall i, j :: 0 <= i < j < |ops| ==> ops[i].At() <= ops[j].At()
  }

  function Apply(cfg: Config, t: Tables, op: Op): Tables {
    match op
    case Check(req) => Committed(cfg, t, req)
    case Sweep(now) => Swept(cfg, t, now)
    case ResetIP(ip, _) => t.(ip := t.ip - {ip})
    case ResetUID(uid, _) => t.(uid := t.uid - {uid})
  }

  /** The stored counters after ops. */
  function Run(cfg: Config, ops: seq<Op>): Tables {
    if ops == [] then EMPTY_TABLES else Apply(cfg, Run(cfg, ops[..|ops| - 1]), ops[|ops| - 1])
  }

  /** One step of the reference: it remembers every accepted request and has no sweep. */
  function Remember(cfg: Config, log: seq<Event>, op: Op): seq<Event> {
    match op
    case Check(req) => if HistoryVerdict(cfg, log, req).Allowed? then log + [Accepted(req)] else log
    case Sweep(_) => log
    case ResetIP(ip, _) => log + [IPReset(ip)]
    case ResetUID(uid, _) => log + [UIDReset(uid)]
  }

  function History(cfg: Config, ops: seq<Op>): seq<Event> {
    if ops == [] then [] else Remember(cfg, History(cfg, ops[..|ops| - 1]), ops[|ops| - 1])
  }

  // ---------- The counters stand for the history ----------

  /** A stored record has the start, size and last time of the subject's current window;
      a subject without a record has no window in force. */
  predicate Stands(r: Option<Record>, ts: seq<int>, w: int, clock: int) {
    && Ascending(ts)
    && (ts != [] ==> ts[|ts| - 1] <= clock)
    && match r
       case None => Lapsed(ts, w, clock)
       case Some(rec) => ts != [] && rec == Record(Load(ts, w), ts[Opener(ts, w)], ts[|ts| - 1])
  }

  ghost predicate Agrees(cfg: Config, t: Tables, log: seq<Event>, clock: int) {
    forall s: Subject :: Stands(Find(t, s), Times(cfg, s, log), cfg.Window(), clock)
  }

  lemma TimesAppend(cfg: Config, s: Subject, log: seq<Event>, e: Event)
    ensures Times(cfg, s, log + [e]) == Extended(cfg, s, Times(cfg, s, log), e)
  {
    assert (log + [e])[..|log|] == log;
  }

  /** One layer's test of the stored record is the layer's rule on the history. */
  lemma LayerAgrees<K>(cfg: Config, records: map<K, Record>, key: K, s: Subject, log: seq<Event>, clock: int,
                       req: Request, maxConn: int, maxLogin: int)
    requires Stands(Lookup(records, key), Times(cfg, s, log), cfg.Window(), clock) && clock <= req.now
    requires Charged(cfg, s, req) && LimitFor(cfg, s, req.isLogin) == if req.isLogin then maxLogin else maxConn
    ensures CheckRecord(records, key, req, cfg.Window(), maxConn, maxLogin, LayerOf(s)) == LayerRule(cfg, s, log, req)
  {
  }

  /** In agreeing states the compressed counters decide as the full history does, down to
      the layer, count and limit reported. */
  lemma VerdictsAgree(cfg: Config, t: Tables, log: seq<Event>, clock: int, req: Request)
    requires Agrees(cfg, t, log, clock) && clock <= req.now
    ensures Verdict(cfg, t, req) == HistoryVerdict(cfg, log, req)
  {
    var ip, uid, pair := OfIP(req.ip), OfUID(req.uid), OfPair(req.ip, req.uid);
    if cfg.enableIP {
      assert Stands(Find(t, ip), Times(cfg, ip, log), cfg.Window(), clock);
      LayerAgrees(cfg, t.ip, req.ip, ip, log, clock, req, cfg.ipMaxConn, cfg.ipMaxLogin);
    }
    if cfg.enableUID && req.uid > 0 {
      assert Stands(Find(t, uid), Times(cfg, uid, log), cfg.Window(), clock);
      LayerAgrees(cfg, t.uid, req.uid, uid, log, clock, req, cfg.uidMaxConn, cfg.uidMaxLogin);
    }
    if cfg.enableCombined && req.uid > 0 {
      assert Stands(Find(t, pair), Times(cfg, pair, log), cfg.Window(), clock);
      LayerAgrees(cfg, t.combined, PairKey(req.ip, req.uid), pair, log, clock, req,
                  cfg.combinedMaxConn, cfg.combinedMaxLogin);
    }
  }

  lemma StandsAccept(r: Option<Record>, ts: seq<int>, w: int, clock: int, now: int)
    requires Stands(r, ts, w, clock) && clock <= now
    ensures Stands(Some(Bumped(r, now, w)), ts + [now], w, now)
  {
    OpenerAppend(ts, now, w);
  }

  /** A record old enough to be swept belongs to a window long over. */
  lemma StandsSweep(r: Option<Record>, ts: seq<int>, w: int, clock: int, now: int)
    requires Stands(r, ts, w, clock) && clock <= now
    ensures Stands(r, ts, w, now)
    ensures r.Some? && r.value.last < now - 3 * w ==> Stands(None, ts, w, now)
  {
  }

  lemma StandsCheck(cfg: Config, t: Tables, log: seq<Event>, clock: int, req: Request, s: Subject)
    requires Stands(Find(t, s), Times(cfg, s, log), cfg.Window(), clock) && clock <= req.now
    requires Verdict(cfg, t, req) == HistoryVerdict(cfg, log, req)
    ensures Stands(Find(Committed(cfg, t, req), s), Times(cfg, s, Remember(cfg, log, Check(req))),
                   cfg.Window(), req.now)
  {
    CommitIsAllOrNothing(cfg, t, req, s);
    if HistoryVerdict(cfg, log, req).Allowed? {
      TimesAppend(cfg, s, log, Accepted(req));
      StandsAccept(Find(t, s), Times(cfg, s, log), cfg.Window(), clock, req.now);
    }
  }

  lemma StandsStep(cfg: Config, t: Tables, log: seq<Event>, clock: int, op: Op, s: Subject)
    requires Stands(Find(t, s), Times(cfg, s, log), cfg.Window(), clock) && clock <= op.At()
    requires op.Check? ==> Verdict(cfg, t, op.req) == HistoryVerdict(cfg, log, op.req)
    ensures Stands(Find(Apply(cfg, t, op), s), Times(cfg, s, Remember(cfg, log, op)), cfg.Window(), op.At())
  {
    if op.Check? {
      StandsCheck(cfg, t, log, clock, op.req, s);
    } else {
      StandsUpkeep(cfg, t, log, clock, op, s);
    }
  }

  predicate Resets(op: Op, s: Subject) {
    (op.ResetIP? && s == OfIP(op.ip)) || (op.ResetUID? && s == OfUID(op.uid))
  }

  lemma UpkeepFinds(cfg: Config, t: Tables, op: Op, s: Subject)
    requires !op.Check?
    ensures var r := Find(t, s);
            Find(Apply(cfg, t, op), s) ==
            if Resets(op, s) || (op.Sweep? && r.Some? && r.value.last < op.now - 3 * cfg.Window()) then None else r
  {
  }

  lemma UpkeepTimes(cfg: Config, log: seq<Event>, op: Op, s: Subject)
    requires !op.Check?
    ensures Times(cfg, s, Remember(cfg, log, op)) == if Resets(op, s) then [] else Times(cfg, s, log)
  {
    match op
    case Sweep(_) =>
    case ResetIP(ip, _) => TimesAppend(cfg, s, log, IPReset(ip));
    case ResetUID(uid, _) => TimesAppend(cfg, s, log, UIDReset(uid));
  }

  lemma StandsUpkeep(cfg: Config, t: Tables, log: seq<Event>, clock: int, op: Op, s: Subject)
    requires Stands(Find(t, s), Times(cfg, s, log), cfg.Window(), clock) && clock <= op.At() && !op.Check?
    ensures Stands(Find(Apply(cfg, t, op), s), Times(cfg, s, Remember(cfg, log, op)), cfg.Window(), op.At())
  {
    UpkeepFinds(cfg, t, op, s);
    UpkeepTimes(cfg, log, op, s);
    StandsSweep(Find(t, s), Times(cfg, s, log), cfg.Window(), clock, op.At());
  }

  lemma AgreesStep(cfg: Config, t: Tables, log: seq<Event>, clock: int, op: Op)
    requires Agrees(cfg, t, log, clock) && clock <= op.At()
    ensures Agrees(cfg, Apply(cfg, t, op), Remember(cfg, log, op), op.At())
  {
    if op.Check? {
      VerdictsAgree(cfg, t, log, clock, op.req);
    }
    forall s: Subject
      ensures Stands(Find(Apply(cfg, t, op), s), Times(cfg, s, Remember(cfg, log, op)), cfg.Window(), op.At())
    {
      assert Stands(Find(t, s), Times(cfg, s, log), cfg.Window(), clock);
      StandsStep(cfg, t, log, clock, op, s);
    }
  }

  function ClockOf(ops: seq<Op>, clock: int): int {
    if ops == [] then clock else ops[|ops| - 1].At()
  }

  lemma {:induction false} RunAgrees(cfg: Config, ops: seq<Op>)
    requires Timed(ops)
    ensures Agrees(cfg, Run(cfg, ops), History(cfg, ops), ClockOf(ops, 0))
  {
    if ops != [] {
      var before := ops[..|ops| - 1];
      RunAgrees(cfg, before);
      if before == [] {
        assert Agrees(cfg, EMPTY_TABLES, [], ops[0].At());
        AgreesStep(cfg, EMPTY_TABLES, [], ops[0].At(), ops[0]);
      } else {
        AgreesStep(cfg, Run(cfg, before), History(cfg, before), ClockOf(before, 0), ops[|ops| - 1]);
      }
    }
  }

  /** Refinement: after any run, any later request gets the answer the full history gives. */
  lemma LimiterRefinesHistory(cfg: Config, ops: seq<Op>, req: Request)
    requires Timed(ops + [Check(req)])
    ensures Verdict(cfg, Run(cfg, ops), req) == HistoryVerdict(cfg, History(cfg, ops), req)
  {
    var all := ops + [Check(req)];
    assert forall i :: 0 <= i < |ops| ==> all[i] == ops[i];
    RunAgrees(cfg, ops);
    if ops == [] {
      assert Agrees(cfg, EMPTY_TABLES, [], req.now);
      VerdictsAgree(cfg, EMPTY_TABLES, [], req.now, req);
    } else {
      assert all[|ops| - 1].At() <= all[|ops|].At();
      VerdictsAgree(cfg, Run(cfg, ops), History(cfg, ops), ClockOf(ops, 0), req);
    }
  }

  function Unswept(ops: seq<Op>): seq<Op> {
    if ops == [] then []
    else if ops[|ops| - 1].Sweep? then Unswept(ops[..|ops| - 1])
    else Unswept(ops[..|ops| - 1]) + [ops[|ops| - 1]]
  }

  lemma {:induction false} SweepsLeaveHistory(cfg: Config, ops: seq<Op>)
    ensures History(cfg, ops) == History(cfg, Unswept(ops))
  {
    if ops != [] {
      var before := ops[..|ops| - 1];
      SweepsLeaveHistory(cfg, before);
      if !ops[|ops| - 1].Sweep? {
        assert Unswept(ops)[..|Unswept(ops)| - 1] == Unswept(before);
      }
    }
  }

  /** Sweeping is invisible: runs that differ only in where sweeps happen answer alike. */
  lemma SweepsChangeNoDecision(cfg: Config, ops1: seq<Op>, ops2: seq<Op>, req: Request)
    requires Timed(ops1 + [Check(req)]) && Timed(ops2 + [Check(req)])
    requires Unswept(ops1) == Unswept(ops2)
    ensures Verdict(cfg, Run(cfg, ops1), req) == Verdict(cfg, Run(cfg, ops2), req)
  {
    LimiterRefinesHistory(cfg, ops1, req);
    LimiterRefinesHistory(cfg, ops2, req);
    SweepsLeaveHistory(cfg, ops1);
    SweepsLeaveHistory(cfg, ops2);
  }

  /** The displayed rate is the number of requests accepted in the window in force. */
  lemma RatesAreLoads(cfg: Config, ops: seq<Op>, s: Subject, now: int)
    requires Timed(ops) && ClockOf(ops, now) <= now
    ensures var ts := Times(cfg, s, History(cfg, ops));
            RateOf(Find(Run(cfg, ops), s), cfg.Window(), now) ==
            if Lapsed(ts, cfg.Window(), now) then 0 else Load(ts, cfg.Window())
  {
    RunAgrees(cfg, ops);
    assert Stands(Find(Run(cfg, ops), s), Times(cfg, s, History(cfg, ops)), cfg.Window(), ClockOf(ops, 0));
  }

  // ---------- Bounds over whole runs ----------

  /** Every request charged to s has a positive limit of at most m. */
  predicate LimitedTo(cfg: Config, s: Subject, ops: seq<Op>, m: int) {
    forall i :: 0 <= i < |ops| && ops[i].Check? && Charged(cfg, s, ops[i].req)
      ==> 0 < LimitFor(cfg, s, ops[i].req.isLogin) <= m
  }

  predicate Capped(ts: seq<int>, w: int, m: int) {
    forall k :: 0 <= k < |ts| ==> LoadAt(ts, k, w) <= m
  }

  lemma CappedAppend(ts: seq<int>, t: int, w: int, m: int)
    requires Capped(ts, w, m) && Load(ts + [t], w) <= m
    ensures Capped(ts + [t], w, m)
  {
    var ts' := ts + [t];
    assert ts'[..|ts| + 1] == ts';
    forall k | 0 <= k < |ts'|
      ensures LoadAt(ts', k, w) <= m
    {
      if k < |ts| {
        assert LoadAt(ts', k, w) == LoadAt(ts, k, w) by {
          assert ts'[..k + 1] == ts[..k + 1];
        }
      }
    }
  }

  lemma RoomWhenAllowed(cfg: Config, log: seq<Event>, req: Request, s: Subject, m: int)
    requires Charged(cfg, s, req) && HistoryVerdict(cfg, log, req).Allowed?
    requires 0 < LimitFor(cfg, s, req.isLogin) <= m
    ensures Load(Times(cfg, s, log) + [req.now], cfg.Window()) <= m
  {
    assert LayerRule(cfg, s, log, req).Allowed?;
    OpenerAppend(Times(cfg, s, log), req.now, cfg.Window());
  }

  lemma CappedStep(cfg: Config, log: seq<Event>, op: Op, s: Subject, m: int)
    requires Capped(Times(cfg, s, log), cfg.Window(), m) && m >= 1
    requires op.Check? && Charged(cfg, s, op.req) ==> 0 < LimitFor(cfg, s, op.req.isLogin) <= m
    ensures Capped(Times(cfg, s, Remember(cfg, log, op)), cfg.Window(), m)
  {
    var ts := Times(cfg, s, log);
    match op
    case Check(req) =>
      TimesAppend(cfg, s, log, Accepted(req));
      if Charged(cfg, s, req) && HistoryVerdict(cfg, log, req).Allowed? {
        RoomWhenAllowed(cfg, log, req, s, m);
        CappedAppend(ts, req.now, cfg.Window(), m);
      }
    case Sweep(_) =>
    case ResetIP(ip, _) =>
      TimesAppend(cfg, s, log, IPReset(ip));
    case ResetUID(uid, _) =>
      TimesAppend(cfg, s, log, UIDReset(uid));
  }

  lemma {:induction false} WindowsNeverOverfill(cfg: Config, ops: seq<Op>, s: Subject, m: int)
    requires LimitedTo(cfg, s, ops, m) && m >= 1
    ensures Capped(Times(cfg, s, History(cfg, ops)), cfg.Window(), m)
  {
    if ops != [] {
      var before := ops[..|ops| - 1];
      WindowsNeverOverfill(cfg, before, s, m);
      CappedStep(cfg, History(cfg, before), ops[|ops| - 1], s, m);
    }
  }

  /** Stored counts stay in 1..m. */
  lemma StoredCountsStayInRange(cfg: Config, ops: seq<Op>, s: Subject, m: int)
    requires Timed(ops) && LimitedTo(cfg, s, ops, m) && m >= 1
    ensures var r := Find(Run(cfg, ops), s);
            r.Some? ==> 1 <= r.value.count <= m
  {
    RunAgrees(cfg, ops);
    WindowsNeverOverfill(cfg, ops, s, m);
    var ts := Times(cfg, s, History(cfg, ops));
    assert Stands(Find(Run(cfg, ops), s), ts, cfg.Window(), ClockOf(ops, 0));
    if ts != [] {
      assert ts[..|ts| - 1 + 1] == ts;
      assert LoadAt(ts, |ts| - 1, cfg.Window()) <= m;
    }
  }

  /** No sliding window, wherever it is placed, sees more than 2m - 1 requests of one IP,
      one uid or one pair accepted since that subject's last reset. */
  lemma SlidingWindowBound(cfg: Config, ops: seq<Op>, s: Subject, m: int, lo: int)
    requires Timed(ops) && LimitedTo(cfg, s, ops, m) && m >= 1
    ensures CountWithin(Times(cfg, s, History(cfg, ops)), lo, lo + cfg.Window()) <= 2 * m - 1
  {
    TimesAscend(cfg, ops, s);
    WindowsNeverOverfill(cfg, ops, s, m);
    CappedSlidingBound(Times(cfg, s, History(cfg, ops)), cfg.Window(), m, lo);
  }

  lemma CappedSlidingBound(ts: seq<int>, w: int, m: int, lo: int)
    requires Ascending(ts) && Capped(ts, w, m) && m >= 1
    ensures CountWithin(ts, lo, lo + w) <= 2 * m - 1
  {
    SlidingBound(ts, w, m, lo);
  }

  lemma TimesAscend(cfg: Config, ops: seq<Op>, s: Subject)
    requires Timed(ops)
    ensures Ascending(Times(cfg, s, History(cfg, ops)))
  {
    RunAgrees(cfg, ops);
    assert Stands(Find(Run(cfg, ops), s), Times(cfg, s, History(cfg, ops)), cfg.Window(), ClockOf(ops, 0));
  }
}
