/** Runs of the limiter that reach its bounds. */
module LimiterSharp {
  import opened Windows
  import opened LimiterSpec
  import opened LimiterRuns

  /** k connections of one IP at the same instant. */
  function Burst(ip: string, at: int, k: nat): (ops: seq<Op>)
    ensures |ops| == k && forall i :: 0 <= i < k ==> ops[i] == Check(Request(ip, 0, false, at))
  {
    if k == 0 then [] else Burst(ip, at, k - 1) + [Check(Request(ip, 0, false, at))]
  }

  function Held(ts: seq<int>, w: int, at: int): nat {
    if Lapsed(ts, w, at) then 0 else Load(ts, w)
  }

  function IPTimes(cfg: Config, ops: seq<Op>, ip: string): seq<int> {
    Times(cfg, OfIP(ip), History(cfg, ops))
  }

  lemma OneFits(cfg: Config, ops: seq<Op>, ip: string, at: int)
    requires cfg.enableIP && cfg.windowSize >= 0
    requires Held(IPTimes(cfg, ops, ip), cfg.Window(), at) < cfg.ipMaxConn
    ensures IPTimes(cfg, ops + [Check(Request(ip, 0, false, at))], ip) == IPTimes(cfg, ops, ip) + [at]
  {
    var req := Request(ip, 0, false, at);
    var log := History(cfg, ops);
    assert (ops + [Check(req)])[..|ops|] == ops;
    assert HistoryVerdict(cfg, log, req).Allowed?;
    TimesAppend(cfg, OfIP(ip), log, Accepted(req));
  }

  lemma HeldAppend(ts: seq<int>, w: int, at: int)
    requires w >= 0
    ensures Held(ts + [at], w, at) == Held(ts, w, at) + 1
  {
    OpenerAppend(ts, at, w);
  }

  lemma {:induction false} HeldAfterRepeat(ts: seq<int>, w: int, at: int, k: nat)
    requires w >= 0
    ensures Held(ts + Repeat(at, k), w, at) == Held(ts, w, at) + k
  {
    if k == 0 {
      assert ts + Repeat(at, k) == ts;
    } else {
      HeldAfterRepeat(ts, w, at, k - 1);
      RepeatAppend(ts, at, k);
      HeldAppend(ts + Repeat(at, k - 1), w, at);
    }
  }

  lemma BurstAppend(ops: seq<Op>, ip: string, at: int, k: nat)
    requires k > 0
    ensures ops + Burst(ip, at, k) == (ops + Burst(ip, at, k - 1)) + [Check(Request(ip, 0, false, at))]
  {
  }

  /** A burst is accepted whole when the current window has room for it. */
  lemma {:induction false} BurstFits(cfg: Config, ops: seq<Op>, ip: string, at: int, k: nat)
    requires cfg.enableIP && cfg.windowSize >= 0
    requires Held(IPTimes(cfg, ops, ip), cfg.Window(), at) + k <= cfg.ipMaxConn
    ensures IPTimes(cfg, ops + Burst(ip, at, k), ip) == IPTimes(cfg, ops, ip) + Repeat(at, k)
  {
    if k == 0 {
      assert ops + Burst(ip, at, k) == ops;
    } else {
      BurstFits(cfg, ops, ip, at, k - 1);
      HeldAfterRepeat(IPTimes(cfg, ops, ip), cfg.Window(), at, k - 1);
      OneFits(cfg, ops + Burst(ip, at, k - 1), ip, at);
      BurstAppend(ops, ip, at, k);
      RepeatAppend(IPTimes(cfg, ops, ip), at, k);
    }
  }

  /** One connection opens a window, the rest of the limit comes at its very end, and a full
      new window follows at once. */
  function EdgeRun(ip: string, w: int, m: nat): seq<Op>
    requires m >= 1
  {
    EdgePrefix(ip, w, m) + Burst(ip, w + 1, m)
  }

  function EdgePrefix(ip: string, w: int, m: nat): seq<Op>
    requires m >= 1
  {
    Burst(ip, 0, 1) + Burst(ip, w, m - 1)
  }

  lemma EdgePrefixAccepted(cfg: Config, ip: string, m: nat)
    requires cfg.enableIP && cfg.ipMaxConn == m >= 1 && cfg.windowSize >= 1
    ensures IPTimes(cfg, EdgePrefix(ip, cfg.Window(), m), ip) == [0] + Repeat(cfg.Window(), m - 1)
  {
    EdgeIsLapsed(cfg.Window(), m - 1);
    FirstAccepted(cfg, ip);
    BurstOnto(cfg, Burst(ip, 0, 1), [0], ip, cfg.Window(), m - 1,
              EdgePrefix(ip, cfg.Window(), m), [0] + Repeat(cfg.Window(), m - 1));
  }

  lemma BurstOnto(cfg: Config, ops: seq<Op>, ts: seq<int>, ip: string, at: int, k: nat, ops': seq<Op>, ts': seq<int>)
    requires cfg.enableIP && cfg.windowSize >= 0
    requires IPTimes(cfg, ops, ip) == ts && Held(ts, cfg.Window(), at) + k <= cfg.ipMaxConn
    requires ops' == ops + Burst(ip, at, k) && ts' == ts + Repeat(at, k)
    ensures IPTimes(cfg, ops', ip) == ts'
  {
    BurstFits(cfg, ops, ip, at, k);
  }

  lemma EdgeIsLapsed(w: int, k: nat)
    requires w >= 1
    ensures Held([0] + Repeat(w, k), w, w + 1) == 0
    ensures Held([0], w, w) == 1
  {
    OpenerBeforeRepeat(w, w, k);
  }

  lemma FirstAccepted(cfg: Config, ip: string)
    requires cfg.enableIP && cfg.ipMaxConn >= 1 && cfg.windowSize >= 1
    ensures IPTimes(cfg, Burst(ip, 0, 1), ip) == [0]
  {
    assert [] + Burst(ip, 0, 1) == Burst(ip, 0, 1);
    assert IPTimes(cfg, [], ip) == [];
    BurstFits(cfg, [], ip, 0, 1);
    assert [] + Repeat(0, 1) == [0];
  }

  lemma EdgeRunIsLegal(cfg: Config, ip: string, m: nat)
    requires cfg.enableIP && cfg.ipMaxConn == m >= 1 && cfg.windowSize >= 1
    ensures Timed(EdgeRun(ip, cfg.Window(), m))
    ensures LimitedTo(cfg, OfIP(ip), EdgeRun(ip, cfg.Window(), m), m)
  {
    var w := cfg.Window();
    var ops := EdgeRun(ip, w, m);
    forall i | 0 <= i < |ops|
      ensures ops[i] == Check(Request(ip, 0, false, if i == 0 then 0 else if i < m then w else w + 1))
    {
    }
  }

  lemma EdgeRunAccepted(cfg: Config, ip: string, w: int, m: nat)
    requires cfg.enableIP && cfg.ipMaxConn == m >= 1 && cfg.windowSize >= 1 && w == cfg.Window()
    ensures IPTimes(cfg, EdgeRun(ip, w, m), ip) == EdgeTimes(w, m)
  {
    var early := [0] + Repeat(w, m - 1);
    EdgePrefixAccepted(cfg, ip, m);
    EdgeIsLapsed(w, m - 1);
    BurstOnto(cfg, EdgePrefix(ip, w, m), early, ip, w + 1, m, EdgeRun(ip, w, m), EdgeTimes(w, m));
  }

  lemma EdgeRunIsDense(cfg: Config, ops: seq<Op>, ts: seq<int>, ip: string, w: int, m: nat)
    requires w >= 1 && m >= 1
    requires IPTimes(cfg, ops, ip) == ts == EdgeTimes(w, m)
    ensures CountWithin(IPTimes(cfg, ops, ip), w, w + w) == 2 * m - 1
  {
    EdgeCount(w, m);
  }

  /** For every limit and every positive window some run reaches 2m - 1. */
  lemma SlidingWindowBoundIsSharp(cfg: Config, ip: string, w: int, m: nat)
    requires cfg.enableIP && cfg.ipMaxConn == m >= 1 && cfg.windowSize >= 1 && w == cfg.Window()
    ensures exists ops :: Timed(ops) && LimitedTo(cfg, OfIP(ip), ops, m)
                          && CountWithin(IPTimes(cfg, ops, ip), w, w + w) == 2 * m - 1
  {
    var ops := EdgeRun(ip, w, m);
    EdgeRunIsLegal(cfg, ip, m);
    EdgeRunAccepted(cfg, ip, w, m);
    EdgeRunIsDense(cfg, ops, IPTimes(cfg, ops, ip), ip, w, m);
  }
}
