/** Runs in which auto-learning bans nobody. */
module AutoLearnSharp {
  import opened Wrappers
  import opened Windows
  import opened BlacklistSpec
  import opened BlacklistRuns
  import opened BanRuns
  import opened AutoLearn

  /** Banned by hand for the configured duration, then refused twice once that is over and
      before a sweep: the second reject is over a threshold of two and bans nobody. */
  lemma StaleEntryStopsLearning(cfg: Config, ip: string, late: int) returns (tr: seq<Sys>, ops: seq<Op>)
    requires cfg.enableAutoLearn && cfg.threshold <= 2 && cfg.learnWindow >= 0 && cfg.banDuration > 0
    requires late == cfg.banDuration * SECOND + 1
    ensures Behaviour(cfg, 0, tr, ops) && ops == [AddIP(ip, "", "manual", 0), Reject(ip, 0, late), Reject(ip, 0, late)]
    ensures Load(RejectTimes(ip, ops), cfg.Window()) >= EffectiveThreshold(cfg)
    ensures IsBlacklisted(tr[3].lists, ip, 0, late).Clear?
  {
    var add, reject := AddIP(ip, "", "manual", 0), Reject(ip, 0, late);
    var e := Entry(ip, 0, "", "", 0, cfg.ExpiryAt(0), "manual");
    var listed := AddedFirst(cfg, ip, e);
    var once := listed.(lists := AfterReject(cfg, listed.lists, ip, 0, late));
    var twice := once.(lists := AfterReject(cfg, once.lists, ip, 0, late));
    ops := [add, reject, reject];
    tr := [Sys(EMPTY_LISTS, None), listed, once, twice];
    ThreeSteps(cfg, tr, ops);
    TwoRejects(ip, ops, late, cfg.Window());
  }

  lemma ThreeSteps(cfg: Config, tr: seq<Sys>, ops: seq<Op>)
    requires |tr| == 4 && |ops| == 3 && tr[0] == Sys(EMPTY_LISTS, None)
    requires Step(cfg, tr[0], ops[0], tr[1]) && Step(cfg, tr[1], ops[1], tr[2]) && Step(cfg, tr[2], ops[2], tr[3])
    requires 0 <= ops[0].now <= ops[1].now <= ops[2].now
    ensures Behaviour(cfg, 0, tr, ops)
  {
    forall i | 0 <= i < 3
      ensures StepAt(cfg, tr, ops, i)
    {
      assert i == 0 || i == 1 || i == 2;
    }
  }

  lemma AddedFirst(cfg: Config, ip: string, e: Entry) returns (s: Sys)
    requires e == Entry(ip, 0, "", "", 0, cfg.ExpiryAt(0), "manual")
    ensures s.lists == EMPTY_LISTS.(ips := map[ip := e])
    ensures Step(cfg, Sys(EMPTY_LISTS, None), AddIP(ip, "", "manual", 0), s)
  {
    s := Sys(EMPTY_LISTS.(ips := map[ip := e]), if cfg.persist then Some(File([e], [], [], [])) else None);
    SingleImage(ip, e);
    assert EMPTY_LISTS.ips[ip := e] == map[ip := e];
  }

  lemma TwoRejects(ip: string, ops: seq<Op>, at: int, w: int)
    requires |ops| == 3 && ops[0].AddIP? && ops[1] == ops[2] == Reject(ip, 0, at) && w >= 0
    ensures Load(RejectTimes(ip, ops), w) == 2
  {
    assert ops == (([] + [ops[0]]) + [ops[1]]) + [ops[2]];
    RejectTimesAppend(ip, [], ops[0]);
    RejectTimesAppend(ip, [] + [ops[0]], ops[1]);
    RejectTimesAppend(ip, ([] + [ops[0]]) + [ops[1]], ops[2]);
    assert [] + [at] == [at];
    OpenerAppend([at], at, w);
  }

  // ---------- 2T - 3 rejects need not teach ----------

  function RejectsAt(ip: string, ts: seq<int>): (ops: seq<Op>)
    ensures |ops| == |ts| && forall i :: 0 <= i < |ts| ==> ops[i] == Reject(ip, 0, ts[i])
  {
    seq(|ts|, i requires 0 <= i < |ts| => Reject(ip, 0, ts[i]))
  }

  lemma {:induction false} RejectsAtTimes(ip: string, ts: seq<int>)
    ensures RejectTimes(ip, RejectsAt(ip, ts)) == ts
  {
    if ts != [] {
      var n := |ts| - 1;
      RejectsAtTimes(ip, ts[..n]);
      assert RejectsAt(ip, ts)[..n] == RejectsAt(ip, ts[..n]);
      assert ts == ts[..n] + [ts[n]];
    }
  }

  /** Times from 0 on in no window of which there are more than m. */
  predicate Sparse(ts: seq<int>, w: int, m: int) {
    && Ascending(ts) && (forall i :: 0 <= i < |ts| ==> ts[i] >= 0)
    && forall k :: 0 <= k < |ts| ==> LoadAt(ts, k, w) <= m
  }

  lemma SparsePrefix(ts: seq<int>, w: int, m: int, n: nat)
    requires Sparse(ts, w, m) && n <= |ts|
    ensures Sparse(ts[..n], w, m)
  {
    forall k | 0 <= k < n
      ensures LoadAt(ts[..n], k, w) <= m
    {
      assert ts[..n][..k + 1] == ts[..k + 1];
      assert LoadAt(ts, k, w) <= m;
    }
  }

  lemma EdgeIsSparse(w: int, m: nat)
    requires w >= 1 && m >= 1
    ensures Sparse(EdgeTimes(w, m), w, m)
  {
    EdgeAscends(w, m);
    forall k | 0 <= k < |EdgeTimes(w, m)|
      ensures LoadAt(EdgeTimes(w, m), k, w) <= m
    {
      EdgeIsCapped(w, m, k);
    }
  }

  predicate NothingLearned(tr: seq<Sys>) {
    forall n :: 0 <= n < |tr| ==> tr[n].lists.ips == map[] && tr[n].lists.pairs == map[] && tr[n].lists.uids == map[]
  }

  /** Rejects of one IP whose windows never reach the threshold run through and teach nothing. */
  lemma {:induction false} SparseRejectsTeachNothing(cfg: Config, ip: string, ts: seq<int>) returns (tr: seq<Sys>)
    requires cfg.enableAutoLearn && Sparse(ts, cfg.Window(), EffectiveThreshold(cfg) - 1)
    ensures Behaviour(cfg, 0, tr, RejectsAt(ip, ts)) && NothingLearned(tr)
  {
    if ts == [] {
      tr := [Sys(EMPTY_LISTS, None)];
    } else {
      SparsePrefix(ts, cfg.Window(), EffectiveThreshold(cfg) - 1, |ts| - 1);
      var before := SparseRejectsTeachNothing(cfg, ip, ts[..|ts| - 1]);
      tr := SparseStep(cfg, ip, ts, before);
    }
  }

  lemma SparseLoad(ts: seq<int>, w: int, m: int)
    requires Sparse(ts, w, m) && ts != []
    ensures Load(ts, w) <= m
  {
    assert ts[..|ts| - 1 + 1] == ts;
    assert LoadAt(ts, |ts| - 1, w) <= m;
  }

  lemma LastOfRejects(ip: string, ts: seq<int>)
    requires ts != []
    ensures var n := |ts| - 1;
            && RejectsAt(ip, ts) == RejectsAt(ip, ts[..n]) + [Reject(ip, 0, ts[n])]
            && RejectTimes(ip, RejectsAt(ip, ts[..n]) + [Reject(ip, 0, ts[n])]) == ts
  {
    var n := |ts| - 1;
    assert RejectsAt(ip, ts) == RejectsAt(ip, ts[..n]) + [Reject(ip, 0, ts[n])];
    RejectsAtTimes(ip, ts);
  }

  lemma SparseBansNobody(cfg: Config, l: Lists, ip: string, ts: seq<int>, past: seq<Op>, clock: int)
    requires cfg.enableAutoLearn && ts != [] && Sparse(ts, cfg.Window(), EffectiveThreshold(cfg) - 1)
    requires Tracks(cfg, l, past, clock) && clock <= ts[|ts| - 1]
    requires RejectTimes(ip, past + [Reject(ip, 0, ts[|ts| - 1])]) == ts
    ensures !Bans(cfg, l, ip, 0, ts[|ts| - 1])
  {
    BansByLoad(cfg, l, past, clock, Reject(ip, 0, ts[|ts| - 1]));
    SparseLoad(ts, cfg.Window(), EffectiveThreshold(cfg) - 1);
  }

  lemma TracksAfter(cfg: Config, start: int, tr: seq<Sys>, ops: seq<Op>)
    requires Behaviour(cfg, start, tr, ops) && cfg.enableAutoLearn
    ensures Tracks(cfg, tr[|ops|].lists, ops, ClockAt(start, ops, |ops|))
  {
    AlwaysTracks(cfg, start, tr, ops, |ops|);
    assert ops[..|ops|] == ops;
  }

  lemma SparseStep(cfg: Config, ip: string, ts: seq<int>, before: seq<Sys>) returns (tr: seq<Sys>)
    requires cfg.enableAutoLearn && ts != [] && Sparse(ts, cfg.Window(), EffectiveThreshold(cfg) - 1)
    requires Behaviour(cfg, 0, before, RejectsAt(ip, ts[..|ts| - 1])) && NothingLearned(before)
    ensures Behaviour(cfg, 0, tr, RejectsAt(ip, ts)) && NothingLearned(tr)
  {
    var n := |ts| - 1;
    var past, op := RejectsAt(ip, ts[..n]), Reject(ip, 0, ts[n]);
    var s := before[n];
    var s' := s.(lists := After(cfg, s.lists, op));
    LastOfRejects(ip, ts);
    TracksAfter(cfg, 0, before, past);
    SparseBansNobody(cfg, s.lists, ip, ts, past, ClockAt(0, past, n));
    BehaviourExtends(cfg, 0, before, past, op, s');
    tr := before + [s'];
  }

  /** The bound is sharp: for every threshold and window some run has 2T - 3 rejects of one IP
      within a closed interval of one window and lists nobody. */
  lemma EnoughRejectsIsSharp(cfg: Config, ip: string) returns (tr: seq<Sys>, ops: seq<Op>)
    requires cfg.enableAutoLearn && cfg.learnWindow >= 1
    ensures Behaviour(cfg, 0, tr, ops) && NothingLearned(tr)
    ensures CountWithin(RejectTimes(ip, ops), cfg.Window(), 2 * cfg.Window()) == 2 * EffectiveThreshold(cfg) - 3
  {
    var w, m := cfg.Window(), EffectiveThreshold(cfg) - 1;
    var ts := EdgeTimes(w, m);
    EdgeIsSparse(w, m);
    EdgeCount(w, m);
    tr, ops := SparseRun(cfg, ip, ts, w, w + w, 2 * m - 1);
  }

  lemma SparseRun(cfg: Config, ip: string, ts: seq<int>, lo: int, hi: int, count: int)
    returns (tr: seq<Sys>, ops: seq<Op>)
    requires cfg.enableAutoLearn && Sparse(ts, cfg.Window(), EffectiveThreshold(cfg) - 1)
    requires CountWithin(ts, lo, hi) == count
    ensures Behaviour(cfg, 0, tr, ops) && NothingLearned(tr) && CountWithin(RejectTimes(ip, ops), lo, hi) == count
  {
    ops := RejectsAt(ip, ts);
    tr := SparseRejectsTeachNothing(cfg, ip, ts);
    RejectsAtTimes(ip, ts);
  }
}
