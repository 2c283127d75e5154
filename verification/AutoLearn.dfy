/**
 Auto-learning over whole runs: when a reject turns into a ban, in terms of the rejects that
 really happened rather than of the counters kept.
*/
module AutoLearn {
  import opened Wrappers
  import opened Windows
  import opened Keys
  import opened BlacklistSpec
  import opened BlacklistRuns

  predicate RejectOf(op: Op, key: string) {
    op.Reject? && LearnKey(op.ip, op.uid) == key
  }

  /** When rejects of one key happened, since counters were last wiped. */
  function RejectTimes(key: string, ops: seq<Op>): seq<int> {
    if ops == [] then [] else Noted(key, RejectTimes(key, ops[..|ops| - 1]), ops[|ops| - 1])
  }

  function Noted(key: string, ts: seq<int>, op: Op): seq<int> {
    if RejectOf(op, key) then ts + [op.now]
    else if op.ClearAll? || op.Restart? then []
    else ts
  }

  lemma RejectTimesAppend(key: string, ops: seq<Op>, op: Op)
    ensures RejectTimes(key, ops + [op]) == Noted(key, RejectTimes(key, ops), op)
  {
    assert (ops + [op])[..|ops|] == ops;
  }

  // ---------- Counters stand for the rejects of the window in force ----------

  function FindCounter(m: map<string, Counter>, key: string): Option<Counter> {
    if key in m then Some(m[key]) else None
  }

  predicate Tallies(c: Option<Counter>, ts: seq<int>, w: int, clock: int) {
    && Ascending(ts)
    && (ts != [] ==> ts[|ts| - 1] <= clock)
    && match c
       case None => Lapsed(ts, w, clock)
       case Some(rec) => ts != [] && rec == Counter(Load(ts, w), ts[Opener(ts, w)])
  }

  ghost predicate Tracks(cfg: Config, l: Lists, past: seq<Op>, clock: int) {
    forall key :: Tallies(FindCounter(l.counters, key), RejectTimes(key, past), cfg.Window(), clock)
  }

  lemma TalliesAppend(c: Option<Counter>, counters: map<string, Counter>, key: string,
                      ts: seq<int>, w: int, clock: int, now: int)
    requires c == FindCounter(counters, key) && Tallies(c, ts, w, clock) && clock <= now
    ensures Tallies(Some(Counted(counters, key, now, w)), ts + [now], w, now)
  {
    OpenerAppend(ts, now, w);
  }

  lemma TracksStep(cfg: Config, s: Sys, op: Op, s': Sys, past: seq<Op>, clock: int)
    requires cfg.enableAutoLearn && Tracks(cfg, s.lists, past, clock)
    requires clock <= op.now && Step(cfg, s, op, s')
    ensures Tracks(cfg, s'.lists, past + [op], op.now)
  {
    forall key
      ensures Tallies(FindCounter(s'.lists.counters, key), RejectTimes(key, past + [op]), cfg.Window(), op.now)
    {
      var c, ts := FindCounter(s.lists.counters, key), RejectTimes(key, past);
      assert Tallies(c, ts, cfg.Window(), clock);
      RejectTimesAppend(key, past, op);
      if RejectOf(op, key) {
        TalliesAppend(c, s.lists.counters, key, ts, cfg.Window(), clock, op.now);
      }
    }
  }

  lemma {:induction false} AlwaysTracks(cfg: Config, start: int, tr: seq<Sys>, ops: seq<Op>, n: nat)
    requires Behaviour(cfg, start, tr, ops) && n <= |ops| && cfg.enableAutoLearn
    ensures Tracks(cfg, tr[n].lists, ops[..n], ClockAt(start, ops, n))
  {
    if n > 0 {
      AlwaysTracks(cfg, start, tr, ops, n - 1);
      BehaviourSteps(cfg, start, tr, ops, n - 1);
      TracksStep(cfg, tr[n - 1], ops[n - 1], tr[n], ops[..n - 1], ClockAt(start, ops, n - 1));
      assert ops[..n - 1] + [ops[n - 1]] == ops[..n];
    }
  }

  lemma TalliesAt(cfg: Config, start: int, tr: seq<Sys>, ops: seq<Op>, n: nat, key: string)
    requires Behaviour(cfg, start, tr, ops) && n <= |ops| && cfg.enableAutoLearn
    ensures Tallies(FindCounter(tr[n].lists.counters, key), RejectTimes(key, ops[..n]), cfg.Window(),
                    ClockAt(start, ops, n))
  {
    AlwaysTracks(cfg, start, tr, ops, n);
  }

  // ---------- Exactly when a reject bans ----------

  /** A reject right away is never the one that bans, so a threshold below 2 works like 2. */
  function EffectiveThreshold(cfg: Config): int {
    if cfg.threshold < 2 then 2 else cfg.threshold
  }

  lemma BansByLoad(cfg: Config, l: Lists, past: seq<Op>, clock: int, op: Op)
    requires cfg.enableAutoLearn && Tracks(cfg, l, past, clock) && op.Reject? && clock <= op.now
    ensures Bans(cfg, l, op.ip, op.uid, op.now) <==>
            && Load(RejectTimes(LearnKey(op.ip, op.uid), past + [op]), cfg.Window()) >= EffectiveThreshold(cfg)
            && op.ip !in l.ips && (op.uid > 0 ==> PairKey(op.ip, op.uid) !in l.pairs)
  {
    var key := LearnKey(op.ip, op.uid);
    var ts := RejectTimes(key, past);
    assert Tallies(FindCounter(l.counters, key), ts, cfg.Window(), clock);
    RejectTimesAppend(key, past, op);
    OpenerAppend(ts, op.now, cfg.Window());
  }

  /** A reject puts its IP on the list iff the rejects of its key in the window in force,
      this one included, reach the threshold and neither IP nor pair has an entry yet. */
  lemma AutoLearnFiresExactly(cfg: Config, start: int, tr: seq<Sys>, ops: seq<Op>, n: nat)
    requires Behaviour(cfg, start, tr, ops) && n < |ops| && ops[n].Reject? && cfg.enableAutoLearn
    ensures var op := ops[n];
            (op.ip !in tr[n].lists.ips && op.ip in tr[n + 1].lists.ips) <==>
            && Load(RejectTimes(LearnKey(op.ip, op.uid), ops[..n + 1]), cfg.Window()) >= EffectiveThreshold(cfg)
            && op.ip !in tr[n].lists.ips && (op.uid > 0 ==> PairKey(op.ip, op.uid) !in tr[n].lists.pairs)
  {
    AlwaysTracks(cfg, start, tr, ops, n);
    BehaviourSteps(cfg, start, tr, ops, n);
    assert ops[..n] + [ops[n]] == ops[..n + 1];
    BansByLoad(cfg, tr[n].lists, ops[..n], ClockAt(start, ops, n), ops[n]);
  }

  lemma LastRejectTime(ops: seq<Op>, n: nat, key: string)
    requires n < |ops| && RejectOf(ops[n], key)
    ensures var ts := RejectTimes(key, ops[..n + 1]); ts != [] && ts[|ts| - 1] == ops[n].now
  {
    assert ops[..n] + [ops[n]] == ops[..n + 1];
    RejectTimesAppend(key, ops[..n], ops[n]);
  }

  /** Soundness: a learned ban rests on at least a threshold of rejects of one key in the
      closed interval of one window that ends now. */
  lemma LearnedBansAreEarned(cfg: Config, start: int, tr: seq<Sys>, ops: seq<Op>, n: nat)
    requires Behaviour(cfg, start, tr, ops) && n < |ops| && ops[n].Reject? && cfg.enableAutoLearn
    requires ops[n].ip !in tr[n].lists.ips && ops[n].ip in tr[n + 1].lists.ips
    ensures var op := ops[n];
            var rejects := RejectTimes(LearnKey(op.ip, op.uid), ops[..n + 1]);
            CountWithin(rejects, op.now - cfg.Window(), op.now) >= EffectiveThreshold(cfg)
  {
    var key := LearnKey(ops[n].ip, ops[n].uid);
    var ts := RejectTimes(key, ops[..n + 1]);
    AutoLearnFiresExactly(cfg, start, tr, ops, n);
    TalliesAt(cfg, start, tr, ops, n + 1, key);
    LastRejectTime(ops, n, key);
    LoadIsRecent(ts, cfg.Window(), ops[n].now);
  }

  /** With auto-learning off no reject changes anything. */
  lemma NoLearningWhenDisabled(cfg: Config, s: Sys, op: Op, s': Sys)
    requires !cfg.enableAutoLearn && op.Reject? && Step(cfg, s, op, s')
    ensures s' == s
  {
  }

  // ---------- Enough rejects always teach ----------

  predicate Listed(l: Lists, ip: string, uid: int) {
    ip in l.ips || (uid > 0 && PairKey(ip, uid) in l.pairs)
  }

  /** From lo to lo + w the window of ts never holds more than cap. */
  predicate CappedDuring(ts: seq<int>, w: int, lo: int, cap: int) {
    forall k :: 0 <= k < |ts| && lo <= ts[k] <= lo + w ==> LoadAt(ts, k, w) <= cap
  }

  lemma CappedDuringAppend(ts: seq<int>, t: int, w: int, lo: int, cap: int)
    requires CappedDuring(ts, w, lo, cap) && (lo <= t <= lo + w ==> Load(ts + [t], w) <= cap)
    ensures CappedDuring(ts + [t], w, lo, cap)
  {
    var ts' := ts + [t];
    assert ts'[..|ts| + 1] == ts';
    forall k | 0 <= k < |ts'| && lo <= ts'[k] <= lo + w
      ensures LoadAt(ts', k, w) <= cap
    {
      if k < |ts| {
        assert ts'[..k + 1] == ts[..k + 1];
        assert LoadAt(ts, k, w) <= cap;
      }
    }
  }

  /** A reject that leaves its source unlisted was below the threshold. */
  lemma UnlistedStep(cfg: Config, s: Sys, op: Op, s': Sys, past: seq<Op>, clock: int, key: string,
                     lo: int)
    requires cfg.enableAutoLearn && Tracks(cfg, s.lists, past, clock) && clock <= op.now && Step(cfg, s, op, s')
    requires CappedDuring(RejectTimes(key, past), cfg.Window(), lo, EffectiveThreshold(cfg) - 1)
    requires RejectOf(op, key) && lo <= op.now <= lo + cfg.Window() ==> !Listed(s'.lists, op.ip, op.uid)
    ensures CappedDuring(RejectTimes(key, past + [op]), cfg.Window(), lo, EffectiveThreshold(cfg) - 1)
  {
    RejectTimesAppend(key, past, op);
    if RejectOf(op, key) {
      BansByLoad(cfg, s.lists, past, clock, op);
      CappedDuringAppend(RejectTimes(key, past), op.now, cfg.Window(), lo, EffectiveThreshold(cfg) - 1);
    }
  }

  lemma CappedDuringBound(ts: seq<int>, w: int, lo: int, span: int, cap: nat)
    requires Ascending(ts) && CappedDuring(ts, w, lo, cap) && cap >= 1 && span <= w
    ensures CountWithin(ts, lo, lo + span) <= 2 * cap - 1
  {
    SlidingBound(ts, w, cap, lo);
    CountMonotone(ts, lo, lo + span, lo, lo + w);
  }

  /** Step m, if it is a reject of the key in the interval, leaves its source unlisted. */
  predicate Misses(cfg: Config, tr: seq<Sys>, ops: seq<Op>, m: nat, key: string, lo: int)
    requires |tr| == |ops| + 1 && m < |ops|
  {
    RejectOf(ops[m], key) && lo <= ops[m].now <= lo + cfg.Window() ==> !Listed(tr[m + 1].lists, ops[m].ip, ops[m].uid)
  }

  lemma UnlistedAt(cfg: Config, start: int, tr: seq<Sys>, ops: seq<Op>, k: nat, key: string, lo: int)
    requires Behaviour(cfg, start, tr, ops) && k < |ops| && cfg.enableAutoLearn && Misses(cfg, tr, ops, k, key, lo)
    requires CappedDuring(RejectTimes(key, ops[..k]), cfg.Window(), lo, EffectiveThreshold(cfg) - 1)
    ensures CappedDuring(RejectTimes(key, ops[..k + 1]), cfg.Window(), lo, EffectiveThreshold(cfg) - 1)
  {
    AlwaysTracks(cfg, start, tr, ops, k);
    BehaviourSteps(cfg, start, tr, ops, k);
    UnlistedStep(cfg, tr[k], ops[k], tr[k + 1], ops[..k], ClockAt(start, ops, k), key, lo);
    assert ops[..k] + [ops[k]] == ops[..k + 1];
  }

  lemma {:induction false} UnlistedMeansCapped(cfg: Config, start: int, tr: seq<Sys>, ops: seq<Op>, n: nat,
                                               key: string, lo: int)
    requires Behaviour(cfg, start, tr, ops) && n <= |ops| && cfg.enableAutoLearn
    requires forall m :: 0 <= m < n ==> Misses(cfg, tr, ops, m, key, lo)
    ensures CappedDuring(RejectTimes(key, ops[..n]), cfg.Window(), lo, EffectiveThreshold(cfg) - 1)
  {
    if n > 0 {
      UnlistedMeansCapped(cfg, start, tr, ops, n - 1, key, lo);
      UnlistedAt(cfg, start, tr, ops, n - 1, key, lo);
    }
  }

  lemma UnlistedMeansFew(cfg: Config, start: int, tr: seq<Sys>, ops: seq<Op>, n: nat,
                         key: string, lo: int)
    requires Behaviour(cfg, start, tr, ops) && n <= |ops| && cfg.enableAutoLearn
    requires forall m :: 0 <= m < n ==> Misses(cfg, tr, ops, m, key, lo)
    ensures CountWithin(RejectTimes(key, ops[..n]), lo, lo + cfg.Window()) <= 2 * EffectiveThreshold(cfg) - 3
  {
    UnlistedMeansCapped(cfg, start, tr, ops, n, key, lo);
    TalliesAt(cfg, start, tr, ops, n, key);
    CappedDuringBound(RejectTimes(key, ops[..n]), cfg.Window(), lo, cfg.Window(), EffectiveThreshold(cfg) - 1);
  }

  /** Completeness: 2T - 2 rejects of one key within a closed interval as long as the window
      always teach: after one of them its IP is in the IP list, or its pair in the pair list. */
  lemma EnoughRejectsTeach(cfg: Config, start: int, tr: seq<Sys>, ops: seq<Op>, n: nat,
                           key: string, lo: int) returns (m: nat)
    requires Behaviour(cfg, start, tr, ops) && n <= |ops| && cfg.enableAutoLearn
    requires CountWithin(RejectTimes(key, ops[..n]), lo, lo + cfg.Window()) >= 2 * EffectiveThreshold(cfg) - 2
    ensures m < n && RejectOf(ops[m], key) && lo <= ops[m].now <= lo + cfg.Window()
    ensures Listed(tr[m + 1].lists, ops[m].ip, ops[m].uid)
  {
    if m' :| 0 <= m' < n && !Misses(cfg, tr, ops, m', key, lo) {
      m := m';
    } else {
      UnlistedMeansFew(cfg, start, tr, ops, n, key, lo);
      assert false;
    }
  }

  /** With colon-free addresses it is the source itself that is listed. */
  lemma EnoughRejectsTeachTheSource(cfg: Config, start: int, tr: seq<Sys>, ops: seq<Op>, n: nat,
                                    ip: string, uid: int, lo: int)
    returns (m: nat)
    requires Behaviour(cfg, start, tr, ops) && n <= |ops| && cfg.enableAutoLearn
    requires ':' !in ip && forall k :: 0 <= k < n && ops[k].Reject? ==> ':' !in ops[k].ip
    requires CountWithin(RejectTimes(LearnKey(ip, uid), ops[..n]), lo, lo + cfg.Window())
               >= 2 * EffectiveThreshold(cfg) - 2
    ensures m < n && ops[m].Reject? && lo <= ops[m].now <= lo + cfg.Window()
    ensures ops[m].ip == ip && KnownUid(ops[m].uid) == KnownUid(uid) && Listed(tr[m + 1].lists, ip, uid)
  {
    m := EnoughRejectsTeach(cfg, start, tr, ops, n, LearnKey(ip, uid), lo);
    ColonFreeLearnKeys(ops[m].ip, ops[m].uid, ip, uid);
  }

  /** Being listed is not being blocked: a reject over the threshold leaves its source free
      iff nothing blocked it before and an expired, unswept entry stood in the way. */
  lemma StaleEntryStopsLearningIff(cfg: Config, start: int, tr: seq<Sys>, ops: seq<Op>, n: nat)
    requires Behaviour(cfg, start, tr, ops) && n < |ops| && ops[n].Reject? && cfg.enableAutoLearn
    requires Load(RejectTimes(LearnKey(ops[n].ip, ops[n].uid), ops[..n + 1]), cfg.Window()) >= EffectiveThreshold(cfg)
    ensures var op := ops[n];
            IsBlacklisted(tr[n + 1].lists, op.ip, op.uid, op.now).Clear? <==>
            IsBlacklisted(tr[n].lists, op.ip, op.uid, op.now).Clear? && Listed(tr[n].lists, op.ip, op.uid)
  {
    AutoLearnFiresExactly(cfg, start, tr, ops, n);
    BehaviourSteps(cfg, start, tr, ops, n);
  }
}
