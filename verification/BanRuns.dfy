/** How long a ban holds. */
module BanRuns {
  import opened Wrappers
  import opened Keys
  import opened BlacklistSpec
  import opened BlacklistRuns

  /** What a ban is on. */
  datatype Target = OnIP(ip: string) | OnUID(uid: int) | OnPair(ip: string, uid: int)

  function Lookup<K(==)>(m: map<K, Entry>, k: K): Option<Entry> {
    if k in m then Some(m[k]) else None
  }

  function EntryFor(l: Lists, t: Target): Option<Entry> {
    match t
    case OnIP(ip) => Lookup(l.ips, ip)
    case OnUID(uid) => Lookup(l.uids, uid)
    case OnPair(ip, uid) => Lookup(l.pairs, PairKey(ip, uid))
  }

  /** A connection of (ip, uid) is one the ban is meant for; without a uid only bans on the IP are. */
  predicate Meant(t: Target, ip: string, uid: int) {
    match t
    case OnIP(tip) => tip == ip
    case OnUID(tuid) => uid > 0 && tuid == uid
    case OnPair(tip, tuid) => uid > 0 && tip == ip && tuid == uid
  }

  /** t has an entry that lasts at least until the given time (None: for ever). */
  predicate Holds(l: Lists, t: Target, until: Option<int>) {
    var e := EntryFor(l, t);
    e.Some? && (e.value.expire.None? || (until.Some? && until.value <= e.value.expire.value))
  }

  predicate Lifts(op: Op, t: Target) {
    match op
    case RemoveIP(ip, _) => t == OnIP(ip)
    case RemoveUID(uid, _) => t == OnUID(uid)
    case RemovePair(ip, uid, _) => t == OnPair(ip, uid)
    case ClearAll(_) => true
    case _ => false
  }

  /** The step wrote a ban on t: by hand, or learned. */
  predicate WritesBan(cfg: Config, l: Lists, op: Op, t: Target) {
    match op
    case AddIP(ip, _, _, _) => t == OnIP(ip)
    case AddUID(uid, _, _, _) => t == OnUID(uid)
    case AddPair(ip, uid, _, _, _) => t == OnPair(ip, uid)
    case Reject(ip, uid, now) => t == OnIP(ip) && Bans(cfg, l, ip, uid, now)
    case _ => false
  }

  lemma PairTargets(t: Target, ip: string, uid: int)
    ensures t.OnPair? && PairKey(t.ip, t.uid) == PairKey(ip, uid) ==> t == OnPair(ip, uid)
  {
    if t.OnPair? {
      PairKeyInjective(t.ip, t.uid, ip, uid);
    }
  }

  lemma RestartHolds(cfg: Config, s: Sys, clock: int, now: int, t: Target, until: Option<int>)
    requires cfg.persist && Consistent(cfg, s, clock) && clock <= now && Holds(s.lists, t, until)
    requires until.Some? ==> now <= until.value
    ensures Holds(Started(cfg, s.disk, now), t, until)
  {
    ConsistentRestarts(cfg, s, clock, now, now);
    var again := Started(cfg, s.disk, now);
    match t
    case OnIP(ip) => assert Active(again.ips, ip, now) == Active(s.lists.ips, ip, now);
    case OnUID(uid) => assert Active(again.uids, uid, now) == Active(s.lists.uids, uid, now);
    case OnPair(ip, uid) =>
      assert Active(again.pairs, PairKey(ip, uid), now) == Active(s.lists.pairs, PairKey(ip, uid), now);
  }

  lemma HoldsStep(cfg: Config, s: Sys, op: Op, s': Sys, clock: int, t: Target, since: int)
    requires since <= clock <= op.now && Step(cfg, s, op, s')
    requires Holds(s.lists, t, cfg.ExpiryAt(since)) && !Lifts(op, t)
    requires cfg.ExpiryAt(since).Some? ==> op.now <= cfg.ExpiryAt(since).value
    requires op.Restart? ==> cfg.persist && Consistent(cfg, s, clock)
    ensures Holds(s'.lists, t, cfg.ExpiryAt(since))
  {
    match op
    case Restart(now) => RestartHolds(cfg, s, clock, now, t, cfg.ExpiryAt(since));
    case AddPair(ip, uid, _, _, _) => PairTargets(t, ip, uid);
    case RemovePair(ip, uid, _) => PairTargets(t, ip, uid);
    case _ =>
  }

  lemma {:induction false} BanHolds(cfg: Config, start: int, tr: seq<Sys>, ops: seq<Op>, i: nat, n: nat, t: Target,
                                    since: int)
    requires Behaviour(cfg, start, tr, ops) && i <= n <= |ops| && ConsistentAt(cfg, start, tr, ops, i)
    requires since <= ClockAt(start, ops, i) && Holds(tr[i].lists, t, cfg.ExpiryAt(since))
    requires forall k :: i <= k < n ==> !Lifts(ops[k], t) && (ops[k].Restart? ==> cfg.persist)
    requires cfg.ExpiryAt(since).Some? ==> ClockAt(start, ops, n) <= cfg.ExpiryAt(since).value
    ensures Holds(tr[n].lists, t, cfg.ExpiryAt(since))
    decreases n
  {
    if i < n {
      var k := n - 1;
      var op := ops[k];
      assert ClockAt(start, ops, i) <= ClockAt(start, ops, k) <= ClockAt(start, ops, n);
      BanHolds(cfg, start, tr, ops, i, k, t, since);
      StaysConsistent(cfg, start, tr, ops, i, k);
      BehaviourSteps(cfg, start, tr, ops, k);
      assert !Lifts(op, t) && (op.Restart? ==> cfg.persist);
      HoldsStep(cfg, tr[k], op, tr[k + 1], ClockAt(start, ops, k), t, since);
    }
  }

  lemma WrittenBanHolds(cfg: Config, s: Sys, op: Op, s': Sys, t: Target)
    requires Step(cfg, s, op, s') && WritesBan(cfg, s.lists, op, t)
    ensures Saves(cfg, s.lists, op) && Holds(s'.lists, t, cfg.ExpiryAt(op.now))
  {
  }

  lemma HeldIsBlocked(l: Lists, t: Target, until: Option<int>, ip: string, uid: int, now: int)
    requires Holds(l, t, until) && Meant(t, ip, uid) && (until.Some? ==> now <= until.value)
    ensures !IsBlacklisted(l, ip, uid, now).Clear?
    ensures t.OnIP? ==> IsBlacklisted(l, ip, uid, now).ByIP?
  {
  }

  /** A ban on an IP, a uid or a pair, written at time t, is enforced on [t, t + duration], for
      ever without a duration, through re-adds, auto-learning, sweeps and restarts, whatever the
      first file was, unless it is lifted by hand. */
  lemma BanIsEnforced(cfg: Config, start: int, tr: seq<Sys>, ops: seq<Op>, i: nat, n: nat,
                      t: Target, ip: string, uid: int, now: int)
    requires Behaviour(cfg, start, tr, ops) && i < n <= |ops|
    requires WritesBan(cfg, tr[i].lists, ops[i], t) && Meant(t, ip, uid)
    requires forall k :: i < k < n ==> !Lifts(ops[k], t) && (ops[k].Restart? ==> cfg.persist)
    requires ClockAt(start, ops, n) <= now
    requires cfg.banDuration > 0 ==> now <= ops[i].now + cfg.banDuration * SECOND
    ensures !IsBlacklisted(tr[n].lists, ip, uid, now).Clear?
    ensures t.OnIP? ==> IsBlacklisted(tr[n].lists, ip, uid, now).ByIP?
  {
    var j := i + 1;
    BehaviourSteps(cfg, start, tr, ops, i);
    WrittenBanHolds(cfg, tr[i], ops[i], tr[j], t);
    ConsistentOnceSaved(cfg, start, tr, ops, i, j);
    BanHolds(cfg, start, tr, ops, j, n, t, ops[i].now);
    HeldIsBlocked(tr[n].lists, t, cfg.ExpiryAt(ops[i].now), ip, uid, now);
  }

  /** Banning t by hand. */
  function BanOf(t: Target, reason: string, source: string, now: int): Op {
    match t
    case OnIP(ip) => AddIP(ip, reason, source, now)
    case OnUID(uid) => AddUID(uid, reason, source, now)
    case OnPair(ip, uid) => AddPair(ip, uid, reason, source, now)
  }

  /** t is banned at time now. */
  predicate InForce(l: Lists, t: Target, now: int) {
    EntryFor(l, t).Some? && !Expired(EntryFor(l, t).value, now)
  }

  /** Re-adding replaces the entry. It shortens the ban, on an IP, a uid or a pair, exactly when
      the new entry expires and the old one outlasts it: a permanent entry from a file, or a
      longer duration. */
  lemma ReAddShortensIff(cfg: Config, l: Lists, t: Target, reason: string, source: string, now: int)
    requires EntryFor(l, t).Some?
    ensures var l', end := After(cfg, l, BanOf(t, reason, source, now)), EntryFor(l, t).value.expire;
            (exists time :: InForce(l, t, time) && !InForce(l', t, time)) <==>
            cfg.banDuration > 0 && (end.None? || now + cfg.banDuration * SECOND < end.value)
  {
    var l', e := After(cfg, l, BanOf(t, reason, source, now)), EntryFor(l, t).value.expire;
    assert EntryFor(l', t).Some? && EntryFor(l', t).value.expire == cfg.ExpiryAt(now);
    if cfg.banDuration > 0 && (e.None? || now + cfg.banDuration * SECOND < e.value) {
      var time := now + cfg.banDuration * SECOND + 1;
      assert InForce(l, t, time) && !InForce(l', t, time);
    }
  }

  /** A permanent entry of the file, added again: the IP is free once the duration is over. */
  lemma ReAddFreesPermanentBan(cfg: Config, ip: string, at: int, later: int)
    requires cfg.persist && cfg.banDuration > 0 && at + cfg.banDuration * SECOND < later
    ensures var e := Entry(ip, 0, "", "", 0, None, "manual");
            var e' := e.(added := at, expire := cfg.ExpiryAt(at));
            var l := EMPTY_LISTS.(ips := map[ip := e]);
            var tr := [Sys(l, Some(File([e], [], [], []))),
                       Sys(l.(ips := map[ip := e']), Some(File([e'], [], [], [])))];
            && Behaviour(cfg, at, tr, [AddIP(ip, "", "manual", at)])
            && Active(tr[0].lists.ips, ip, later).Some? && Active(tr[1].lists.ips, ip, later).None?
  {
    var e := Entry(ip, 0, "", "", 0, None, "manual");
    var e' := e.(added := at, expire := cfg.ExpiryAt(at));
    assert [e][..0] == [];
    SingleImage(ip, e');
    var tr := [Sys(EMPTY_LISTS.(ips := map[ip := e]), Some(File([e], [], [], []))),
               Sys(EMPTY_LISTS.(ips := map[ip := e']), Some(File([e'], [], [], [])))];
    assert Loaded([e], IPOf, at) == map[ip := e];
    assert tr[0].lists == Started(cfg, tr[0].disk, at);
    assert map[ip := e][ip := e'] == map[ip := e'];
    assert tr[1].lists == After(cfg, tr[0].lists, AddIP(ip, "", "manual", at));
    assert StepAt(cfg, tr, [AddIP(ip, "", "manual", at)], 0);
  }

  lemma SingleImage(ip: string, e: Entry)
    ensures Images(File([e], [], [], []), EMPTY_LISTS.(ips := map[ip := e]))
  {
    var l := EMPTY_LISTS.(ips := map[ip := e]);
    var none: seq<string>, noUids: seq<int> := [], [];
    assert Enumerates([ip], l.ips.Keys) && Enumerates(none, l.pairs.Keys) && Enumerates(noUids, l.uids.Keys);
    assert Enumerates(none, l.white.Keys);
  }
}
