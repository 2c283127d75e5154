/**
 What the blacklist answers, writes and keeps, told in its maps, the numbers configured and
 nanoseconds, without the functions that compute it.
*/
module BlacklistLaws {
  import opened Wrappers
  import opened Keys
  import opened TextLaws
  import opened BlacklistSpec
  import opened BlacklistRuns
  import opened BanRuns

  // ---------- Answers ----------

  /** The entry of a key, if its expiry has not passed. */
  predicate Stands<K(==)>(m: map<K, Entry>, k: K, now: int, e: Entry) {
    k in m && m[k] == e && (e.expire.Some? ==> now <= e.expire.value)
  }

  predicate NoneStands<K(==)>(m: map<K, Entry>, k: K, now: int) {
    k in m ==> m[k].expire.Some? && now > m[k].expire.value
  }

  /** Which entry an answer reports: the IP's if it is in force; if not, and there is a uid, the
      uid's; and then the pair's. */
  lemma AnswerExactly(l: Lists, ip: string, uid: int, now: int, e: Entry)
    ensures var answer, pair := IsBlacklisted(l, ip, uid, now), ip + ":" + Decimal(uid);
            && (answer == ByIP(e) <==> Stands(l.ips, ip, now, e))
            && (answer == ByUID(e) <==> NoneStands(l.ips, ip, now) && uid > 0 && Stands(l.uids, uid, now, e))
            && (answer == ByPair(e) <==>
                NoneStands(l.ips, ip, now) && uid > 0 && NoneStands(l.uids, uid, now) && Stands(l.pairs, pair, now, e))
            && (answer == Clear <==>
                NoneStands(l.ips, ip, now)
                && (uid > 0 ==> NoneStands(l.uids, uid, now) && NoneStands(l.pairs, pair, now)))
  {
  }

  /** A connection is blocked iff some ban that is meant for it is in force. */
  lemma BlockedIffBanned(l: Lists, ip: string, uid: int, now: int)
    ensures IsBlacklisted(l, ip, uid, now) != Clear <==> exists t :: Meant(t, ip, uid) && InForce(l, t, now)
  {
    match IsBlacklisted(l, ip, uid, now)
    case ByIP(_) => assert Meant(OnIP(ip), ip, uid) && InForce(l, OnIP(ip), now);
    case ByUID(_) => assert Meant(OnUID(uid), ip, uid) && InForce(l, OnUID(uid), now);
    case ByPair(_) => assert Meant(OnPair(ip, uid), ip, uid) && InForce(l, OnPair(ip, uid), now);
    case Clear =>
  }

  // ---------- Writing a ban ----------

  /** When a ban written now ends. */
  function EndOf(cfg: Config, now: int): Option<int> {
    if cfg.banDuration > 0 then Some(now + cfg.banDuration * 1_000_000_000) else None
  }

  /** A ban by hand leaves its entry, in place of one that was there, and nothing else changes. */
  lemma BanWrites(cfg: Config, l: Lists, t: Target, reason: string, source: string, now: int)
    ensures var l' := After(cfg, l, BanOf(t, reason, source, now));
            && EntryFor(l', t) == Some(match t
                 case OnIP(ip) => Entry(ip, 0, "", reason, now, EndOf(cfg, now), source)
                 case OnUID(uid) => Entry("", uid, "", reason, now, EndOf(cfg, now), source)
                 case OnPair(ip, uid) =>
                   Entry(ip, uid, ip + ":" + Decimal(uid), reason, now, EndOf(cfg, now), source))
            && (forall other :: other != t ==> EntryFor(l', other) == EntryFor(l, other))
            && l'.white == l.white && l'.counters == l.counters
  {
    var l' := After(cfg, l, BanOf(t, reason, source, now));
    forall other | other != t
      ensures EntryFor(l', other) == EntryFor(l, other)
    {
      if t.OnPair? {
        PairTargets(other, t.ip, t.uid);
      }
    }
  }

  /** Whitelisting notes the address, the remark and the time, and bans nor counters change. */
  lemma WhitelistingWrites(cfg: Config, l: Lists, ip: string, note: string, now: int)
    ensures var l' := After(cfg, l, AddWhite(ip, note, now));
            && l'.white == l.white[ip := WhiteEntry(ip, note, now)]
            && l'.counters == l.counters && forall t :: EntryFor(l', t) == EntryFor(l, t)
  {
  }

  // ---------- Lifting a ban ----------

  /** Lifting the ban on t by hand. */
  function LiftOf(t: Target, now: int): Op {
    match t
    case OnIP(ip) => RemoveIP(ip, now)
    case OnUID(uid) => RemoveUID(uid, now)
    case OnPair(ip, uid) => RemovePair(ip, uid, now)
  }

  /** Lifting a ban removes its entry and nothing else. */
  lemma LiftRemoves(cfg: Config, l: Lists, t: Target, now: int)
    ensures var l' := After(cfg, l, LiftOf(t, now));
            && EntryFor(l', t) == None && (forall other :: other != t ==> EntryFor(l', other) == EntryFor(l, other))
            && l'.white == l.white && l'.counters == l.counters
  {
    var l' := After(cfg, l, LiftOf(t, now));
    forall other | other != t
      ensures EntryFor(l', other) == EntryFor(l, other)
    {
      if t.OnPair? {
        PairTargets(other, t.ip, t.uid);
      }
    }
  }

  /** Clearing removes every ban and every counter and keeps the whitelist. */
  lemma ClearingRemoves(cfg: Config, l: Lists, now: int)
    ensures var l' := After(cfg, l, ClearAll(now));
            l'.counters == map[] && l'.white == l.white && forall t :: EntryFor(l', t) == None
  {
  }

  /** Nothing in the file would bring a ban on t back. */
  ghost predicate Gone(cfg: Config, s: Sys, clock: int, t: Target) {
    EntryFor(s.lists, t).None? && Consistent(cfg, s, clock)
  }

  lemma RestartKeepsGone(cfg: Config, s: Sys, clock: int, now: int, t: Target)
    requires Gone(cfg, s, clock, t) && clock <= now
    ensures EntryFor(Started(cfg, s.disk, now), t).None?
  {
    if cfg.persist {
      ConsistentRestarts(cfg, s, clock, now, now);
      StartedIsLoaded(cfg, s.disk, now);
      var again, f := Started(cfg, s.disk, now), FileOf(s.disk);
      match t
      case OnIP(ip) =>
        assert Active(again.ips, ip, now) == Active(s.lists.ips, ip, now);
        LoadedIsActive(f.ips, IPOf, now, ip);
      case OnUID(uid) =>
        assert Active(again.uids, uid, now) == Active(s.lists.uids, uid, now);
        LoadedIsActive(f.uids, UIDOf, now, uid);
      case OnPair(ip, uid) =>
        assert Active(again.pairs, PairKey(ip, uid), now) == Active(s.lists.pairs, PairKey(ip, uid), now);
        LoadedIsActive(f.pairs, CombinedOf, now, PairKey(ip, uid));
    }
  }

  /** What is loaded has not run out. */
  lemma LoadedIsActive<K>(es: seq<Entry>, keyOf: Entry -> K, now: int, k: K)
    ensures k in Loaded(es, keyOf, now) ==> Active(Loaded(es, keyOf, now), k, now).Some?
  {
    if k in Loaded(es, keyOf, now) {
      var j := LeadOf(es, keyOf, now, k);
    }
  }

  /** A step that writes an entry for t: a ban by hand, or a learned one. */
  ghost predicate BansAnew(cfg: Config, l: Lists, op: Op, t: Target) {
    || (exists reason, source :: op == BanOf(t, reason, source, op.now))
    || (op.Reject? && t == OnIP(op.ip) && Bans(cfg, l, op.ip, op.uid, op.now))
  }

  lemma GoneStep(cfg: Config, s: Sys, op: Op, s': Sys, clock: int, t: Target)
    requires Gone(cfg, s, clock, t) && clock <= op.now && Step(cfg, s, op, s') && !BansAnew(cfg, s.lists, op, t)
    ensures Gone(cfg, s', op.now, t)
  {
    StepConsistent(cfg, s, op, s', clock);
    match op
    case Restart(now) => RestartKeepsGone(cfg, s, clock, now, t);
    case AddIP(ip, reason, source, now) => assert t == OnIP(ip) ==> op == BanOf(t, reason, source, now);
    case AddUID(uid, reason, source, now) => assert t == OnUID(uid) ==> op == BanOf(t, reason, source, now);
    case AddPair(ip, uid, reason, source, now) =>
      PairTargets(t, ip, uid);
      assert t == OnPair(ip, uid) ==> op == BanOf(t, reason, source, now);
    case _ =>
  }

  lemma {:induction false} GoneStays(cfg: Config, start: int, tr: seq<Sys>, ops: seq<Op>, i: nat, n: nat, t: Target)
    requires Behaviour(cfg, start, tr, ops) && i <= n <= |ops| && Gone(cfg, tr[i], ClockAt(start, ops, i), t)
    requires forall k :: i <= k < n ==> !BansAnew(cfg, tr[k].lists, ops[k], t)
    ensures Gone(cfg, tr[n], ClockAt(start, ops, n), t)
    decreases n
  {
    if i < n {
      var k := n - 1;
      GoneStays(cfg, start, tr, ops, i, k, t);
      BehaviourSteps(cfg, start, tr, ops, k);
      assert !BansAnew(cfg, tr[k].lists, ops[k], t);
      GoneStep(cfg, tr[k], ops[k], tr[k + 1], ClockAt(start, ops, k), t);
    }
  }

  /** A ban lifted by hand, alone or with all others, stays gone through everything, restarts
      included, until t is banned again; whatever the first file was. */
  lemma LiftedStaysLifted(cfg: Config, start: int, tr: seq<Sys>, ops: seq<Op>, i: nat, n: nat, t: Target)
    requires Behaviour(cfg, start, tr, ops) && i < n <= |ops|
    requires ops[i] == LiftOf(t, ops[i].now) || ops[i].ClearAll?
    requires forall k :: i < k < n ==> !BansAnew(cfg, tr[k].lists, ops[k], t)
    ensures EntryFor(tr[n].lists, t) == None
  {
    var j := i + 1;
    BehaviourSteps(cfg, start, tr, ops, i);
    LiftRemoves(cfg, tr[i].lists, t, ops[i].now);
    ConsistentOnceSaved(cfg, start, tr, ops, i, j);
    GoneStays(cfg, start, tr, ops, j, n, t);
  }

  // ---------- Sweeping ----------

  /** A sweep removes exactly the entries that have run out and the counters that started more
      than two learning windows ago. It changes no answer, then or later, and no file. */
  lemma SweepRemoves(cfg: Config, s: Sys, now: int, s': Sys, t: Target, key: string)
    requires Step(cfg, s, Cleanup(now), s')
    ensures EntryFor(s'.lists, t) == if InForce(s.lists, t, now) then EntryFor(s.lists, t) else None
    ensures key in s'.lists.counters <==>
            key in s.lists.counters && now - s.lists.counters[key].start <= 2 * cfg.learnWindow * 1_000_000_000
    ensures key in s'.lists.counters ==> s'.lists.counters[key] == s.lists.counters[key]
    ensures s'.lists.white == s.lists.white && s'.disk == s.disk
    ensures forall ip, uid, later :: later >= now ==>
              IsBlacklisted(s'.lists, ip, uid, later) == IsBlacklisted(s.lists, ip, uid, later)
  {
  }

  // ---------- The file ----------

  /** Without persistence nothing is ever written, and a restart forgets everything. */
  lemma {:induction false} NothingIsKept(cfg: Config, start: int, tr: seq<Sys>, ops: seq<Op>, n: nat)
    requires Behaviour(cfg, start, tr, ops) && n <= |ops| && !cfg.persist
    ensures tr[n].disk == tr[0].disk
    ensures n == 0 || ops[n - 1].Restart? ==> tr[n].lists == Lists(map[], map[], map[], map[], map[])
  {
    if n > 0 {
      NothingIsKept(cfg, start, tr, ops, n - 1);
      BehaviourSteps(cfg, start, tr, ops, n - 1);
    }
  }

  /** Only changes of a ban list are written; a reject that lists nobody is not one. */
  lemma WhatIsNotWritten(cfg: Config, s: Sys, op: Op, s': Sys)
    requires Step(cfg, s, op, s')
    requires op.AddWhite? || op.Cleanup? || op.Restart? || (op.Reject? && s'.lists.ips == s.lists.ips)
    ensures s'.disk == s.disk
  {
  }

  /** The entry of a key after loading: the last one listed that has not run out, or, if all have,
      the one that was there. */
  ghost predicate LoadedOver<K>(es: seq<Entry>, keyOf: Entry -> K, now: int, k: K,
                                    before: Option<Entry>, after: Option<Entry>)
  {
    || (exists j :: Leads(es, keyOf, now, j) && keyOf(es[j]) == k && after == Some(es[j]))
    || (after == before && forall j :: 0 <= j < |es| && keyOf(es[j]) == k ==> Expired(es[j], now))
  }

  lemma LoadingIsOver<K>(m: map<K, Entry>, es: seq<Entry>, keyOf: Entry -> K, now: int, k: K)
    ensures LoadedOver(es, keyOf, now, k, Lookup(m, k), Lookup(m + Loaded(es, keyOf, now), k))
  {
    if k in Loaded(es, keyOf, now) {
      var j := LeadOf(es, keyOf, now, k);
    } else {
      forall j | 0 <= j < |es| && keyOf(es[j]) == k
        ensures Expired(es[j], now)
      {
        if !Expired(es[j], now) {
          UnexpiredIsLoaded(es, keyOf, now, j);
        }
      }
    }
  }

  /** A whitelisted address is loaded with its last entry in the file. */
  lemma {:induction false} WhiteIsLast(es: seq<WhiteEntry>, ip: string) returns (j: nat)
    ensures ip in LoadedWhite(es) ==> j < |es| && es[j].ip == ip && LoadedWhite(es)[ip] == es[j]
    ensures ip in LoadedWhite(es) ==> forall i :: j < i < |es| ==> es[i].ip != ip
    ensures ip !in LoadedWhite(es) ==> forall i :: 0 <= i < |es| ==> es[i].ip != ip
  {
    if es != [] {
      j := |es| - 1;
      if es[j].ip != ip {
        var n := j;
        j := WhiteIsLast(es[..n], ip);
        assert forall i :: 0 <= i < n ==> es[..n][i] == es[i];
      }
    } else {
      j := 0;
    }
  }

  /** Loading a file puts, for each key, its last entry that has not run out over what was there,
      and keeps what the file says nothing of; the counters stay. */
  lemma LoadingAdds(cfg: Config, l: Lists, f: File, now: int, t: Target)
    requires cfg.persist
    ensures var l' := LoadedOnto(cfg, l, Some(f), now);
            var before, after := EntryFor(l, t), EntryFor(l', t);
            && l'.counters == l.counters && l'.white == l.white + LoadedWhite(f.white)
            && match t
               case OnIP(ip) => LoadedOver(f.ips, IPOf, now, ip, before, after)
               case OnUID(uid) => LoadedOver(f.uids, UIDOf, now, uid, before, after)
               case OnPair(ip, uid) => LoadedOver(f.pairs, CombinedOf, now, ip + ":" + Decimal(uid), before, after)
  {
    match t
    case OnIP(ip) => LoadingIsOver(l.ips, f.ips, IPOf, now, ip);
    case OnUID(uid) => LoadingIsOver(l.uids, f.uids, UIDOf, now, uid);
    case OnPair(ip, uid) => LoadingIsOver(l.pairs, f.pairs, CombinedOf, now, PairKey(ip, uid));
  }

  /** A restart starts from the file alone: it forgets all counters and leaves the file as it is. */
  lemma RestartIsFresh(cfg: Config, s: Sys, now: int, s': Sys, t: Target)
    requires Step(cfg, s, Restart(now), s')
    ensures s'.disk == s.disk && s'.lists.counters == map[]
    ensures cfg.persist && s.disk.Some? ==>
              var f, after := s.disk.value, EntryFor(s'.lists, t);
              && s'.lists.white == LoadedWhite(f.white)
              && match t
                 case OnIP(ip) => LoadedOver(f.ips, IPOf, now, ip, None, after)
                 case OnUID(uid) => LoadedOver(f.uids, UIDOf, now, uid, None, after)
                 case OnPair(ip, uid) => LoadedOver(f.pairs, CombinedOf, now, ip + ":" + Decimal(uid), None, after)
  {
    if cfg.persist && s.disk.Some? {
      LoadingAdds(cfg, EMPTY_LISTS, s.disk.value, now, t);
      var l := s'.lists;
      assert map[] + l.ips == l.ips && map[] + l.uids == l.uids && map[] + l.pairs == l.pairs;
    }
  }

  // ---------- Learning ----------

  /** The text of a learned ban tells the window and then the number of rejects. */
  lemma AutoReasonTells(window: nat, rejects: nat)
    ensures Numbers(AutoReason(window, rejects)) == [window, rejects]
  {
    NumbersOfTwo("自动学习: ", window, "秒内被拒绝", rejects, "次");
  }

  /** A learned ban is on the IP, is marked as such, tells its reason in the number of rejects
      counted and the window configured, and lasts as a ban by hand would. */
  lemma LearnedEntry(cfg: Config, l: Lists, ip: string, uid: int, now: int)
    requires cfg.learnWindow >= 0 && Bans(cfg, l, ip, uid, now)
    requires forall key :: key in l.counters ==> l.counters[key].rejects >= 0
    ensures var l', key := After(cfg, l, Reject(ip, uid, now)), if uid > 0 then ip + ":" + Decimal(uid) else ip;
            && key in l.counters && ip !in l.ips && ip in l'.ips
            && var e := l'.ips[ip];
               && e.ip == ip && e.uid == 0 && e.combined == "" && e.source == "auto" && e.added == now
               && e.expire == EndOf(cfg, now)
               && Numbers(e.reason) == [cfg.learnWindow, l.counters[key].rejects + 1]
  {
    var key := LearnKey(ip, uid);
    assert key == if uid > 0 then ip + ":" + Decimal(uid) else ip;
    AutoReasonTells(cfg.learnWindow, l.counters[key].rejects + 1);
  }

  /** A reject changes no more than its counter and the entry of its IP. */
  lemma RejectChanges(cfg: Config, l: Lists, ip: string, uid: int, now: int)
    ensures var l', key := After(cfg, l, Reject(ip, uid, now)), if uid > 0 then ip + ":" + Decimal(uid) else ip;
            && l'.white == l.white && (forall t :: t != OnIP(ip) ==> EntryFor(l', t) == EntryFor(l, t))
            && (forall other :: other != key ==>
                  (other in l'.counters <==> other in l.counters)
                  && (other in l.counters ==> l'.counters[other] == l.counters[other]))
            && (ip in l.ips ==> ip in l'.ips && l'.ips[ip] == l.ips[ip])
  {
    assert LearnKey(ip, uid) == if uid > 0 then ip + ":" + Decimal(uid) else ip;
  }

  /** The lists after n rejects of one source at the same moment. */
  function AtOnce(cfg: Config, ip: string, uid: int, n: nat, now: int): Lists {
    if n == 0 then EMPTY_LISTS else After(cfg, AtOnce(cfg, ip, uid, n - 1, now), Reject(ip, uid, now))
  }

  /** n rejects at one moment list the IP iff n is at least two and at least the threshold. */
  lemma {:induction false} RejectsAtOnce(cfg: Config, ip: string, uid: int, n: nat, now: int)
    requires cfg.enableAutoLearn && cfg.learnWindow >= 0
    ensures var l, key := AtOnce(cfg, ip, uid, n, now), if uid > 0 then ip + ":" + Decimal(uid) else ip;
            && (ip in l.ips <==> n >= 2 && n >= cfg.threshold)
            && l.pairs == map[] && (n > 0 ==> key in l.counters && l.counters[key] == Counter(n, now))
            && (n == 0 ==> l.counters == map[])
  {
    assert LearnKey(ip, uid) == if uid > 0 then ip + ":" + Decimal(uid) else ip;
    if n > 0 {
      RejectsAtOnce(cfg, ip, uid, n - 1, now);
    }
  }

  /** Of two rejects the later counts with the earlier as long as no more than the learning window
      lies between them. */
  lemma TwoRejects(cfg: Config, ip: string, uid: int, start: int, now: int)
    requires cfg.enableAutoLearn && cfg.threshold <= 2
    ensures var l := After(cfg, After(cfg, EMPTY_LISTS, Reject(ip, uid, start)), Reject(ip, uid, now));
            ip in l.ips <==> now - start <= cfg.learnWindow * 1_000_000_000
  {
  }

  /** By default the tenth reject within a minute bans for an hour, and a ninth does not. */
  lemma TenthRejectBans(ip: string, now: int, later: int)
    ensures var cfg := Config(true, 10, 60, 3600, true);
            && cfg == DEFAULT_CONFIG
            && IsBlacklisted(AtOnce(cfg, ip, 0, 9, now), ip, 0, later) == Clear
            && (IsBlacklisted(AtOnce(cfg, ip, 0, 10, now), ip, 0, later) != Clear <==> later <= now + 3_600_000_000_000)
  {
    var cfg := DEFAULT_CONFIG;
    RejectsAtOnce(cfg, ip, 0, 9, now);
    RejectsAtOnce(cfg, ip, 0, 10, now);
    var l := AtOnce(cfg, ip, 0, 9, now);
    assert Bans(cfg, l, ip, 0, now);
  }
}
