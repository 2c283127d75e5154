/**
 Whole runs of the gateway's filters under fixed configurations: connection attempts from
 anywhere, interleaved with every maintenance operation on the limiter and the blacklist.
*/
module GatewayRuns {
  import opened Windows
  import opened Keys
  import opened FilterSpec
  import L = LimiterSpec
  import LR = LimiterRuns
  import B = BlacklistSpec
  import BR = BlacklistRuns
  import BN = BanRuns
  import A = AutoLearn

  datatype Op =
    | Attempt(ip: string, uid: int, at: int)
    | Limiter(lop: LR.Op)
    | Blacklist(bop: B.Op)
  {
    function At(): int {
      match this
      case Attempt(_, _, at) => at
      case Limiter(lop) => lop.At()
      case Blacklist(bop) => bop.now
    }
  }

  // The filters together with their past: accepted requests and resets, and blacklist steps.
  datatype World = World(f: Filters, log: seq<L.Event>, past: seq<B.Op>)

  /** One step. Checks and rejects arise only from attempts. */
  ghost predicate Step(lc: L.Config, bc: B.Config, w: World, op: Op, w': World) {
    match op
    case Attempt(ip, uid, at) =>
      && Filtered(lc, bc, w.f, ip, uid, at, w'.f)
      && w'.log == (if Decision(lc, w.f, ip, uid, at).Admitted?
                    then w.log + [L.Accepted(L.Request(ip, uid, false, at))] else w.log)
      && w'.past == (if Decision(lc, w.f, ip, uid, at).RefusedByLimit?
                     then w.past + [B.Reject(ip, uid, at)] else w.past)
    case Limiter(lop) =>
      && !lop.Check?
      && w' == World(Filters(LR.Apply(lc, w.f.tables, lop), w.f.sys), LR.Remember(lc, w.log, lop), w.past)
    case Blacklist(bop) =>
      && !bop.Reject?
      && B.Step(bc, w.f.sys, bop, w'.f.sys)
      && w'.f.tables == w.f.tables && w'.log == w.log && w'.past == w.past + [bop]
  }

  predicate Timed(start: int, ops: seq<Op>) {
    && (forall i :: 0 <= i < |ops| ==> start <= ops[i].At())
    && (forall i, j :: 0 <= i < j < |ops| ==> ops[i].At() <= ops[j].At())
  }

  ghost predicate StepAt(lc: L.Config, bc: B.Config, tr: seq<World>, ops: seq<Op>, i: nat)
    requires |tr| == |ops| + 1 && i < |ops|
  {
    Step(lc, bc, tr[i], ops[i], tr[i + 1])
  }

  ghost predicate Behaviour(lc: L.Config, bc: B.Config, start: int, tr: seq<World>, ops: seq<Op>) {
    && |tr| == |ops| + 1
    && Timed(start, ops)
    && tr[0] == World(Filters(L.EMPTY_TABLES, B.Sys(B.Started(bc, tr[0].f.sys.disk, start), tr[0].f.sys.disk)), [], [])
    && forall i :: 0 <= i < |ops| ==> StepAt(lc, bc, tr, ops, i)
  }

  function ClockAt(start: int, ops: seq<Op>, n: nat): int
    requires n <= |ops|
  {
    if n == 0 then start else ops[n - 1].At()
  }

  // ---------- What every step keeps ----------

  ghost predicate Sound(lc: L.Config, bc: B.Config, w: World, clock: int) {
    && LR.Agrees(lc, w.f.tables, w.log, clock)
    && BR.CoherentLists(w.f.sys.lists)
    && (bc.enableAutoLearn ==> A.Tracks(bc, w.f.sys.lists, w.past, clock))
  }

  /** Nothing in the invariant minds the clock moving on. */
  lemma SoundLater(lc: L.Config, bc: B.Config, w: World, clock: int, now: int)
    requires Sound(lc, bc, w, clock) && clock <= now
    ensures Sound(lc, bc, w, now)
  {
    forall s: L.Subject
      ensures LR.Stands(L.Find(w.f.tables, s), L.Times(lc, s, w.log), lc.Window(), now)
    {
      assert LR.Stands(L.Find(w.f.tables, s), L.Times(lc, s, w.log), lc.Window(), clock);
    }
    var l := w.f.sys.lists;
    forall key | bc.enableAutoLearn
      ensures A.Tallies(A.FindCounter(l.counters, key), A.RejectTimes(key, w.past), bc.Window(), now)
    {
      assert A.Tallies(A.FindCounter(l.counters, key), A.RejectTimes(key, w.past), bc.Window(), clock);
    }
  }

  lemma BanStepSound(bc: B.Config, s: B.Sys, bop: B.Op, s': B.Sys, past: seq<B.Op>, clock: int)
    requires BR.CoherentLists(s.lists) && (bc.enableAutoLearn ==> A.Tracks(bc, s.lists, past, clock))
    requires clock <= bop.now && B.Step(bc, s, bop, s')
    ensures BR.CoherentLists(s'.lists) && (bc.enableAutoLearn ==> A.Tracks(bc, s'.lists, past + [bop], bop.now))
  {
    BR.StepCoherent(bc, s, bop, s');
    if bc.enableAutoLearn {
      A.TracksStep(bc, s, bop, s', past, clock);
    }
  }

  lemma StepSound(lc: L.Config, bc: B.Config, w: World, op: Op, w': World, clock: int)
    requires Sound(lc, bc, w, clock) && clock <= op.At() && Step(lc, bc, w, op, w')
    ensures Sound(lc, bc, w', op.At())
  {
    SoundLater(lc, bc, w, clock, op.At());
    match op
    case Attempt(ip, uid, at) =>
      var req := L.Request(ip, uid, false, at);
      match Decision(lc, w.f, ip, uid, at) {
        case Admitted =>
          LR.VerdictsAgree(lc, w.f.tables, w.log, clock, req);
          LR.AgreesStep(lc, w.f.tables, w.log, clock, LR.Check(req));
        case RefusedByLimit(_) =>
          BanStepSound(bc, w.f.sys, B.Reject(ip, uid, at), w'.f.sys, w.past, clock);
        case _ =>
      }
    case Limiter(lop) => LR.AgreesStep(lc, w.f.tables, w.log, clock, lop);
    case Blacklist(bop) => BanStepSound(bc, w.f.sys, bop, w'.f.sys, w.past, clock);
  }

  lemma BehaviourSteps(lc: L.Config, bc: B.Config, start: int, tr: seq<World>, ops: seq<Op>, i: nat)
    requires Behaviour(lc, bc, start, tr, ops) && i < |ops|
    ensures Step(lc, bc, tr[i], ops[i], tr[i + 1])
    ensures ClockAt(start, ops, i) <= ops[i].At() == ClockAt(start, ops, i + 1)
  {
    assert StepAt(lc, bc, tr, ops, i);
  }

  lemma {:induction false} AlwaysSound(lc: L.Config, bc: B.Config, start: int, tr: seq<World>, ops: seq<Op>, n: nat)
    requires Behaviour(lc, bc, start, tr, ops) && n <= |ops|
    ensures Sound(lc, bc, tr[n], ClockAt(start, ops, n))
  {
    if n == 0 {
      BR.StartCoherent(bc, tr[0].f.sys.disk, start);
    } else {
      var k := n - 1;
      AlwaysSound(lc, bc, start, tr, ops, k);
      BehaviourSteps(lc, bc, start, tr, ops, k);
      StepSound(lc, bc, tr[k], ops[k], tr[k + 1], ClockAt(start, ops, k));
    }
  }

  lemma ClockMonotone(start: int, ops: seq<Op>, i: nat, n: nat)
    requires Timed(start, ops) && i <= n <= |ops|
    ensures ClockAt(start, ops, i) <= ClockAt(start, ops, n)
  {
  }

  // ---------- Bans are enforced end to end ----------

  predicate Restarts(op: Op) {
    op.Blacklist? && op.bop.Restart?
  }

  /** op lifts the ban on t by hand, or forgets it because nothing was persisted. */
  predicate Undoes(bc: B.Config, op: Op, t: BN.Target) {
    op.Blacklist? && (BN.Lifts(op.bop, t) || (op.bop.Restart? && !bc.persist))
  }

  lemma ConsistentStep(lc: L.Config, bc: B.Config, w: World, op: Op, w': World, clock: int)
    requires Step(lc, bc, w, op, w') && BR.Consistent(bc, w.f.sys, clock) && clock <= op.At()
    ensures BR.Consistent(bc, w'.f.sys, op.At())
  {
    BR.ConsistentLater(bc, w.f.sys, clock, op.At());
    if op.Attempt? && Decision(lc, w.f, op.ip, op.uid, op.at).RefusedByLimit? {
      BR.StepConsistent(bc, w.f.sys, B.Reject(op.ip, op.uid, op.at), w'.f.sys, clock);
    } else if op.Blacklist? {
      BR.StepConsistent(bc, w.f.sys, op.bop, w'.f.sys, clock);
    }
  }

  lemma {:induction false} StaysConsistent(lc: L.Config, bc: B.Config, start: int, tr: seq<World>, ops: seq<Op>,
                                           i: nat, n: nat)
    requires Behaviour(lc, bc, start, tr, ops) && i <= n <= |ops|
    requires BR.Consistent(bc, tr[i].f.sys, ClockAt(start, ops, i))
    ensures BR.Consistent(bc, tr[n].f.sys, ClockAt(start, ops, n))
    decreases n
  {
    if i < n {
      var k := n - 1;
      StaysConsistent(lc, bc, start, tr, ops, i, k);
      BehaviourSteps(lc, bc, start, tr, ops, k);
      ConsistentStep(lc, bc, tr[k], ops[k], tr[k + 1], ClockAt(start, ops, k));
    }
  }

  lemma BanHoldsStep(lc: L.Config, bc: B.Config, w: World, op: Op, w': World, clock: int,
                     t: BN.Target, since: int)
    requires Step(lc, bc, w, op, w') && since <= clock <= op.At()
    requires BN.Holds(w.f.sys.lists, t, bc.ExpiryAt(since)) && !Undoes(bc, op, t)
    requires Restarts(op) ==> BR.Consistent(bc, w.f.sys, clock)
    requires bc.ExpiryAt(since).Some? ==> op.At() <= bc.ExpiryAt(since).value
    ensures BN.Holds(w'.f.sys.lists, t, bc.ExpiryAt(since))
  {
    if op.Attempt? && Decision(lc, w.f, op.ip, op.uid, op.at).RefusedByLimit? {
      BN.HoldsStep(bc, w.f.sys, B.Reject(op.ip, op.uid, op.at), w'.f.sys, clock, t, since);
    } else if op.Blacklist? {
      BN.HoldsStep(bc, w.f.sys, op.bop, w'.f.sys, clock, t, since);
    }
  }

  lemma {:induction false} BanHolds(lc: L.Config, bc: B.Config, start: int, tr: seq<World>, ops: seq<Op>,
                                    i: nat, n: nat, t: BN.Target, since: int)
    requires Behaviour(lc, bc, start, tr, ops) && i <= n <= |ops|
    requires since <= ClockAt(start, ops, i) && BN.Holds(tr[i].f.sys.lists, t, bc.ExpiryAt(since))
    requires forall k :: i <= k < n ==> !Undoes(bc, ops[k], t)
    requires BR.Consistent(bc, tr[i].f.sys, ClockAt(start, ops, i)) || forall k :: i <= k < n ==> !Restarts(ops[k])
    requires bc.ExpiryAt(since).Some? ==> ClockAt(start, ops, n) <= bc.ExpiryAt(since).value
    ensures BN.Holds(tr[n].f.sys.lists, t, bc.ExpiryAt(since))
    decreases n
  {
    if i < n {
      var k := n - 1;
      ClockMonotone(start, ops, i, k);
      ClockMonotone(start, ops, k, n);
      BanHolds(lc, bc, start, tr, ops, i, k, t, since);
      BehaviourSteps(lc, bc, start, tr, ops, k);
      if Restarts(ops[k]) {
        StaysConsistent(lc, bc, start, tr, ops, i, k);
      }
      assert !Undoes(bc, ops[k], t);
      BanHoldsStep(lc, bc, tr[k], ops[k], tr[k + 1], ClockAt(start, ops, k), t, since);
    }
  }

  /** The step put a fresh ban on t: an operator's, or a learned one. */
  predicate WritesBan(lc: L.Config, bc: B.Config, w: World, op: Op, t: BN.Target) {
    || (op.Blacklist? && BN.WritesBan(bc, w.f.sys.lists, op.bop, t))
    || (op.Attempt? && Decision(lc, w.f, op.ip, op.uid, op.at).RefusedByLimit?
        && BN.WritesBan(bc, w.f.sys.lists, B.Reject(op.ip, op.uid, op.at), t))
  }

  lemma WrittenBanHolds(lc: L.Config, bc: B.Config, w: World, op: Op, w': World, t: BN.Target)
    requires BR.CoherentLists(w.f.sys.lists) && Step(lc, bc, w, op, w') && WritesBan(lc, bc, w, op, t)
    ensures BN.Holds(w'.f.sys.lists, t, bc.ExpiryAt(op.At())) && BR.Consistent(bc, w'.f.sys, op.At())
  {
    var bop := if op.Blacklist? then op.bop else B.Reject(op.ip, op.uid, op.at);
    BN.WrittenBanHolds(bc, w.f.sys, bop, w'.f.sys, t);
    BR.SavedIsConsistent(bc, w.f.sys, bop, w'.f.sys);
  }

  lemma HeldIsRefused(lc: L.Config, bc: B.Config, w: World, op: Op, w': World, t: BN.Target,
                      since: int)
    requires Step(lc, bc, w, op, w') && op.Attempt? && op.ip !in w.f.sys.lists.white && BN.Meant(t, op.ip, op.uid)
    requires BN.Holds(w.f.sys.lists, t, bc.ExpiryAt(since))
    requires bc.ExpiryAt(since).Some? ==> op.at <= bc.ExpiryAt(since).value
    ensures Decision(lc, w.f, op.ip, op.uid, op.at).RefusedByBan? && w' == w
  {
    BN.HeldIsBlocked(w.f.sys.lists, t, bc.ExpiryAt(since), op.ip, op.uid, op.at);
  }

  lemma WrittenBanReaches(lc: L.Config, bc: B.Config, start: int, tr: seq<World>, ops: seq<Op>,
                          i: nat, n: nat, t: BN.Target)
    requires Behaviour(lc, bc, start, tr, ops) && i < n <= |ops|
    requires WritesBan(lc, bc, tr[i], ops[i], t)
    requires forall k :: i < k < n ==> !Undoes(bc, ops[k], t)
    requires bc.ExpiryAt(ops[i].At()).Some? ==> ClockAt(start, ops, n) <= bc.ExpiryAt(ops[i].At()).value
    ensures BN.Holds(tr[n].f.sys.lists, t, bc.ExpiryAt(ops[i].At()))
  {
    var j := i + 1;
    AlwaysSound(lc, bc, start, tr, ops, i);
    BehaviourSteps(lc, bc, start, tr, ops, i);
    WrittenBanHolds(lc, bc, tr[i], ops[i], tr[j], t);
    BanHolds(lc, bc, start, tr, ops, j, n, t, ops[i].At());
  }

  /** While a ban on an IP, a uid or a pair lasts, every attempt it is meant for whose address is
      not whitelisted is refused by the blacklist and leaves limiter and blacklist as they were. */
  lemma BannedNeverReachesLimiter(lc: L.Config, bc: B.Config, start: int, tr: seq<World>,
                                  ops: seq<Op>, i: nat, n: nat, t: BN.Target)
    requires Behaviour(lc, bc, start, tr, ops) && i < n < |ops| && ops[n].Attempt?
    requires WritesBan(lc, bc, tr[i], ops[i], t) && BN.Meant(t, ops[n].ip, ops[n].uid)
    requires forall k :: i < k < n ==> !Undoes(bc, ops[k], t)
    requires bc.banDuration > 0 ==> ops[n].at <= ops[i].At() + bc.banDuration * B.SECOND
    requires ops[n].ip !in tr[n].f.sys.lists.white
    ensures Decision(lc, tr[n].f, ops[n].ip, ops[n].uid, ops[n].at).RefusedByBan?
    ensures tr[n + 1] == tr[n]
  {
    BehaviourSteps(lc, bc, start, tr, ops, n);
    WrittenBanReaches(lc, bc, start, tr, ops, i, n, t);
    HeldIsRefused(lc, bc, tr[n], ops[n], tr[n + 1], t, ops[i].At());
  }

  // ---------- A burst gets its source listed ----------

  /** The source has an entry in some ban list. */
  predicate Known(l: B.Lists, ip: string, uid: int) {
    ip in l.ips || (uid > 0 && (uid in l.uids || PairKey(ip, uid) in l.pairs))
  }

  predicate Within(op: Op, lo: int, span: int) {
    lo <= op.At() <= lo + span
  }

  predicate IsAttempt(op: Op, ip: string, uid: int, lo: int, span: int) {
    op.Attempt? && op.ip == ip && op.uid == uid && Within(op, lo, span)
  }

  /** Attempts of one source in [lo, lo + span]. */
  function Attempts(ops: seq<Op>, n: nat, ip: string, uid: int, lo: int, span: int): nat
    requires n <= |ops|
  {
    if n == 0 then 0
    else Attempts(ops, n - 1, ip, uid, lo, span)
         + if IsAttempt(ops[n - 1], ip, uid, lo, span) then 1 else 0
  }

  /** op, taken at or after lo, would make the limiter or the counters forget. */
  predicate Forgets(op: Op, ip: string, lo: int) {
    op.At() >= lo &&
    ((op.Limiter? && op.lop.ResetIP? && op.lop.ip == ip) ||
     (op.Blacklist? && (op.bop.ClearAll? || op.bop.Restart?)))
  }

  /** An attempt counted under key, within reach of the learning window, that is neither
      whitelisted nor listed afterwards. */
  predicate Slips(w: World, op: Op, w': World, key: string, lo: int, span: int) {
    (op.Attempt? && LearnKey(op.ip, op.uid) == key && Within(op, lo, span)) ==>
      (op.ip !in w.f.sys.lists.white && !Known(w'.f.sys.lists, op.ip, op.uid))
  }

  lemma LimiterCapStep(lc: L.Config, bc: B.Config, w: World, op: Op, w': World, clock: int,
                       ip: string)
    requires Sound(lc, bc, w, clock) && clock <= op.At() && Step(lc, bc, w, op, w')
    requires lc.enableIP && lc.ipMaxConn > 0
    requires LR.Capped(L.Times(lc, L.OfIP(ip), w.log), lc.Window(), lc.ipMaxConn)
    ensures LR.Capped(L.Times(lc, L.OfIP(ip), w'.log), lc.Window(), lc.ipMaxConn)
  {
    match op
    case Attempt(aip, uid, at) =>
      var req := L.Request(aip, uid, false, at);
      LR.VerdictsAgree(lc, w.f.tables, w.log, clock, req);
      LR.CappedStep(lc, w.log, LR.Check(req), L.OfIP(ip), lc.ipMaxConn);
    case Limiter(lop) => LR.CappedStep(lc, w.log, lop, L.OfIP(ip), lc.ipMaxConn);
    case Blacklist(_) =>
  }

  lemma LearnCapStep(lc: L.Config, bc: B.Config, w: World, op: Op, w': World, clock: int,
                     key: string, lo: int)
    requires Sound(lc, bc, w, clock) && clock <= op.At() && Step(lc, bc, w, op, w') && bc.enableAutoLearn
    requires Slips(w, op, w', key, lo, bc.Window())
    requires A.CappedDuring(A.RejectTimes(key, w.past), bc.Window(), lo, A.EffectiveThreshold(bc) - 1)
    ensures A.CappedDuring(A.RejectTimes(key, w'.past), bc.Window(), lo, A.EffectiveThreshold(bc) - 1)
  {
    match op
    case Attempt(ip, uid, at) =>
      if Decision(lc, w.f, ip, uid, at).RefusedByLimit? {
        A.UnlistedStep(bc, w.f.sys, B.Reject(ip, uid, at), w'.f.sys, w.past, clock, key, lo);
      }
    case Limiter(_) =>
    case Blacklist(bop) => A.UnlistedStep(bc, w.f.sys, bop, w'.f.sys, w.past, clock, key, lo);
  }

  /** Requests of the IP accepted in [lo, lo + span], and rejects counted under the source's key. */
  function Remembered(lc: L.Config, w: World, ip: string, uid: int, lo: int, span: int): nat {
    CountWithin(L.Times(lc, L.OfIP(ip), w.log), lo, lo + span)
    + CountWithin(A.RejectTimes(LearnKey(ip, uid), w.past), lo, lo + span)
  }

  lemma AccountAttempt(lc: L.Config, bc: B.Config, w: World, op: Op, w': World,
                       ip: string, uid: int, lo: int, span: int)
    requires Step(lc, bc, w, op, w') && lc.enableIP && op.Attempt? && Slips(w, op, w', LearnKey(ip, uid), lo, span)
    ensures Remembered(lc, w', ip, uid, lo, span) >=
            Remembered(lc, w, ip, uid, lo, span) + if IsAttempt(op, ip, uid, lo, span) then 1 else 0
  {
    var key := LearnKey(ip, uid);
    match Decision(lc, w.f, op.ip, op.uid, op.at)
    case Admitted =>
      LR.TimesAppend(lc, L.OfIP(ip), w.log, L.Accepted(L.Request(op.ip, op.uid, false, op.at)));
      CountAppend(L.Times(lc, L.OfIP(ip), w.log), op.at, lo, lo + span);
    case RefusedByLimit(_) =>
      A.RejectTimesAppend(key, w.past, B.Reject(op.ip, op.uid, op.at));
      CountAppend(A.RejectTimes(key, w.past), op.at, lo, lo + span);
    case _ =>
  }

  /** Admitted plus refused: each counted attempt shows up in one of the two histories. */
  lemma AccountStep(lc: L.Config, bc: B.Config, w: World, op: Op, w': World,
                    ip: string, uid: int, lo: int, span: int)
    requires Step(lc, bc, w, op, w') && lc.enableIP && !Forgets(op, ip, lo)
    requires Slips(w, op, w', LearnKey(ip, uid), lo, span)
    requires op.At() >= lo
    ensures Remembered(lc, w', ip, uid, lo, span) >=
            Remembered(lc, w, ip, uid, lo, span) + if IsAttempt(op, ip, uid, lo, span) then 1 else 0
  {
    match op
    case Attempt(_, _, _) => AccountAttempt(lc, bc, w, op, w', ip, uid, lo, span);
    case Limiter(lop) =>
      match lop {
        case ResetIP(rip, _) => LR.TimesAppend(lc, L.OfIP(ip), w.log, L.IPReset(rip));
        case ResetUID(ruid, _) => LR.TimesAppend(lc, L.OfIP(ip), w.log, L.UIDReset(ruid));
        case _ =>
      }
    case Blacklist(bop) => A.RejectTimesAppend(LearnKey(ip, uid), w.past, bop);
  }

  ghost predicate Accounted(lc: L.Config, bc: B.Config, w: World, attempts: nat, ip: string, uid: int, lo: int,
                            span: int) {
    && LR.Capped(L.Times(lc, L.OfIP(ip), w.log), lc.Window(), lc.ipMaxConn)
    && A.CappedDuring(A.RejectTimes(LearnKey(ip, uid), w.past), bc.Window(), lo, A.EffectiveThreshold(bc) - 1)
    && attempts <= Remembered(lc, w, ip, uid, lo, span)
  }

  lemma AccountedStep(lc: L.Config, bc: B.Config, w: World, op: Op, w': World, clock: int,
                      before: nat, after: nat, ip: string, uid: int, lo: int, span: int)
    requires Sound(lc, bc, w, clock) && clock <= op.At() && Step(lc, bc, w, op, w')
    requires lc.enableIP && lc.ipMaxConn > 0 && bc.enableAutoLearn && span <= bc.Window()
    requires !Forgets(op, ip, lo) && Slips(w, op, w', LearnKey(ip, uid), lo, bc.Window())
    requires Accounted(lc, bc, w, before, ip, uid, lo, span)
    requires if op.At() < lo then after == 0
             else after == before + if IsAttempt(op, ip, uid, lo, span) then 1 else 0
    ensures Accounted(lc, bc, w', after, ip, uid, lo, span)
  {
    LimiterCapStep(lc, bc, w, op, w', clock, ip);
    LearnCapStep(lc, bc, w, op, w', clock, LearnKey(ip, uid), lo);
    if op.At() >= lo {
      AccountStep(lc, bc, w, op, w', ip, uid, lo, span);
    }
  }

  lemma {:induction false} NoAttemptsBefore(ops: seq<Op>, n: nat, ip: string, uid: int, lo: int, span: int)
    requires n <= |ops| && forall k :: 0 <= k < n ==> ops[k].At() < lo
    ensures Attempts(ops, n, ip, uid, lo, span) == 0
  {
    if n > 0 {
      NoAttemptsBefore(ops, n - 1, ip, uid, lo, span);
    }
  }

  lemma {:induction false} AlwaysAccounted(lc: L.Config, bc: B.Config, start: int, tr: seq<World>, ops: seq<Op>, n: nat,
                                           ip: string, uid: int, lo: int, span: int)
    requires Behaviour(lc, bc, start, tr, ops) && n <= |ops|
    requires lc.enableIP && lc.ipMaxConn > 0 && bc.enableAutoLearn && span <= bc.Window()
    requires forall k :: 0 <= k < n ==> !Forgets(ops[k], ip, lo)
    requires forall k :: 0 <= k < n ==> Slips(tr[k], ops[k], tr[k + 1], LearnKey(ip, uid), lo, bc.Window())
    ensures Accounted(lc, bc, tr[n], Attempts(ops, n, ip, uid, lo, span), ip, uid, lo, span)
  {
    if n > 0 {
      var k := n - 1;
      var op := ops[k];
      AlwaysAccounted(lc, bc, start, tr, ops, k, ip, uid, lo, span);
      AlwaysSound(lc, bc, start, tr, ops, k);
      BehaviourSteps(lc, bc, start, tr, ops, k);
      if op.At() < lo {
        NoAttemptsBefore(ops, n, ip, uid, lo, span);
      }
      assert !Forgets(op, ip, lo) && Slips(tr[k], op, tr[k + 1], LearnKey(ip, uid), lo, bc.Window());
      AccountedStep(lc, bc, tr[k], op, tr[k + 1], ClockAt(start, ops, k), Attempts(ops, k, ip, uid, lo, span),
                    Attempts(ops, n, ip, uid, lo, span), ip, uid, lo, span);
    }
  }

  /** End to end: an address with connection limit M under threshold T cannot make
      2M + 2T - 3 attempts for one uid (or none) within a closed interval no longer than either
      window unless, right after some attempt counted under the same key, its source is listed
      (or it was whitelisted): at most 2M - 1 are admitted and at most 2T - 3 refused unlearned. */
  lemma BurstGetsListed(lc: L.Config, bc: B.Config, start: int, tr: seq<World>, ops: seq<Op>,
                        ip: string, uid: int, lo: int, span: nat) returns (m: nat)
    requires Behaviour(lc, bc, start, tr, ops)
    requires lc.enableIP && lc.ipMaxConn > 0 && bc.enableAutoLearn && span <= lc.Window() && span <= bc.Window()
    requires forall k :: 0 <= k < |ops| ==> !Forgets(ops[k], ip, lo)
    requires Attempts(ops, |ops|, ip, uid, lo, span) >= 2 * lc.ipMaxConn + 2 * A.EffectiveThreshold(bc) - 3
    ensures m < |ops| && ops[m].Attempt? && LearnKey(ops[m].ip, ops[m].uid) == LearnKey(ip, uid)
    ensures Within(ops[m], lo, bc.Window())
    ensures ops[m].ip in tr[m].f.sys.lists.white || Known(tr[m + 1].f.sys.lists, ops[m].ip, ops[m].uid)
  {
    if m' :| 0 <= m' < |ops| && !Slips(tr[m'], ops[m'], tr[m' + 1], LearnKey(ip, uid), lo, bc.Window()) {
      m := m';
    } else {
      var n := |ops|;
      AlwaysAccounted(lc, bc, start, tr, ops, n, ip, uid, lo, span);
      BurstBound(lc, bc, tr[n], Attempts(ops, n, ip, uid, lo, span), ClockAt(start, ops, n), ip, uid, lo, span) by {
        AlwaysSound(lc, bc, start, tr, ops, n);
      }
      assert false;
    }
  }

  lemma BurstBound(lc: L.Config, bc: B.Config, w: World, attempts: nat, clock: int,
                   ip: string, uid: int, lo: int, span: nat)
    requires Sound(lc, bc, w, clock) && Accounted(lc, bc, w, attempts, ip, uid, lo, span)
    requires lc.enableIP && lc.ipMaxConn > 0 && bc.enableAutoLearn && span <= lc.Window() && span <= bc.Window()
    ensures attempts <= 2 * lc.ipMaxConn + 2 * A.EffectiveThreshold(bc) - 4
  {
    var key := LearnKey(ip, uid);
    var accepted, rejects := L.Times(lc, L.OfIP(ip), w.log), A.RejectTimes(key, w.past);
    assert LR.Stands(L.Find(w.f.tables, L.OfIP(ip)), accepted, lc.Window(), clock);
    assert A.Tallies(A.FindCounter(w.f.sys.lists.counters, key), rejects, bc.Window(), clock);
    assert A.CappedDuring(accepted, lc.Window(), lo, lc.ipMaxConn);
    A.CappedDuringBound(accepted, lc.Window(), lo, span, lc.ipMaxConn);
    A.CappedDuringBound(rejects, bc.Window(), lo, span, A.EffectiveThreshold(bc) - 1);
  }

  /** With colon-free addresses the source listed (or whitelisted) is the burst's own. */
  lemma BurstListsItsSource(lc: L.Config, bc: B.Config, start: int, tr: seq<World>, ops: seq<Op>,
                            ip: string, uid: int, lo: int, span: nat) returns (m: nat)
    requires Behaviour(lc, bc, start, tr, ops)
    requires lc.enableIP && lc.ipMaxConn > 0 && bc.enableAutoLearn && span <= lc.Window() && span <= bc.Window()
    requires forall k :: 0 <= k < |ops| ==> !Forgets(ops[k], ip, lo) && (ops[k].Attempt? ==> ':' !in ops[k].ip)
    requires ':' !in ip
    requires Attempts(ops, |ops|, ip, uid, lo, span) >= 2 * lc.ipMaxConn + 2 * A.EffectiveThreshold(bc) - 3
    ensures m < |ops| && ops[m].Attempt? && ops[m].ip == ip && Within(ops[m], lo, bc.Window())
    ensures ip in tr[m].f.sys.lists.white || Known(tr[m + 1].f.sys.lists, ip, uid)
  {
    m := BurstGetsListed(lc, bc, start, tr, ops, ip, uid, lo, span);
    ColonFreeLearnKeys(ops[m].ip, ops[m].uid, ip, uid);
  }

  // ---------- A burst is cut off ----------

  /** Every entry that is meant for the source was written at time lo or later. */
  ghost predicate FreshEntries(bc: B.Config, l: B.Lists, ip: string, uid: int, lo: int) {
    forall t :: BN.Meant(t, ip, uid) && BN.EntryFor(l, t).Some? ==> BN.Holds(l, t, bc.ExpiryAt(lo))
  }

  lemma FreshBanStep(bc: B.Config, s: B.Sys, bop: B.Op, s': B.Sys, ip: string, uid: int, lo: int)
    requires B.Step(bc, s, bop, s') && lo <= bop.now && !bop.Restart? && FreshEntries(bc, s.lists, ip, uid, lo)
    ensures FreshEntries(bc, s'.lists, ip, uid, lo)
  {
    forall t | BN.Meant(t, ip, uid) && BN.EntryFor(s'.lists, t).Some?
      ensures BN.Holds(s'.lists, t, bc.ExpiryAt(lo))
    {
      assert BN.EntryFor(s.lists, t).Some? ==> BN.Holds(s.lists, t, bc.ExpiryAt(lo));
    }
  }

  lemma FreshStep(lc: L.Config, bc: B.Config, w: World, op: Op, w': World, ip: string, uid: int,
                  lo: int)
    requires Step(lc, bc, w, op, w') && lo <= op.At() && !Restarts(op) && FreshEntries(bc, w.f.sys.lists, ip, uid, lo)
    ensures FreshEntries(bc, w'.f.sys.lists, ip, uid, lo)
  {
    if op.Attempt? && Decision(lc, w.f, op.ip, op.uid, op.at).RefusedByLimit? {
      FreshBanStep(bc, w.f.sys, B.Reject(op.ip, op.uid, op.at), w'.f.sys, ip, uid, lo);
    } else if op.Blacklist? {
      FreshBanStep(bc, w.f.sys, op.bop, w'.f.sys, ip, uid, lo);
    }
  }

  lemma {:induction false} StaysFresh(lc: L.Config, bc: B.Config, start: int, tr: seq<World>, ops: seq<Op>,
                                      a: nat, n: nat, ip: string, uid: int, lo: int)
    requires Behaviour(lc, bc, start, tr, ops) && a <= n <= |ops|
    requires forall k :: a <= k < n ==> lo <= ops[k].At() && !Restarts(ops[k])
    requires FreshEntries(bc, tr[a].f.sys.lists, ip, uid, lo)
    ensures FreshEntries(bc, tr[n].f.sys.lists, ip, uid, lo)
    decreases n
  {
    if a < n {
      var k := n - 1;
      StaysFresh(lc, bc, start, tr, ops, a, k, ip, uid, lo);
      BehaviourSteps(lc, bc, start, tr, ops, k);
      FreshStep(lc, bc, tr[k], ops[k], tr[k + 1], ip, uid, lo);
    }
  }

  /** An operator banned t by hand. */
  predicate Operator(op: Op, t: BN.Target) {
    op.Blacklist? && match op.bop
      case AddIP(ip, _, _, _) => t == BN.OnIP(ip)
      case AddUID(uid, _, _, _) => t == BN.OnUID(uid)
      case AddPair(ip, uid, _, _, _) => t == BN.OnPair(ip, uid)
      case _ => false
  }

  lemma OnlyOperatorsBan(lc: L.Config, bc: B.Config, w: World, op: Op, w': World, t: BN.Target)
    requires Step(lc, bc, w, op, w') && !Restarts(op) && !t.OnIP?
    requires BN.EntryFor(w.f.sys.lists, t).None? && BN.EntryFor(w'.f.sys.lists, t).Some?
    ensures Operator(op, t)
  {
    if op.Blacklist? && op.bop.AddPair? {
      BN.PairTargets(t, op.bop.ip, op.bop.uid);
    }
  }

  lemma {:induction false} SomeOperatorBanned(lc: L.Config, bc: B.Config, start: int, tr: seq<World>, ops: seq<Op>,
                                              a: nat, n: nat, t: BN.Target)
    requires Behaviour(lc, bc, start, tr, ops) && a <= n <= |ops| && !t.OnIP?
    requires forall k :: a <= k < n ==> !Restarts(ops[k])
    requires BN.EntryFor(tr[a].f.sys.lists, t).None? && BN.EntryFor(tr[n].f.sys.lists, t).Some?
    ensures exists k :: a <= k < n && Operator(ops[k], t)
    decreases n
  {
    var k := n - 1;
    BehaviourSteps(lc, bc, start, tr, ops, k);
    if BN.EntryFor(tr[k].f.sys.lists, t).None? {
      OnlyOperatorsBan(lc, bc, tr[k], ops[k], tr[k + 1], t);
    } else {
      SomeOperatorBanned(lc, bc, start, tr, ops, a, k, t);
    }
  }

  /** The clock reaches lo right before step a. */
  predicate Begins(ops: seq<Op>, a: nat, lo: int) {
    a <= |ops| && (forall k :: 0 <= k < a ==> ops[k].At() < lo) && forall k :: a <= k < |ops| ==> lo <= ops[k].At()
  }

  /** From step a on nobody lifts a ban of the source, whitelists its address or makes the
      gateway forget it. */
  ghost predicate LeftAlone(bc: B.Config, tr: seq<World>, ops: seq<Op>, a: nat, ip: string, uid: int, lo: int)
    requires |tr| == |ops| + 1
  {
    && (forall k :: 0 <= k < |ops| ==> !Forgets(ops[k], ip, lo))
    && (forall k, t :: a <= k < |ops| && BN.Meant(t, ip, uid) ==> !Undoes(bc, ops[k], t))
    && (forall k :: a <= k < |ops| ==> ip !in tr[k].f.sys.lists.white)
  }

  /** The ban on t refuses every attempt from the address that it is meant for, after step m
      and as long as a ban written at time lo would last. */
  ghost predicate CutsOff(lc: L.Config, bc: B.Config, tr: seq<World>, ops: seq<Op>, m: nat, t: BN.Target, ip: string,
                          lo: int)
    requires |tr| == |ops| + 1
  {
    forall n :: m < n < |ops| && IsMeant(ops[n], t, ip) && Lasts(bc, lo, ops[n].at)
      ==> Decision(lc, tr[n].f, ops[n].ip, ops[n].uid, ops[n].at).RefusedByBan? && tr[n + 1] == tr[n]
  }

  /** A ban written at time lo is still in force. */
  predicate Lasts(bc: B.Config, lo: int, now: int) {
    bc.banDuration > 0 ==> now <= lo + bc.banDuration * B.SECOND
  }

  predicate IsMeant(op: Op, t: BN.Target, ip: string) {
    op.Attempt? && op.ip == ip && BN.Meant(t, ip, op.uid)
  }

  lemma HeldCutsOff(lc: L.Config, bc: B.Config, start: int, tr: seq<World>, ops: seq<Op>,
                    m: nat, t: BN.Target, ip: string, lo: int)
    requires Behaviour(lc, bc, start, tr, ops) && m < |ops| && lo <= ops[m].At()
    requires BN.Holds(tr[m + 1].f.sys.lists, t, bc.ExpiryAt(lo))
    requires forall k :: m < k < |ops| ==> !Undoes(bc, ops[k], t) && !Restarts(ops[k]) && ip !in tr[k].f.sys.lists.white
    ensures CutsOff(lc, bc, tr, ops, m, t, ip, lo)
  {
    forall n | m < n < |ops| && IsMeant(ops[n], t, ip) && Lasts(bc, lo, ops[n].at)
      ensures Decision(lc, tr[n].f, ops[n].ip, ops[n].uid, ops[n].at).RefusedByBan? && tr[n + 1] == tr[n]
    {
      var j := m + 1;
      BehaviourSteps(lc, bc, start, tr, ops, m);
      BehaviourSteps(lc, bc, start, tr, ops, n);
      BanHolds(lc, bc, start, tr, ops, j, n, t, lo);
      HeldIsRefused(lc, bc, tr[n], ops[n], tr[n + 1], t, lo);
    }
  }

  /** End to end: a source with no entry at time lo that makes 2M + 2T - 3 attempts within both
      windows, and is otherwise left alone, is cut off. One of the attempts leaves a ban on its
      address, unless an operator bans its uid or the pair by hand meanwhile, and every later
      attempt that ban is meant for is refused by the blacklist and leaves no trace. */
  lemma BurstIsCutOff(lc: L.Config, bc: B.Config, start: int, tr: seq<World>, ops: seq<Op>, a: nat,
                      ip: string, uid: int, lo: int, span: nat) returns (m: nat, t: BN.Target)
    requires Behaviour(lc, bc, start, tr, ops)
    requires lc.enableIP && lc.ipMaxConn > 0 && bc.enableAutoLearn && span <= lc.Window() && span <= bc.Window()
    requires ':' !in ip && forall k :: 0 <= k < |ops| && ops[k].Attempt? ==> ':' !in ops[k].ip
    requires Begins(ops, a, lo) && !Known(tr[a].f.sys.lists, ip, uid) && LeftAlone(bc, tr, ops, a, ip, uid, lo)
    requires Attempts(ops, |ops|, ip, uid, lo, span) >= 2 * lc.ipMaxConn + 2 * A.EffectiveThreshold(bc) - 3
    ensures a <= m < |ops| && ops[m].Attempt? && ops[m].ip == ip && Within(ops[m], lo, bc.Window())
    ensures BN.Meant(t, ip, uid) && CutsOff(lc, bc, tr, ops, m, t, ip, lo)
    ensures t.OnIP? || exists k :: a <= k <= m && Operator(ops[k], t)
  {
    m := BurstListsItsSource(lc, bc, start, tr, ops, ip, uid, lo, span);
    var l := tr[m + 1].f.sys.lists;
    t := if ip in l.ips then BN.OnIP(ip) else if uid in l.uids then BN.OnUID(uid) else BN.OnPair(ip, uid);
    assert BN.Meant(t, ip, uid) && BN.EntryFor(l, t).Some? && BN.EntryFor(tr[a].f.sys.lists, t).None?;
    NoRestartFrom(ops, a, ip, lo);
    StaysFresh(lc, bc, start, tr, ops, a, m + 1, ip, uid, lo);
    HeldCutsOff(lc, bc, start, tr, ops, m, t, ip, lo);
    if !t.OnIP? {
      SomeOperatorBanned(lc, bc, start, tr, ops, a, m + 1, t);
    }
  }

  lemma NoRestartFrom(ops: seq<Op>, a: nat, ip: string, lo: int)
    requires Begins(ops, a, lo) && forall k :: 0 <= k < |ops| ==> !Forgets(ops[k], ip, lo)
    ensures forall k :: a <= k < |ops| ==> lo <= ops[k].At() && !Restarts(ops[k])
  {
    forall k | a <= k < |ops|
      ensures lo <= ops[k].At() && !Restarts(ops[k])
    {
      assert !Forgets(ops[k], ip, lo);
    }
  }
}
