/**
 What the limiter refuses and keeps, told in the requests accepted, the numbers configured and
 nanoseconds, without the functions that compute it.
*/
module LimiterLaws {
  import opened Wrappers
  import opened Windows
  import opened Keys
  import opened TextLaws
  import opened LimiterSpec
  import opened LimiterRuns
  import opened LimiterSharp

  // ---------- Who a request counts against ----------

  /** When requests of an IP were accepted, since it was last reset. */
  function AcceptedOfIP(log: seq<Event>, ip: string): seq<int> {
    if log == [] then []
    else
      var before := AcceptedOfIP(log[..|log| - 1], ip);
      match log[|log| - 1]
      case Accepted(req) => if req.ip == ip then before + [req.now] else before
      case IPReset(other) => if other == ip then [] else before
      case UIDReset(_) => before
  }

  function AcceptedOfUID(log: seq<Event>, uid: int): seq<int> {
    if log == [] then []
    else
      var before := AcceptedOfUID(log[..|log| - 1], uid);
      match log[|log| - 1]
      case Accepted(req) => if req.uid == uid then before + [req.now] else before
      case IPReset(_) => before
      case UIDReset(other) => if other == uid then [] else before
  }

  function AcceptedOfPair(log: seq<Event>, ip: string, uid: int): seq<int> {
    if log == [] then []
    else
      var before := AcceptedOfPair(log[..|log| - 1], ip, uid);
      match log[|log| - 1]
      case Accepted(req) => if req.ip == ip && req.uid == uid then before + [req.now] else before
      case _ => before
  }

  /** A layer that is on counts every accepted request of its IP, uid or pair; requests without a
      uid count against IPs only. */
  lemma {:induction false} TimesAreAccepted(cfg: Config, log: seq<Event>, ip: string, uid: int)
    ensures Times(cfg, OfIP(ip), log) == if cfg.enableIP then AcceptedOfIP(log, ip) else []
    ensures Times(cfg, OfUID(uid), log) == if cfg.enableUID && uid > 0 then AcceptedOfUID(log, uid) else []
    ensures Times(cfg, OfPair(ip, uid), log) ==
            if cfg.enableCombined && uid > 0 then AcceptedOfPair(log, ip, uid) else []
  {
    if log != [] {
      TimesAreAccepted(cfg, log[..|log| - 1], ip, uid);
    }
  }

  // ---------- When a request is refused ----------

  /** How many of these events are in the window in force. */
  function InWindow(ts: seq<int>, w: int, now: int): nat {
    if ts == [] || now - ts[Opener(ts, w)] > w then 0 else |ts| - Opener(ts, w)
  }

  predicate Over(n: int, limit: int) {
    limit > 0 && n >= limit
  }

  /** Told from the past, a request is refused iff some layer that is on has as many requests of
      its IP, uid or pair in the window in force as the limit for its kind allows, a limit of zero
      or less allowing any number; and the refusal names the first such layer, the kind, the number
      and the limit. */
  lemma {:induction false} HistoryInNumbers(cfg: Config, log: seq<Event>, req: Request)
    ensures var w, login := cfg.windowSize * 1_000_000_000, req.isLogin;
            var ip := InWindow(AcceptedOfIP(log, req.ip), w, req.now);
            var uid := InWindow(AcceptedOfUID(log, req.uid), w, req.now);
            var pair := InWindow(AcceptedOfPair(log, req.ip, req.uid), w, req.now);
            var ipLimit := if login then cfg.ipMaxLogin else cfg.ipMaxConn;
            var uidLimit := if login then cfg.uidMaxLogin else cfg.uidMaxConn;
            var pairLimit := if login then cfg.combinedMaxLogin else cfg.combinedMaxConn;
            HistoryVerdict(cfg, log, req) ==
            if cfg.enableIP && Over(ip, ipLimit) then Refused(LimitIP, login, ip, ipLimit)
            else if cfg.enableUID && req.uid > 0 && Over(uid, uidLimit) then Refused(LimitUID, login, uid, uidLimit)
            else if cfg.enableCombined && req.uid > 0 && Over(pair, pairLimit)
                 then Refused(LimitCombined, login, pair, pairLimit)
            else Allowed
  {
    TimesAreAccepted(cfg, log, req.ip, req.uid);
  }

  lemma {:induction false} TenAreAccepted(cfg: Config, ip: string)
    requires cfg == Config(1, true, 10, 3, true, 5, 2, true, 3, 2)
    ensures AcceptedOfIP(History(cfg, Burst(ip, 0, 10)), ip) == Repeat(0, 10)
  {
    assert [] + Burst(ip, 0, 10) == Burst(ip, 0, 10) && [] + Repeat(0, 10) == Repeat(0, 10);
    assert IPTimes(cfg, [], ip) == [];
    BurstFits(cfg, [], ip, 0, 10);
    TimesAreAccepted(cfg, History(cfg, Burst(ip, 0, 10)), ip, 0);
  }

  lemma {:induction false} FullIsRefused(cfg: Config, log: seq<Event>, ip: string, now: int)
    requires cfg == Config(1, true, 10, 3, true, 5, 2, true, 3, 2)
    requires now >= 0 && AcceptedOfIP(log, ip) == Repeat(0, 10)
    ensures HistoryVerdict(cfg, log, Request(ip, 0, false, now)).Refused? <==> now <= 1_000_000_000
  {
    TenAtOnce(now);
    HistoryInNumbers(cfg, log, Request(ip, 0, false, now));
  }

  lemma {:induction false} BurstIsTimed(ip: string, k: nat, last: Op)
    requires last.At() >= 0
    ensures Timed(Burst(ip, 0, k) + [last])
  {
  }

  /** By default ten connections of one address are let through at once, and an eleventh until one
      second has passed is not. */
  lemma {:induction false} EleventhConnection(ip: string, now: int)
    requires now >= 0
    ensures var cfg := Config(1, true, 10, 3, true, 5, 2, true, 3, 2);
            cfg == DEFAULT_CONFIG
            && AcceptedOfIP(History(cfg, Burst(ip, 0, 10)), ip) == Repeat(0, 10)
            && (Verdict(cfg, Run(cfg, Burst(ip, 0, 10)), Request(ip, 0, false, now)).Refused? <==> now <= 1_000_000_000)
  {
    var cfg, req := DEFAULT_CONFIG, Request(ip, 0, false, now);
    TenAreAccepted(cfg, ip);
    FullIsRefused(cfg, History(cfg, Burst(ip, 0, 10)), ip, now);
    BurstIsTimed(ip, 10, Check(req));
    LimiterRefinesHistory(cfg, Burst(ip, 0, 10), req);
  }

  lemma TenAtOnce(now: int)
    requires now >= 0
    ensures InWindow(Repeat(0, 10), 1_000_000_000, now) == if now <= 1_000_000_000 then 10 else 0
  {
    RepeatIs(0, 10);
    assert [] + Repeat(0, 10) == Repeat(0, 10);
    OpenerAfterLapse([], 0, 1_000_000_000, 10);
  }

  /** What an accepted request leaves of a record it counts in: the time, and one more than before
      or, if there was none or its window is over, a new window. */
  predicate Used(before: Option<Record>, after: Option<Record>, now: int, w: int) {
    && after.Some? && after.value.last == now
    && if before.Some? && now - before.value.start <= w
       then after.value.count == before.value.count + 1 && after.value.start == before.value.start
       else after.value.count == 1 && after.value.start == now
  }

  /** An accepted request is counted under its IP, and if it has a uid also under the uid and the
      pair, in each layer that is on; a refused one nowhere. No other record changes. */
  lemma CommitInNumbers(cfg: Config, t: Tables, req: Request, s: Subject)
    ensures var w, t' := cfg.windowSize * 1_000_000_000, Committed(cfg, t, req);
            var counts := Verdict(cfg, t, req).Allowed? && match s
              case OfIP(ip) => cfg.enableIP && ip == req.ip
              case OfUID(uid) => cfg.enableUID && req.uid > 0 && uid == req.uid
              case OfPair(ip, uid) => cfg.enableCombined && req.uid > 0 && ip == req.ip && uid == req.uid;
            if counts then Used(Find(t, s), Find(t', s), req.now, w) else Find(t', s) == Find(t, s)
  {
    CommitIsAllOrNothing(cfg, t, req, s);
  }

  /** A sweep forgets exactly the records last used more than three windows ago. */
  lemma SweepForgets(cfg: Config, t: Tables, now: int, ip: string, uid: int, key: string)
    ensures var t', w := Swept(cfg, t, now), cfg.windowSize * 1_000_000_000;
            && (ip in t'.ip <==> ip in t.ip && t.ip[ip].last >= now - 3 * w) && (ip in t'.ip ==> t'.ip[ip] == t.ip[ip])
            && (uid in t'.uid <==> uid in t.uid && t.uid[uid].last >= now - 3 * w)
            && (uid in t'.uid ==> t'.uid[uid] == t.uid[uid])
            && (key in t'.combined <==> key in t.combined && t.combined[key].last >= now - 3 * w)
            && (key in t'.combined ==> t'.combined[key] == t.combined[key])
  {
  }

  // ---------- What a refusal says ----------

  /** How the reason of a refusal starts: with the layer and the kind. */
  function Heading(layer: LimitType, isLogin: bool): string {
    match layer
    case LimitIP => if isLogin then "[IP]登录" else "[IP]连接"
    case LimitUID => if isLogin then "[用户ID]登录" else "[用户ID]连接"
    case LimitCombined => if isLogin then "[IP+UID组合]登录" else "[IP+UID组合]连接"
  }

  lemma HeadIsHeading(layer: LimitType, isLogin: bool)
    ensures ReasonHead(layer, isLogin) == Heading(layer, isLogin) != [] && Plain(Heading(layer, isLogin))
  {
  }

  /** The reason of a refusal starts with the layer and the kind, and tells the count and then
      the limit. */
  lemma ReasonTells(layer: LimitType, isLogin: bool, count: nat, limit: nat)
    ensures var text := ReasonText(Refused(layer, isLogin, count, limit));
            Heading(layer, isLogin) <= text && Numbers(text) == [count, limit]
  {
    HeadIsHeading(layer, isLogin);
    TextTells(ReasonHead(layer, isLogin), count, limit);
  }

  lemma TextTells(head: string, count: nat, limit: nat)
    requires Plain(head) && head != []
    ensures var text := head + "频率超限: 当前" + Decimal(count) + "次/秒, 允许" + Decimal(limit) + "次/秒";
            head <= text && Numbers(text) == [count, limit]
  {
    NumbersOfTwo(head + "频率超限: 当前", count, "次/秒, 允许", limit, "次/秒");
  }
}
