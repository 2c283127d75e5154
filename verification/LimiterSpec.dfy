/**
 The three-layer rate limiter on values: what one check decides and commits from the
 stored counters, and what the same check should decide from the full history of accepted
 requests.
*/
module LimiterSpec {
  import opened Wrappers
  import opened Windows
  import opened Keys

  // Instants and durations are nanoseconds.
  const SECOND := 1_000_000_000

  datatype Config = Config(
    windowSize: int,
    enableIP: bool, ipMaxConn: int, ipMaxLogin: int,
    enableUID: bool, uidMaxConn: int, uidMaxLogin: int,
    enableCombined: bool, combinedMaxConn: int, combinedMaxLogin: int)
  {
    function Window(): int {
      windowSize * SECOND
    }
  }

  const DEFAULT_CONFIG := Config(1, true, 10, 3, true, 5, 2, true, 3, 2)

  datatype Record = Record(count: int, start: int, last: int)

  datatype Tables = Tables(ip: map<string, Record>, uid: map<int, Record>, combined: map<string, Record>)

  const EMPTY_TABLES := Tables(map[], map[], map[])

  datatype LimitType = LimitIP | LimitUID | LimitCombined

  // A refusal carries what the source formats into its reason text.
  datatype LimitResult = Allowed | Refused(layer: LimitType, isLogin: bool, count: int, limit: int)

  function ReasonHead(layer: LimitType, isLogin: bool): string {
    var name := match layer
      case LimitIP => "IP"
      case LimitUID => "用户ID"
      case LimitCombined => "IP+UID组合";
    "[" + name + "]" + if isLogin then "登录" else "连接"
  }

  /** The text of a refusal; "" for an accepted request. */
  function ReasonText(r: LimitResult): (text: string)
    ensures text == "" <==> r.Allowed?
  {
    match r
    case Allowed => ""
    case Refused(layer, isLogin, count, limit) =>
      ReasonHead(layer, isLogin) + "频率超限: 当前" + Decimal(count) + "次/秒, 允许" + Decimal(limit) + "次/秒"
  }

  datatype Request = Request(ip: string, uid: int, isLogin: bool, now: int)

  // ---------- Decisions from the stored counters ----------

  function CheckRecord<K(==)>(records: map<K, Record>, key: K, req: Request, w: int,
                              maxConn: int, maxLogin: int, layer: LimitType): LimitResult
  {
    if key !in records || req.now - records[key].start > w then Allowed
    else if req.isLogin && maxLogin > 0 && records[key].count >= maxLogin then
      Refused(layer, true, records[key].count, maxLogin)
    else if !req.isLogin && maxConn > 0 && records[key].count >= maxConn then
      Refused(layer, false, records[key].count, maxConn)
    else Allowed
  }

  function UpdateRecord<K(==)>(records: map<K, Record>, key: K, now: int, w: int): map<K, Record> {
    records[key :=
      if key !in records || now - records[key].start > w then Record(1, now, now)
      else Record(records[key].count + 1, records[key].start, now)]
  }

  function Verdict(cfg: Config, t: Tables, req: Request): LimitResult {
    var w := cfg.Window();
    var ip := if cfg.enableIP
              then CheckRecord(t.ip, req.ip, req, w, cfg.ipMaxConn, cfg.ipMaxLogin, LimitIP) else Allowed;
    var uid := if cfg.enableUID && req.uid > 0
               then CheckRecord(t.uid, req.uid, req, w, cfg.uidMaxConn, cfg.uidMaxLogin, LimitUID) else Allowed;
    var combined := if cfg.enableCombined && req.uid > 0
                    then CheckRecord(t.combined, PairKey(req.ip, req.uid), req, w,
                                     cfg.combinedMaxConn, cfg.combinedMaxLogin, LimitCombined) else Allowed;
    if ip.Refused? then ip else if uid.Refused? then uid else combined
  }

  /** The tables after a check: untouched by a refusal. */
  function Committed(cfg: Config, t: Tables, req: Request): Tables {
    var w := cfg.Window();
    if Verdict(cfg, t, req).Refused? then t
    else Tables(
      if cfg.enableIP then UpdateRecord(t.ip, req.ip, req.now, w) else t.ip,
      if cfg.enableUID && req.uid > 0 then UpdateRecord(t.uid, req.uid, req.now, w) else t.uid,
      if cfg.enableCombined && req.uid > 0 then UpdateRecord(t.combined, PairKey(req.ip, req.uid), req.now, w)
      else t.combined)
  }

  /** The records last used at or after the cutoff. */
  function Kept<K(==)>(records: map<K, Record>, cutoff: int): map<K, Record> {
    map k | k in records && records[k].last >= cutoff :: records[k]
  }

  function Swept(cfg: Config, t: Tables, now: int): Tables {
    var cutoff := now - 3 * cfg.Window();
    Tables(Kept(t.ip, cutoff), Kept(t.uid, cutoff), Kept(t.combined, cutoff))
  }

  /** The count a dashboard shows of a record. */
  function RateOf(r: Option<Record>, w: int, now: int): int {
    if r.None? || now - r.value.start > w then 0 else r.value.count
  }

  // ---------- Subjects: what a limit applies to ----------

  datatype Subject = OfIP(ip: string) | OfUID(uid: int) | OfPair(ip: string, uid: int)

  function Lookup<K(==)>(m: map<K, Record>, k: K): Option<Record> {
    if k in m then Some(m[k]) else None
  }

  function Find(t: Tables, s: Subject): Option<Record> {
    match s
    case OfIP(ip) => Lookup(t.ip, ip)
    case OfUID(uid) => Lookup(t.uid, uid)
    case OfPair(ip, uid) => Lookup(t.combined, PairKey(ip, uid))
  }

  /** An accepted request is counted against s. */
  predicate Charged(cfg: Config, s: Subject, req: Request) {
    match s
    case OfIP(ip) => cfg.enableIP && ip == req.ip
    case OfUID(uid) => cfg.enableUID && req.uid > 0 && uid == req.uid
    case OfPair(ip, uid) => cfg.enableCombined && req.uid > 0 && ip == req.ip && uid == req.uid
  }

  function LimitFor(cfg: Config, s: Subject, isLogin: bool): int {
    match s
    case OfIP(_) => if isLogin then cfg.ipMaxLogin else cfg.ipMaxConn
    case OfUID(_) => if isLogin then cfg.uidMaxLogin else cfg.uidMaxConn
    case OfPair(_, _) => if isLogin then cfg.combinedMaxLogin else cfg.combinedMaxConn
  }

  function LayerOf(s: Subject): LimitType {
    match s
    case OfIP(_) => LimitIP
    case OfUID(_) => LimitUID
    case OfPair(_, _) => LimitCombined
  }

  // ---------- Decisions from the full history ----------

  datatype Event = Accepted(req: Request) | IPReset(ip: string) | UIDReset(uid: int)

  /** When requests counted against s were accepted, since its last reset. */
  function Times(cfg: Config, s: Subject, log: seq<Event>): seq<int> {
    if log == [] then [] else Extended(cfg, s, Times(cfg, s, log[..|log| - 1]), log[|log| - 1])
  }

  function Extended(cfg: Config, s: Subject, ts: seq<int>, e: Event): seq<int> {
    match e
    case Accepted(req) => if Charged(cfg, s, req) then ts + [req.now] else ts
    case IPReset(ip) => if s == OfIP(ip) then [] else ts
    case UIDReset(uid) => if s == OfUID(uid) then [] else ts
  }

  /** The rule for one layer: refuse once the current window holds the limit; a limit that
      is not positive is no limit. */
  function LayerRule(cfg: Config, s: Subject, log: seq<Event>, req: Request): LimitResult {
    var ts := Times(cfg, s, log);
    var limit := LimitFor(cfg, s, req.isLogin);
    if Charged(cfg, s, req) && limit > 0 && !Lapsed(ts, cfg.Window(), req.now) && Load(ts, cfg.Window()) >= limit
    then Refused(LayerOf(s), req.isLogin, Load(ts, cfg.Window()), limit)
    else Allowed
  }

  /** The first layer that refuses speaks for all. */
  function HistoryVerdict(cfg: Config, log: seq<Event>, req: Request): LimitResult {
    var ip := LayerRule(cfg, OfIP(req.ip), log, req);
    var uid := LayerRule(cfg, OfUID(req.uid), log, req);
    if ip.Refused? then ip
    else if uid.Refused? then uid
    else LayerRule(cfg, OfPair(req.ip, req.uid), log, req)
  }

  // ---------- All or nothing ----------

  function Bumped(r: Option<Record>, now: int, w: int): Record {
    if r.None? || now - r.value.start > w then Record(1, now, now)
    else Record(r.value.count + 1, r.value.start, now)
  }

  /** A refused check changes no table, even when earlier layers passed. An accepted one
      advances or restarts exactly the records it is charged to and no other. */
  lemma CommitIsAllOrNothing(cfg: Config, t: Tables, req: Request, s: Subject)
    ensures Verdict(cfg, t, req).Refused? ==> Committed(cfg, t, req) == t
    ensures Find(Committed(cfg, t, req), s) ==
            if Verdict(cfg, t, req).Refused? || !Charged(cfg, s, req) then Find(t, s)
            else Some(Bumped(Find(t, s), req.now, cfg.Window()))
  {
    if s.OfPair? {
      PairKeyInjective(s.ip, s.uid, req.ip, req.uid);
    }
  }
}
