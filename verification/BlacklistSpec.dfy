/**
 The blacklist on values: the lists and counters in memory, the file beside them, what
 each operation makes of them, and the lookups.
*/
module BlacklistSpec {
  import opened Wrappers
  import opened Keys

  const SECOND := 1_000_000_000

  datatype Config = Config(
    enableAutoLearn: bool,
    threshold: int,
    learnWindow: int,
    banDuration: int,
    persist: bool)
  {
    function Window(): int {
      learnWindow * SECOND
    }

    /** None stands for the zero time: never expires. */
    function ExpiryAt(now: int): Option<int> {
      if banDuration > 0 then Some(now + banDuration * SECOND) else None
    }
  }

  const DEFAULT_CONFIG := Config(true, 10, 60, 3600, true)

  datatype Entry = Entry(
    ip: string, uid: int, combined: string, reason: string,
    added: int, expire: Option<int>, source: string)

  datatype WhiteEntry = WhiteEntry(ip: string, note: string, added: int)

  datatype Counter = Counter(rejects: int, start: int)

  datatype Lists = Lists(
    ips: map<string, Entry>, uids: map<int, Entry>, pairs: map<string, Entry>,
    white: map<string, WhiteEntry>, counters: map<string, Counter>)

  const EMPTY_LISTS := Lists(map[], map[], map[], map[], map[])

  // What the file holds, in the order it holds it.
  datatype File = File(ips: seq<Entry>, uids: seq<Entry>, pairs: seq<Entry>, white: seq<WhiteEntry>)

  const EMPTY_FILE := File([], [], [], [])

  datatype Sys = Sys(lists: Lists, disk: Option<File>)

  // ---------- Lookups ----------

  predicate Expired(e: Entry, now: int) {
    e.expire.Some? && now > e.expire.value
  }

  /** The entry a lookup at time now returns. */
  function Active<K(==)>(m: map<K, Entry>, k: K, now: int): Option<Entry> {
    if k in m && !Expired(m[k], now) then Some(m[k]) else None
  }

  datatype Answer = Clear | ByIP(entry: Entry) | ByUID(entry: Entry) | ByPair(entry: Entry)

  function IsBlacklisted(l: Lists, ip: string, uid: int, now: int): Answer {
    var byIP := Active(l.ips, ip, now);
    var byUID := if uid > 0 then Active(l.uids, uid, now) else None;
    var byPair := if uid > 0 then Active(l.pairs, PairKey(ip, uid), now) else None;
    if byIP.Some? then ByIP(byIP.value)
    else if byUID.Some? then ByUID(byUID.value)
    else if byPair.Some? then ByPair(byPair.value)
    else Clear
  }

  // ---------- Loading a file ----------

  function IPOf(e: Entry): string { e.ip }
  function UIDOf(e: Entry): int { e.uid }
  function CombinedOf(e: Entry): string { e.combined }

  /** Entries in file order, expired ones skipped, later ones overwriting earlier ones. */
  function Loaded<K(==)>(es: seq<Entry>, keyOf: Entry -> K, now: int): map<K, Entry> {
    if es == [] then map[]
    else
      var before := Loaded(es[..|es| - 1], keyOf, now);
      var e := es[|es| - 1];
      if Expired(e, now) then before else before[keyOf(e) := e]
  }

  function LoadedWhite(es: seq<WhiteEntry>): map<string, WhiteEntry> {
    if es == [] then map[]
    else LoadedWhite(es[..|es| - 1])[es[|es| - 1].ip := es[|es| - 1]]
  }

  /** The lists of a manager started at time now over the given file. */
  function Started(cfg: Config, disk: Option<File>, now: int): Lists {
    if cfg.persist && disk.Some? then
      Lists(Loaded(disk.value.ips, IPOf, now), Loaded(disk.value.uids, UIDOf, now),
            Loaded(disk.value.pairs, CombinedOf, now), LoadedWhite(disk.value.white), map[])
    else EMPTY_LISTS
  }

  /** Loading adds the file's entries to what is there, over entries of the same key. */
  function LoadedOnto(cfg: Config, l: Lists, disk: Option<File>, now: int): Lists {
    var again := Started(cfg, disk, now);
    Lists(l.ips + again.ips, l.uids + again.uids, l.pairs + again.pairs, l.white + again.white, l.counters)
  }

  // ---------- Writing a file ----------

  /** ks enumerates a key set in some order. */
  ghost predicate Enumerates<K(!new)>(ks: seq<K>, keys: set<K>) {
    && (forall i, j :: 0 <= i < j < |ks| ==> ks[i] != ks[j])
    && (forall k :: k in keys <==> k in ks)
  }

  /** vs lists the values of m in some iteration order. */
  ghost predicate ListsValues<K(!new), V>(vs: seq<V>, m: map<K, V>) {
    exists ks: seq<K> ::
      Enumerates(ks, m.Keys) && |ks| == |vs| && forall i :: 0 <= i < |vs| ==> vs[i] == m[ks[i]]
  }

  ghost predicate Images(f: File, l: Lists) {
    ListsValues(f.ips, l.ips) && ListsValues(f.uids, l.uids) &&
    ListsValues(f.pairs, l.pairs) && ListsValues(f.white, l.white)
  }

  // ---------- Operations ----------

  datatype Op =
    | AddIP(ip: string, reason: string, source: string, now: int)
    | AddUID(uid: int, reason: string, source: string, now: int)
    | AddPair(ip: string, uid: int, reason: string, source: string, now: int)
    | AddWhite(ip: string, note: string, now: int)
    | RemoveIP(ip: string, now: int)
    | RemoveUID(uid: int, now: int)
    | RemovePair(ip: string, uid: int, now: int)
    | Reject(ip: string, uid: int, now: int)
    | ClearAll(now: int)
    | Cleanup(now: int)
    | Restart(now: int)

  function AutoReason(window: int, rejects: int): string {
    "自动学习: " + Decimal(window) + "秒内被拒绝" + Decimal(rejects) + "次"
  }

  function AutoEntry(cfg: Config, ip: string, rejects: int, now: int): Entry {
    Entry(ip, 0, "", AutoReason(cfg.learnWindow, rejects), now, cfg.ExpiryAt(now), "auto")
  }

  /** The counter of one reject's key after the reject. */
  function Counted(counters: map<string, Counter>, key: string, now: int, w: int): Counter {
    if key !in counters || now - counters[key].start > w then Counter(1, now)
    else Counter(counters[key].rejects + 1, counters[key].start)
  }

  /** A reject bans its IP: the counter was already running, it reached the threshold, and
      neither the IP nor the pair has an entry (an expired one counts as an entry). */
  predicate Bans(cfg: Config, l: Lists, ip: string, uid: int, now: int) {
    var key := LearnKey(ip, uid);
    && cfg.enableAutoLearn
    && key in l.counters && now - l.counters[key].start <= cfg.Window()
    && l.counters[key].rejects + 1 >= cfg.threshold
    && ip !in l.ips
    && (uid > 0 ==> PairKey(ip, uid) !in l.pairs)
  }

  function AfterReject(cfg: Config, l: Lists, ip: string, uid: int, now: int): Lists {
    if !cfg.enableAutoLearn then l
    else
      var key := LearnKey(ip, uid);
      var c := Counted(l.counters, key, now, cfg.Window());
      l.(counters := l.counters[key := c],
         ips := if Bans(cfg, l, ip, uid, now)
                then l.ips[ip := AutoEntry(cfg, ip, c.rejects, now)]
                else l.ips)
  }

  function Unexpired<K(==)>(m: map<K, Entry>, now: int): map<K, Entry> {
    map k | k in m && !Expired(m[k], now) :: m[k]
  }

  function FreshCounters(m: map<string, Counter>, now: int, keep: int): map<string, Counter> {
    map k | k in m && now - m[k].start <= keep :: m[k]
  }

  function After(cfg: Config, l: Lists, op: Op): Lists
    requires !op.Restart?
  {
    match op
    case AddIP(ip, reason, source, now) =>
      l.(ips := l.ips[ip := Entry(ip, 0, "", reason, now, cfg.ExpiryAt(now), source)])
    case AddUID(uid, reason, source, now) =>
      l.(uids := l.uids[uid := Entry("", uid, "", reason, now, cfg.ExpiryAt(now), source)])
    case AddPair(ip, uid, reason, source, now) =>
      var key := PairKey(ip, uid);
      l.(pairs := l.pairs[key := Entry(ip, uid, key, reason, now, cfg.ExpiryAt(now), source)])
    case AddWhite(ip, note, now) => l.(white := l.white[ip := WhiteEntry(ip, note, now)])
    case RemoveIP(ip, _) => l.(ips := l.ips - {ip})
    case RemoveUID(uid, _) => l.(uids := l.uids - {uid})
    case RemovePair(ip, uid, _) => l.(pairs := l.pairs - {PairKey(ip, uid)})
    case Reject(ip, uid, now) => AfterReject(cfg, l, ip, uid, now)
    case ClearAll(_) => EMPTY_LISTS.(white := l.white)
    case Cleanup(now) =>
      Lists(Unexpired(l.ips, now), Unexpired(l.uids, now), Unexpired(l.pairs, now), l.white,
            FreshCounters(l.counters, now, cfg.learnWindow * 2 * SECOND))
  }

  /** Operations that rewrite the file: every change of a ban list except the sweep. */
  predicate Saves(cfg: Config, l: Lists, op: Op) {
    match op
    case Reject(ip, uid, now) => Bans(cfg, l, ip, uid, now)
    case AddWhite(_, _, _) => false
    case Cleanup(_) => false
    case Restart(_) => false
    case _ => true
  }

  /** One step of the system. A save may list the entries in any order. */
  ghost predicate Step(cfg: Config, s: Sys, op: Op, s': Sys) {
    if op.Restart? then s' == Sys(Started(cfg, s.disk, op.now), s.disk)
    else
      && s'.lists == After(cfg, s.lists, op)
      && if cfg.persist && Saves(cfg, s.lists, op)
         then s'.disk.Some? && Images(s'.disk.value, s'.lists)
         else s'.disk == s.disk
  }
}
