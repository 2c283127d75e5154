/** The rate limiter object: three tables changed in place under one lock. */
module Limiter {
  import opened Wrappers
  import opened Keys
  import opened LimiterSpec

  class RateLimiter {
    var ipRecords: map<string, Record>
    var uidRecords: map<int, Record>
    var combinedRecords: map<string, Record>
    var config: Config

    function View(): Tables
      reads this
    {
      Tables(ipRecords, uidRecords, combinedRecords)
    }

    constructor (cfg: Option<Config>)
      ensures View() == Tables(map[], map[], map[])
      ensures config == if cfg.Some? then cfg.value else Config(1, true, 10, 3, true, 5, 2, true, 3, 2)
    {
      ipRecords, uidRecords, combinedRecords := map[], map[], map[];
      config := if cfg.Some? then cfg.value else DEFAULT_CONFIG;
    }

    /** Checks every layer first and commits only when all of them pass. */
    method CheckAll(ip: string, uid: int, isLogin: bool, now: int) returns (result: LimitResult)
      modifies this
      ensures config == old(config)
      ensures result == Verdict(config, old(View()), Request(ip, uid, isLogin, now))
      ensures View() == Committed(config, old(View()), Request(ip, uid, isLogin, now))
    {
      var req := Request(ip, uid, isLogin, now);
      var combinedKey := PairKey(ip, uid);
      var w := config.Window();
      if config.enableIP {
        result := CheckRecord(ipRecords, ip, req, w, config.ipMaxConn, config.ipMaxLogin, LimitIP);
        if result.Refused? {
          return;
        }
      }
      if config.enableUID && uid > 0 {
        result := CheckRecord(uidRecords, uid, req, w, config.uidMaxConn, config.uidMaxLogin, LimitUID);
        if result.Refused? {
          return;
        }
      }
      if config.enableCombined && uid > 0 {
        result := CheckRecord(combinedRecords, combinedKey, req, w,
                              config.combinedMaxConn, config.combinedMaxLogin, LimitCombined);
        if result.Refused? {
          return;
        }
      }
      if config.enableIP {
        ipRecords := UpdateRecord(ipRecords, ip, now, w);
      }
      if config.enableUID && uid > 0 {
        uidRecords := UpdateRecord(uidRecords, uid, now, w);
      }
      if config.enableCombined && uid > 0 {
        combinedRecords := UpdateRecord(combinedRecords, combinedKey, now, w);
      }
      result := Allowed;
    }

    /** The count a dashboard shows: that of the window in force, else 0. */
    method GetIPRate(ip: string, now: int) returns (rate: int)
      ensures rate == RateOf(Find(View(), OfIP(ip)), config.Window(), now)
    {
      if ip !in ipRecords || now - ipRecords[ip].start > config.Window() {
        return 0;
      }
      return ipRecords[ip].count;
    }

    method GetUIDRate(uid: int, now: int) returns (rate: int)
      ensures rate == RateOf(Find(View(), OfUID(uid)), config.Window(), now)
    {
      if uid !in uidRecords || now - uidRecords[uid].start > config.Window() {
        return 0;
      }
      return uidRecords[uid].count;
    }

    method ResetIP(ip: string)
      modifies this
      ensures config == old(config)
      ensures View() == old(View()).(ip := old(ipRecords) - {ip})
    {
      ipRecords := ipRecords - {ip};
    }

    method ResetUID(uid: int)
      modifies this
      ensures config == old(config)
      ensures View() == old(View()).(uid := old(uidRecords) - {uid})
    {
      uidRecords := uidRecords - {uid};
    }

    method Cleanup(now: int)
      modifies this
      ensures config == old(config)
      ensures View() == Swept(config, old(View()), now)
    {
      var cutoff := now - config.Window() * 3;
      ipRecords := CleanMap(ipRecords, cutoff);
      uidRecords := CleanMap(uidRecords, cutoff);
      combinedRecords := CleanMap(combinedRecords, cutoff);
    }
  }

  /** Deletes stale records one at a time, in whatever order the map yields them. */
  method CleanMap<K(==)>(records: map<K, Record>, cutoff: int) returns (kept: map<K, Record>)
    ensures kept == Kept(records, cutoff)
  {
    kept := records;
    var todo := records.Keys;
    while todo != {}
      invariant todo <= records.Keys
      invariant forall k :: k in kept <==> k in records && (k in todo || records[k].last >= cutoff)
      invariant forall k :: k in kept ==> kept[k] == records[k]
      decreases |todo|
    {
      var k :| k in todo;
      if records[k].last < cutoff {
        kept := kept - {k};
      }
      todo := todo - {k};
    }
  }
}
