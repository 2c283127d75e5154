/** The blacklist manager object: five maps changed in place and a file it rewrites. */
module Blacklist {
  import opened Wrappers
  import opened Keys
  import opened BlacklistSpec

  class BlacklistManager {
    var ipBlacklist: map<string, Entry>
    var uidBlacklist: map<int, Entry>
    var combinedBlacklist: map<string, Entry>
    var ipWhitelist: map<string, WhiteEntry>
    var autoLearnCounters: map<string, Counter>
    var config: Config
    // The persisted file, as the last write left it.
    var disk: Option<File>

    function View(): Lists
      reads this
    {
      Lists(ipBlacklist, uidBlacklist, combinedBlacklist, ipWhitelist, autoLearnCounters)
    }

    function State(): Sys
      reads this
    {
      Sys(View(), disk)
    }

    constructor (cfg: Option<Config>, file: Option<File>, now: int)
      ensures config == if cfg.Some? then cfg.value else Config(true, 10, 60, 3600, true)
      ensures State() == Sys(Started(config, file, now), file)
    {
      ipBlacklist, uidBlacklist, combinedBlacklist := map[], map[], map[];
      ipWhitelist, autoLearnCounters := map[], map[];
      config := if cfg.Some? then cfg.value else DEFAULT_CONFIG;
      disk := file;
      new;
      LoadFromFile(now);
      OntoNothing(config, file, now);
    }

    method LoadFromFile(now: int)
      modifies this
      ensures config == old(config) && disk == old(disk)
      ensures View() == LoadedOnto(config, old(View()), disk, now)
    {
      if !config.persist || disk.None? {
        assert ipBlacklist + map[] == ipBlacklist && uidBlacklist + map[] == uidBlacklist;
        assert combinedBlacklist + map[] == combinedBlacklist && ipWhitelist + map[] == ipWhitelist;
        return;
      }
      ipBlacklist := LoadEntries(ipBlacklist, disk.value.ips, IPOf, now);
      uidBlacklist := LoadEntries(uidBlacklist, disk.value.uids, UIDOf, now);
      combinedBlacklist := LoadEntries(combinedBlacklist, disk.value.pairs, CombinedOf, now);
      ipWhitelist := LoadWhite(ipWhitelist, disk.value.white);
    }

    method SaveToFile()
      modifies this`disk
      ensures if config.persist then disk.Some? && Images(disk.value, View()) else disk == old(disk)
    {
      if !config.persist {
        return;
      }
      var ips := ValuesOf(ipBlacklist);
      var uids := ValuesOf(uidBlacklist);
      var pairs := ValuesOf(combinedBlacklist);
      var white := ValuesOf(ipWhitelist);
      disk := Some(File(ips, uids, pairs, white));
    }

    method IsIPBlacklisted(ip: string, now: int) returns (r: Option<Entry>)
      ensures r == Active(ipBlacklist, ip, now)
    {
      if ip !in ipBlacklist || Expired(ipBlacklist[ip], now) {
        return None;
      }
      return Some(ipBlacklist[ip]);
    }

    method IsUIDBlacklisted(uid: int, now: int) returns (r: Option<Entry>)
      ensures r == Active(uidBlacklist, uid, now)
    {
      if uid !in uidBlacklist || Expired(uidBlacklist[uid], now) {
        return None;
      }
      return Some(uidBlacklist[uid]);
    }

    method IsCombinedBlacklisted(ip: string, uid: int, now: int) returns (r: Option<Entry>)
      ensures r == Active(combinedBlacklist, PairKey(ip, uid), now)
    {
      var key := PairKey(ip, uid);
      if key !in combinedBlacklist || Expired(combinedBlacklist[key], now) {
        return None;
      }
      return Some(combinedBlacklist[key]);
    }

    method CheckBlacklisted(ip: string, uid: int, now: int) returns (answer: Answer)
      ensures answer == IsBlacklisted(View(), ip, uid, now)
    {
      var entry := IsIPBlacklisted(ip, now);
      if entry.Some? {
        return ByIP(entry.value);
      }
      if uid > 0 {
        entry := IsUIDBlacklisted(uid, now);
        if entry.Some? {
          return ByUID(entry.value);
        }
      }
      if uid > 0 {
        entry := IsCombinedBlacklisted(ip, uid, now);
        if entry.Some? {
          return ByPair(entry.value);
        }
      }
      return Clear;
    }

    method IsIPWhitelisted(ip: string) returns (r: bool)
      ensures r <==> ip in View().white
    {
      return ip in ipWhitelist;
    }

    method AddIPBlacklist(ip: string, reason: string, source: string, now: int)
      modifies this
      ensures config == old(config)
      ensures Step(config, old(State()), AddIP(ip, reason, source, now), State())
    {
      ipBlacklist := ipBlacklist[ip := Entry(ip, 0, "", reason, now, config.ExpiryAt(now), source)];
      SaveToFile();
    }

    method AddUIDBlacklist(uid: int, reason: string, source: string, now: int)
      modifies this
      ensures config == old(config)
      ensures Step(config, old(State()), AddUID(uid, reason, source, now), State())
    {
      uidBlacklist := uidBlacklist[uid := Entry("", uid, "", reason, now, config.ExpiryAt(now), source)];
      SaveToFile();
    }

    method AddCombinedBlacklist(ip: string, uid: int, reason: string, source: string, now: int)
      modifies this
      ensures config == old(config)
      ensures Step(config, old(State()), AddPair(ip, uid, reason, source, now), State())
    {
      var key := PairKey(ip, uid);
      combinedBlacklist := combinedBlacklist[key := Entry(ip, uid, key, reason, now, config.ExpiryAt(now), source)];
      SaveToFile();
    }

    method AddIPWhitelist(ip: string, note: string, now: int)
      modifies this
      ensures config == old(config)
      ensures Step(config, old(State()), AddWhite(ip, note, now), State())
    {
      ipWhitelist := ipWhitelist[ip := WhiteEntry(ip, note, now)];
    }

    method RemoveIPBlacklist(ip: string, now: int)
      modifies this
      ensures config == old(config)
      ensures Step(config, old(State()), RemoveIP(ip, now), State())
    {
      ipBlacklist := ipBlacklist - {ip};
      SaveToFile();
    }

    method RemoveUIDBlacklist(uid: int, now: int)
      modifies this
      ensures config == old(config)
      ensures Step(config, old(State()), RemoveUID(uid, now), State())
    {
      uidBlacklist := uidBlacklist - {uid};
      SaveToFile();
    }

    method RemoveCombinedBlacklist(ip: string, uid: int, now: int)
      modifies this
      ensures config == old(config)
      ensures Step(config, old(State()), RemovePair(ip, uid, now), State())
    {
      combinedBlacklist := combinedBlacklist - {PairKey(ip, uid)};
      SaveToFile();
    }

    /** Counts a refused connection and bans the IP once the counter reaches the threshold. */
    method RecordReject(ip: string, uid: int, now: int)
      modifies this
      ensures config == old(config)
      ensures Step(config, old(State()), Reject(ip, uid, now), State())
    {
      if !config.enableAutoLearn {
        return;
      }
      var w := config.Window();
      var key := ip;
      if uid > 0 {
        key := PairKey(ip, uid);
      }
      if key !in autoLearnCounters || now - autoLearnCounters[key].start > w {
        autoLearnCounters := autoLearnCounters[key := Counter(1, now)];
        return;
      }
      var rec := autoLearnCounters[key];
      rec := rec.(rejects := rec.rejects + 1);
      autoLearnCounters := autoLearnCounters[key := rec];
      if rec.rejects >= config.threshold {
        if ip !in ipBlacklist {
          if uid > 0 {
            var combinedKey := PairKey(ip, uid);
            if combinedKey !in combinedBlacklist {
              AddAutoBan(ip, rec.rejects, now);
            }
          } else {
            AddAutoBan(ip, rec.rejects, now);
          }
        }
      }
    }

    method AddAutoBan(ip: string, rejects: int, now: int)
      modifies this`ipBlacklist, this`disk
      ensures ipBlacklist == old(ipBlacklist)[ip := AutoEntry(config, ip, rejects, now)]
      ensures if config.persist then disk.Some? && Images(disk.value, View()) else disk == old(disk)
    {
      ipBlacklist := ipBlacklist[ip :=
        Entry(ip, 0, "", AutoReason(config.learnWindow, rejects), now, config.ExpiryAt(now), "auto")];
      SaveToFile();
    }

    method ClearLists(now: int)
      modifies this
      ensures config == old(config)
      ensures Step(config, old(State()), ClearAll(now), State())
    {
      ipBlacklist, uidBlacklist, combinedBlacklist := map[], map[], map[];
      autoLearnCounters := map[];
      SaveToFile();
    }

    method CleanupExpired(now: int)
      modifies this
      ensures config == old(config)
      ensures Step(config, old(State()), Cleanup(now), State())
    {
      ipBlacklist := DropExpired(ipBlacklist, now);
      uidBlacklist := DropExpired(uidBlacklist, now);
      combinedBlacklist := DropExpired(combinedBlacklist, now);
      autoLearnCounters := DropStale(autoLearnCounters, now, config.learnWindow * 2 * SECOND);
    }
  }

  lemma OntoNothing(cfg: Config, disk: Option<File>, now: int)
    ensures LoadedOnto(cfg, EMPTY_LISTS, disk, now) == Started(cfg, disk, now)
  {
    var l := Started(cfg, disk, now);
    assert map[] + l.ips == l.ips && map[] + l.uids == l.uids && map[] + l.pairs == l.pairs;
    assert map[] + l.white == l.white;
  }

  method LoadEntries<K(==)>(into: map<K, Entry>, entries: seq<Entry>, keyOf: Entry -> K, now: int)
    returns (m: map<K, Entry>)
    ensures m == into + Loaded(entries, keyOf, now)
  {
    m := into;
    for i := 0 to |entries|
      invariant m == into + Loaded(entries[..i], keyOf, now)
    {
      assert entries[..i + 1][..i] == entries[..i];
      if Expired(entries[i], now) {
        continue;
      }
      m := m[keyOf(entries[i]) := entries[i]];
    }
    assert entries[..|entries|] == entries;
  }

  method LoadWhite(into: map<string, WhiteEntry>, entries: seq<WhiteEntry>) returns (m: map<string, WhiteEntry>)
    ensures m == into + LoadedWhite(entries)
  {
    m := into;
    for i := 0 to |entries|
      invariant m == into + LoadedWhite(entries[..i])
    {
      assert entries[..i + 1][..i] == entries[..i];
      m := m[entries[i].ip := entries[i]];
    }
    assert entries[..|entries|] == entries;
  }

  /** The values of a map in the order an iteration happens to yield them. */
  method ValuesOf<K(==,!new), V>(m: map<K, V>) returns (vs: seq<V>)
    ensures ListsValues(vs, m)
  {
    vs := [];
    ghost var ks: seq<K> := [];
    var todo := m.Keys;
    while todo != {}
      invariant todo <= m.Keys
      invariant Enumerates(ks, m.Keys - todo)
      invariant |ks| == |vs| && forall i :: 0 <= i < |vs| ==> ks[i] in m && vs[i] == m[ks[i]]
      decreases |todo|
    {
      var k :| k in todo;
      assert k !in ks;
      vs := vs + [m[k]];
      ks := ks + [k];
      todo := todo - {k};
    }
    assert m.Keys - todo == m.Keys;
  }

  method DropExpired<K(==)>(m: map<K, Entry>, now: int) returns (kept: map<K, Entry>)
    ensures kept == Unexpired(m, now)
  {
    kept := m;
    var todo := m.Keys;
    while todo != {}
      invariant todo <= m.Keys
      invariant forall k :: k in kept <==> k in m && (k in todo || !Expired(m[k], now))
      invariant forall k :: k in kept ==> kept[k] == m[k]
      decreases |todo|
    {
      var k :| k in todo;
      if Expired(m[k], now) {
        kept := kept - {k};
      }
      todo := todo - {k};
    }
  }

  method DropStale(m: map<string, Counter>, now: int, keep: int) returns (kept: map<string, Counter>)
    ensures kept == FreshCounters(m, now, keep)
  {
    kept := m;
    var todo := m.Keys;
    while todo != {}
      invariant todo <= m.Keys
      invariant forall k :: k in kept <==> k in m && (k in todo || now - m[k].start <= keep)
      invariant forall k :: k in kept ==> kept[k] == m[k]
      decreases |todo|
    {
      var k :| k in todo;
      if now - m[k].start > keep {
        kept := kept - {k};
      }
      todo := todo - {k};
    }
  }
}
