/** What becomes of the whitelist over restarts. */
module WhitelistRuns {
  import opened Wrappers
  import opened BlacklistSpec
  import opened BlacklistRuns

  /** The step after which the file last agreed with memory. */
  function LastSync(cfg: Config, tr: seq<Sys>, ops: seq<Op>, n: nat): (j: nat)
    requires |tr| == |ops| + 1 && n <= |ops|
    ensures j <= n
  {
    if n == 0 || ops[n - 1].Restart? || Saves(cfg, tr[n - 1].lists, ops[n - 1]) then n
    else LastSync(cfg, tr, ops, n - 1)
  }

  lemma {:induction false} LoadedWhiteFrom(es: seq<WhiteEntry>, m: map<string, WhiteEntry>, ks: seq<string>)
    requires |ks| == |es| && forall i :: 0 <= i < |es| ==> ks[i] in m && es[i] == m[ks[i]] && es[i].ip == ks[i]
    ensures forall k :: k in LoadedWhite(es) <==> k in ks
    ensures forall k :: k in LoadedWhite(es) ==> LoadedWhite(es)[k] == m[k]
  {
    if es != [] {
      var n := |es| - 1;
      LoadedWhiteFrom(es[..n], m, ks[..n]);
      assert forall k :: k in ks <==> k in ks[..n] || k == ks[n];
    }
  }

  /** Whitelisting alone does not save: the file's whitelist is the one of the last save, so
      a restart forgets exactly the addresses whitelisted for the first time since then. */
  lemma {:induction false} WhitelistOnDiskIsOfLastSave(cfg: Config, start: int, tr: seq<Sys>, ops: seq<Op>, n: nat)
    requires Behaviour(cfg, start, tr, ops) && n <= |ops| && cfg.persist
    ensures LoadedWhite(FileOf(tr[n].disk).white) == tr[LastSync(cfg, tr, ops, n)].lists.white
  {
    if n > 0 {
      WhitelistOnDiskIsOfLastSave(cfg, start, tr, ops, n - 1);
      var op, l' := ops[n - 1], tr[n].lists;
      BehaviourSteps(cfg, start, tr, ops, n - 1);
      if Saves(cfg, tr[n - 1].lists, op) {
        AlwaysCoherent(cfg, start, tr, ops, n);
        SavedWhite(tr[n].disk.value.white, l'.white);
      }
    }
  }

  lemma SavedWhite(es: seq<WhiteEntry>, white: map<string, WhiteEntry>)
    requires ListsValues(es, white) && forall k :: k in white ==> white[k].ip == k
    ensures LoadedWhite(es) == white
  {
    var ks: seq<string> :|
      Enumerates(ks, white.Keys) && |ks| == |es| && forall i :: 0 <= i < |es| ==> es[i] == white[ks[i]];
    SavedWhiteInOrder(es, white, ks);
  }

  lemma SavedWhiteInOrder(es: seq<WhiteEntry>, white: map<string, WhiteEntry>, ks: seq<string>)
    requires forall k :: k in white ==> white[k].ip == k
    requires forall k :: k in white.Keys <==> k in ks
    requires |ks| == |es| && forall i :: 0 <= i < |es| ==> es[i] == white[ks[i]]
    ensures LoadedWhite(es) == white
  {
    forall i | 0 <= i < |es|
      ensures ks[i] in white && es[i].ip == ks[i]
    {
      assert ks[i] in white.Keys;
    }
    LoadedWhiteFrom(es, white, ks);
  }

  lemma {:induction false} WhitelistGrows(cfg: Config, start: int, tr: seq<Sys>, ops: seq<Op>, i: nat, n: nat,
                                          ip: string)
    requires Behaviour(cfg, start, tr, ops) && i <= n <= |ops|
    requires forall k :: i <= k < n ==> !ops[k].Restart?
    ensures ip in tr[n].lists.white <==>
            ip in tr[i].lists.white || exists k :: i <= k < n && ops[k].AddWhite? && ops[k].ip == ip
    decreases n
  {
    if i < n {
      WhitelistGrows(cfg, start, tr, ops, i, n - 1, ip);
      BehaviourSteps(cfg, start, tr, ops, n - 1);
    }
  }

  /** A restart loses a whitelisted address iff it was added since the last save and was not
      on the list at that save. */
  lemma WhitelistEntryLostIff(cfg: Config, start: int, tr: seq<Sys>, ops: seq<Op>, ip: string,
                              load: int)
    requires Behaviour(cfg, start, tr, ops) && cfg.persist
    ensures var n := |ops|;
            var j := LastSync(cfg, tr, ops, n);
            (ip in tr[n].lists.white && ip !in Started(cfg, tr[n].disk, load).white) <==>
            (ip !in tr[j].lists.white && exists k :: j <= k < n && ops[k].AddWhite? && ops[k].ip == ip)
  {
    var n := |ops|;
    WhitelistOnDiskIsOfLastSave(cfg, start, tr, ops, n);
    NoRestartSinceSync(cfg, tr, ops, n);
    WhitelistGrows(cfg, start, tr, ops, LastSync(cfg, tr, ops, n), n, ip);
  }

  lemma {:induction false} NoRestartSinceSync(cfg: Config, tr: seq<Sys>, ops: seq<Op>, n: nat)
    requires |tr| == |ops| + 1 && n <= |ops|
    ensures forall k :: LastSync(cfg, tr, ops, n) <= k < n ==> !ops[k].Restart?
  {
    if n > 0 && !(ops[n - 1].Restart? || Saves(cfg, tr[n - 1].lists, ops[n - 1])) {
      NoRestartSinceSync(cfg, tr, ops, n - 1);
    }
  }

  /** Whitelisted, then restarted: forgotten. */
  lemma WhitelistEntryIsLost(cfg: Config, ip: string, note: string, at: int, load: int)
    requires cfg.persist && at <= load
    ensures var s0 := Sys(EMPTY_LISTS, None);
            var s1 := s0.(lists := EMPTY_LISTS.(white := map[ip := WhiteEntry(ip, note, at)]));
            var tr, ops := [s0, s1, s0], [AddWhite(ip, note, at), Restart(load)];
            Behaviour(cfg, at, tr, ops) && ip in tr[1].lists.white && ip !in tr[2].lists.white
  {
  }
}
