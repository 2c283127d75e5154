/**
 Whole runs of the blacklist under a fixed configuration: what a restart preserves, and how
 long a ban holds.
*/
module BlacklistRuns {
  import opened Wrappers
  import opened BlacklistSpec

  // ---------- One list and the entries it was loaded from ----------

  ghost predicate Coherent<K>(m: map<K, Entry>, keyOf: Entry -> K) {
    forall k :: k in m ==> keyOf(m[k]) == k
  }

  /** Entry j is the last of its key that is unexpired at time now. */
  predicate Leads<K(==)>(es: seq<Entry>, keyOf: Entry -> K, now: int, j: int) {
    && 0 <= j < |es| && !Expired(es[j], now)
    && forall i :: j < i < |es| && keyOf(es[i]) == keyOf(es[j]) ==> Expired(es[i], now)
  }

  /** Loading leaves the last unexpired entry of each key. */
  lemma {:induction false} LeadIsLoaded<K>(es: seq<Entry>, keyOf: Entry -> K, now: int, j: nat)
    requires Leads(es, keyOf, now, j)
    ensures var m := Loaded(es, keyOf, now); keyOf(es[j]) in m && m[keyOf(es[j])] == es[j]
  {
    var n := |es| - 1;
    if j < n {
      assert Leads(es[..n], keyOf, now, j);
      LeadIsLoaded(es[..n], keyOf, now, j);
    }
  }

  lemma {:induction false} LeadOf<K>(es: seq<Entry>, keyOf: Entry -> K, now: int, k: K) returns (j: nat)
    requires k in Loaded(es, keyOf, now)
    ensures Leads(es, keyOf, now, j) && keyOf(es[j]) == k && Loaded(es, keyOf, now)[k] == es[j]
  {
    var n := |es| - 1;
    if !Expired(es[n], now) && keyOf(es[n]) == k {
      j := n;
    } else {
      j := LeadOf(es[..n], keyOf, now, k);
    }
  }

  lemma {:induction false} UnexpiredIsLoaded<K>(es: seq<Entry>, keyOf: Entry -> K, now: int, i: nat)
    requires i < |es| && !Expired(es[i], now)
    ensures keyOf(es[i]) in Loaded(es, keyOf, now)
  {
    var n := |es| - 1;
    if i < n {
      UnexpiredIsLoaded(es[..n], keyOf, now, i);
    }
  }

  lemma LoadedCoherent<K>(es: seq<Entry>, keyOf: Entry -> K, now: int)
    ensures Coherent(Loaded(es, keyOf, now), keyOf)
  {
    forall k | k in Loaded(es, keyOf, now)
      ensures keyOf(Loaded(es, keyOf, now)[k]) == k
    {
      var j := LeadOf(es, keyOf, now, k);
    }
  }

  /** The entries, loaded at time load, answer a lookup at time now as m does. */
  predicate Alike<K(==)>(es: seq<Entry>, keyOf: Entry -> K, load: int, m: map<K, Entry>, k: K, now: int) {
    Active(Loaded(es, keyOf, load), k, now) == Active(m, k, now)
  }

  /** Whenever from now on the entries are loaded, every later lookup is answered as m does. */
  ghost predicate Mirrors<K(!new)>(es: seq<Entry>, keyOf: Entry -> K, m: map<K, Entry>, clock: int) {
    forall k, load, now :: clock <= load <= now ==> Alike(es, keyOf, load, m, k, now)
  }

  predicate EndsBefore(a: Entry, b: Entry) {
    a.expire.Some? && (b.expire.None? || a.expire.value < b.expire.value)
  }

  /** Of the entries of one key that are unexpired at time now, the last expires last. */
  predicate LastOutlasts<K(==)>(es: seq<Entry>, keyOf: Entry -> K, now: int) {
    forall i, j :: 0 <= i < j < |es| && keyOf(es[i]) == keyOf(es[j]) && !Expired(es[i], now) && Leads(es, keyOf, now, j)
      ==> !EndsBefore(es[j], es[i])
  }

  lemma LaterLoadAgrees<K(!new)>(es: seq<Entry>, keyOf: Entry -> K, start: int, load: int, now: int, k: K)
    requires LastOutlasts(es, keyOf, start) && start <= load <= now
    ensures Active(Loaded(es, keyOf, load), k, now) == Active(Loaded(es, keyOf, start), k, now)
  {
    if k in Loaded(es, keyOf, start) {
      var j := LeadOf(es, keyOf, start, k);
      if !Expired(es[j], load) {
        assert Leads(es, keyOf, load, j);
        LeadIsLoaded(es, keyOf, load, j);
      } else if k in Loaded(es, keyOf, load) {
        var i := LeadOf(es, keyOf, load, k);
        assert false;
      }
    } else if k in Loaded(es, keyOf, load) {
      var i := LeadOf(es, keyOf, load, k);
      UnexpiredIsLoaded(es, keyOf, start, i);
      assert false;
    }
  }

  /** A shorter last entry uncovers an earlier one when it is gone. */
  lemma EarlierEntryResurfaces<K(!new)>(es: seq<Entry>, keyOf: Entry -> K, start: int, i: nat, j: nat)
    requires i < j < |es| && keyOf(es[i]) == keyOf(es[j]) && !Expired(es[i], start) && Leads(es, keyOf, start, j)
    requires EndsBefore(es[j], es[i])
    ensures var t := es[j].expire.value + 1;
            && start <= t && Active(Loaded(es, keyOf, start), keyOf(es[j]), t).None?
            && Active(Loaded(es, keyOf, t), keyOf(es[j]), t).Some?
  {
    var t := es[j].expire.value + 1;
    LeadIsLoaded(es, keyOf, start, j);
    UnexpiredIsLoaded(es, keyOf, t, i);
    var lead := LeadOf(es, keyOf, t, keyOf(es[j]));
  }

  /** Exactly when a list loaded at time start stays as good as its file. */
  lemma LoadMirrorsIff<K(!new)>(es: seq<Entry>, keyOf: Entry -> K, start: int)
    ensures Mirrors(es, keyOf, Loaded(es, keyOf, start), start) <==> LastOutlasts(es, keyOf, start)
  {
    if LastOutlasts(es, keyOf, start) {
      forall k, load, now | start <= load <= now
        ensures Alike(es, keyOf, load, Loaded(es, keyOf, start), k, now)
      {
        LaterLoadAgrees(es, keyOf, start, load, now, k);
      }
    } else {
      var i, j :| 0 <= i < j < |es| && keyOf(es[i]) == keyOf(es[j]) && !Expired(es[i], start)
                  && Leads(es, keyOf, start, j) && EndsBefore(es[j], es[i]);
      EarlierEntryResurfaces(es, keyOf, start, i, j);
      var later := es[j].expire.value + 1;
      assert !Alike(es, keyOf, later, Loaded(es, keyOf, start), keyOf(es[j]), later);
    }
  }

  lemma DistinctLead<K>(es: seq<Entry>, keyOf: Entry -> K, ks: seq<K>, now: int, i: nat)
    requires |ks| == |es| && (forall a, b :: 0 <= a < b < |ks| ==> ks[a] != ks[b])
    requires (forall a :: 0 <= a < |es| ==> keyOf(es[a]) == ks[a]) && i < |es|
    ensures (ks[i] in Loaded(es, keyOf, now) <==> !Expired(es[i], now))
            && (ks[i] in Loaded(es, keyOf, now) ==> Loaded(es, keyOf, now)[ks[i]] == es[i])
  {
    if !Expired(es[i], now) {
      assert Leads(es, keyOf, now, i);
      LeadIsLoaded(es, keyOf, now, i);
    } else if ks[i] in Loaded(es, keyOf, now) {
      var j := LeadOf(es, keyOf, now, ks[i]);
      assert false;
    }
  }

  /** A saved list mirrors the map it was written from, in whatever order it was written. */
  lemma SaveMirrors<K(!new)>(es: seq<Entry>, keyOf: Entry -> K, m: map<K, Entry>, clock: int)
    requires ListsValues(es, m) && Coherent(m, keyOf)
    ensures Mirrors(es, keyOf, m, clock)
  {
    var ks: seq<K> :| Enumerates(ks, m.Keys) && |ks| == |es| && forall i :: 0 <= i < |es| ==> es[i] == m[ks[i]];
    forall i | 0 <= i < |es|
      ensures keyOf(es[i]) == ks[i]
    {
      assert ks[i] in m.Keys;
    }
    forall k, load, now | clock <= load <= now
      ensures Alike(es, keyOf, load, m, k, now)
    {
      if k in m {
        var i :| 0 <= i < |ks| && ks[i] == k;
        DistinctLead(es, keyOf, ks, load, i);
      } else if k in Loaded(es, keyOf, load) {
        var i := LeadOf(es, keyOf, load, k);
        assert false;
      }
    }
  }

  lemma SweepMirrors<K(!new)>(es: seq<Entry>, keyOf: Entry -> K, m: map<K, Entry>, clock: int,
                              now: int)
    requires Mirrors(es, keyOf, m, clock) && clock <= now
    ensures Mirrors(es, keyOf, m, now) && Mirrors(es, keyOf, Unexpired(m, now), now)
  {
    forall k, load, t | now <= load <= t
      ensures Alike(es, keyOf, load, m, k, t) && Alike(es, keyOf, load, Unexpired(m, now), k, t)
    {
      assert Alike(es, keyOf, load, m, k, t);
    }
  }

  lemma ReloadMirrors<K(!new)>(es: seq<Entry>, keyOf: Entry -> K, m: map<K, Entry>, clock: int,
                               now: int)
    requires Mirrors(es, keyOf, m, clock) && clock <= now
    ensures Mirrors(es, keyOf, Loaded(es, keyOf, now), now)
  {
    var again := Loaded(es, keyOf, now);
    forall k, load, t | now <= load <= t
      ensures Alike(es, keyOf, load, again, k, t)
    {
      assert Alike(es, keyOf, load, m, k, t) && Alike(es, keyOf, now, m, k, t);
    }
  }

  // ---------- Runs ----------

  function FileOf(disk: Option<File>): File {
    if disk.Some? then disk.value else EMPTY_FILE
  }

  predicate Timed(start: int, ops: seq<Op>) {
    && (forall i :: 0 <= i < |ops| ==> start <= ops[i].now)
    && (forall i, j :: 0 <= i < j < |ops| ==> ops[i].now <= ops[j].now)
  }

  ghost predicate StepAt(cfg: Config, tr: seq<Sys>, ops: seq<Op>, i: nat)
    requires |tr| == |ops| + 1 && i < |ops|
  {
    Step(cfg, tr[i], ops[i], tr[i + 1])
  }

  /** tr is what a manager started at time start over the file tr[0].disk goes through. */
  ghost predicate Behaviour(cfg: Config, start: int, tr: seq<Sys>, ops: seq<Op>) {
    && |tr| == |ops| + 1
    && Timed(start, ops)
    && tr[0].lists == Started(cfg, tr[0].disk, start)
    && forall i :: 0 <= i < |ops| ==> StepAt(cfg, tr, ops, i)
  }

  function ClockAt(start: int, ops: seq<Op>, n: nat): int
    requires n <= |ops|
  {
    if n == 0 then start else ops[n - 1].now
  }

  ghost predicate CoherentLists(l: Lists) {
    && Coherent(l.ips, IPOf) && Coherent(l.uids, UIDOf) && Coherent(l.pairs, CombinedOf)
    && forall k :: k in l.white ==> l.white[k].ip == k
  }

  ghost predicate MirrorsAll(f: File, l: Lists, clock: int) {
    && Mirrors(f.ips, IPOf, l.ips, clock)
    && Mirrors(f.uids, UIDOf, l.uids, clock)
    && Mirrors(f.pairs, CombinedOf, l.pairs, clock)
  }

  /** Keys are right, and the file holds what memory holds. */
  ghost predicate Consistent(cfg: Config, s: Sys, clock: int) {
    CoherentLists(s.lists) && (cfg.persist ==> MirrorsAll(FileOf(s.disk), s.lists, clock))
  }

  lemma {:induction false} LoadedWhiteCoherent(es: seq<WhiteEntry>)
    ensures forall k :: k in LoadedWhite(es) ==> LoadedWhite(es)[k].ip == k
  {
    if es != [] {
      LoadedWhiteCoherent(es[..|es| - 1]);
    }
  }

  lemma StartCoherent(cfg: Config, disk: Option<File>, now: int)
    ensures CoherentLists(Started(cfg, disk, now))
  {
    var f := FileOf(disk);
    LoadedCoherent(f.ips, IPOf, now);
    LoadedCoherent(f.uids, UIDOf, now);
    LoadedCoherent(f.pairs, CombinedOf, now);
    LoadedWhiteCoherent(f.white);
  }

  lemma StartedIsLoaded(cfg: Config, disk: Option<File>, now: int)
    requires cfg.persist
    ensures var f, l := FileOf(disk), Started(cfg, disk, now);
            && l.ips == Loaded(f.ips, IPOf, now)
            && l.uids == Loaded(f.uids, UIDOf, now)
            && l.pairs == Loaded(f.pairs, CombinedOf, now)
  {
  }

  lemma StepCoherent(cfg: Config, s: Sys, op: Op, s': Sys)
    requires CoherentLists(s.lists) && Step(cfg, s, op, s')
    ensures CoherentLists(s'.lists)
  {
    if op.Restart? {
      StartCoherent(cfg, s.disk, op.now);
    }
  }

  /** A step that saves makes the file a mirror, whatever it held before. */
  lemma SavingStepMirrors(cfg: Config, s: Sys, op: Op, s': Sys)
    requires CoherentLists(s.lists) && Step(cfg, s, op, s') && cfg.persist && Saves(cfg, s.lists, op)
    ensures MirrorsAll(FileOf(s'.disk), s'.lists, op.now)
  {
    StepCoherent(cfg, s, op, s');
    var f, l' := s'.disk.value, s'.lists;
    SaveMirrors(f.ips, IPOf, l'.ips, op.now);
    SaveMirrors(f.uids, UIDOf, l'.uids, op.now);
    SaveMirrors(f.pairs, CombinedOf, l'.pairs, op.now);
  }

  lemma RestartMirrors(cfg: Config, s: Sys, clock: int, now: int)
    requires cfg.persist && MirrorsAll(FileOf(s.disk), s.lists, clock) && clock <= now
    ensures MirrorsAll(FileOf(s.disk), Started(cfg, s.disk, now), now)
  {
    var f := FileOf(s.disk);
    StartedIsLoaded(cfg, s.disk, now);
    ReloadMirrors(f.ips, IPOf, s.lists.ips, clock, now);
    ReloadMirrors(f.uids, UIDOf, s.lists.uids, clock, now);
    ReloadMirrors(f.pairs, CombinedOf, s.lists.pairs, clock, now);
  }

  lemma StepConsistent(cfg: Config, s: Sys, op: Op, s': Sys, clock: int)
    requires Consistent(cfg, s, clock) && clock <= op.now && Step(cfg, s, op, s')
    ensures Consistent(cfg, s', op.now)
  {
    StepCoherent(cfg, s, op, s');
    if cfg.persist {
      if op.Restart? {
        RestartMirrors(cfg, s, clock, op.now);
      } else if Saves(cfg, s.lists, op) {
        SavingStepMirrors(cfg, s, op, s');
      } else {
        var f := FileOf(s.disk);
        SweepMirrors(f.ips, IPOf, s.lists.ips, clock, op.now);
        SweepMirrors(f.uids, UIDOf, s.lists.uids, clock, op.now);
        SweepMirrors(f.pairs, CombinedOf, s.lists.pairs, clock, op.now);
      }
    }
  }

  lemma ConsistentLater(cfg: Config, s: Sys, clock: int, now: int)
    requires Consistent(cfg, s, clock) && clock <= now
    ensures Consistent(cfg, s, now)
  {
    if cfg.persist {
      var f := FileOf(s.disk);
      SweepMirrors(f.ips, IPOf, s.lists.ips, clock, now);
      SweepMirrors(f.uids, UIDOf, s.lists.uids, clock, now);
      SweepMirrors(f.pairs, CombinedOf, s.lists.pairs, clock, now);
    }
  }

  lemma SavedIsConsistent(cfg: Config, s: Sys, op: Op, s': Sys)
    requires CoherentLists(s.lists) && Step(cfg, s, op, s') && Saves(cfg, s.lists, op)
    ensures Consistent(cfg, s', op.now)
  {
    StepCoherent(cfg, s, op, s');
    if cfg.persist {
      SavingStepMirrors(cfg, s, op, s');
    }
  }

  lemma BehaviourSteps(cfg: Config, start: int, tr: seq<Sys>, ops: seq<Op>, i: nat)
    requires Behaviour(cfg, start, tr, ops) && i < |ops|
    ensures Step(cfg, tr[i], ops[i], tr[i + 1])
    ensures ClockAt(start, ops, i) <= ops[i].now == ClockAt(start, ops, i + 1)
  {
    assert StepAt(cfg, tr, ops, i);
  }

  /** A run may go on with any step from where it has come to. */
  lemma BehaviourExtends(cfg: Config, start: int, tr: seq<Sys>, ops: seq<Op>, op: Op, s': Sys)
    requires Behaviour(cfg, start, tr, ops) && Step(cfg, tr[|ops|], op, s') && ClockAt(start, ops, |ops|) <= op.now
    ensures Behaviour(cfg, start, tr + [s'], ops + [op])
  {
    forall i | 0 <= i < |ops| + 1
      ensures StepAt(cfg, tr + [s'], ops + [op], i)
    {
      if i < |ops| {
        BehaviourSteps(cfg, start, tr, ops, i);
      }
    }
  }

  lemma {:induction false} AlwaysCoherent(cfg: Config, start: int, tr: seq<Sys>, ops: seq<Op>, n: nat)
    requires Behaviour(cfg, start, tr, ops) && n <= |ops|
    ensures CoherentLists(tr[n].lists)
  {
    if n == 0 {
      StartCoherent(cfg, tr[0].disk, start);
    } else {
      var k := n - 1;
      AlwaysCoherent(cfg, start, tr, ops, k);
      BehaviourSteps(cfg, start, tr, ops, k);
      StepCoherent(cfg, tr[k], ops[k], tr[k + 1]);
    }
  }

  ghost predicate ConsistentAt(cfg: Config, start: int, tr: seq<Sys>, ops: seq<Op>, n: nat)
    requires |tr| == |ops| + 1 && n <= |ops|
  {
    Consistent(cfg, tr[n], ClockAt(start, ops, n))
  }

  /** Once file and memory agree they go on doing so. */
  lemma {:induction false} StaysConsistent(cfg: Config, start: int, tr: seq<Sys>, ops: seq<Op>, i: nat, n: nat)
    requires Behaviour(cfg, start, tr, ops) && i <= n <= |ops| && ConsistentAt(cfg, start, tr, ops, i)
    ensures ConsistentAt(cfg, start, tr, ops, n)
    decreases n - i
  {
    if i < n {
      BehaviourSteps(cfg, start, tr, ops, i);
      StepConsistent(cfg, tr[i], ops[i], tr[i + 1], ClockAt(start, ops, i));
      StaysConsistent(cfg, start, tr, ops, i + 1, n);
    }
  }

  /** They agree from the first save on, whatever the first file was. */
  lemma ConsistentOnceSaved(cfg: Config, start: int, tr: seq<Sys>, ops: seq<Op>, i: nat, n: nat)
    requires Behaviour(cfg, start, tr, ops) && i < n <= |ops| && Saves(cfg, tr[i].lists, ops[i])
    ensures ConsistentAt(cfg, start, tr, ops, n)
  {
    AlwaysCoherent(cfg, start, tr, ops, i);
    BehaviourSteps(cfg, start, tr, ops, i);
    SavedIsConsistent(cfg, tr[i], ops[i], tr[i + 1]);
    StaysConsistent(cfg, start, tr, ops, i + 1, n);
  }

  /** Each list of the file may be loaded later as well as now. */
  predicate Replayable(f: File, now: int) {
    LastOutlasts(f.ips, IPOf, now) && LastOutlasts(f.uids, UIDOf, now) && LastOutlasts(f.pairs, CombinedOf, now)
  }

  lemma StartMirrorsIff(cfg: Config, disk: Option<File>, start: int)
    requires cfg.persist
    ensures MirrorsAll(FileOf(disk), Started(cfg, disk, start), start) <==> Replayable(FileOf(disk), start)
  {
    var f := FileOf(disk);
    StartedIsLoaded(cfg, disk, start);
    LoadMirrorsIff(f.ips, IPOf, start);
    LoadMirrorsIff(f.uids, UIDOf, start);
    LoadMirrorsIff(f.pairs, CombinedOf, start);
  }

  /** In every reachable state the file holds what memory holds. */
  lemma AlwaysConsistent(cfg: Config, start: int, tr: seq<Sys>, ops: seq<Op>, n: nat)
    requires Behaviour(cfg, start, tr, ops) && n <= |ops|
    requires cfg.persist ==> Replayable(FileOf(tr[0].disk), start)
    ensures ConsistentAt(cfg, start, tr, ops, n)
  {
    AlwaysCoherent(cfg, start, tr, ops, 0);
    if cfg.persist {
      StartMirrorsIff(cfg, tr[0].disk, start);
    }
    StaysConsistent(cfg, start, tr, ops, 0, n);
  }

  // ---------- Restarts ----------

  /** The two managers return the same entries at time now. */
  ghost predicate SameEntries(again: Lists, live: Lists, now: int) {
    && (forall ip :: Active(again.ips, ip, now) == Active(live.ips, ip, now))
    && (forall uid :: Active(again.uids, uid, now) == Active(live.uids, uid, now))
    && (forall key :: Active(again.pairs, key, now) == Active(live.pairs, key, now))
  }

  lemma SameEntriesAnswerAlike(again: Lists, live: Lists, now: int, ip: string, uid: int)
    requires SameEntries(again, live, now)
    ensures IsBlacklisted(again, ip, uid, now) == IsBlacklisted(live, ip, uid, now)
  {
  }

  lemma ConsistentRestarts(cfg: Config, s: Sys, clock: int, load: int, now: int)
    requires cfg.persist && Consistent(cfg, s, clock) && clock <= load <= now
    ensures SameEntries(Started(cfg, s.disk, load), s.lists, now)
  {
    StartedIsLoaded(cfg, s.disk, load);
    var f, l, again := FileOf(s.disk), s.lists, Started(cfg, s.disk, load);
    forall ip
      ensures Active(again.ips, ip, now) == Active(l.ips, ip, now)
    {
      assert Alike(f.ips, IPOf, load, l.ips, ip, now);
    }
    forall uid
      ensures Active(again.uids, uid, now) == Active(l.uids, uid, now)
    {
      assert Alike(f.uids, UIDOf, load, l.uids, uid, now);
    }
    forall key
      ensures Active(again.pairs, key, now) == Active(l.pairs, key, now)
    {
      assert Alike(f.pairs, CombinedOf, load, l.pairs, key, now);
    }
  }

  /** Restart consistency: from any reachable state, a manager started at any later time over
      the current file returns, then and ever after, the entries the live one would. */
  lemma RestartKeepsEveryAnswer(cfg: Config, start: int, tr: seq<Sys>, ops: seq<Op>, n: nat,
                                load: int, now: int)
    requires Behaviour(cfg, start, tr, ops) && n <= |ops| && cfg.persist
    requires Replayable(FileOf(tr[0].disk), start) || exists i :: 0 <= i < n && Saves(cfg, tr[i].lists, ops[i])
    requires ClockAt(start, ops, n) <= load <= now
    ensures SameEntries(Started(cfg, tr[n].disk, load), tr[n].lists, now)
    ensures forall ip, uid :: IsBlacklisted(Started(cfg, tr[n].disk, load), ip, uid, now)
                              == IsBlacklisted(tr[n].lists, ip, uid, now)
  {
    if i :| 0 <= i < n && Saves(cfg, tr[i].lists, ops[i]) {
      ConsistentOnceSaved(cfg, start, tr, ops, i, n);
    } else {
      AlwaysConsistent(cfg, start, tr, ops, n);
    }
    ConsistentRestarts(cfg, tr[n], ClockAt(start, ops, n), load, now);
    forall ip, uid
      ensures IsBlacklisted(Started(cfg, tr[n].disk, load), ip, uid, now) == IsBlacklisted(tr[n].lists, ip, uid, now)
    {
      SameEntriesAnswerAlike(Started(cfg, tr[n].disk, load), tr[n].lists, now, ip, uid);
    }
  }

  /** Every run of a manager started at time start over this file survives a restart at any
      moment. */
  ghost predicate RestartsAgree(cfg: Config, disk: Option<File>, start: int) {
    forall tr: seq<Sys>, ops: seq<Op>, n: nat, load: int, now: int ::
      (Behaviour(cfg, start, tr, ops) && tr[0].disk == disk && n <= |ops| && ClockAt(start, ops, n) <= load <= now)
      ==> SameEntries(Started(cfg, tr[n].disk, load), tr[n].lists, now)
  }

  /** Restart consistency holds of a first file iff in each of its lists, of the entries of one
      key unexpired at the start, the last expires last. Distinct keys are enough. */
  lemma RestartsAgreeIff(cfg: Config, disk: Option<File>, start: int)
    requires cfg.persist
    ensures RestartsAgree(cfg, disk, start) <==> Replayable(FileOf(disk), start)
  {
    if Replayable(FileOf(disk), start) {
      forall tr: seq<Sys>, ops: seq<Op>, n: nat, load: int, now: int
        | Behaviour(cfg, start, tr, ops) && tr[0].disk == disk && n <= |ops| && ClockAt(start, ops, n) <= load <= now
        ensures SameEntries(Started(cfg, tr[n].disk, load), tr[n].lists, now)
      {
        RestartKeepsEveryAnswer(cfg, start, tr, ops, n, load, now);
      }
    }
    if RestartsAgree(cfg, disk, start) {
      UnsavedRestartsAgree(cfg, disk, start);
      StartMirrorsIff(cfg, disk, start);
    }
  }

  lemma UnsavedRestartsAgree(cfg: Config, disk: Option<File>, start: int)
    requires cfg.persist && RestartsAgree(cfg, disk, start)
    ensures MirrorsAll(FileOf(disk), Started(cfg, disk, start), start)
  {
    var l := Started(cfg, disk, start);
    var tr, ops: seq<Op> := [Sys(l, disk)], [];
    assert Behaviour(cfg, start, tr, ops);
    forall load, now | start <= load <= now
      ensures SameEntries(Started(cfg, disk, load), l, now)
    {
      assert ClockAt(start, ops, 0) <= load;
      assert SameEntries(Started(cfg, tr[0].disk, load), tr[0].lists, now);
    }
    AgreeingLoadsMirror(cfg, disk, start);
  }

  lemma AgreeingLoadsMirror(cfg: Config, disk: Option<File>, start: int)
    requires cfg.persist
    requires forall load, now :: start <= load <= now ==>
               SameEntries(Started(cfg, disk, load), Started(cfg, disk, start), now)
    ensures MirrorsAll(FileOf(disk), Started(cfg, disk, start), start)
  {
    var f := FileOf(disk);
    StartedIsLoaded(cfg, disk, start);
    forall k, load, now | start <= load <= now
      ensures Alike(f.ips, IPOf, load, Loaded(f.ips, IPOf, start), k, now)
    {
      StartedIsLoaded(cfg, disk, load);
      assert SameEntries(Started(cfg, disk, load), Started(cfg, disk, start), now);
    }
    forall k, load, now | start <= load <= now
      ensures Alike(f.uids, UIDOf, load, Loaded(f.uids, UIDOf, start), k, now)
    {
      StartedIsLoaded(cfg, disk, load);
      assert SameEntries(Started(cfg, disk, load), Started(cfg, disk, start), now);
    }
    forall k, load, now | start <= load <= now
      ensures Alike(f.pairs, CombinedOf, load, Loaded(f.pairs, CombinedOf, start), k, now)
    {
      StartedIsLoaded(cfg, disk, load);
      assert SameEntries(Started(cfg, disk, load), Started(cfg, disk, start), now);
    }
  }

  /** A file that lists an IP twice, the permanent entry first, bans it again after the live
      manager let it go; the same entries in the other order are harmless. */
  lemma DuplicateEntriesCanResurface(cfg: Config, start: int, end: int)
    requires cfg.persist && start <= end
    ensures var e1 := Entry("10.0.0.1", 0, "", "", 0, None, "manual");
            var e2 := e1.(expire := Some(end));
            && !RestartsAgree(cfg, Some(File([e1, e2], [], [], [])), start)
            && RestartsAgree(cfg, Some(File([e2, e1], [], [], [])), start)
  {
    var e1 := Entry("10.0.0.1", 0, "", "", 0, None, "manual");
    var e2 := e1.(expire := Some(end));
    var es := [e1, e2];
    assert Leads(es, IPOf, start, 1) && EndsBefore(es[1], es[0]);
    RestartsAgreeIff(cfg, Some(File(es, [], [], [])), start);
    RestartsAgreeIff(cfg, Some(File([e2, e1], [], [], [])), start);
  }
}
