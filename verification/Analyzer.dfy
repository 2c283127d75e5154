/** The log analyzer: a bounded log, frequency histograms over it, and its top attackers. */
module Analyzer {
  import opened MapSums

  datatype Entry = Entry(
    timestamp: int, clientIP: string, userIdx: int, state: int, action: string,
    bytesRead: int, bytesWrite: int, rejectReason: string)

  const MAX_ENTRIES := 100000

  /** The last n elements, or all of them if there are fewer. */
  function LastOf<T>(s: seq<T>, n: nat): seq<T> {
    if |s| > n then s[|s| - n..] else s
  }

  // ---------- Counting rejects ----------

  /** How many entries record a refusal of ip. */
  function RejectsOf(es: seq<Entry>, ip: string): nat {
    if es == [] then 0
    else
      var e := es[|es| - 1];
      RejectsOf(es[..|es| - 1], ip) + if e.rejectReason != "" && e.clientIP == ip then 1 else 0
  }

  function Attackers(es: seq<Entry>): set<string> {
    set e | e in es && e.rejectReason != "" :: e.clientIP
  }

  datatype Attacker = Attacker(ip: string, rejects: int)

  predicate DistinctIPs(s: seq<Attacker>) {
    forall i, j :: 0 <= i < j < |s| ==> s[i].ip != s[j].ip
  }

  predicate Descending(s: seq<Attacker>) {
    forall i, j :: 0 <= i < j < |s| ==> s[i].rejects >= s[j].rejects
  }

  function IPs(s: seq<Attacker>): set<string> {
    set a | a in s :: a.ip
  }

  /** s holds each attacker of es once, with its number of rejects. */
  predicate ListsAttackers(s: seq<Attacker>, es: seq<Entry>) {
    && DistinctIPs(s) && IPs(s) == Attackers(es)
    && (forall a :: a in s ==> a.rejects == RejectsOf(es, a.ip))
  }

  /** The n worst attackers of es: each once, with its count, worst first, and no attacker
      left out who is worse than one included. */
  ghost predicate IsTop(top: seq<Attacker>, es: seq<Entry>, n: nat) {
    && |top| == (if n < |Attackers(es)| then n else |Attackers(es)|)
    && DistinctIPs(top) && Descending(top)
    && (forall a :: a in top ==> a.ip in Attackers(es) && a.rejects == RejectsOf(es, a.ip) > 0)
    && (forall a, ip :: a in top && ip in Attackers(es) - IPs(top) ==> RejectsOf(es, ip) <= a.rejects)
  }

  lemma {:induction false} AttackersHaveRejects(es: seq<Entry>, ip: string)
    ensures ip in Attackers(es) <==> RejectsOf(es, ip) > 0
  {
    if es != [] {
      var n := |es| - 1;
      AttackersHaveRejects(es[..n], ip);
      assert es == es[..n] + [es[n]];
      assert Attackers(es) == Attackers(es[..n]) + if es[n].rejectReason != "" then {es[n].clientIP} else {};
    }
  }

  lemma OccursTwice<T>(s: seq<T>, i: nat, j: nat)
    requires i < j < |s| && s[i] == s[j]
    ensures multiset(s)[s[i]] >= 2
  {
    assert s == s[..i] + [s[i]] + s[i + 1..j] + [s[j]] + s[j + 1..];
  }

  lemma {:induction false} OccursOnce(s: seq<Attacker>, a: Attacker)
    requires DistinctIPs(s)
    ensures multiset(s)[a] <= 1
  {
    if s != [] {
      var n := |s| - 1;
      assert s == s[..n] + [s[n]];
      OccursOnce(s[..n], a);
      if a == s[n] {
        assert a !in s[..n];
        assert a !in multiset(s[..n]);
      }
    }
  }

  /** Rearranging keeps a list of attackers one. */
  lemma RearrangedListsAttackers(s: seq<Attacker>, t: seq<Attacker>, es: seq<Entry>)
    requires ListsAttackers(s, es) && multiset(s) == multiset(t)
    ensures ListsAttackers(t, es)
  {
    SameElements(s, t);
    forall i, j | 0 <= i < j < |t|
      ensures t[i].ip != t[j].ip
    {
      if t[i].ip == t[j].ip {
        assert t[i] in s && t[j] in s;
        var a :| 0 <= a < |s| && s[a] == t[i];
        var b :| 0 <= b < |s| && s[b] == t[j];
        assert a == b;
        OccursTwice(t, i, j);
        OccursOnce(s, t[i]);
      }
    }
  }

  lemma SameElements<T>(s: seq<T>, t: seq<T>)
    requires multiset(s) == multiset(t)
    ensures forall x :: x in s <==> x in t
  {
    forall x
      ensures x in s <==> x in t
    {
      assert x in s <==> x in multiset(s);
      assert x in t <==> x in multiset(t);
    }
  }

  lemma {:induction false} DistinctIPCount(s: seq<Attacker>)
    requires DistinctIPs(s)
    ensures |IPs(s)| == |s|
  {
    if s != [] {
      var n := |s| - 1;
      DistinctIPCount(s[..n]);
      assert s == s[..n] + [s[n]];
      assert IPs(s) == IPs(s[..n]) + {s[n].ip};
    }
  }

  lemma PrefixIsTop(s: seq<Attacker>, es: seq<Entry>, n: nat)
    requires ListsAttackers(s, es) && Descending(s) && n <= |s|
    ensures IsTop(s[..n], es, n) && |s| == |Attackers(es)|
  {
    DistinctIPCount(s);
    var top := s[..n];
    forall a | a in top
      ensures a.ip in Attackers(es) && a.rejects == RejectsOf(es, a.ip) > 0
    {
      assert a in s && a.ip in IPs(s);
      AttackersHaveRejects(es, a.ip);
    }
    forall a, ip | a in top && ip in Attackers(es) - IPs(top)
      ensures RejectsOf(es, ip) <= a.rejects
    {
      OmittedIsNoWorse(s, n, a, ip);
    }
  }

  lemma OmittedIsNoWorse(s: seq<Attacker>, n: nat, a: Attacker, ip: string)
    requires Descending(s) && n <= |s| && a in s[..n] && ip in IPs(s) - IPs(s[..n])
    ensures exists b :: b in s && b.ip == ip && b.rejects <= a.rejects
  {
    var b :| b in s && b.ip == ip;
    var i :| 0 <= i < n && s[i] == a;
    var k :| 0 <= k < |s| && s[k] == b;
    assert forall q :: 0 <= q < n ==> s[q] in s[..n];
  }

  /** Asking for more than there are gives all. */
  lemma TopOfAll(top: seq<Attacker>, es: seq<Entry>, m: nat, n: nat)
    requires IsTop(top, es, m) && m == |Attackers(es)| <= n
    ensures IsTop(top, es, n)
  {
  }

  // ---------- Histograms ----------

  /** The entries a query looks at. */
  predicate Matches(e: Entry, ip: string, cutoff: int) {
    e.timestamp >= cutoff && (ip == "" || e.clientIP == ip)
  }

  function MatchCount(es: seq<Entry>, ip: string, cutoff: int): nat {
    if es == [] then 0
    else MatchCount(es[..|es| - 1], ip, cutoff) + if Matches(es[|es| - 1], ip, cutoff) then 1 else 0
  }

  function StateCount(es: seq<Entry>, ip: string, cutoff: int, state: int): nat {
    if es == [] then 0
    else
      var e := es[|es| - 1];
      StateCount(es[..|es| - 1], ip, cutoff, state) + if Matches(e, ip, cutoff) && e.state == state then 1 else 0
  }

  function RejectCount(es: seq<Entry>, ip: string, cutoff: int): nat {
    if es == [] then 0
    else
      var e := es[|es| - 1];
      RejectCount(es[..|es| - 1], ip, cutoff) + if Matches(e, ip, cutoff) && e.rejectReason != "" then 1 else 0
  }

  function ReasonCount(es: seq<Entry>, ip: string, cutoff: int, reason: string): nat {
    if es == [] then 0
    else
      var e := es[|es| - 1];
      ReasonCount(es[..|es| - 1], ip, cutoff, reason)
      + if Matches(e, ip, cutoff) && e.rejectReason == reason then 1 else 0
  }

  function Positive(n: int): nat {
    if n > 0 then n else 0
  }

  /** The bytes read and written by matching entries; a negative count is skipped. */
  function BytesRead(es: seq<Entry>, ip: string, cutoff: int): nat {
    if es == [] then 0
    else
      var e := es[|es| - 1];
      BytesRead(es[..|es| - 1], ip, cutoff) + if Matches(e, ip, cutoff) then Positive(e.bytesRead) else 0
  }

  function BytesWrite(es: seq<Entry>, ip: string, cutoff: int): nat {
    if es == [] then 0
    else
      var e := es[|es| - 1];
      BytesWrite(es[..|es| - 1], ip, cutoff) + if Matches(e, ip, cutoff) then Positive(e.bytesWrite) else 0
  }

  datatype FreqAnalysis = FreqAnalysis(
    totalConns: nat, totalRejects: nat, totalBytesRead: nat, totalBytesWrite: nat,
    states: map<int, int>, rejectReasons: map<string, int>)

  predicate CountsStates(es: seq<Entry>, ip: string, cutoff: int, states: map<int, int>, state: int) {
    GetOr(states, state) == StateCount(es, ip, cutoff, state)
  }

  predicate CountsReasons(es: seq<Entry>, ip: string, cutoff: int, reasons: map<string, int>, reason: string) {
    reason != "" ==> GetOr(reasons, reason) == ReasonCount(es, ip, cutoff, reason)
  }

  /** r counts the matching entries of es: each state and each reason by itself. */
  ghost predicate Tallies(es: seq<Entry>, ip: string, cutoff: int, r: FreqAnalysis) {
    && r.totalConns == MatchCount(es, ip, cutoff) && r.totalRejects == RejectCount(es, ip, cutoff)
    && r.totalBytesRead == BytesRead(es, ip, cutoff) && r.totalBytesWrite == BytesWrite(es, ip, cutoff)
    && (forall state :: CountsStates(es, ip, cutoff, r.states, state))
    && (forall reason :: CountsReasons(es, ip, cutoff, r.rejectReasons, reason))
  }

  /** Counting one matching entry. */
  function Tallied(r: FreqAnalysis, e: Entry): FreqAnalysis {
    var rejected := e.rejectReason != "";
    FreqAnalysis(
      r.totalConns + 1, r.totalRejects + (if rejected then 1 else 0),
      r.totalBytesRead + Positive(e.bytesRead), r.totalBytesWrite + Positive(e.bytesWrite),
      r.states[e.state := GetOr(r.states, e.state) + 1],
      if rejected then r.rejectReasons[e.rejectReason := GetOr(r.rejectReasons, e.rejectReason) + 1]
      else r.rejectReasons)
  }

  /** And both histograms add up to what they count. */
  ghost predicate Analysed(es: seq<Entry>, ip: string, cutoff: int, r: FreqAnalysis) {
    Tallies(es, ip, cutoff, r) && Sum(r.states) == r.totalConns && Sum(r.rejectReasons) == r.totalRejects
  }

  lemma NothingAnalysed(ip: string, cutoff: int)
    ensures Analysed([], ip, cutoff, FreqAnalysis(0, 0, 0, 0, map[], map[]))
  {
  }

  lemma StatesStep(es: seq<Entry>, e: Entry, ip: string, cutoff: int, r: FreqAnalysis, state: int)
    requires CountsStates(es, ip, cutoff, r.states, state)
    ensures CountsStates(es + [e], ip, cutoff, (if Matches(e, ip, cutoff) then Tallied(r, e) else r).states, state)
  {
    StateAppend(es, e, ip, cutoff, state);
  }

  lemma ReasonsStep(es: seq<Entry>, e: Entry, ip: string, cutoff: int, r: FreqAnalysis, reason: string)
    requires CountsReasons(es, ip, cutoff, r.rejectReasons, reason)
    ensures CountsReasons(es + [e], ip, cutoff, (if Matches(e, ip, cutoff) then Tallied(r, e) else r).rejectReasons,
                          reason)
  {
    ReasonAppend(es, e, ip, cutoff, reason);
  }

  lemma TallyStep(es: seq<Entry>, e: Entry, ip: string, cutoff: int, r: FreqAnalysis)
    requires Analysed(es, ip, cutoff, r)
    ensures Analysed(es + [e], ip, cutoff, if Matches(e, ip, cutoff) then Tallied(r, e) else r)
  {
    CountsAppend(es, e, ip, cutoff);
    var r' := if Matches(e, ip, cutoff) then Tallied(r, e) else r;
    forall state
      ensures CountsStates(es + [e], ip, cutoff, r'.states, state)
    {
      assert CountsStates(es, ip, cutoff, r.states, state);
      StatesStep(es, e, ip, cutoff, r, state);
    }
    forall reason
      ensures CountsReasons(es + [e], ip, cutoff, r'.rejectReasons, reason)
    {
      assert CountsReasons(es, ip, cutoff, r.rejectReasons, reason);
      ReasonsStep(es, e, ip, cutoff, r, reason);
    }
    TalliedSums(r, e);
  }

  lemma TalliedSums(r: FreqAnalysis, e: Entry)
    ensures Sum(Tallied(r, e).states) == Sum(r.states) + 1
    ensures Sum(Tallied(r, e).rejectReasons) == Sum(r.rejectReasons) + if e.rejectReason != "" then 1 else 0
  {
    SumUpdate(r.states, e.state, GetOr(r.states, e.state) + 1);
    SumUpdate(r.rejectReasons, e.rejectReason, GetOr(r.rejectReasons, e.rejectReason) + 1);
  }

  /** One more entry counts iff it is not older than the cutoff and of the address asked for, ""
      standing for every address. */
  lemma CountsAppend(es: seq<Entry>, e: Entry, ip: string, cutoff: int)
    ensures var all, hit := es + [e], e.timestamp >= cutoff && (ip == "" || e.clientIP == ip);
            && MatchCount(all, ip, cutoff) == MatchCount(es, ip, cutoff) + (if hit then 1 else 0)
            && RejectCount(all, ip, cutoff) ==
               RejectCount(es, ip, cutoff) + (if hit && e.rejectReason != "" then 1 else 0)
            && BytesRead(all, ip, cutoff) ==
               BytesRead(es, ip, cutoff) + (if hit && e.bytesRead > 0 then e.bytesRead else 0)
            && BytesWrite(all, ip, cutoff) ==
               BytesWrite(es, ip, cutoff) + (if hit && e.bytesWrite > 0 then e.bytesWrite else 0)
  {
    assert (es + [e])[..|es|] == es;
  }

  lemma StateAppend(es: seq<Entry>, e: Entry, ip: string, cutoff: int, state: int)
    ensures StateCount(es + [e], ip, cutoff, state) ==
            StateCount(es, ip, cutoff, state)
            + if e.timestamp >= cutoff && (ip == "" || e.clientIP == ip) && e.state == state then 1 else 0
  {
    assert (es + [e])[..|es|] == es;
  }

  lemma ReasonAppend(es: seq<Entry>, e: Entry, ip: string, cutoff: int, reason: string)
    ensures ReasonCount(es + [e], ip, cutoff, reason) ==
            ReasonCount(es, ip, cutoff, reason)
            + if e.timestamp >= cutoff && (ip == "" || e.clientIP == ip) && e.rejectReason == reason then 1 else 0
  {
    assert (es + [e])[..|es|] == es;
  }

  class LogAnalyzer {
    var entries: seq<Entry>
    const maxSize: nat

    constructor ()
      ensures entries == [] && maxSize == 100_000
    {
      entries, maxSize := [], MAX_ENTRIES;
    }

    method LogConnEntry(e: Entry)
      modifies this
      ensures entries == LastOf(old(entries) + [e], maxSize)
    {
      entries := entries + [e];
      if |entries| > maxSize {
        entries := entries[|entries| - maxSize..];
      }
    }

    /** Both histograms partition what they count. */
    method GetIPFreqAnalysis(ip: string, cutoff: int) returns (r: FreqAnalysis)
      ensures Analysed(entries, ip, cutoff, r)
    {
      r := FreqAnalysis(0, 0, 0, 0, map[], map[]);
      assert entries[..0] == [];
      NothingAnalysed(ip, cutoff);
      for i := 0 to |entries|
        invariant Analysed(entries[..i], ip, cutoff, r)
      {
        var e := entries[i];
        assert entries[..i + 1] == entries[..i] + [e];
        TallyStep(entries[..i], e, ip, cutoff, r);
        ghost var before := r;
        if e.timestamp < cutoff {
          continue;
        }
        if ip != "" && e.clientIP != ip {
          continue;
        }
        r := r.(totalConns := r.totalConns + 1, states := r.states[e.state := GetOr(r.states, e.state) + 1]);
        if e.bytesRead > 0 {
          r := r.(totalBytesRead := r.totalBytesRead + e.bytesRead);
        }
        if e.bytesWrite > 0 {
          r := r.(totalBytesWrite := r.totalBytesWrite + e.bytesWrite);
        }
        if e.rejectReason != "" {
          r := r.(totalRejects := r.totalRejects + 1,
                  rejectReasons := r.rejectReasons[e.rejectReason := GetOr(r.rejectReasons, e.rejectReason) + 1]);
        }
        assert r == Tallied(before, e);
      }
      assert entries[..|entries|] == entries;
    }

    method GetTopAttackers(topN: nat) returns (top: seq<Attacker>)
      ensures IsTop(top, entries, topN)
    {
      var ipRejects := CountRejects(entries);
      var listed := ListAttackers(ipRejects, entries);
      var sorted := new Attacker[|listed|](i requires 0 <= i < |listed| => listed[i]);
      assert sorted[..] == listed;
      SortByRejects(sorted);
      RearrangedListsAttackers(listed, sorted[..], entries);
      var n := if topN > sorted.Length then sorted.Length else topN;
      PrefixIsTop(sorted[..], entries, n);
      if topN > sorted.Length {
        TopOfAll(sorted[..][..n], entries, n, topN);
      }
      top := sorted[..n];
      assert top == sorted[..][..n];
    }
  }

  method CountRejects(es: seq<Entry>) returns (m: map<string, int>)
    ensures m.Keys == Attackers(es) && forall ip :: ip in m ==> m[ip] == RejectsOf(es, ip)
  {
    m := map[];
    for i := 0 to |es|
      invariant m.Keys == Attackers(es[..i]) && forall ip :: ip in m ==> m[ip] == RejectsOf(es[..i], ip)
    {
      var e := es[i];
      assert es[..i + 1] == es[..i] + [e];
      assert Attackers(es[..i + 1]) == Attackers(es[..i]) + if e.rejectReason != "" then {e.clientIP} else {};
      AttackersHaveRejects(es[..i], e.clientIP);
      if e.rejectReason != "" {
        m := m[e.clientIP := GetOr(m, e.clientIP) + 1];
      }
    }
    assert es[..|es|] == es;
  }

  lemma OneMoreIP(s: seq<Attacker>, a: Attacker)
    requires DistinctIPs(s) && a.ip !in IPs(s)
    ensures DistinctIPs(s + [a]) && IPs(s + [a]) == IPs(s) + {a.ip}
  {
    assert forall i :: 0 <= i < |s| ==> s[i].ip in IPs(s);
    assert forall b :: b in s + [a] <==> b in s || b == a;
  }

  /** The map's pairs in the order an iteration happens to yield them. */
  method ListAttackers(m: map<string, int>, ghost es: seq<Entry>) returns (s: seq<Attacker>)
    requires m.Keys == Attackers(es) && forall ip :: ip in m ==> m[ip] == RejectsOf(es, ip)
    ensures ListsAttackers(s, es)
  {
    s := [];
    var todo := m.Keys;
    while todo != {}
      invariant todo <= m.Keys && DistinctIPs(s) && IPs(s) == m.Keys - todo
      invariant forall a :: a in s ==> a.rejects == RejectsOf(es, a.ip)
      decreases |todo|
    {
      var ip :| ip in todo;
      OneMoreIP(s, Attacker(ip, m[ip]));
      s := s + [Attacker(ip, m[ip])];
      todo := todo - {ip};
    }
  }

  /** Exchange sort in place, as two nested loops. */
  method SortByRejects(a: array<Attacker>)
    modifies a
    ensures Descending(a[..]) && multiset(a[..]) == multiset(old(a[..]))
  {
    for i := 0 to a.Length
      invariant Settled(a[..], i)
      invariant multiset(a[..]) == multiset(old(a[..]))
    {
      for j := i + 1 to a.Length
        invariant Settled(a[..], i)
        invariant forall q :: i < q < j ==> a[i].rejects >= a[q].rejects
        invariant multiset(a[..]) == multiset(old(a[..]))
      {
        if a[j].rejects > a[i].rejects {
          SwapKeepsSettled(a[..], i, j);
          Swap(a, i, j);
        }
      }
    }
  }

  /** The first i places hold their final elements. */
  predicate Settled(s: seq<Attacker>, i: nat) {
    forall p, q :: 0 <= p < i && p < q < |s| ==> s[p].rejects >= s[q].rejects
  }

  lemma SwapKeepsSettled(s: seq<Attacker>, i: nat, j: nat)
    requires i < j < |s| && Settled(s, i)
    ensures Settled(s[i := s[j]][j := s[i]], i)
  {
  }

  method Swap(a: array<Attacker>, i: nat, j: nat)
    requires i < j < a.Length
    modifies a
    ensures a[..] == old(a[..])[i := old(a[j])][j := old(a[i])]
    ensures multiset(a[..]) == multiset(old(a[..]))
  {
    a[i], a[j] := a[j], a[i];
  }

  // ---------- The log over a whole run ----------

  /** The stored log after es have been logged one by one. */
  function Logged(es: seq<Entry>, max: nat): seq<Entry> {
    if es == [] then [] else LastOf(Logged(es[..|es| - 1], max) + [es[|es| - 1]], max)
  }

  lemma LastOfAppend<T>(s: seq<T>, x: T, n: nat)
    ensures LastOf(LastOf(s, n) + [x], n) == LastOf(s + [x], n)
  {
    if |s| > n {
      var t := s[|s| - n..] + [x];
      assert |t| == n + 1 && t[1..] == (s + [x])[|s| + 1 - n..];
    }
  }

  /** Nothing is lost but the oldest: the log is exactly the last max entries ever logged. */
  lemma {:induction false} LogKeepsTheLatest(es: seq<Entry>, max: nat)
    ensures Logged(es, max) == LastOf(es, max)
    ensures var log := Logged(es, max);
            |log| == (if |es| < max then |es| else max) && log == es[|es| - |log|..]
  {
    if es != [] {
      var n := |es| - 1;
      LogKeepsTheLatest(es[..n], max);
      LastOfAppend(es[..n], es[n], max);
      assert es[..n] + [es[n]] == es;
    }
  }
}
