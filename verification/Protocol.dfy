/** Per-backend counters, the risk level read from them, and their decay. */
module Protocol {
  import opened Wrappers

  datatype Health = Normal | Degraded | Critical | Down

  // A zero timestamp (never touched, or reset) is None.
  datatype Stats = Stats(
    logins: nat, acks: nat, nacks: nat,
    heartbeats: nat, heartbeatResponses: nat,
    responses: nat, timeouts: nat,
    health: Health, last: Option<int>)

  const ZERO_STATS := Stats(0, 0, 0, 0, 0, 0, 0, Normal, None)

  /** Rates are compared by cross-multiplication: nacks/logins >= 1/2 and >= 3/10, and a
      heartbeat loss of at least 3/10. */
  function CalcCrashRisk(s: Stats): Health {
    if s.timeouts > 10 && s.responses == 0 then Down
    else if s.logins >= 5 && 2 * s.nacks >= s.logins then Critical
    else if s.logins >= 5 && 10 * s.nacks >= 3 * s.logins then Degraded
    else if s.heartbeats >= 3 && 10 * (s.heartbeats - s.heartbeatResponses) >= 3 * s.heartbeats then Degraded
    else Normal
  }

  function Pow2(n: nat): (p: nat)
    ensures p >= 1
  {
    if n == 0 then 1 else 2 * Pow2(n - 1)
  }

  /** c halved n times, rounding down each time. */
  function Shifted(c: nat, n: nat): nat {
    if n == 0 then c else Shifted(c, n - 1) / 2
  }

  /** The six decaying counters halved n times. */
  function Halved(s: Stats, n: nat): Stats {
    s.(logins := Shifted(s.logins, n), acks := Shifted(s.acks, n), nacks := Shifted(s.nacks, n),
       timeouts := Shifted(s.timeouts, n),
       heartbeats := Shifted(s.heartbeats, n), heartbeatResponses := Shifted(s.heartbeatResponses, n))
  }

  predicate Idle(s: Stats, now: int, maxIdle: int) {
    s.last.Some? && now - s.last.value >= maxIdle
  }

  function Rounds(idle: int, maxIdle: int): nat
    requires 0 < maxIdle <= idle
  {
    if idle / maxIdle < 5 then idle / maxIdle else 5
  }

  /** One decay: halve once per idle period, five times at most, and re-read the risk. */
  function Decayed(s: Stats, now: int, maxIdle: int): Stats
    requires maxIdle > 0
  {
    if !Idle(s, now, maxIdle) then s
    else
      var h := Halved(s, Rounds(now - s.last.value, maxIdle));
      h.(health := CalcCrashRisk(h))
  }

  predicate Recovered(s: Stats, now: int, maxIdle: int)
    requires maxIdle > 0
  {
    Idle(s, now, maxIdle) && CalcCrashRisk(Decayed(s, now, maxIdle)) == Normal
  }

  function ResetStats(s: Stats): Stats {
    ZERO_STATS.(responses := s.responses)
  }

  class ProtocolStats {
    var TotalLogins: nat
    var TotalLoginAcks: nat
    var TotalLoginNacks: nat
    var TotalHeartbeats: nat
    var TotalHeartbeatResponses: nat
    var TotalBackendResponses: nat
    var TotalBackendTimeouts: nat
    var BackendHealth: Health
    var LastUpdateTime: Option<int>

    function View(): Stats
      reads this
    {
      Stats(TotalLogins, TotalLoginAcks, TotalLoginNacks, TotalHeartbeats, TotalHeartbeatResponses,
            TotalBackendResponses, TotalBackendTimeouts, BackendHealth, LastUpdateTime)
    }

    constructor ()
      ensures View() == ZERO_STATS
    {
      TotalLogins, TotalLoginAcks, TotalLoginNacks := 0, 0, 0;
      TotalHeartbeats, TotalHeartbeatResponses := 0, 0;
      TotalBackendResponses, TotalBackendTimeouts := 0, 0;
      BackendHealth, LastUpdateTime := Normal, None;
    }

    method Touch(now: int)
      modifies this
      ensures View() == old(View()).(last := Some(now))
    {
      LastUpdateTime := Some(now);
    }

    /** One round of decay. */
    method HalveCounters()
      modifies this
      ensures View() == Halved(old(View()), 1)
    {
      assert forall c: nat :: Shifted(c, 1) == Shifted(c, 0) / 2 == c / 2;
      TotalLogins := TotalLogins / 2;
      TotalLoginAcks := TotalLoginAcks / 2;
      TotalLoginNacks := TotalLoginNacks / 2;
      TotalBackendTimeouts := TotalBackendTimeouts / 2;
      TotalHeartbeats := TotalHeartbeats / 2;
      TotalHeartbeatResponses := TotalHeartbeatResponses / 2;
    }

    /** Halves the counters in place; reports whether the backend is back to normal. */
    method DecayIfIdle(now: int, maxIdle: int) returns (recovered: bool)
      requires maxIdle > 0
      modifies this
      ensures View() == Decayed(old(View()), now, maxIdle)
      ensures recovered <==> Recovered(old(View()), now, maxIdle)
    {
      if LastUpdateTime.None? {
        return false;
      }
      var idle := now - LastUpdateTime.value;
      if idle < maxIdle {
        return false;
      }
      var decayRounds := idle / maxIdle;
      ghost var before := View();
      assert decayRounds >= 1;
      var i := 0;
      while i < decayRounds && i < 5
        invariant 0 <= i <= decayRounds && i <= 5
        invariant View() == Halved(before, i)
        decreases 5 - i
      {
        DecaysCompose(before, i, 1);
        HalveCounters();
        i := i + 1;
      }
      var allZero := TotalLogins == 0 && TotalLoginNacks == 0 && TotalBackendTimeouts == 0 && TotalHeartbeats == 0;
      if allZero {
        BackendHealth := Normal;
        return true;
      }
      BackendHealth := CalcCrashRisk(View());
      return BackendHealth == Normal;
    }

    method Reset()
      modifies this
      ensures View() == ResetStats(old(View()))
    {
      TotalLogins, TotalLoginAcks, TotalLoginNacks := 0, 0, 0;
      TotalBackendTimeouts := 0;
      TotalHeartbeats, TotalHeartbeatResponses := 0, 0;
      BackendHealth := Normal;
      LastUpdateTime := None;
    }
  }

  /** Dividing by p and then by 2 drops the same remainder as dividing by 2p. */
  lemma NestedFloor(c: nat, p: nat)
    requires p > 0
    ensures c / p / 2 == c / (2 * p)
  {
    var q, r := c / p, c % p;
    var h, b := q / 2, q % 2;
    assert c == p * q + r;
    assert c == (2 * p) * h + (p * b + r) by {
      assert p * q == p * (2 * h + b) == (2 * p) * h + p * b;
    }
    assert 0 <= p * b + r < 2 * p;
    QuotientUnique(c, 2 * p, h, p * b + r);
  }

  lemma QuotientUnique(c: int, d: int, q: int, r: int)
    requires d > 0 && c == d * q + r && 0 <= r < d
    ensures c / d == q
  {
    var k := c / d - q;
    assert d * k == r - c % d by {
      assert c == d * (c / d) + c % d;
      assert d * (c / d) - d * q == d * k;
    }
  }

  /** The nested-floor law: n halvings with rounding are one division by 2^n. */
  lemma {:induction false} ShiftedIsQuotient(c: nat, n: nat)
    ensures Shifted(c, n) == c / Pow2(n)
  {
    if n > 0 {
      ShiftedIsQuotient(c, n - 1);
      NestedFloor(c, Pow2(n - 1));
    }
  }

  lemma {:induction false} ShiftedTwice(c: nat, a: nat, b: nat)
    ensures Shifted(Shifted(c, a), b) == Shifted(c, a + b)
  {
    if b > 0 {
      ShiftedTwice(c, a, b - 1);
    }
  }

  /** Decays compose: a rounds and then b rounds are a + b rounds. */
  lemma DecaysCompose(s: Stats, a: nat, b: nat)
    ensures Halved(Halved(s, a), b) == Halved(s, a + b)
  {
    ShiftedTwice(s.logins, a, b);
    ShiftedTwice(s.acks, a, b);
    ShiftedTwice(s.nacks, a, b);
    ShiftedTwice(s.timeouts, a, b);
    ShiftedTwice(s.heartbeats, a, b);
    ShiftedTwice(s.heartbeatResponses, a, b);
  }

  /** One decay past the idle limit divides each of the six counters by 2^min(5, idle/limit),
      keeps the timestamp and the response count, and leaves the cached health in step. */
  lemma DecayLaw(s: Stats, now: int, maxIdle: int)
    requires maxIdle > 0 && Idle(s, now, maxIdle)
    ensures var d, p := Decayed(s, now, maxIdle), Pow2(Rounds(now - s.last.value, maxIdle));
            && d.logins == s.logins / p && d.acks == s.acks / p && d.nacks == s.nacks / p
            && d.timeouts == s.timeouts / p
            && d.heartbeats == s.heartbeats / p && d.heartbeatResponses == s.heartbeatResponses / p
            && d.last == s.last && d.responses == s.responses && d.health == CalcCrashRisk(d)
  {
    var n := Rounds(now - s.last.value, maxIdle);
    ShiftedIsQuotient(s.logins, n);
    ShiftedIsQuotient(s.acks, n);
    ShiftedIsQuotient(s.nacks, n);
    ShiftedIsQuotient(s.timeouts, n);
    ShiftedIsQuotient(s.heartbeats, n);
    ShiftedIsQuotient(s.heartbeatResponses, n);
  }

  lemma ShiftedToZero(c: nat, n: nat)
    ensures Shifted(c, n) == 0 <==> c < Pow2(n)
  {
    ShiftedIsQuotient(c, n);
    var p := Pow2(n);
    if c < p {
      QuotientUnique(c, p, 0, c);
    } else {
      assert c == p * (c / p) + c % p;
    }
  }

  predicate Untouched(s: Stats) {
    s.logins == s.acks == s.nacks == s.timeouts == s.heartbeats == s.heartbeatResponses == 0
  }

  /** One decay clears everything iff every counter is below 2^min(5, idle/limit). */
  lemma DecayClearsIff(s: Stats, now: int, maxIdle: int)
    requires maxIdle > 0 && Idle(s, now, maxIdle)
    ensures var p := Pow2(Rounds(now - s.last.value, maxIdle));
            Untouched(Decayed(s, now, maxIdle)) <==>
            s.logins < p && s.acks < p && s.nacks < p && s.timeouts < p && s.heartbeats < p && s.heartbeatResponses < p
  {
    var n := Rounds(now - s.last.value, maxIdle);
    ShiftedToZero(s.logins, n);
    ShiftedToZero(s.acks, n);
    ShiftedToZero(s.nacks, n);
    ShiftedToZero(s.timeouts, n);
    ShiftedToZero(s.heartbeats, n);
    ShiftedToZero(s.heartbeatResponses, n);
  }

  /** A backend that refused so many logins and took none, last touched at time 0. */
  function Refusing(logins: nat): Stats {
    ZERO_STATS.(logins := logins, nacks := logins, last := Some(0))
  }

  /** Of 64 refused logins, which make a backend Critical, 16 are left after two idle periods,
      and it is Critical still; after five or more, however long it was idle, 2 are left. */
  lemma DecayMayLeaveCounters(maxIdle: int, idle: int)
    requires maxIdle > 0 && idle >= 5 * maxIdle
    ensures var s := Refusing(64);
            var after2, after5 := Decayed(s, 2 * maxIdle, maxIdle), Decayed(s, idle, maxIdle);
            && CalcCrashRisk(s) == Critical
            && after2.logins == after2.nacks == 16 && CalcCrashRisk(after2) == Critical
            && after5.logins == after5.nacks == 2 && !Untouched(after5)
  {
    QuotientUnique(2 * maxIdle, maxIdle, 2, 0);
    FiveRounds(idle, maxIdle);
    DecayLaw(Refusing(64), 2 * maxIdle, maxIdle);
    DecayLaw(Refusing(64), idle, maxIdle);
    assert Pow2(2) == 4 && Pow2(5) == 32;
  }

  lemma FiveRounds(idle: int, maxIdle: int)
    requires maxIdle > 0 && idle >= 5 * maxIdle
    ensures Rounds(idle, maxIdle) == 5
  {
  }

  lemma {:induction false} ShiftedShrinks(c: nat, a: nat, b: nat)
    requires a <= b
    ensures Shifted(c, b) <= Shifted(c, a)
    decreases b
  {
    if a < b {
      ShiftedShrinks(c, a, b - 1);
    }
  }

  /** A decay at or past the idle limit takes at least half of every counter. */
  lemma DecayHalves(s: Stats, now: int, maxIdle: int)
    requires maxIdle > 0 && Idle(s, now, maxIdle)
    ensures var d := Decayed(s, now, maxIdle);
            && d.timeouts <= s.timeouts / 2 && d.logins <= s.logins / 2 && d.nacks <= s.nacks / 2
            && d.acks <= s.acks / 2 && d.heartbeats <= s.heartbeats / 2
            && d.heartbeatResponses <= s.heartbeatResponses / 2
            && d.last == s.last && d.health == CalcCrashRisk(d)
  {
    var n := Rounds(now - s.last.value, maxIdle);
    ShiftedShrinks(s.timeouts, 1, n);
    ShiftedShrinks(s.logins, 1, n);
    ShiftedShrinks(s.nacks, 1, n);
    ShiftedShrinks(s.acks, 1, n);
    ShiftedShrinks(s.heartbeats, 1, n);
    ShiftedShrinks(s.heartbeatResponses, 1, n);
  }

  // ---------- Halving and the risk level ----------

  function Rank(h: Health): nat {
    match h
    case Normal => 0
    case Degraded => 1
    case Critical => 2
    case Down => 3
  }

  /** Halving rounds the logins down and keeps the refusal count exact, and the rate, just
      below one half, reaches one half. */
  predicate TipsToCritical(s: Stats) {
    s.nacks % 2 == 0 && s.nacks >= 6 && s.logins == 2 * s.nacks + 1
  }

  /** The same at three tenths. */
  predicate TipsToDegraded(s: Stats) {
    s.nacks % 2 == 0 && s.logins % 2 == 1 && s.logins >= 11 && 10 * s.nacks < 3 * s.logins <= 10 * s.nacks + 3
  }

  /** Halving rounds the heartbeat answers down, and the loss, just below three tenths, reaches it. */
  predicate LosesAnAnswer(s: Stats) {
    && s.heartbeatResponses % 2 == 1 && s.heartbeats >= 6
    && 0 < 10 * s.heartbeatResponses - 7 * s.heartbeats <= (if s.heartbeats % 2 == 0 then 10 else 3)
  }

  /** One halving raises the risk level iff the backend is not Down and a rate stands right
      below its threshold at odd counts. It never makes a backend Down. */
  lemma HalvingRaisesRiskIff(s: Stats)
    ensures Rank(CalcCrashRisk(Halved(s, 1))) > Rank(CalcCrashRisk(s)) <==>
            || (CalcCrashRisk(s) != Down && TipsToCritical(s))
            || (CalcCrashRisk(s) == Normal && (TipsToDegraded(s) || LosesAnAnswer(s)))
    ensures CalcCrashRisk(Halved(s, 1)) == Down ==> CalcCrashRisk(s) == Down
  {
    assert forall c: nat :: Shifted(c, 1) == Shifted(c, 0) / 2 == c / 2;
    RatesUnderHalving(s.logins, s.nacks);
    LossUnderHalving(s.heartbeats, s.heartbeatResponses);
  }

  lemma RatesUnderHalving(logins: nat, nacks: nat)
    ensures var l, n := logins / 2, nacks / 2;
            && ((l >= 5 && 2 * n >= l && 2 * nacks < logins) <==>
                (nacks % 2 == 0 && nacks >= 6 && logins == 2 * nacks + 1))
            && ((l >= 5 && 10 * n >= 3 * l && 10 * nacks < 3 * logins) <==>
                (nacks % 2 == 0 && logins % 2 == 1 && logins >= 11 && 10 * nacks < 3 * logins <= 10 * nacks + 3))
  {
    var l, n := logins / 2, nacks / 2;
    assert logins == 2 * l + logins % 2 && nacks == 2 * n + nacks % 2;
  }

  lemma LossUnderHalving(beats: nat, answers: nat)
    ensures var b, a := beats / 2, answers / 2;
            (b >= 3 && 10 * (b - a) >= 3 * b && 10 * (beats - answers) < 3 * beats) <==>
            (answers % 2 == 1 && beats >= 6 && 0 < 10 * answers - 7 * beats <= (if beats % 2 == 0 then 10 else 3))
  {
    assert beats == 2 * (beats / 2) + beats % 2 && answers == 2 * (answers / 2) + answers % 2;
  }

  /** An input for it. */
  lemma HalvingCanRaiseRisk()
    ensures var s := ZERO_STATS.(logins := 13, nacks := 6);
            CalcCrashRisk(s) == Degraded && CalcCrashRisk(Halved(s, 1)) == Critical
  {
    HalvingRaisesRiskIff(ZERO_STATS.(logins := 13, nacks := 6));
  }

  /** From Critical or Down no number of halvings raises the level. */
  lemma HalvingNeverWorsensShaky(s: Stats, n: nat)
    requires CalcCrashRisk(s) == Critical || CalcCrashRisk(s) == Down
    ensures Rank(CalcCrashRisk(Halved(s, n))) <= Rank(CalcCrashRisk(s))
  {
    ShiftedShrinks(s.timeouts, 0, n);
  }
}
