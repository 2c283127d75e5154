/**
 Text keys built from an IP and a user id. The limiter and the blacklist file the pair
 (ip, uid) under the text "ip:uid"; the auto-learn counters use that text when a uid is
 known and the bare IP otherwise.
*/
module Keys {

  function Digit(d: nat): char
    requires d < 10
  {
    ('0' as int + d) as char
  }

  function DigitValue(c: char): int {
    c as int - '0' as int
  }

  predicate IsDigit(c: char) {
    '0' <= c <= '9'
  }

  /** Decimal text of a natural number, without leading zeros. */
  function DecimalNat(n: nat): (s: string)
    ensures s != [] && forall i :: 0 <= i < |s| ==> IsDigit(s[i])
  {
    if n < 10 then [Digit(n)] else DecimalNat(n / 10) + [Digit(n % 10)]
  }

  /** The %d verb. */
  function Decimal(i: int): (s: string)
    ensures ':' !in s && s != []
  {
    if i < 0 then ['-'] + DecimalNat(-i) else DecimalNat(i)
  }

  /** Reads decimal digits back. */
  function NatOf(s: string): int {
    if s == [] then 0 else 10 * NatOf(s[..|s| - 1]) + DigitValue(s[|s| - 1])
  }

  function IntOf(s: string): int {
    if s != [] && s[0] == '-' then -NatOf(s[1..]) else NatOf(s)
  }

  function PairKey(ip: string, uid: int): (key: string) {
    ip + [':'] + Decimal(uid)
  }

  /** The key under which rejects of (ip, uid) are counted. */
  function LearnKey(ip: string, uid: int): string {
    if uid > 0 then PairKey(ip, uid) else ip
  }

  lemma {:induction false} DecimalNatReadsBack(n: nat)
    ensures NatOf(DecimalNat(n)) == n
  {
    if n >= 10 {
      DecimalNatReadsBack(n / 10);
      var s := DecimalNat(n);
      assert s[..|s| - 1] == DecimalNat(n / 10);
    } else {
      assert DecimalNat(n)[..0] == [];
    }
  }

  lemma DecimalReadsBack(i: int)
    ensures IntOf(Decimal(i)) == i
  {
    if i < 0 {
      DecimalNatReadsBack(-i);
      assert Decimal(i)[1..] == DecimalNat(-i);
    } else {
      DecimalNatReadsBack(i);
    }
  }

  /** The last colon of a pair key ends its IP part, whatever colons the IP has. */
  lemma PairKeySplits(ip: string, uid: int)
    ensures var k := PairKey(ip, uid);
            |ip| < |k| && k[|ip|] == ':' && k[..|ip|] == ip && k[|ip| + 1..] == Decimal(uid)
    ensures forall i :: |ip| < i < |PairKey(ip, uid)| ==> PairKey(ip, uid)[i] != ':'
  {
    var digits := Decimal(uid);
    forall i | |ip| < i < |PairKey(ip, uid)|
      ensures PairKey(ip, uid)[i] != ':'
    {
      assert PairKey(ip, uid)[i] == digits[i - |ip| - 1];
      assert digits[i - |ip| - 1] in digits;
    }
  }

  /** No two pairs share a key: for every text ip, IPv6 included, and every integer uid. */
  lemma PairKeyInjective(ip1: string, uid1: int, ip2: string, uid2: int)
    ensures PairKey(ip1, uid1) == PairKey(ip2, uid2) <==> ip1 == ip2 && uid1 == uid2
  {
    if PairKey(ip1, uid1) == PairKey(ip2, uid2) {
      PairKeySplits(ip1, uid1);
      PairKeySplits(ip2, uid2);
      assert |ip1| == |ip2|;
      DecimalReadsBack(uid1);
      DecimalReadsBack(uid2);
    }
  }

  function KnownUid(uid: int): int {
    if uid > 0 then uid else 0
  }

  /** Learn keys are weaker: two sources share a counter when they are the same source, or
      when one has no uid and its IP text spells the other's pair key. */
  lemma LearnKeyCollision(ip1: string, uid1: int, ip2: string, uid2: int)
    ensures LearnKey(ip1, uid1) == LearnKey(ip2, uid2) <==>
            || (ip1 == ip2 && KnownUid(uid1) == KnownUid(uid2))
            || (uid1 <= 0 < uid2 && ip1 == PairKey(ip2, uid2))
            || (uid2 <= 0 < uid1 && ip2 == PairKey(ip1, uid1))
  {
    PairKeyInjective(ip1, uid1, ip2, uid2);
    PairKeySplits(ip1, uid1);
    PairKeySplits(ip2, uid2);
  }

  /** With colon-free (IPv4) addresses the counters of different sources stay apart. */
  lemma ColonFreeLearnKeys(ip1: string, uid1: int, ip2: string, uid2: int)
    requires ':' !in ip1 && ':' !in ip2
    requires LearnKey(ip1, uid1) == LearnKey(ip2, uid2)
    ensures ip1 == ip2 && KnownUid(uid1) == KnownUid(uid2)
  {
    LearnKeyCollision(ip1, uid1, ip2, uid2);
    PairKeySplits(ip1, uid1);
    PairKeySplits(ip2, uid2);
  }

  /** Two valid IPv6 sources that share one counter. */
  lemma IPv6CountersCanMerge()
    ensures LearnKey("fe80::1:5", 0) == LearnKey("fe80::1", 5)
  {
    assert Decimal(5) == ['5'];
    assert "fe80::1:5" == "fe80::1" + [':'] + ['5'];
  }
}
