/** What can be read back from a text: the decimal numbers in it, in order. */
module TextLaws {
  import opened Keys

  // A reader that has come to the end of a text: the numbers it has read, and the one it is in.
  datatype Reader = Reader(done: seq<int>, inNumber: bool, current: int)

  function Read(s: string): Reader {
    if s == [] then Reader([], false, 0) else Next(Read(s[..|s| - 1]), s[|s| - 1])
  }

  function Next(r: Reader, c: char): Reader {
    if '0' <= c <= '9' then
      Reader(r.done, true, (if r.inNumber then 10 * r.current else 0) + c as int - '0' as int)
    else
      Reader(r.done + (if r.inNumber then [r.current] else []), false, 0)
  }

  /** The decimal numbers in a text. */
  function Numbers(s: string): seq<int> {
    var r := Read(s);
    r.done + if r.inNumber then [r.current] else []
  }

  lemma ReadAppend(s: string, c: char)
    ensures Read(s + [c]) == Next(Read(s), c)
  {
    assert (s + [c])[..|s|] == s;
  }

  predicate Plain(s: string) {
    forall i :: 0 <= i < |s| ==> !('0' <= s[i] <= '9')
  }

  /** Text without digits ends the number before it. */
  lemma {:induction false} ReadPlain(s: string, t: string)
    requires Plain(t) && t != []
    ensures Read(s + t) == Reader(Numbers(s), false, 0)
  {
    var n := |t| - 1;
    assert s + t == (s + t[..n]) + [t[n]];
    ReadAppend(s + t[..n], t[n]);
    if n > 0 {
      ReadPlain(s, t[..n]);
    } else {
      assert s + t[..0] == s;
    }
  }

  /** A number after text without digits is read as it is. */
  lemma {:induction false} ReadDecimal(s: string, n: nat)
    requires !Read(s).inNumber
    ensures Read(s + Decimal(n)) == Reader(Read(s).done, true, n)
  {
    var t := Decimal(n);
    if n < 10 {
      assert s + t == s + [Digit(n)];
      ReadAppend(s, Digit(n));
    } else {
      ReadDecimal(s, n / 10);
      assert s + t == (s + Decimal(n / 10)) + [Digit(n % 10)];
      ReadAppend(s + Decimal(n / 10), Digit(n % 10));
    }
  }

  /** A number after text without digits is the next number. */
  lemma NextNumber(s: string, a: string, n: nat)
    requires Plain(a) && a != []
    ensures Numbers(s + a + Decimal(n)) == Numbers(s) + [n]
  {
    ReadPlain(s, a);
    ReadDecimal(s + a, n);
  }

  lemma NumbersThenPlain(s: string, a: string)
    requires Plain(a) && a != []
    ensures Numbers(s + a) == Numbers(s)
  {
    ReadPlain(s, a);
  }

  lemma OneNumber(a: string, n: nat)
    requires Plain(a) && a != []
    ensures Numbers(a + Decimal(n)) == [n]
  {
    var none: string := [];
    assert none + a == a && Numbers(none) == [];
    NextNumber(none, a, n);
  }

  /** Two numbers between texts without digits are read back in their order. */
  lemma NumbersOfTwo(a: string, m: nat, b: string, n: nat, c: string)
    requires Plain(a) && Plain(b) && Plain(c) && a != [] && b != [] && c != []
    ensures Numbers(a + Decimal(m) + b + Decimal(n) + c) == [m, n]
  {
    var s := a + Decimal(m);
    OneNumber(a, m);
    NextNumber(s, b, n);
    NumbersThenPlain(s + b + Decimal(n), c);
  }

  /** Decimal text is what one expects. */
  lemma DecimalTexts()
    ensures Decimal(0) == "0" && Decimal(10) == "10" && Decimal(-1203) == "-1203"
  {
    assert DecimalNat(1) == "1" && DecimalNat(12) == "12" && DecimalNat(120) == "120" && DecimalNat(1203) == "1203";
  }
}
