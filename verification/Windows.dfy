/**
 Fixed windows anchored at the first event. The limiter and the auto-learn counters keep
 only a start time and a count per key; this module says what the two numbers mean over
 the full sequence of event times and how dense such a sequence can be.
*/
module Windows {

  predicate Ascending(ts: seq<int>) {
    forall i, j :: 0 <= i < j < |ts| ==> ts[i] <= ts[j]
  }

  /** Index of the event that opened the window the last event of ts belongs to. */
  function Opener(ts: seq<int>, w: int): (p: nat)
    requires ts != []
    ensures p < |ts|
  {
    var n := |ts| - 1;
    if n == 0 then 0
    else
      var p := Opener(ts[..n], w);
      if ts[n] - ts[p] > w then n else p
  }

  /** How many events the current window holds. */
  function Load(ts: seq<int>, w: int): nat {
    if ts == [] then 0 else |ts| - Opener(ts, w)
  }

  /** How many events the window held right after event k. */
  function LoadAt(ts: seq<int>, k: nat, w: int): nat
    requires k < |ts|
  {
    Load(ts[..k + 1], w)
  }

  /** At time now no window is in force. */
  predicate Lapsed(ts: seq<int>, w: int, now: int) {
    ts == [] || now - ts[Opener(ts, w)] > w
  }

  /** Number of events in the closed interval [lo, hi]. */
  function CountWithin(ts: seq<int>, lo: int, hi: int): nat {
    if ts == [] then 0
    else CountWithin(ts[..|ts| - 1], lo, hi) + if lo <= ts[|ts| - 1] <= hi then 1 else 0
  }

  lemma OpenerAppend(ts: seq<int>, t: int, w: int)
    ensures Opener(ts + [t], w) == if Lapsed(ts, w, t) then |ts| else Opener(ts, w)
    ensures Load(ts + [t], w) == if Lapsed(ts, w, t) then 1 else Load(ts, w) + 1
    ensures CountWithin(ts + [t], t, t) >= 1
  {
    assert (ts + [t])[..|ts|] == ts;
  }

  lemma CountAppend(ts: seq<int>, t: int, lo: int, hi: int)
    ensures CountWithin(ts + [t], lo, hi) == CountWithin(ts, lo, hi) + if lo <= t <= hi then 1 else 0
  {
    assert (ts + [t])[..|ts|] == ts;
  }

  /** What the opener is: every later event lies within w of it, and it came more than w
      after the opener of the window before. */
  lemma {:induction false} OpenerMeaning(ts: seq<int>, w: int)
    requires ts != []
    ensures forall k :: Opener(ts, w) < k < |ts| ==> ts[k] - ts[Opener(ts, w)] <= w
    ensures var p := Opener(ts, w); p > 0 ==> ts[p] - ts[Opener(ts[..p], w)] > w
  {
    var n := |ts| - 1;
    if n > 0 {
      OpenerMeaning(ts[..n], w);
      var p := Opener(ts[..n], w);
      assert p > 0 ==> ts[..n][..p] == ts[..p];
    }
  }

  /** The events of [lo, hi] are consecutive. */
  lemma {:induction false} CountIsSpan(ts: seq<int>, lo: int, hi: int) returns (i: nat, j: nat)
    requires Ascending(ts) && lo <= hi
    ensures i <= j <= |ts| && CountWithin(ts, lo, hi) == j - i
    ensures forall k :: 0 <= k < i ==> ts[k] < lo
    ensures forall k :: i <= k < j ==> lo <= ts[k] <= hi
    ensures forall k :: j <= k < |ts| ==> hi < ts[k]
  {
    if ts == [] {
      i, j := 0, 0;
    } else {
      var n := |ts| - 1;
      i, j := CountIsSpan(ts[..n], lo, hi);
      if ts[n] < lo {
        i, j := n + 1, n + 1;
      } else if ts[n] <= hi {
        j := n + 1;
      }
    }
  }

  /** Two windows can overlap an interval of length w, but not with both of them full. */
  lemma SpanBound(ts: seq<int>, w: int, m: nat, i: nat, j: nat)
    requires Ascending(ts) && i <= j < |ts| && ts[j] - ts[i] <= w && m >= 1
    requires forall k :: i <= k <= j ==> LoadAt(ts, k, w) <= m
    ensures j - i + 1 <= 2 * m - 1
  {
    var upTo := ts[..j + 1];
    var q := Opener(upTo, w);
    assert LoadAt(ts, j, w) == Load(upTo, w) <= m;
    if q > i {
      OpenerMeaning(upTo, w);
      assert upTo[..q] == ts[..q];
      var p := Opener(ts[..q], w);
      assert ts[q] - ts[p] > w;
      assert p < i;
      assert LoadAt(ts, q - 1, w) == q - p;
    }
  }

  lemma {:induction false} NothingWithin(ts: seq<int>, lo: int, hi: int)
    requires hi < lo
    ensures CountWithin(ts, lo, hi) == 0
  {
    if ts != [] {
      NothingWithin(ts[..|ts| - 1], lo, hi);
    }
  }

  /** Fixed windows bound every sliding window: if no window of ts ever holds more than m
      events once time lo has come, [lo, lo + w] holds at most 2m - 1. */
  lemma SlidingBound(ts: seq<int>, w: int, m: nat, lo: int)
    requires Ascending(ts) && m >= 1
    requires forall k :: 0 <= k < |ts| && lo <= ts[k] <= lo + w ==> LoadAt(ts, k, w) <= m
    ensures CountWithin(ts, lo, lo + w) <= 2 * m - 1
  {
    if w < 0 {
      NothingWithin(ts, lo, lo + w);
    } else {
      var i, j := CountIsSpan(ts, lo, lo + w);
      if i < j {
        SpanBound(ts, w, m, i, j - 1);
      }
    }
  }

  lemma {:induction false} CountMonotone(ts: seq<int>, lo: int, hi: int, lo': int, hi': int)
    requires lo' <= lo && hi <= hi'
    ensures CountWithin(ts, lo, hi) <= CountWithin(ts, lo', hi')
  {
    if ts != [] {
      CountMonotone(ts[..|ts| - 1], lo, hi, lo', hi');
    }
  }

  /** The current window holds only events of the last w. */
  lemma LoadIsRecent(ts: seq<int>, w: int, now: int)
    requires Ascending(ts) && Load(ts, w) >= 2 && ts[|ts| - 1] == now
    ensures CountWithin(ts, now - w, now) >= Load(ts, w)
  {
    OpenerMeaning(ts, w);
    assert ts[Opener(ts, w)] >= now - w;
    var i, j := CountIsSpan(ts, now - w, now);
  }

  // ---------- The densest events ----------

  function Repeat(t: int, k: nat): seq<int> {
    if k == 0 then [] else Repeat(t, k - 1) + [t]
  }

  lemma RepeatAppend(ts: seq<int>, t: int, k: nat)
    requires k > 0
    ensures ts + Repeat(t, k) == (ts + Repeat(t, k - 1)) + [t]
  {
  }

  lemma {:induction false} CountRepeat(ts: seq<int>, t: int, k: nat, lo: int, hi: int)
    ensures CountWithin(ts + Repeat(t, k), lo, hi) == CountWithin(ts, lo, hi) + if lo <= t <= hi then k else 0
  {
    if k == 0 {
      assert ts + Repeat(t, k) == ts;
    } else {
      CountRepeat(ts, t, k - 1, lo, hi);
      assert ts + Repeat(t, k) == (ts + Repeat(t, k - 1)) + [t];
      CountAppend(ts + Repeat(t, k - 1), t, lo, hi);
    }
  }

  lemma {:induction false} OpenerBeforeRepeat(t: int, w: int, k: nat)
    requires 0 <= t <= w
    ensures Opener([0] + Repeat(t, k), w) == 0
  {
    if k == 0 {
      assert [0] + Repeat(t, k) == [0];
    } else {
      OpenerBeforeRepeat(t, w, k - 1);
      assert [0] + Repeat(t, k) == ([0] + Repeat(t, k - 1)) + [t];
      OpenerAppend([0] + Repeat(t, k - 1), t, w);
    }
  }

  lemma EdgeCount(w: int, m: nat)
    requires w >= 1 && m >= 1
    ensures CountWithin(EdgeTimes(w, m), w, w + w) == 2 * m - 1
  {
    CountRepeat([0], w, m - 1, w, w + w);
    CountRepeat([0] + Repeat(w, m - 1), w + 1, m, w, w + w);
    assert CountWithin([0], w, w + w) == 0;
  }

  /** One event opens a window, m - 1 come at its very end, and m follow at once. */
  function EdgeTimes(w: int, m: nat): seq<int>
    requires m >= 1
  {
    [0] + Repeat(w, m - 1) + Repeat(w + 1, m)
  }

  lemma {:induction false} RepeatIs(t: int, k: nat)
    ensures |Repeat(t, k)| == k && forall i :: 0 <= i < k ==> Repeat(t, k)[i] == t
  {
    if k > 0 {
      RepeatIs(t, k - 1);
    }
  }

  lemma RepeatPrefix(t: int, k: nat, i: nat)
    requires i <= k
    ensures |Repeat(t, k)| == k && Repeat(t, k)[..i] == Repeat(t, i)
  {
    RepeatIs(t, k);
    RepeatIs(t, i);
  }

  lemma {:induction false} OpenerAfterLapse(ts: seq<int>, t: int, w: int, k: nat)
    requires k >= 1 && w >= 0 && Lapsed(ts, w, t)
    ensures Opener(ts + Repeat(t, k), w) == |ts|
  {
    RepeatAppend(ts, t, k);
    if k == 1 {
      assert ts + Repeat(t, 0) == ts;
      OpenerAppend(ts, t, w);
    } else {
      OpenerAfterLapse(ts, t, w, k - 1);
      OpenerAppend(ts + Repeat(t, k - 1), t, w);
      RepeatIs(t, k - 1);
    }
  }

  /** No window of these ever holds more than m. */
  lemma EdgeIsCapped(w: int, m: nat, k: nat)
    requires w >= 1 && m >= 1 && k < |EdgeTimes(w, m)|
    ensures |EdgeTimes(w, m)| == 2 * m && LoadAt(EdgeTimes(w, m), k, w) <= m
  {
    RepeatIs(w, m - 1);
    RepeatIs(w + 1, m);
    var early := [0] + Repeat(w, m - 1);
    if k >= m {
      RepeatPrefix(w + 1, m, k + 1 - m);
      assert EdgeTimes(w, m)[..k + 1] == early + Repeat(w + 1, k + 1 - m);
      OpenerBeforeRepeat(w, w, m - 1);
      OpenerAfterLapse(early, w + 1, w, k + 1 - m);
    }
  }

  lemma EdgeAscends(w: int, m: nat)
    requires w >= 1 && m >= 1
    ensures Ascending(EdgeTimes(w, m)) && forall i :: 0 <= i < |EdgeTimes(w, m)| ==> EdgeTimes(w, m)[i] >= 0
  {
    RepeatIs(w, m - 1);
    RepeatIs(w + 1, m);
  }
}
