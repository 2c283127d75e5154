/**
 Least-connection routing under concurrency. A connection chooses its backend and counts it in
 two separate steps with a dial between them, so others choose by counts that do not know of it
 yet. Each connection that has chosen and neither counted nor failed is pending.
*/
module RoutingThreads {
  import opened Wrappers
  import opened RoutingSpec
  import RR = RoutingRuns

  // The route, and the indices chosen by pending connections.
  datatype World = World(r: Route, pending: multiset<nat>)

  datatype Step =
    | Choose(idx: nat)     // selectBackend has answered
    | Count(idx: nat)      // the dial succeeded and the connection is recorded
    | Fail(idx: nat)       // the dial failed and the backend is marked down
    | Other(op: Op)        // traffic, or a health check

  /** At most cap connections are pending at a time. */
  predicate Enabled(w: World, step: Step, cap: nat) {
    match step
    case Choose(idx) => MaySelect(w.r, LeastConn, Some(idx)) && |w.pending| < cap
    case Count(idx) => idx in w.pending && idx < |w.r|
    case Fail(idx) => idx in w.pending && idx < |w.r|
    case Other(op) => op.Protocol? || op.Tick?
  }

  function Next(w: World, step: Step): World
    requires (step.Count? || step.Fail?) ==> step.idx < |w.r|
  {
    match step
    case Choose(idx) => w.(pending := w.pending + multiset{idx})
    case Count(idx) => World(After(w.r, Connected(w.r[idx].addr)), w.pending - multiset{idx})
    case Fail(idx) => World(After(w.r, MarkDown(w.r[idx].addr)), w.pending - multiset{idx})
    case Other(op) => w.(r := After(w.r, op))
  }

  ghost predicate StepAt(tr: seq<World>, steps: seq<Step>, cap: nat, i: nat)
    requires |tr| == |steps| + 1 && i < |steps|
  {
    Enabled(tr[i], steps[i], cap) && tr[i + 1] == Next(tr[i], steps[i])
  }

  ghost predicate Runs(tr: seq<World>, steps: seq<Step>, cap: nat) {
    && |tr| == |steps| + 1 && tr[0].pending == multiset{}
    && forall i :: 0 <= i < |steps| ==> StepAt(tr, steps, cap, i)
  }

  lemma RunStep(tr: seq<World>, steps: seq<Step>, cap: nat, i: nat)
    requires Runs(tr, steps, cap) && i < |steps|
    ensures Enabled(tr[i], steps[i], cap) && tr[i + 1] == Next(tr[i], steps[i])
  {
    assert StepAt(tr, steps, cap, i);
  }

  /** Backend i is usable whenever a connection is placed. */
  predicate UsableAtEachChoice(tr: seq<World>, steps: seq<Step>, i: nat)
    requires |tr| == |steps| + 1
  {
    forall k :: 0 <= k < |steps| && steps[k].Choose? ==> i < |tr[k].r| && Usable(tr[k].r[i])
  }

  /** How far i may be ahead of j once its pending connections are counted. */
  function Lead(w: World, i: nat, j: nat): int
    requires i < |w.r| && j < |w.r|
  {
    w.r[i].conns + w.pending[i] - w.r[j].conns
  }

  lemma {:induction false} AtMostAll(m: multiset<nat>, i: nat)
    ensures m[i] <= |m|
    decreases m[i]
  {
    if m[i] > 0 {
      AtMostAll(m - multiset{i}, i);
    }
  }

  /** The invariant: pending connections included, i is ahead of j by cap at most, or by as much
      as at the start. */
  predicate Bounded(w: World, cap: nat, i: nat, j: nat, start: int) {
    i < |w.r| && j < |w.r| && DistinctAddrs(w.r) && |w.pending| <= cap && Lead(w, i, j) <= RR.Max(cap, start)
  }

  lemma NextBounded(w: World, step: Step, cap: nat, i: nat, j: nat, start: int)
    requires Bounded(w, cap, i, j, start) && Enabled(w, step, cap)
    requires step.Choose? ==> Usable(w.r[i]) && Usable(w.r[j])
    ensures Bounded(Next(w, step), cap, i, j, start)
  {
    match step
    case Choose(idx) => AtMostAll(w.pending + multiset{idx}, i);
    case Count(idx) => RR.ConnectedCounts(w.r, w.r[idx].addr, idx);
    case Fail(idx) => RR.CountsKept(w.r, MarkDown(w.r[idx].addr));
    case Other(op) => RR.CountsKept(w.r, op);
  }

  lemma {:induction false} AlwaysBounded(tr: seq<World>, steps: seq<Step>, cap: nat, i: nat, j: nat, n: nat)
    requires Runs(tr, steps, cap) && n <= |steps|
    requires DistinctAddrs(tr[0].r) && i < |tr[0].r| && j < |tr[0].r|
    requires UsableAtEachChoice(tr, steps, i) && UsableAtEachChoice(tr, steps, j)
    ensures Bounded(tr[n], cap, i, j, tr[0].r[i].conns - tr[0].r[j].conns)
  {
    if n > 0 {
      var k := n - 1;
      AlwaysBounded(tr, steps, cap, i, j, k);
      RunStep(tr, steps, cap, k);
      NextBounded(tr[k], steps[k], cap, i, j, tr[0].r[i].conns - tr[0].r[j].conns);
    }
  }

  /** With up to cap connections between choosing and counting, two backends that are usable
      whenever one chooses stay within max(cap, initial gap), whatever becomes of the others and
      of the dials. */
  lemma {:induction false} GapStaysWithinPending(tr: seq<World>, steps: seq<Step>, cap: nat, i: nat, j: nat, n: nat)
    requires Runs(tr, steps, cap) && n <= |steps|
    requires DistinctAddrs(tr[0].r) && i < |tr[0].r| && j < |tr[0].r|
    requires UsableAtEachChoice(tr, steps, i) && UsableAtEachChoice(tr, steps, j)
    ensures i < |tr[n].r| && j < |tr[n].r|
    ensures RR.Gap(tr[n].r, i, j) <= RR.Max(cap, RR.Gap(tr[0].r, i, j))
  {
    AlwaysBounded(tr, steps, cap, i, j, n);
    AlwaysBounded(tr, steps, cap, j, i, n);
  }

  // ---------- The bound is reached ----------

  function Repeat(step: Step, n: nat): (steps: seq<Step>)
    ensures |steps| == n && forall i :: 0 <= i < n ==> steps[i] == step
  {
    if n == 0 then [] else Repeat(step, n - 1) + [step]
  }

  /** From even counts, cap connections that all choose before any is counted end on one backend. */
  lemma {:induction false} ChoicesPileUp(r: Route, cap: nat, n: nat) returns (tr: seq<World>)
    requires DistinctAddrs(r) && MaySelect(r, LeastConn, Some(0)) && n <= cap
    ensures Runs(tr, Repeat(Choose(0), n), cap) && tr[0].r == tr[n].r == r && tr[n].pending == multiset{}[0 := n]
    ensures forall k :: 0 <= k <= n ==> tr[k].r == r
  {
    if n == 0 {
      tr := [World(r, multiset{})];
    } else {
      var before := ChoicesPileUp(r, cap, n - 1);
      assert |before[n - 1].pending| == n - 1;
      tr := Extended(before, Repeat(Choose(0), n - 1), Choose(0), cap);
    }
  }

  lemma Extended(tr: seq<World>, steps: seq<Step>, step: Step, cap: nat) returns (tr': seq<World>)
    requires Runs(tr, steps, cap) && Enabled(tr[|steps|], step, cap)
    ensures Runs(tr', steps + [step], cap) && tr' == tr + [Next(tr[|steps|], step)]
  {
    tr' := tr + [Next(tr[|steps|], step)];
    forall i | 0 <= i < |steps| + 1
      ensures StepAt(tr', steps + [step], cap, i)
    {
      if i < |steps| {
        RunStep(tr, steps, cap, i);
      }
    }
  }

  /** In w, n of cap connections piled up on backend 0 have been counted. */
  predicate Piled(r: Route, w: World, cap: nat, n: nat) {
    && n <= cap && w.pending == multiset{}[0 := cap - n] && |w.r| == |r|
    && forall i :: 0 <= i < |r| ==> w.r[i] == if i == 0 then r[0].(conns := r[0].conns + n) else r[i]
  }

  lemma CountPiled(r: Route, w: World, cap: nat, n: nat)
    requires DistinctAddrs(r) && |r| > 0 && Piled(r, w, cap, n) && n < cap
    ensures Enabled(w, Count(0), cap) && Piled(r, Next(w, Count(0)), cap, n + 1)
  {
    assert forall i :: 0 <= i < |r| ==> w.r[i].addr == r[i].addr;
    RR.ConnectedCounts(w.r, w.r[0].addr, 0);
  }

  /** cap connections choose, then n of them are counted. */
  function PileSteps(cap: nat, n: nat): (steps: seq<Step>)
    ensures |steps| == cap + n && forall i :: 0 <= i < cap + n ==> steps[i] == if i < cap then Choose(0) else Count(0)
  {
    if n == 0 then Repeat(Choose(0), cap) else PileSteps(cap, n - 1) + [Count(0)]
  }

  lemma {:induction false} CountsPileUp(r: Route, cap: nat, n: nat) returns (tr: seq<World>)
    requires DistinctAddrs(r) && MaySelect(r, LeastConn, Some(0)) && n <= cap
    ensures Runs(tr, PileSteps(cap, n), cap)
    ensures tr[0].r == r && (forall k :: 0 <= k <= cap ==> tr[k].r == r) && Piled(r, tr[cap + n], cap, n)
  {
    if n == 0 {
      tr := ChoicesPileUp(r, cap, cap);
    } else {
      var before := CountsPileUp(r, cap, n - 1);
      CountPiled(r, before[cap + n - 1], cap, n - 1);
      tr := Extended(before, PileSteps(cap, n - 1), Count(0), cap);
    }
  }

  /** The bound is sharp: for every cap, two usable backends with equal counts can end up cap apart. */
  lemma {:induction false} GapIsReached(r: Route, cap: nat) returns (tr: seq<World>, steps: seq<Step>)
    requires DistinctAddrs(r) && |r| == 2 && Usable(r[0]) && Usable(r[1]) && r[0].conns == r[1].conns
    ensures Runs(tr, steps, cap) && tr[0].r == r
    ensures UsableAtEachChoice(tr, steps, 0) && UsableAtEachChoice(tr, steps, 1)
    ensures |tr[|steps|].r| == 2 && RR.Gap(tr[|steps|].r, 0, 1) == cap
  {
    tr := CountsPileUp(r, cap, cap);
    steps := PileSteps(cap, cap);
  }
}
