/**
 The constant-parallelism loop: keep `batchSize` scans in flight, take completions in
 whatever order they come, refill, and collect the successful outputs.

 Items are named by their position, and `outcomes[k]` is what the scan of item `k`
 yields.  Which scan completes next is left open; the cancellation token is a
 function from the number of the check to its answer.
 */
module BatchScan {
  import opened Common
  import opened Sequences

  function Range(n: nat): (r: seq<nat>)
    ensures |r| == n && forall i | 0 <= i < n :: r[i] == i
  {
    seq(n, i => i)
  }

  function Outcome<O>(outcomes: seq<Option<O>>, k: nat): seq<O> {
    if k < |outcomes| && outcomes[k].Some? then [outcomes[k].value] else []
  }

  /** The successful outputs of the items `ks`, in that order. */
  function Outputs<O>(outcomes: seq<Option<O>>, ks: seq<nat>): seq<O> {
    if ks == [] then [] else Outcome(outcomes, ks[0]) + Outputs(outcomes, ks[1..])
  }

  lemma {:induction false} OutputsAppend<O>(outcomes: seq<Option<O>>, a: seq<nat>, b: seq<nat>)
    ensures Outputs(outcomes, a + b) == Outputs(outcomes, a) + Outputs(outcomes, b)
  {
    if a == [] {
      assert a + b == b;
    } else {
      assert (a + b)[1..] == a[1..] + b;
      OutputsAppend(outcomes, a[1..], b);
    }
  }

  lemma OutputsOne<O>(outcomes: seq<Option<O>>, k: nat)
    ensures Outputs(outcomes, [k]) == Outcome(outcomes, k)
  {
    assert [k][1..] == [];
  }

  function Drop(ks: seq<nat>, p: nat): seq<nat>
    requires p < |ks|
  {
    ks[..p] + ks[p + 1..]
  }

  lemma OutputsWithout<O>(outcomes: seq<Option<O>>, ks: seq<nat>, p: nat)
    requires p < |ks|
    ensures multiset(Outputs(outcomes, ks)) == multiset(Outputs(outcomes, Drop(ks, p))) + multiset(Outcome(outcomes, ks[p]))
  {
    assert ks == ks[..p] + ([ks[p]] + ks[p + 1..]);
    OutputsAppend(outcomes, ks[..p], [ks[p]] + ks[p + 1..]);
    OutputsAppend(outcomes, [ks[p]], ks[p + 1..]);
    OutputsOne(outcomes, ks[p]);
    OutputsAppend(outcomes, ks[..p], ks[p + 1..]);
  }

  lemma DropDistinct(ks: seq<nat>, p: nat)
    requires Distinct(ks) && p < |ks|
    ensures Distinct(Drop(ks, p)) && forall k :: k in Drop(ks, p) <==> k in ks && k != ks[p]
  {
    assert ks == ks[..p] + [ks[p]] + ks[p + 1..];
  }

  /** Distinct items yield part of what a larger set of items yields, whatever the orders. */
  lemma {:induction false} OutputsOfFewer<O>(outcomes: seq<Option<O>>, a: seq<nat>, b: seq<nat>)
    requires Distinct(a) && Distinct(b) && forall k | k in a :: k in b
    ensures |a| <= |b|
    ensures multiset(Outputs(outcomes, a)) <= multiset(Outputs(outcomes, b))
    ensures |a| == |b| ==> multiset(Outputs(outcomes, a)) == multiset(Outputs(outcomes, b))
    decreases |a|
  {
    if a == [] {
    } else {
      assert a[0] in a;
      var p :| 0 <= p < |b| && b[p] == a[0];
      assert Drop(a, 0) == a[1..];
      DropDistinct(a, 0);
      DropDistinct(b, p);
      OutputsOfFewer(outcomes, Drop(a, 0), Drop(b, p));
      OutputsWithout(outcomes, a, 0);
      OutputsWithout(outcomes, b, p);
    }
  }

  /** The items that yield `x`, told by the outcomes alone. */
  ghost function Yielding<O(!new)>(outcomes: seq<Option<O>>, x: O): set<nat> {
    set k: nat | 0 <= k < |outcomes| && outcomes[k] == Some(x)
  }

  ghost function Among<O(!new)>(outcomes: seq<Option<O>>, ks: seq<nat>, x: O): set<nat> {
    set k | k in ks && k in Yielding(outcomes, x)
  }

  lemma AmongNext<O(!new)>(outcomes: seq<Option<O>>, ks: seq<nat>, x: O)
    requires ks != [] && Distinct(ks)
    ensures |Among(outcomes, ks, x)| == |Among(outcomes, ks[1..], x)| + if ks[0] in Yielding(outcomes, x) then 1 else 0
  {
    assert ks == [ks[0]] + ks[1..] && ks[0] !in ks[1..];
    var all, rest := Among(outcomes, ks, x), Among(outcomes, ks[1..], x);
    assert all == if ks[0] in Yielding(outcomes, x) then rest + {ks[0]} else rest;
  }

  lemma OutcomeCount<O(!new)>(outcomes: seq<Option<O>>, k: nat, x: O)
    ensures multiset(Outcome(outcomes, k))[x] == if k in Yielding(outcomes, x) then 1 else 0
  {
  }

  /** Each distinct item is in the outputs as what it yields, and only so. */
  lemma {:induction false} OutputsCount<O(!new)>(outcomes: seq<Option<O>>, ks: seq<nat>, x: O)
    requires Distinct(ks)
    ensures multiset(Outputs(outcomes, ks))[x] == |Among(outcomes, ks, x)|
  {
    if ks == [] {
      assert Among(outcomes, ks, x) == {};
    } else {
      OutputsCount(outcomes, ks[1..], x);
      AmongNext(outcomes, ks, x);
      OutcomeCount(outcomes, ks[0], x);
      var first, rest := Outcome(outcomes, ks[0]), Outputs(outcomes, ks[1..]);
      assert multiset(first + rest) == multiset(first) + multiset(rest);
    }
  }

  lemma AmongAll<O(!new)>(outcomes: seq<Option<O>>, x: O)
    ensures Among(outcomes, Range(|outcomes|), x) == Yielding(outcomes, x)
  {
    forall k | k in Yielding(outcomes, x) ensures k in Range(|outcomes|) {
      assert Range(|outcomes|)[k] == k;
    }
  }

  /** All items together yield every output as often as it is among the outcomes; some of them, no more often. */
  lemma OutputsOfDistinct<O(!new)>(outcomes: seq<Option<O>>, ks: seq<nat>, x: O)
    requires Distinct(ks) && forall k | k in ks :: k < |outcomes|
    ensures multiset(Outputs(outcomes, ks))[x] <= |Yielding(outcomes, x)|
    ensures |ks| == |outcomes| ==> multiset(Outputs(outcomes, ks))[x] == |Yielding(outcomes, x)|
  {
    var all := Range(|outcomes|);
    forall k | k in ks ensures k in all {
      assert all[k] == k;
    }
    OutputsOfFewer(outcomes, ks, all);
    OutputsCount(outcomes, all, x);
    AmongAll(outcomes, x);
  }

  /** The distinct items of `done` and those in flight are together the items started so far. */
  ghost predicate Split(done: seq<nat>, inFlight: set<nat>, started: seq<nat>) {
    && started == Range(|started|)
    && Distinct(done)
    && (forall k | k in done :: k < |started| && k !in inFlight)
    && (forall k | k in inFlight :: k < |started|)
    && |done| + |inFlight| == |started|
  }

  lemma SplitStart(done: seq<nat>, inFlight: set<nat>, started: seq<nat>)
    requires Split(done, inFlight, started)
    ensures Split(done, inFlight + {|started|}, started + [|started|])
  {
    assert started + [|started|] == Range(|started| + 1);
    assert |inFlight + {|started|}| == |inFlight| + 1;
  }

  lemma SplitFinish(done: seq<nat>, inFlight: set<nat>, started: seq<nat>, k: nat)
    requires Split(done, inFlight, started) && k in inFlight
    ensures |inFlight - {k}| == |inFlight| - 1
    ensures Split(done + [k], inFlight - {k}, started)
  {
    DistinctAppend(done, k);
  }

  /** Starts items until `batchSize` scans are in flight, the items run out, or the token says stop. */
  method Refill(total: nat, batchSize: nat, cancelled: nat -> bool,
                inFlight0: set<nat>, started0: seq<nat>, tick0: nat, ghost done: seq<nat>)
    returns (inFlight: set<nat>, started: seq<nat>, tick: nat)
    requires |started0| <= total && |inFlight0| <= batchSize && Split(done, inFlight0, started0)
    ensures |started| <= total && |inFlight| <= batchSize && Split(done, inFlight, started)
    ensures (forall t: nat :: !cancelled(t)) ==> |inFlight| == Min(batchSize, total - |done|)
    ensures batchSize == 0 ==> started == started0
  {
    inFlight, started, tick := inFlight0, started0, tick0;
    while |inFlight| < batchSize && !cancelled(tick) && |started| < total
      invariant |started| <= total && |inFlight| <= batchSize && Split(done, inFlight, started)
      invariant batchSize == 0 ==> started == started0
      decreases total - |started|
    {
      SplitStart(done, inFlight, started);
      inFlight, started, tick := inFlight + {|started|}, started + [|started|], tick + 1;
    }
  }

  /** With the token never firing, the load after `i` completions is as high as it can be. */
  ghost predicate Saturated(loads: seq<nat>, batchSize: nat, total: nat) {
    |loads| <= total + 1 && forall i | 0 <= i < |loads| :: loads[i] == Min(batchSize, total - i)
  }

  lemma LoadsGrow(loads: seq<nat>, batchSize: nat, total: nat)
    requires Saturated(loads, batchSize, total) && |loads| <= total
    ensures Saturated(loads + [Min(batchSize, total - |loads|)], batchSize, total)
  {
  }

  lemma OutputsSnoc<O>(outcomes: seq<Option<O>>, done: seq<nat>, k: nat)
    ensures Outputs(outcomes, done + [k]) == Outputs(outcomes, done) + Outcome(outcomes, k)
  {
    OutputsAppend(outcomes, done, [k]);
    OutputsOne(outcomes, k);
  }

  /** Where the loop stands: what is started, in flight, done, and how loaded it has been. */
  ghost predicate Going(total: nat, batchSize: nat, steady: bool,
                        done: seq<nat>, inFlight: set<nat>, started: seq<nat>, loads: seq<nat>) {
    && |started| <= total && |inFlight| <= batchSize && Split(done, inFlight, started)
    && (forall i | 0 <= i < |loads| :: loads[i] <= batchSize)
    && (batchSize == 0 ==> started == [])
    && (steady ==> |inFlight| == Min(batchSize, total - |done|) && |loads| == |done| + 1 && Saturated(loads, batchSize, total))
  }

  lemma KeepsGoing(total: nat, batchSize: nat, steady: bool, done: seq<nat>, inFlight: set<nat>, started: seq<nat>,
                   loads: seq<nat>, k: nat, inFlight': set<nat>, started': seq<nat>)
    requires Going(total, batchSize, steady, done, inFlight, started, loads) && k in inFlight
    requires |started'| <= total && |inFlight'| <= batchSize && Split(done + [k], inFlight', started')
    requires batchSize == 0 ==> started' == started
    requires steady ==> |inFlight'| == Min(batchSize, total - |done| - 1)
    ensures Going(total, batchSize, steady, done + [k], inFlight', started', loads + [|inFlight'|])
  {
    if steady {
      LoadsGrow(loads, batchSize, total);
    }
  }

  method Scan<O(!new)>(outcomes: seq<Option<O>>, batchSize: nat, cancelled: nat -> bool)
    returns (results: seq<O>, started: seq<nat>, done: seq<nat>, loads: seq<nat>)
    // items are started once each, in order
    ensures |started| <= |outcomes| && started == Range(|started|)
    // the results are the successful outputs of distinct started items
    ensures Distinct(done) && (forall k | k in done :: k in started) && results == Outputs(outcomes, done)
    ensures multiset(results) <= multiset(Outputs(outcomes, Range(|outcomes|)))
    ensures forall x :: multiset(results)[x] <= |Yielding(outcomes, x)|
    // never more than batchSize in flight
    ensures forall i | 0 <= i < |loads| :: loads[i] <= batchSize
    ensures batchSize == 0 ==> started == []
    // without cancellation: everything is scanned, at constant parallelism
    ensures batchSize >= 1 && (forall t: nat :: !cancelled(t)) ==>
              && |started| == |outcomes| == |done|
              && multiset(results) == multiset(Outputs(outcomes, Range(|outcomes|)))
              && (forall x :: multiset(results)[x] == |Yielding(outcomes, x)|)
              && |loads| == |outcomes| + 1 && Saturated(loads, batchSize, |outcomes|)
  {
    ghost var steady := forall t: nat :: !cancelled(t);
    var total := |outcomes|;
    var inFlight, tick;
    results, done := [], [];
    inFlight, started, tick := Refill(total, batchSize, cancelled, {}, [], 0, done);
    loads := [|inFlight|];
    while inFlight != {}
      invariant Going(total, batchSize, steady, done, inFlight, started, loads)
      invariant results == Outputs(outcomes, done)
      decreases total - |done|
    {
      var k :| k in inFlight;
      tick := tick + 1;
      if cancelled(tick) {
        break;
      }
      OutputsSnoc(outcomes, done, k);
      if outcomes[k].Some? {
        results := results + [outcomes[k].value];
      }
      SplitFinish(done, inFlight, started, k);
      ghost var before, running, begun, loaded := done, inFlight, started, loads;
      done := done + [k];
      inFlight, started, tick := Refill(total, batchSize, cancelled, inFlight - {k}, started, tick + 1, done);
      loads := loads + [|inFlight|];
      KeepsGoing(total, batchSize, steady, before, running, begun, loaded, k, inFlight, started);
    }
    ScanEnds(outcomes, batchSize, steady, done, inFlight, started, loads);
    forall x
      ensures multiset(results)[x] <= |Yielding(outcomes, x)|
      ensures |done| == |outcomes| ==> multiset(results)[x] == |Yielding(outcomes, x)|
    {
      OutputsOfDistinct(outcomes, done, x);
    }
  }

  /** What holds when the loop ends, by cancellation or with nothing left in flight. */
  lemma ScanEnds<O>(outcomes: seq<Option<O>>, batchSize: nat, steady: bool,
                    done: seq<nat>, inFlight: set<nat>, started: seq<nat>, loads: seq<nat>)
    requires Going(|outcomes|, batchSize, steady, done, inFlight, started, loads)
    ensures Distinct(done) && forall k | k in done :: k in started
    ensures multiset(Outputs(outcomes, done)) <= multiset(Outputs(outcomes, Range(|outcomes|)))
    ensures inFlight == {} && batchSize >= 1 && steady ==>
              && |started| == |outcomes| == |done|
              && multiset(Outputs(outcomes, done)) == multiset(Outputs(outcomes, Range(|outcomes|)))
              && |loads| == |outcomes| + 1 && Saturated(loads, batchSize, |outcomes|)
  {
    InRange(started, done, |outcomes|);
    OutputsOfFewer(outcomes, done, Range(|outcomes|));
  }

  lemma InRange(started: seq<nat>, done: seq<nat>, total: nat)
    requires started == Range(|started|) && |started| <= total
    requires forall k | k in done :: k < |started|
    ensures forall k | k in done :: k in started && k in Range(total)
  {
    forall k | k in done ensures k in started && k in Range(total) {
      assert started[k] == k && Range(total)[k] == k;
    }
  }
}
