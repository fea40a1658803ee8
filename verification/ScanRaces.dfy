/**
 What overlapping calls break: exactly when "not degraded means full size" and the spacing of
 reductions survive the interleaving of threads.
 */
module ScanRaces {
  import opened Common
  import opened ScanController
  import opened ScanThreads

  // ---- Not degraded means full size -------------------------------------------------------

  predicate AllIdle(s: System) {
    forall t | 0 <= t < |s.threads| :: s.threads[t] == Idle
  }

  predicate Full(c: Control) {
    !c.degraded ==> c.size == c.target
  }

  /** What a single thread can rely on at each of its program points. */
  predicate Solo(c: Control, pc: Pc) {
    && FLOOR <= c.size <= c.target
    && match pc
       case Idle => Full(c)
       case LoadLast(_) => Full(c)
       case MarkLimited => Full(c)
       case ResetLimited => c.degraded
       case LoadSize(_) => Full(c)
       case TryReduce(_, current) => Full(c) && FLOOR <= current <= c.target
       case MarkReduced(_) => true
       case ResetReduced(_) => c.degraded
       case StampReduced(_) => c.degraded
       case CheckDegraded => Full(c)
       case CountSuccess => c.degraded
       case LoadForRaise => c.degraded
       case StoreRaise(newSize) => c.degraded && FLOOR <= newSize <= c.target
       case ResetRaised(newSize) => c.degraded && c.size == newSize
       case ClearDegraded => c.size == c.target
  }

  lemma ActKeepsSolo(c: Control, pc: Pc)
    requires Solo(c, pc)
    ensures Solo(Act(c, pc).0, Act(c, pc).1)
  {
    assert pc.LoadForRaise? ==> Raised(c.size, c.target) <= c.target;
  }

  lemma {:induction false} OneThreadStaysSolo(s: System, ms: seq<Move>)
    requires |s.threads| == 1 && Solo(s.shared, s.threads[0])
    ensures |Run(s, ms).threads| == 1 && Solo(Run(s, ms).shared, Run(s, ms).threads[0])
    decreases |ms|
  {
    if ms != [] {
      ActKeepsSolo(s.shared, s.threads[0]);
      OneThreadStaysSolo(Moved(s, ms[0]), ms[1..]);
    }
  }

  lemma {:induction false} NoThreadNoChange(s: System, ms: seq<Move>)
    requires s.threads == []
    ensures Run(s, ms) == s
    decreases |ms|
  {
    if ms != [] {
      NoThreadNoChange(s, ms[1..]);
    }
  }

  /** From a low size some number of successes leaves just one to go. */
  lemma {:induction false} OneSuccessToGo(c: Control) returns (k: nat)
    requires Low(c)
    ensures Low(After(c, k)) && Recovered(Succeeded(After(c, k)))
    ensures After(c, k).target == c.target && After(c, k).lastDegradation == c.lastDegradation
    decreases Enough(c)
  {
    SuccessApproaches(c);
    if Recovered(Succeeded(c)) {
      k := 0;
    } else {
      var j := OneSuccessToGo(Succeeded(c));
      k := j + 1;
    }
  }

  /** The recovering success, stopped before it clears the flag. */
  lemma RaiseUpToClear(c: Control)
    requires Low(c) && Recovered(Succeeded(c))
    ensures Alone(c, CheckDegraded, 5) == (c.(size := c.target, streak := 0), ClearDegraded)
  {
    AloneFour(c, CheckDegraded, 5);
    var d := c.(size := c.target, streak := c.streak + 1);
    assert Alone(d, ResetRaised(c.target), 1) == Alone(d.(streak := 0), ClearDegraded, 0);
  }

  /** One thread reduces and recovers but for the last action; another reduces; the first one finishes. */
  function LossRun(k: nat): seq<Move> {
    WholeCall(0, FdExhaustion(0)) + (Successes(0, k) + ([Begin(0, Success)] + Repeat(0, 5)
                                                        + (WholeCall(1, FdExhaustion(1000)) + [Go(0)])))
  }

  /** All calls return, the size is reduced, and as the flag is clear no number of successes restores it. */
  lemma DegradationCanBeLost(size: nat, n: nat) returns (k: nat)
    requires size > FLOOR && n >= 2
    ensures var s := Run(Boot(size, n), LossRun(k));
            && AllIdle(s) && s.shared.size == Halved(size) < s.shared.target == size && !s.shared.degraded
            && forall m :: After(s.shared, m) == s.shared
  {
    var s0 := Boot(size, n);
    var c1 := Exhausted(Fresh(size), 0);
    k := OneSuccessToGo(c1);
    var c2 := After(c1, k);
    var rest3 := WholeCall(1, FdExhaustion(1000)) + [Go(0)];
    var rest2 := [Begin(0, Success)] + Repeat(0, 5) + rest3;
    RunAppend(s0, WholeCall(0, FdExhaustion(0)), Successes(0, k) + rest2);
    WholeCallIsSequential(s0, 0, FdExhaustion(0));
    RunAppend(s0.(shared := c1), Successes(0, k), rest2);
    SuccessesAreSequential(s0.(shared := c1), 0, k);
    OverlapLosesDegradation(s0.(shared := c2), rest3);
    forall m ensures After(Run(s0, LossRun(k)).shared, m) == Run(s0, LossRun(k)).shared {
      StaysSilent(Run(s0, LossRun(k)).shared, m);
    }
  }

  lemma OverlapLosesDegradation(s: System, rest: seq<Move>)
    requires |s.threads| >= 2 && AllIdle(s)
    requires Low(s.shared) && Recovered(Succeeded(s.shared)) && s.shared.lastDegradation == 1
    requires rest == WholeCall(1, FdExhaustion(1000)) + [Go(0)]
    ensures Run(s, [Begin(0, Success)] + Repeat(0, 5) + rest)
            == s.(shared := Control(Halved(s.shared.target), s.shared.target, false, 0, 1000))
  {
    RunAppend(s, [Begin(0, Success)] + Repeat(0, 5), rest);
    BeginThenRepeat(s, Success, 5);
    RaiseUpToClear(s.shared);
    ReduceThenClear(s);
  }

  lemma ReduceThenClear(s: System)
    requires |s.threads| >= 2 && AllIdle(s) && s.shared.target > FLOOR && s.shared.degraded && s.shared.lastDegradation == 1
    ensures Run(System(s.shared.(size := s.shared.target, streak := 0), s.threads[0 := ClearDegraded]),
                WholeCall(1, FdExhaustion(1000)) + [Go(0)])
            == s.(shared := Control(Halved(s.shared.target), s.shared.target, false, 0, 1000))
  {
    var s2 := System(s.shared.(size := s.shared.target, streak := 0), s.threads[0 := ClearDegraded]);
    RunAppend(s2, WholeCall(1, FdExhaustion(1000)), [Go(0)]);
    WholeCallIsSequential(s2, 1, FdExhaustion(1000));
    ClearLast(s2.(shared := Exhausted(s2.shared, 1000)));
    assert s2.threads[0 := Idle] == s.threads;
  }

  lemma ClearLast(s: System)
    requires 0 < |s.threads| && s.threads[0] == ClearDegraded
    ensures Run(s, [Go(0)]) == System(s.shared.(degraded := false), s.threads[0 := Idle])
  {
    RunOne(s, Go(0));
  }

  lemma BeginThenRepeat(s: System, call: Call, n: nat)
    requires 0 < |s.threads| && s.threads[0] == Idle
    ensures Run(s, [Begin(0, call)] + Repeat(0, n))
            == System(Alone(s.shared, Entry(call), n).0, s.threads[0 := Alone(s.shared, Entry(call), n).1])
  {
    var s1 := Moved(s, Begin(0, call));
    assert ([Begin(0, call)] + Repeat(0, n))[1..] == Repeat(0, n);
    RepeatIsAlone(s1, 0, n);
    assert s1.threads[0 := Alone(s.shared, Entry(call), n).1] == s.threads[0 := Alone(s.shared, Entry(call), n).1];
  }

  lemma {:induction false} StaysSilent(c: Control, n: nat)
    requires !c.degraded
    ensures After(c, n) == c
    decreases n
  {
    if n > 0 {
      StaysSilent(c, n - 1);
    }
  }

  /**
   "Not degraded means full size" holds whenever all calls have returned, on every run of n threads,
   exactly if there is at most one thread or the size starts at the floor.
   */
  lemma FullSizeIff(size: nat, n: nat)
    requires size >= 16
    ensures (forall ms :: AllIdle(Run(Boot(size, n), ms)) ==> Full(Run(Boot(size, n), ms).shared)) <==> n <= 1 || size == 16
  {
    if n <= 1 || size == FLOOR {
      forall ms ensures AllIdle(Run(Boot(size, n), ms)) ==> Full(Run(Boot(size, n), ms).shared) {
        FullSizeKept(size, n, ms);
      }
    } else {
      var k := DegradationCanBeLost(size, n);
      assert !Full(Run(Boot(size, n), LossRun(k)).shared);
    }
  }

  lemma FullSizeKept(size: nat, n: nat, ms: seq<Move>)
    requires size >= FLOOR && (n <= 1 || size == FLOOR)
    ensures AllIdle(Run(Boot(size, n), ms)) ==> Full(Run(Boot(size, n), ms).shared)
  {
    if size == FLOOR {
      RunKeepsBounded(Boot(size, n), ms);
    } else if n == 0 {
      NoThreadNoChange(Boot(size, n), ms);
    } else {
      OneThreadStaysSolo(Boot(size, n), ms);
    }
  }

  // ---- The spacing of reductions --------------------------------------------------------------

  /** The time carried by the call whose compare-and-swap a move completes, lowering the size. */
  function SwapAt(s: System, m: Move): Option<nat> {
    if m.Go? && m.tid < |s.threads| && s.threads[m.tid].TryReduce? then
      var pc := s.threads[m.tid];
      if pc.current != FLOOR && s.shared.size == pc.current then Some(pc.now) else None
    else None
  }

  /** These are the moves of the exhaustion path that change the size, and each halves it. */
  lemma SwapIsReduction(s: System, m: Move)
    requires Bounded(s)
    ensures SwapAt(s, m).Some? ==> Moved(s, m).shared.size == Halved(s.shared.size) < s.shared.size
    ensures Moved(s, m).shared.size != s.shared.size ==>
              SwapAt(s, m).Some? || (m.Go? && m.tid < |s.threads| && s.threads[m.tid].StoreRaise?)
  {
  }

  /** The times of a run's reductions, in the order they happen. */
  function ReductionTimes(s: System, ms: seq<Move>): seq<nat>
    decreases |ms|
  {
    if ms == [] then [] else
      (match SwapAt(s, ms[0]) case Some(t) => [t] case None => []) + ReductionTimes(Moved(s, ms[0]), ms[1..])
  }

  predicate Spaced(times: seq<nat>) {
    forall i: nat | i + 1 < |times| :: times[i + 1] >= times[i] + 500
  }

  predicate Exhausts(m: Move) {
    m.Begin? && m.call.FdExhaustion?
  }

  /** Calls begin with times that never go back. */
  predicate CallsInOrder(ms: seq<Move>) {
    forall i, j | 0 <= i < j < |ms| && Exhausts(ms[i]) && Exhausts(ms[j]) :: ms[i].call.now <= ms[j].call.now
  }

  /** A single thread past the check may reduce, and its last reduction is stamped, or about to be. */
  predicate Clocked(c: Control, pc: Pc, last: Option<nat>) {
    && (pc.LoadSize? || pc.TryReduce? ==> !CoolingDown(c.lastDegradation, pc.now))
    && (last.Some? ==>
          if pc.MarkReduced? || pc.ResetReduced? || pc.StampReduced? then pc.now == last.value
          else c.lastDegradation == Max(last.value, 1))
  }

  function Listed(last: Option<nat>): seq<nat> {
    if last.Some? then [last.value] else []
  }

  lemma {:induction false} OneThreadSpaces(s: System, last: Option<nat>, ms: seq<Move>)
    requires |s.threads| == 1 && Clocked(s.shared, s.threads[0], last)
    ensures Spaced(Listed(last) + ReductionTimes(s, ms))
    decreases |ms|
  {
    if ms != [] {
      var swap := SwapAt(s, ms[0]);
      var rest := ReductionTimes(Moved(s, ms[0]), ms[1..]);
      MoveKeepsClocked(s, last, ms[0]);
      if swap.Some? {
        OneThreadSpaces(Moved(s, ms[0]), swap, ms[1..]);
        SpacedCons(last, swap.value, rest);
        assert Listed(last) + ReductionTimes(s, ms) == Listed(last) + ([swap.value] + rest);
      } else {
        OneThreadSpaces(Moved(s, ms[0]), last, ms[1..]);
        assert ReductionTimes(s, ms) == rest;
      }
    }
  }

  lemma MoveKeepsClocked(s: System, last: Option<nat>, m: Move)
    requires |s.threads| == 1 && Clocked(s.shared, s.threads[0], last)
    ensures var t, swap := Moved(s, m), SwapAt(s, m);
            && |t.threads| == 1
            && Clocked(t.shared, t.threads[0], if swap.Some? then swap else last)
            && (swap.Some? && last.Some? ==> swap.value >= last.value + COOLDOWN_MS)
  {
  }

  lemma SpacedCons(last: Option<nat>, t: nat, rest: seq<nat>)
    requires Spaced([t] + rest) && (last.Some? ==> t >= last.value + COOLDOWN_MS)
    ensures Spaced(Listed(last) + ([t] + rest))
  {
    if last.Some? {
      var q := [last.value] + ([t] + rest);
      forall i: nat | i + 1 < |q| ensures q[i + 1] >= q[i] + COOLDOWN_MS {
        assert i > 0 ==> q[i] == ([t] + rest)[i - 1] && q[i + 1] == ([t] + rest)[i - 1 + 1];
      }
    } else {
      assert [] + ([t] + rest) == [t] + rest;
    }
  }

  lemma {:induction false} NothingToReduce(s: System, ms: seq<Move>)
    requires Bounded(s) && (s.shared.target == FLOOR || s.threads == [])
    ensures ReductionTimes(s, ms) == []
    decreases |ms|
  {
    if ms != [] {
      MoveKeepsBounded(s, ms[0]);
      NothingToReduce(Moved(s, ms[0]), ms[1..]);
    }
  }

  lemma {:induction false} TimesAppend(s: System, a: seq<Move>, b: seq<Move>)
    ensures ReductionTimes(s, a + b) == ReductionTimes(s, a) + ReductionTimes(Run(s, a), b)
    decreases |a|
  {
    if a == [] {
      assert a + b == b;
    } else {
      assert (a + b)[1..] == a[1..] + b;
      TimesAppend(Moved(s, a[0]), a[1..], b);
    }
  }

  predicate AtZero(ms: seq<Move>) {
    forall m | m in ms && Exhausts(m) :: m.call.now == 0
  }

  predicate ZeroPc(pc: Pc) {
    match pc
    case LoadLast(now) => now == 0
    case LoadSize(now) => now == 0
    case TryReduce(now, _) => now == 0
    case MarkReduced(now) => now == 0
    case ResetReduced(now) => now == 0
    case StampReduced(now) => now == 0
    case _ => true
  }

  lemma {:induction false} TimesAtZero(s: System, ms: seq<Move>)
    requires AtZero(ms) && forall t | 0 <= t < |s.threads| :: ZeroPc(s.threads[t])
    ensures forall x | x in ReductionTimes(s, ms) :: x == 0
    decreases |ms|
  {
    if ms != [] {
      assert ms[0] in ms && forall m | m in ms[1..] :: m in ms;
      TimesAtZero(Moved(s, ms[0]), ms[1..]);
    }
  }

  lemma {:induction false} SuccessesAtZero(t: nat, n: nat)
    ensures AtZero(Successes(t, n))
    decreases n
  {
    if n > 0 {
      SuccessesAtZero(t, n - 1);
    }
  }

  /** One thread passes the check and waits; another reduces and recovers; then the first one reduces. */
  function EarlyRun(k: nat): seq<Move> {
    [Begin(1, FdExhaustion(0)), Go(1)] + (WholeCall(0, FdExhaustion(0)) + (Successes(0, k) + [Go(1), Go(1)]))
  }

  lemma EarlyRunAtZero(k: nat)
    ensures AtZero(EarlyRun(k)) && CallsInOrder(EarlyRun(k))
  {
    SuccessesAtZero(0, k);
    var ms := EarlyRun(k);
    assert AtZero(ms);
    forall i, j | 0 <= i < j < |ms| && Exhausts(ms[i]) && Exhausts(ms[j]) ensures ms[i].call.now <= ms[j].call.now {
      assert ms[i] in ms && ms[j] in ms;
    }
  }

  lemma SwapIsListed(s: System, a: seq<Move>, m: Move, b: seq<Move>)
    requires SwapAt(Run(s, a), m).Some?
    ensures ReductionTimes(s, a + ([m] + b)) != []
  {
    TimesAppend(s, a, [m] + b);
  }

  lemma PastTheCheck(c: Control)
    requires c.lastDegradation == 0
    ensures Alone(c, LoadLast(0), 2) == (c, TryReduce(0, c.size))
  {
    assert Alone(c, LoadLast(0), 2) == Alone(c, LoadSize(0), 1) == Alone(c, TryReduce(0, c.size), 0);
  }

  /** A whole call that is let through reduces once. */
  lemma CallReduces(s: System)
    requires 0 < |s.threads| && s.threads[0] == Idle && s.shared.size > FLOOR && s.shared.lastDegradation == 0
    ensures ReductionTimes(s, WholeCall(0, FdExhaustion(0))) != []
  {
    var first := [Begin(0, FdExhaustion(0))] + Repeat(0, 2);
    BeginThenRepeat(s, FdExhaustion(0), 2);
    PastTheCheck(s.shared);
    SwapIsListed(s, first, Go(0), Repeat(0, 5));
    assert WholeCall(0, FdExhaustion(0)) == first + ([Go(0)] + Repeat(0, 5));
  }

  lemma LateSwapReduces(s: System)
    requires 2 <= |s.threads| && s.threads[1] == LoadSize(0) && s.shared.size > FLOOR
    ensures ReductionTimes(s, [Go(1), Go(1)]) == [0]
  {
    var s1 := Moved(s, Go(1));
    assert [Go(1), Go(1)][1..] == [Go(1)] && [Go(1)][1..] == [];
    assert ReductionTimes(s1, [Go(1)]) == [0] + ReductionTimes(Moved(s1, Go(1)), []);
  }

  /** Two reductions at the same instant. */
  lemma CooldownCanFail(size: nat, n: nat) returns (k: nat)
    requires size > FLOOR && n >= 2
    ensures CallsInOrder(EarlyRun(k)) && !Spaced(ReductionTimes(Boot(size, n), EarlyRun(k)))
  {
    var s0 := Boot(size, n);
    k := 50 * ((size - Halved(size) + 3) / 4);
    RunTwo(s0, Begin(1, FdExhaustion(0)), Go(1));
    var s1 := System(Fresh(size), s0.threads[1 := LoadSize(0)]);
    assert s0.threads[1 := LoadLast(0)][1 := LoadSize(0)] == s1.threads;
    var rest := WholeCall(0, FdExhaustion(0)) + (Successes(0, k) + [Go(1), Go(1)]);
    TimesAppend(s0, [Begin(1, FdExhaustion(0)), Go(1)], rest);
    RecoversFully(size);
    ReducedTwice(s1, Exhausted(Fresh(size), 0), k);
    EarlyRunAtZero(k);
    TimesAtZero(s0, EarlyRun(k));
    TwoZerosNotSpaced(ReductionTimes(s0, EarlyRun(k)));
  }

  lemma RecoversFully(size: nat)
    requires size > FLOOR
    ensures After(Exhausted(Fresh(size), 0), 50 * ((size - Halved(size) + 3) / 4)).size == size
  {
    var c := Exhausted(Fresh(size), 0);
    RecoveryBound(c);
    AfterKeepsTarget(c, 50 * ((c.target - c.size + 3) / 4));
  }

  lemma ReducedTwice(s: System, c: Control, k: nat)
    requires 2 <= |s.threads| && s.threads[0] == Idle && s.threads[1] == LoadSize(0)
    requires s.shared.size > FLOOR && s.shared.lastDegradation == 0
    requires c == Exhausted(s.shared, 0) && After(c, k).size > FLOOR
    ensures |ReductionTimes(s, WholeCall(0, FdExhaustion(0)) + (Successes(0, k) + [Go(1), Go(1)]))| >= 2
  {
    var call, rest := WholeCall(0, FdExhaustion(0)), Successes(0, k) + [Go(1), Go(1)];
    WholeCallIsSequential(s, 0, FdExhaustion(0));
    CallReduces(s);
    ReducedOnceMore(s.(shared := c), k);
    BothReduce(s, call, rest, s.(shared := c));
  }

  lemma BothReduce(s: System, a: seq<Move>, b: seq<Move>, t: System)
    requires Run(s, a) == t && ReductionTimes(s, a) != [] && |ReductionTimes(t, b)| >= 1
    ensures |ReductionTimes(s, a + b)| >= 2
  {
    TimesAppend(s, a, b);
  }

  lemma ReducedOnceMore(s: System, k: nat)
    requires 2 <= |s.threads| && s.threads[0] == Idle && s.threads[1] == LoadSize(0) && After(s.shared, k).size > FLOOR
    ensures |ReductionTimes(s, Successes(0, k) + [Go(1), Go(1)])| >= 1
  {
    TimesAppend(s, Successes(0, k), [Go(1), Go(1)]);
    SuccessesAreSequential(s, 0, k);
    LateSwapReduces(s.(shared := After(s.shared, k)));
  }

  lemma {:induction false} AfterKeepsTarget(c: Control, n: nat)
    ensures After(c, n).target == c.target
    decreases n
  {
    if n > 0 {
      AfterKeepsTarget(Succeeded(c), n - 1);
    }
  }

  lemma TwoZerosNotSpaced(times: seq<nat>)
    requires |times| >= 2 && forall x | x in times :: x == 0
    ensures !Spaced(times)
  {
    assert times[0] in times && times[0 + 1] in times;
  }

  /**
   Successive reductions are at least the cooldown apart, on every run of n threads whose calls
   begin in order, exactly if there is at most one thread or the size starts at the floor.
   */
  lemma CooldownHoldsIff(size: nat, n: nat)
    requires size >= 16
    ensures (forall ms | CallsInOrder(ms) :: Spaced(ReductionTimes(Boot(size, n), ms))) <==> n <= 1 || size == 16
  {
    if n <= 1 || size == FLOOR {
      forall ms ensures Spaced(ReductionTimes(Boot(size, n), ms)) {
        if n == 1 {
          OneThreadSpaces(Boot(size, n), None, ms);
          assert [] + ReductionTimes(Boot(size, n), ms) == ReductionTimes(Boot(size, n), ms);
        } else {
          NothingToReduce(Boot(size, n), ms);
        }
      }
    } else {
      var k := CooldownCanFail(size, n);
    }
  }

  /** Of two threads that loaded the same size only one reduces from it: the other one's swap fails and it loads again. */
  lemma OneWinnerPerLevel(s: System, a: nat, b: nat)
    requires a < |s.threads| && b < |s.threads| && a != b && s.threads[a].TryReduce? && s.threads[b].TryReduce?
    requires s.threads[a].current == s.threads[b].current == s.shared.size > 16
    ensures var t := Moved(s, Go(a)); var u := Moved(t, Go(b));
            && t.shared.size == Halved(s.shared.size) < s.shared.size
            && u.shared == t.shared && u.threads[b] == LoadSize(s.threads[b].now)
  {
  }

  // ---- How far it can fail -------------------------------------------------------------------

  function HalvedTimes(size: nat, k: nat): nat
    decreases k
  {
    if k == 0 then size else HalvedTimes(Halved(size), k - 1)
  }

  /** Threads 0..n, each entering a reduction and passing the cooldown check. */
  function AllEnter(n: nat, now: nat): seq<Move> {
    if n == 0 then [] else AllEnter(n - 1, now) + [Begin(n - 1, FdExhaustion(now)), Go(n - 1)]
  }

  /** The same threads, each loading the size and swapping it. */
  function AllReduce(n: nat): seq<Move> {
    if n == 0 then [] else AllReduce(n - 1) + [Go(n - 1), Go(n - 1)]
  }

  function Entered(n: nat, k: nat, now: nat): seq<Pc>
    requires k <= n
  {
    seq(n, i => if i < k then LoadSize(now) else Idle)
  }

  lemma {:induction false} AllEnterTogether(size: nat, n: nat, k: nat, now: nat)
    requires k <= n
    ensures Run(Boot(size, n), AllEnter(k, now)) == System(Fresh(size), Entered(n, k, now))
    decreases k
  {
    if k == 0 {
      assert Entered(n, 0, now) == seq(n, _ => Idle);
    } else {
      AllEnterTogether(size, n, k - 1, now);
      var s := System(Fresh(size), Entered(n, k - 1, now));
      RunAppend(Boot(size, n), AllEnter(k - 1, now), [Begin(k - 1, FdExhaustion(now)), Go(k - 1)]);
      RunTwo(s, Begin(k - 1, FdExhaustion(now)), Go(k - 1));
      assert s.threads[k - 1 := LoadLast(now)][k - 1 := LoadSize(now)] == Entered(n, k, now);
    }
  }

  lemma {:induction false} HalvedTimesLast(size: nat, k: nat)
    ensures HalvedTimes(size, k + 1) == Halved(HalvedTimes(size, k))
    decreases k
  {
    if k > 0 {
      HalvedTimesLast(Halved(size), k - 1);
    }
  }

  lemma {:induction false} AllReduceInTurn(size: nat, n: nat, k: nat, now: nat)
    requires k <= n
    ensures var s := Run(System(Fresh(size), Entered(n, n, now)), AllReduce(k));
            && s.shared.size == HalvedTimes(size, k)
            && |s.threads| == n && forall t | k <= t < n :: s.threads[t] == LoadSize(now)
    decreases k
  {
    if k > 0 {
      AllReduceInTurn(size, n, k - 1, now);
      var s := Run(System(Fresh(size), Entered(n, n, now)), AllReduce(k - 1));
      RunAppend(System(Fresh(size), Entered(n, n, now)), AllReduce(k - 1), [Go(k - 1), Go(k - 1)]);
      RunTwo(s, Go(k - 1), Go(k - 1));
      HalvedTimesLast(size, k - 1);
    }
  }

  /** The cooldown does not hold between threads: n errors at the same instant can halve the size n times. */
  lemma ConcurrentErrorsCascade(size: nat, n: nat, now: nat)
    ensures Run(Boot(size, n), AllEnter(n, now) + AllReduce(n)).shared.size == HalvedTimes(size, n)
  {
    RunAppend(Boot(size, n), AllEnter(n, now), AllReduce(n));
    AllEnterTogether(size, n, n, now);
    AllReduceInTurn(size, n, n, now);
  }
}
