/**
 The batch-size controller under any number of threads, each load, store, counter
 increment and compare-and-swap being one indivisible action.
 */
module ScanThreads {
  import opened Common
  import opened ScanController

  /** Where a thread stands: the next shared-memory action of its call. */
  datatype Pc =
    | Idle
    | LoadLast(now: nat)
    | MarkLimited
    | ResetLimited
    | LoadSize(now: nat)
    | TryReduce(now: nat, current: nat)
    | MarkReduced(now: nat)
    | ResetReduced(now: nat)
    | StampReduced(now: nat)
    | CheckDegraded
    | CountSuccess
    | LoadForRaise
    | StoreRaise(newSize: nat)
    | ResetRaised(newSize: nat)
    | ClearDegraded

  function Entry(call: Call): Pc {
    match call
    case FdExhaustion(now) => LoadLast(now)
    case Success => CheckDegraded
  }

  /** One action of a thread on the shared fields. */
  function Act(c: Control, pc: Pc): (Control, Pc) {
    match pc
    case Idle => (c, Idle)
    case LoadLast(now) => (c, if CoolingDown(c.lastDegradation, now) then MarkLimited else LoadSize(now))
    case MarkLimited => (c.(degraded := true), ResetLimited)
    case ResetLimited => (c.(streak := 0), Idle)
    case LoadSize(now) => (c, TryReduce(now, c.size))
    case TryReduce(now, current) =>
      if current == Halved(current) && current == FLOOR then (c.(degraded := true), Idle)
      else if c.size == current then (c.(size := Halved(current)), MarkReduced(now))
      else (c, LoadSize(now))
    case MarkReduced(now) => (c.(degraded := true), ResetReduced(now))
    case ResetReduced(now) => (c.(streak := 0), StampReduced(now))
    case StampReduced(now) => (c.(lastDegradation := Max(now, 1)), Idle)
    case CheckDegraded => (c, if c.degraded then CountSuccess else Idle)
    case CountSuccess => (c.(streak := c.streak + 1), if c.streak + 1 >= RECOVERY_THRESHOLD then LoadForRaise else Idle)
    case LoadForRaise => (c, if Raised(c.size, c.target) > c.size then StoreRaise(Raised(c.size, c.target)) else Idle)
    case StoreRaise(newSize) => (c.(size := newSize), ResetRaised(newSize))
    case ResetRaised(newSize) => (c.(streak := 0), if newSize >= c.target then ClearDegraded else Idle)
    case ClearDegraded => (c.(degraded := false), Idle)
  }

  datatype System = System(shared: Control, threads: seq<Pc>)

  datatype Move = Begin(tid: nat, call: Call) | Go(tid: nat)

  function Moved(s: System, m: Move): System {
    if m.tid >= |s.threads| then s
    else if m.Begin? then
      if s.threads[m.tid] == Idle then s.(threads := s.threads[m.tid := Entry(m.call)]) else s
    else
      var (c, pc) := Act(s.shared, s.threads[m.tid]);
      System(c, s.threads[m.tid := pc])
  }

  function Run(s: System, ms: seq<Move>): System
    decreases |ms|
  {
    if ms == [] then s else Run(Moved(s, ms[0]), ms[1..])
  }

  function Boot(size: nat, n: nat): System {
    System(Fresh(size), seq(n, _ => Idle))
  }

  // ---- Bounds under every interleaving ---------------------------------------------

  ghost predicate InRange(x: nat, target: nat) {
    FLOOR <= x <= target
  }

  ghost predicate Bounded(s: System) {
    && InRange(s.shared.size, s.shared.target)
    && (forall t | 0 <= t < |s.threads| ::
          && (s.threads[t].TryReduce? ==> InRange(s.threads[t].current, s.shared.target))
          && (s.threads[t].StoreRaise? ==> InRange(s.threads[t].newSize, s.shared.target)))
  }

  lemma MoveKeepsBounded(s: System, m: Move)
    requires Bounded(s)
    ensures Bounded(Moved(s, m)) && Moved(s, m).shared.target == s.shared.target
  {
  }

  lemma {:induction false} RunKeepsBounded(s: System, ms: seq<Move>)
    requires Bounded(s)
    ensures Bounded(Run(s, ms)) && Run(s, ms).shared.target == s.shared.target
    decreases |ms|
  {
    if ms != [] {
      MoveKeepsBounded(s, ms[0]);
      RunKeepsBounded(Moved(s, ms[0]), ms[1..]);
    }
  }

  /** Whatever the threads do, the batch size stays between the floor and the initial size. */
  lemma SizeStaysInRange(size: nat, n: nat, ms: seq<Move>)
    requires size >= 16
    ensures 16 <= Run(Boot(size, n), ms).shared.size <= size
  {
    RunKeepsBounded(Boot(size, n), ms);
  }

  /** The bounds hold on every run exactly when the initial size is at least the floor. */
  lemma BoundsIff(size: nat)
    ensures (forall n, ms :: Run(Boot(size, n), ms).shared.size <= size) <==> size >= 16
  {
    if size >= FLOOR {
      forall n, ms ensures Run(Boot(size, n), ms).shared.size <= size {
        SizeStaysInRange(size, n, ms);
      }
    } else {
      var s0 := Boot(size, 1);
      var s1 := Moved(s0, Begin(0, FdExhaustion(0)));
      var s2 := Moved(s1, Go(0));
      var s3 := Moved(s2, Go(0));
      var s4 := Moved(s3, Go(0));
      RunFour(s0, Begin(0, FdExhaustion(0)), Go(0), Go(0), Go(0));
      assert s4.shared.size == FLOOR;
      assert Run(Boot(size, 1), [Begin(0, FdExhaustion(0)), Go(0), Go(0), Go(0)]).shared.size > size;
    }
  }

  lemma RunFour(s: System, a: Move, b: Move, c: Move, d: Move)
    ensures Run(s, [a, b, c, d]) == Moved(Moved(Moved(Moved(s, a), b), c), d)
  {
    assert [a, b, c, d][1..] == [b, c, d];
    var t := Moved(s, a);
    assert [b, c, d][1..] == [c, d];
    assert Run(t, [b, c, d]) == Run(Moved(t, b), [c, d]);
    RunTwo(Moved(t, b), c, d);
  }

  lemma {:induction false} RunAppend(s: System, a: seq<Move>, b: seq<Move>)
    ensures Run(s, a + b) == Run(Run(s, a), b)
    decreases |a|
  {
    if a == [] {
      assert a + b == b;
    } else {
      assert (a + b)[1..] == a[1..] + b;
      RunAppend(Moved(s, a[0]), a[1..], b);
    }
  }

  // ---- A thread on its own ------------------------------------------------------------

  function Alone(c: Control, pc: Pc, n: nat): (Control, Pc)
    decreases n
  {
    if n == 0 then (c, pc) else
      var (d, next) := Act(c, pc);
      Alone(d, next, n - 1)
  }

  lemma AloneFour(c: Control, pc: Pc, n: nat)
    requires n >= 4
    ensures var (c1, p1) := Act(c, pc); var (c2, p2) := Act(c1, p1); var (c3, p3) := Act(c2, p2); var (c4, p4) := Act(c3, p3);
            Alone(c, pc, n) == Alone(c4, p4, n - 4)
  {
    var (c1, p1) := Act(c, pc);
    var (c2, p2) := Act(c1, p1);
    assert Alone(c1, p1, n - 1) == Alone(c2, p2, n - 2);
    var (c3, p3) := Act(c2, p2);
    assert Alone(c3, p3, n - 3) == Alone(Act(c3, p3).0, Act(c3, p3).1, n - 4);
  }

  /** A call whose actions are not interleaved with others is the sequential call. */
  lemma AloneIsSequential(c: Control, call: Call)
    ensures Alone(c, Entry(call), 8) == (Apply(c, call), Idle)
  {
    AloneFour(c, Entry(call), 8);
    var (c1, p1) := Act(c, Entry(call));
    var (c2, p2) := Act(c1, p1);
    var (c3, p3) := Act(c2, p2);
    var (c4, p4) := Act(c3, p3);
    AloneFour(c4, p4, 4);
  }

  function Repeat(t: nat, n: nat): seq<Move> {
    seq(n, _ => Go(t))
  }

  lemma {:induction false} RepeatIsAlone(s: System, t: nat, n: nat)
    requires t < |s.threads|
    ensures Run(s, Repeat(t, n))
            == System(Alone(s.shared, s.threads[t], n).0, s.threads[t := Alone(s.shared, s.threads[t], n).1])
    decreases n
  {
    if n == 0 {
      assert s.threads[t := s.threads[t]] == s.threads;
    } else {
      assert Repeat(t, n)[1..] == Repeat(t, n - 1);
      var (c, pc) := Act(s.shared, s.threads[t]);
      RepeatIsAlone(System(c, s.threads[t := pc]), t, n - 1);
      assert s.threads[t := pc][t := Alone(c, pc, n - 1).1] == s.threads[t := Alone(c, pc, n - 1).1];
    }
  }

  function WholeCall(t: nat, call: Call): seq<Move> {
    [Begin(t, call)] + Repeat(t, 8)
  }

  lemma WholeCallIsSequential(s: System, t: nat, call: Call)
    requires t < |s.threads| && s.threads[t] == Idle
    ensures Run(s, WholeCall(t, call)) == s.(shared := Apply(s.shared, call))
  {
    var s1 := Moved(s, Begin(t, call));
    assert WholeCall(t, call)[1..] == Repeat(t, 8);
    RepeatIsAlone(s1, t, 8);
    AloneIsSequential(s.shared, call);
    assert s1.threads[t := Idle] == s.threads;
  }

  function Successes(t: nat, n: nat): seq<Move>
    decreases n
  {
    if n == 0 then [] else WholeCall(t, Success) + Successes(t, n - 1)
  }

  lemma {:induction false} SuccessesAreSequential(s: System, t: nat, n: nat)
    requires t < |s.threads| && s.threads[t] == Idle
    ensures Run(s, Successes(t, n)) == s.(shared := After(s.shared, n))
    decreases n
  {
    if n > 0 {
      RunAppend(s, WholeCall(t, Success), Successes(t, n - 1));
      WholeCallIsSequential(s, t, Success);
      SuccessesAreSequential(s.(shared := Succeeded(s.shared)), t, n - 1);
    }
  }

  lemma RunTwo(s: System, a: Move, b: Move)
    ensures Run(s, [a, b]) == Moved(Moved(s, a), b)
  {
    assert [a, b][1..] == [b];
    assert [b][1..] == [];
    assert Run(Moved(s, a), [b]) == Run(Moved(Moved(s, a), b), []);
  }

  lemma RunOne(s: System, a: Move)
    ensures Run(s, [a]) == Moved(s, a)
  {
    assert [a][1..] == [];
    assert Run(s, [a]) == Run(Moved(s, a), []);
  }
}
