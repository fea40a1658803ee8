/**
 The adaptive batch size of the port scanner, one call at a time: halving with a
 floor and a cooldown, and recovery by a quarter after fifty successes.
 */
module ScanController {
  import opened Common

  const FLOOR: nat := 16
  const RECOVERY_THRESHOLD: nat := 50
  const COOLDOWN_MS: nat := 500

  datatype Control = Control(size: nat, target: nat, degraded: bool, streak: nat, lastDegradation: nat)

  function Halved(size: nat): nat {
    Max(size / 2, FLOOR)
  }

  function Raised(size: nat, target: nat): nat {
    Min((size * 125) / 100, target)
  }

  predicate CoolingDown(last: nat, now: nat) {
    last > 0 && (if now >= last then now - last else 0) < COOLDOWN_MS
  }

  function Fresh(size: nat): Control {
    Control(size, size, false, 0, 0)
  }

  function Exhausted(c: Control, now: nat): Control {
    if CoolingDown(c.lastDegradation, now) then c.(degraded := true, streak := 0)
    else if c.size == Halved(c.size) && c.size == FLOOR then c.(degraded := true)
    else c.(size := Halved(c.size), degraded := true, streak := 0, lastDegradation := Max(now, 1))
  }

  function Succeeded(c: Control): Control {
    if !c.degraded then c
    else if c.streak + 1 < RECOVERY_THRESHOLD || Raised(c.size, c.target) <= c.size then c.(streak := c.streak + 1)
    else c.(size := Raised(c.size, c.target), streak := 0, degraded := Raised(c.size, c.target) < c.target)
  }

  /** A new controller runs at its target, undegraded, with nothing counted or remembered. */
  lemma FreshMeans(size: nat)
    ensures var c := Fresh(size);
            c.size == size && c.target == size && !c.degraded && c.streak == 0 && c.lastDegradation == 0
  {
  }

  /** A size is halved, rounding down, but not below 16. */
  lemma HalvedMeans(size: nat)
    ensures size >= 32 ==> Halved(size) <= size / 2 && 2 * Halved(size) <= size < 2 * Halved(size) + 2
    ensures size < 32 ==> Halved(size) == 16
  {
  }

  /** A size is raised by a quarter, rounding down, but not above the target. */
  lemma RaisedMeans(size: nat, target: nat)
    ensures Raised(size, target) <= target
    ensures Raised(size, target) == target || 4 * Raised(size, target) <= 5 * size < 4 * Raised(size, target) + 4
    ensures 5 * size >= 4 * target ==> Raised(size, target) == target
  {
    assert (size * 125) / 100 == (5 * size) / 4;
  }

  /**
   An error within half a second of the last reduction only marks the controller and ends the streak;
   one at size 16 only marks it; any other one reduces, ends the streak and is remembered, as time 1 at least.
   */
  lemma ExhaustedMeans(c: Control, now: nat)
    ensures var d := Exhausted(c, now); var last := c.lastDegradation;
            && d.degraded && d.target == c.target
            && (last > 0 && now < last + 500 ==> d.size == c.size && d.streak == 0 && d.lastDegradation == last)
            && (!(last > 0 && now < last + 500) && c.size == 16 ==>
                  d.size == c.size && d.streak == c.streak && d.lastDegradation == last)
            && (!(last > 0 && now < last + 500) && c.size != 16 ==>
                  d.size == Halved(c.size) && d.streak == 0 && d.lastDegradation == if now == 0 then 1 else now)
  {
  }

  /**
   A success counts only while degraded.  From the fiftieth in a row on it raises the size, if that gains
   anything, and starts the count anew; at the target the degradation ends.
   */
  lemma SucceededMeans(c: Control)
    ensures var d := Succeeded(c);
            && d.target == c.target && d.lastDegradation == c.lastDegradation
            && (!c.degraded ==> d == c)
            && (c.degraded && (c.streak < 49 || Raised(c.size, c.target) <= c.size) ==>
                  d.size == c.size && d.degraded && d.streak == c.streak + 1)
            && (c.degraded && c.streak >= 49 && Raised(c.size, c.target) > c.size ==>
                  d.size == Raised(c.size, c.target) && d.streak == 0 && (d.degraded <==> d.size != c.target))
  {
  }

  class ScanConcurrencyController {
    var currentBatchSize: nat
    const targetBatchSize: nat
    var degraded: bool
    var successStreak: nat
    var lastDegradationMs: nat

    ghost function View(): Control
      reads this
    {
      Control(currentBatchSize, targetBatchSize, degraded, successStreak, lastDegradationMs)
    }

    constructor (initial: nat)
      ensures View() == Fresh(initial)
    {
      currentBatchSize, targetBatchSize := initial, initial;
      degraded, successStreak, lastDegradationMs := false, 0, 0;
    }

    method OnFdExhaustion(now: nat)
      modifies this
      ensures View() == Exhausted(old(View()), now)
    {
      if lastDegradationMs > 0 && (if now >= lastDegradationMs then now - lastDegradationMs else 0) < COOLDOWN_MS {
        degraded := true;
        successStreak := 0;
        return;
      }
      var current := currentBatchSize;
      var newSize := Max(current / 2, FLOOR);
      if current == newSize && current == FLOOR {
        degraded := true;
        return;
      }
      currentBatchSize := newSize;
      degraded := true;
      successStreak := 0;
      lastDegradationMs := Max(now, 1);
    }

    method OnSuccess()
      modifies this
      ensures View() == Succeeded(old(View()))
    {
      if !degraded {
        return;
      }
      successStreak := successStreak + 1;
      if successStreak >= RECOVERY_THRESHOLD {
        var current := currentBatchSize;
        var newSize := Min((current * 125) / 100, targetBatchSize);
        if newSize > current {
          currentBatchSize := newSize;
          successStreak := 0;
          if newSize >= targetBatchSize {
            degraded := false;
          }
        }
      }
    }
  }

  // ---- Recovery --------------------------------------------------------------------

  function After(c: Control, n: nat): Control
    decreases n
  {
    if n == 0 then c else After(Succeeded(c), n - 1)
  }

  predicate Recovered(c: Control) {
    c.size == c.target && !c.degraded
  }

  predicate Low(c: Control) {
    c.degraded && FLOOR <= c.size < c.target
  }

  lemma {:induction false} AfterMore(c: Control, m: nat, n: nat)
    ensures After(c, m + n) == After(After(c, m), n)
    decreases m
  {
    if m > 0 {
      AfterMore(Succeeded(c), m - 1, n);
    }
  }

  lemma {:induction false} RecoveredStays(c: Control, n: nat)
    requires Recovered(c)
    ensures After(c, n) == c
  {
    if n > 0 {
      RecoveredStays(c, n - 1);
    }
  }

  /** How many successes are certainly enough: fifty for every four missing, less those already counted. */
  function Enough(c: Control): int {
    50 * ((c.target - c.size + 3) / 4) - Min(c.streak, 49)
  }

  /** A success either ends the degradation or brings its end nearer. */
  lemma SuccessApproaches(c: Control)
    requires Low(c)
    ensures Enough(c) >= 1
    ensures Recovered(Succeeded(c)) || (Low(Succeeded(c)) && Enough(Succeeded(c)) < Enough(c))
    ensures Succeeded(c).target == c.target && Succeeded(c).size >= c.size
  {
    assert (c.size * 125) / 100 == (5 * c.size) / 4;
    assert (c.target - c.size + 3) / 4 >= 1;
    if c.streak + 1 >= RECOVERY_THRESHOLD {
      var d := Succeeded(c);
      assert d.size >= Min(c.size + 4, c.target);
      if d.size < c.target {
        assert (c.target - d.size + 3) / 4 <= (c.target - c.size + 3) / 4 - 1;
      }
    }
  }

  lemma {:induction false} RecoversWithin(c: Control, n: nat)
    requires Low(c) && n >= Enough(c)
    ensures Recovered(After(c, n)) && After(c, n).target == c.target
    decreases n
  {
    SuccessApproaches(c);
    if Recovered(Succeeded(c)) {
      RecoveredStays(Succeeded(c), n - 1);
    } else {
      RecoversWithin(Succeeded(c), n - 1);
    }
  }

  /** From any degraded size below target, 50 * ceil((target - size) / 4) successes restore the target. */
  lemma RecoveryBound(c: Control)
    requires Low(c)
    ensures Recovered(After(c, 50 * ((c.target - c.size + 3) / 4)))
  {
    RecoversWithin(c, 50 * ((c.target - c.size + 3) / 4));
  }

  /** Fifty successes from a fresh streak raise the size once. */
  lemma {:induction false} StreakOf(c: Control, n: nat)
    requires Low(c) && c.streak + n < RECOVERY_THRESHOLD
    ensures After(c, n) == c.(streak := c.streak + n)
    decreases n
  {
    if n > 0 {
      StreakOf(c.(streak := c.streak + 1), n - 1);
    }
  }

  lemma FiftySuccesses(c: Control)
    requires Low(c) && c.streak == 0
    ensures After(c, 50) == c.(size := Raised(c.size, c.target), degraded := Raised(c.size, c.target) < c.target)
  {
    StreakOf(c, 49);
    AfterMore(c, 49, 1);
    assert (c.size * 125) / 100 == (5 * c.size) / 4;
    assert After(c.(streak := 49), 1) == After(Succeeded(c.(streak := 49)), 0);
  }

  /** `k` rounds of fifty successes. */
  lemma {:induction false} Rounds(c: Control, k: nat)
    requires (Low(c) && c.streak == 0) || Recovered(c)
    ensures After(c, 50 * k) == if k == 0 then c else After(After(c, 50), 50 * (k - 1))
    ensures After(c, 50) == c || (After(c, 50).streak == 0 && (Low(After(c, 50)) || Recovered(After(c, 50))))
  {
    if k > 0 {
      AfterMore(c, 50, 50 * (k - 1));
    }
    if Recovered(c) {
      RecoveredStays(c, 50);
    } else {
      FiftySuccesses(c);
      assert (c.size * 125) / 100 == (5 * c.size) / 4;
    }
  }

  function RaisedTimes(size: nat, target: nat, k: nat): nat
    decreases k
  {
    if k == 0 then size else RaisedTimes(Raised(size, target), target, k - 1)
  }

  lemma {:induction false} RoundsRaise(c: Control, k: nat)
    requires Low(c) && c.streak == 0
    ensures RaisedTimes(c.size, c.target, k) <= c.target
    ensures After(c, 50 * k).size == RaisedTimes(c.size, c.target, k)
    ensures RaisedTimes(c.size, c.target, k) == c.target ==> Recovered(After(c, 50 * k))
    decreases k
  {
    Rounds(c, k);
    if k > 0 {
      FiftySuccesses(c);
      var d := After(c, 50);
      if Recovered(d) {
        RecoveredStays(d, 50 * (k - 1));
        RaisedAtTarget(c.target, k - 1);
      } else {
        RoundsRaise(d, k - 1);
      }
    }
  }

  lemma {:induction false} RaisedAtTarget(target: nat, k: nat)
    ensures RaisedTimes(target, target, k) == target
  {
    if k > 0 {
      assert (target * 125) / 100 >= target;
      RaisedAtTarget(target, k - 1);
    }
  }

  lemma QuarterGrowth(a: nat, target: nat)
    ensures Raised(a, target) == target || 4 * Raised(a, target) >= 5 * a - 3
    ensures Raised(a, target) <= target
  {
    assert (a * 125) / 100 == (5 * a) / 4;
  }

  /** Four raises undo one halving. */
  lemma FourRaises(target: nat)
    requires target >= 17
    ensures RaisedTimes(Halved(target), target, 4) == target
  {
    var c0 := Halved(target);
    var c1 := Raised(c0, target);
    var c2 := Raised(c1, target);
    var c3 := Raised(c2, target);
    var c4 := Raised(c3, target);
    QuarterGrowth(c0, target);
    QuarterGrowth(c1, target);
    QuarterGrowth(c2, target);
    QuarterGrowth(c3, target);
    assert forall a: nat | a >= target :: Raised(a, target) == target;
    assert c4 == target;
    assert RaisedTimes(c0, target, 4) == RaisedTimes(c1, target, 3) == RaisedTimes(c2, target, 2)
        == RaisedTimes(c3, target, 1) == RaisedTimes(c4, target, 0);
  }

  /** One reduction from full size is undone by two hundred successes. */
  lemma ReductionUndone(c: Control, now: nat)
    requires c.size == c.target && c.target >= 17 && !CoolingDown(c.lastDegradation, now)
    ensures Exhausted(c, now).size == Halved(c.target) < c.target
    ensures Recovered(After(Exhausted(c, now), 200))
  {
    FourRaises(c.target);
    RoundsRaise(Exhausted(c, now), 4);
  }

  // ---- Sequential runs ----------------------------------------------------------------

  datatype Call = FdExhaustion(now: nat) | Success

  function Apply(c: Control, e: Call): Control {
    match e
    case FdExhaustion(now) => Exhausted(c, now)
    case Success => Succeeded(c)
  }

  function Runs(c: Control, es: seq<Call>): Control
    decreases |es|
  {
    if es == [] then c else Runs(Apply(c, es[0]), es[1..])
  }

  predicate Reduces(c: Control, e: Call) {
    Apply(c, e).size < c.size
  }

  ghost predicate Sound(c: Control) {
    FLOOR <= c.size <= c.target && (!c.degraded ==> c.size == c.target)
  }

  /** Sizes stay between floor and target, and an undegraded controller runs at its target. */
  lemma {:induction false} SequentialBounds(c: Control, es: seq<Call>)
    requires Sound(c)
    ensures Sound(Runs(c, es)) && Runs(c, es).target == c.target
    decreases |es|
  {
    if es != [] {
      assert (c.size * 125) / 100 >= c.size;
      SequentialBounds(Apply(c, es[0]), es[1..]);
    }
  }

  /** The last reduction's time is remembered (as at least 1) until the next one. */
  lemma {:induction false} LastReductionRemembered(c: Control, es: seq<Call>)
    requires FLOOR <= c.size <= c.target
    requires forall k | 0 <= k < |es| :: !Reduces(Runs(c, es[..k]), es[k])
    ensures Runs(c, es).lastDegradation == c.lastDegradation
    decreases |es|
  {
    if es != [] {
      assert es[..0] == [];
      assert !Reduces(c, es[0]);
      assert FLOOR <= Apply(c, es[0]).size <= c.target;
      assert Apply(c, es[0]).lastDegradation == c.lastDegradation;
      forall k | 0 <= k < |es| - 1 ensures !Reduces(Runs(Apply(c, es[0]), es[1..][..k]), es[1..][k]) {
        assert es[..k + 1][1..] == es[1..][..k] && es[..k + 1][0] == es[0];
      }
      LastReductionRemembered(Apply(c, es[0]), es[1..]);
    }
  }

  /** Successive reductions are at least the cooldown apart. */
  lemma ReductionsSpaced(c: Control, first: nat, between: seq<Call>, second: nat)
    requires FLOOR <= c.size <= c.target && Reduces(c, FdExhaustion(first))
    requires first <= second
    requires var d := Exhausted(c, first);
             forall k | 0 <= k < |between| :: !Reduces(Runs(d, between[..k]), between[k])
    requires Reduces(Runs(Exhausted(c, first), between), FdExhaustion(second))
    ensures second - first >= 500
  {
    var d := Exhausted(c, first);
    assert d.lastDegradation == Max(first, 1);
    assert FLOOR <= d.size <= d.target;
    LastReductionRemembered(d, between);
  }
}
