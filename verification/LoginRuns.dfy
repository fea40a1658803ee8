/**
 Runs of logins and cleanups.  A login is two steps, its lockout check and the recording of its
 outcome; between them anything may happen: other logins, of the same account or not, and cleanups.
 A login may also be abandoned, and then is never recorded.
 */
module LoginRuns {
  import opened Common
  import opened LoginLockout

  datatype Event =
    | Check(login: nat, email: Id, now: Time)
    | Record(login: nat, now: Time, valid: bool)
    | Abandon(login: nat, now: Time)
    | Cleanup(now: Time)

  /**
   The table, the logins that passed their check, the clock, and for one account the times of its
   failures since the last success.
   */
  datatype World = World(table: Table, inFlight: map<nat, Id>, clock: Time, failures: seq<Time>)

  function Boot(start: Time): World {
    World(map[], map[], start, [])
  }

  function Step(w: World, e: Event, email: Id): World {
    match e
    case Cleanup(now) => w.(table := Cleaned(w.table, now), clock := now)
    case Abandon(login, now) => w.(inFlight := w.inFlight - {login}, clock := now)
    case Check(login, who, now) =>
      w.(clock := now, inFlight := if Locked(w.table, who, now) then w.inFlight else w.inFlight[login := who])
    case Record(login, now, valid) =>
      if login !in w.inFlight then w.(clock := now) else
        var who := w.inFlight[login];
        World(Recorded(w.table, who, now, valid), w.inFlight - {login}, now,
              if who != email then w.failures else if valid then [] else w.failures + [now])
  }

  function Run(w: World, es: seq<Event>, email: Id): World
    decreases |es|
  {
    if es == [] then w else Run(Step(w, es[0], email), es[1..], email)
  }

  /** Time never goes back; a login is checked once, and if let through recorded or abandoned at most once. */
  predicate Enabled(w: World, e: Event) {
    && w.clock <= e.now
    && (e.Check? ==> e.login !in w.inFlight)
    && (e.Record? || e.Abandon? ==> e.login in w.inFlight)
  }

  predicate Legal(w: World, es: seq<Event>, email: Id)
    decreases |es|
  {
    es != [] ==> Enabled(w, es[0]) && Legal(Step(w, es[0], email), es[1..], email)
  }

  function Of(flights: map<nat, Id>, email: Id): set<nat> {
    set login | login in flights && flights[login] == email
  }

  function Flying(w: World, email: Id): set<nat> {
    Of(w.inFlight, email)
  }

  /** Never more than `k` logins of the account in flight. */
  predicate AtMost(k: nat, w: World, es: seq<Event>, email: Id)
    decreases |es|
  {
    |Flying(w, email)| <= k && (es != [] ==> AtMost(k, Step(w, es[0], email), es[1..], email))
  }

  // ---- What the table remembers of the failures ------------------------------------------------

  ghost predicate Ordered(q: seq<Time>) {
    forall i, j | 0 <= i < j < |q| :: q[i] <= q[j]
  }

  /** The failures before the counted ones are over fifteen minutes older. */
  ghost predicate Counted(w: World, email: Id) {
    var q, n := w.failures, |w.failures|;
    if email in w.table then
      var a := w.table[email];
      && 1 <= a.count <= n && a.last == q[n - 1]
      && (a.count < n ==> q[n - a.count] - q[n - a.count - 1] >= LOCKOUT_MS)
    else n == 0 || w.clock - q[n - 1] >= LOCKOUT_MS
  }

  ghost predicate Inv(w: World, email: Id) {
    Ordered(w.failures) && Counted(w, email) && forall x <- w.failures :: x <= w.clock
  }

  lemma CleanupKeepsInv(w: World, now: Time, email: Id)
    requires Inv(w, email) && w.clock <= now
    ensures Inv(Step(w, Cleanup(now), email), email)
  {
    if email in w.table {
      ElapsedExact(now, w.table[email].last);
    }
  }

  lemma CheckKeepsInv(w: World, e: Event, email: Id)
    requires Inv(w, email) && e.Check? && w.clock <= e.now
    ensures Inv(Step(w, e, email), email)
  {
  }

  lemma FailureKeepsInv(w: World, e: Event, email: Id)
    requires Inv(w, email) && e.Record? && Enabled(w, e) && w.inFlight[e.login] == email && !e.valid
    ensures Inv(Step(w, e, email), email)
  {
    var q, n := w.failures, |w.failures|;
    var q' := q + [e.now];
    forall i | 0 <= i < n ensures q[i] <= e.now {
      assert q[i] in q;
    }
    if email in w.table {
      var c := w.table[email].count;
      assert c < n ==> q'[n - c] == q[n - c] && q'[n - c - 1] == q[n - c - 1];
    } else if n > 0 {
      assert q'[n] == e.now && q'[n - 1] == q[n - 1];
    }
  }

  lemma OtherRecordKeepsInv(w: World, e: Event, email: Id)
    requires Inv(w, email) && e.Record? && Enabled(w, e) && (w.inFlight[e.login] != email || e.valid)
    ensures Inv(Step(w, e, email), email)
  {
    var w' := Step(w, e, email);
    assert w'.failures == w.failures || w'.failures == [];
    assert w.inFlight[e.login] != email ==> (email in w'.table <==> email in w.table);
  }

  lemma StepKeepsInv(w: World, e: Event, email: Id)
    requires Inv(w, email) && Enabled(w, e)
    ensures Inv(Step(w, e, email), email)
  {
    match e
    case Cleanup(now) => CleanupKeepsInv(w, now, email);
    case Abandon(_, _) =>
    case Check(_, _, _) => CheckKeepsInv(w, e, email);
    case Record(login, _, valid) =>
      if w.inFlight[login] == email && !valid {
        FailureKeepsInv(w, e, email);
      } else {
        OtherRecordKeepsInv(w, e, email);
      }
  }

  lemma {:induction false} RunKeepsInv(w: World, es: seq<Event>, email: Id)
    requires Inv(w, email) && Legal(w, es, email)
    ensures Inv(Run(w, es, email), email)
    decreases |es|
  {
    if es != [] {
      StepKeepsInv(w, es[0], email);
      RunKeepsInv(Step(w, es[0], email), es[1..], email);
    }
  }

  // ---- How many failures a window holds ------------------------------------------------------------

  /** Failures `d` places apart are at least the lockout time apart. */
  ghost predicate Spread(q: seq<Time>, d: nat) {
    forall i | 0 <= i && i + d < |q| :: q[i + d] - q[i] >= LOCKOUT_MS
  }

  /** Were all logins in flight to fail now, the failures would still be spread. */
  ghost predicate Room(w: World, email: Id, k: nat) {
    var m, n := |Flying(w, email)|, |w.failures|;
    m > 0 && n + m >= 5 + k ==> m <= k && w.clock - w.failures[n + m - (5 + k)] >= LOCKOUT_MS
  }

  ghost predicate Paced(w: World, email: Id, k: nat) {
    Inv(w, email) && Spread(w.failures, 4 + k) && Room(w, email, k)
  }

  /** A login let through comes fifteen minutes after the fifth failure before it. */
  lemma FifthLastIsOld(w: World, email: Id, now: Time)
    requires Inv(w, email) && !Locked(w.table, email, now) && w.clock <= now && |w.failures| >= 5
    ensures now - w.failures[|w.failures| - 5] >= LOCKOUT_MS
  {
    var q, n := w.failures, |w.failures|;
    assert q[n - 1] in q && q[n - 5] <= q[n - 1];
    if email in w.table {
      ElapsedExact(now, w.table[email].last);
      var c := w.table[email].count;
      if c < 5 {
        assert q[n - c] in q && (c < 4 ==> q[n - 5] <= q[n - c - 1]);
      }
    }
  }

  lemma AddsOne(flights: map<nat, Id>, login: nat, who: Id, email: Id)
    requires login !in flights
    ensures |Of(flights[login := who], email)| == |Of(flights, email)| + if who == email then 1 else 0
  {
    var a, b := Of(flights, email), Of(flights[login := who], email);
    assert b == if who == email then a + {login} else a;
  }

  lemma DropsOne(flights: map<nat, Id>, login: nat, email: Id)
    requires login in flights
    ensures |Of(flights - {login}, email)| == |Of(flights, email)| - if flights[login] == email then 1 else 0
  {
    var a, b := Of(flights, email), Of(flights - {login}, email);
    if flights[login] == email {
      assert login in a && b == a - {login};
    } else {
      assert b == a;
    }
  }

  lemma Grows(w: World, e: Event, email: Id)
    requires e.Check? && Enabled(w, e)
    ensures |Flying(Step(w, e, email), email)|
            == |Flying(w, email)| + if e.email == email && !Locked(w.table, email, e.now) then 1 else 0
  {
    AddsOne(w.inFlight, e.login, e.email, email);
  }

  lemma Shrinks(w: World, e: Event, email: Id)
    requires e.Record? && Enabled(w, e)
    ensures |Flying(Step(w, e, email), email)| == |Flying(w, email)| - if w.inFlight[e.login] == email then 1 else 0
  {
    DropsOne(w.inFlight, e.login, email);
  }

  lemma CheckKeepsRoom(w: World, e: Event, email: Id, k: nat)
    requires Paced(w, email, k) && e.Check? && Enabled(w, e) && |Flying(Step(w, e, email), email)| <= k
    ensures Room(Step(w, e, email), email, k)
  {
    Grows(w, e, email);
    var q, n := w.failures, |w.failures|;
    var m := |Flying(Step(w, e, email), email)|;
    if e.email == email && !Locked(w.table, email, e.now) && n + m >= 5 + k {
      FifthLastIsOld(w, email, e.now);
      assert n + m - (5 + k) < n - 5 ==> q[n + m - (5 + k)] <= q[n - 5];
    }
  }

  lemma SpreadGrows(q: seq<Time>, d: nat, t: Time)
    requires Spread(q, d) && d > 0 && (|q| >= d ==> t - q[|q| - d] >= LOCKOUT_MS)
    ensures Spread(q + [t], d)
  {
    var q' := q + [t];
    forall i | 0 <= i && i + d < |q'| ensures q'[i + d] - q'[i] >= LOCKOUT_MS {
      assert i + d < |q| ==> q[i + d] - q[i] >= LOCKOUT_MS;
    }
  }

  lemma FailureKeepsSpread(w: World, now: Time, email: Id, k: nat)
    requires Ordered(w.failures) && Spread(w.failures, 4 + k) && Room(w, email, k) && w.clock <= now && Flying(w, email) != {}
    ensures Spread(w.failures + [now], 4 + k)
  {
    var q, n, m := w.failures, |w.failures|, |Flying(w, email)|;
    if n >= 4 + k {
      assert n - (4 + k) < n + m - (5 + k) ==> q[n - (4 + k)] <= q[n + m - (5 + k)];
    }
    SpreadGrows(q, 4 + k, now);
  }

  lemma FailureKeepsPaced(w: World, e: Event, email: Id, k: nat)
    requires Paced(w, email, k) && e.Record? && Enabled(w, e) && w.inFlight[e.login] == email && !e.valid
    ensures Paced(Step(w, e, email), email, k)
  {
    assert e.login in Flying(w, email);
    Shrinks(w, e, email);
    FailureKeepsInv(w, e, email);
    FailureKeepsSpread(w, e.now, email, k);
  }

  lemma OtherRecordKeepsPaced(w: World, e: Event, email: Id, k: nat)
    requires Paced(w, email, k) && e.Record? && Enabled(w, e) && (w.inFlight[e.login] != email || e.valid)
    requires |Flying(w, email)| <= k
    ensures Paced(Step(w, e, email), email, k)
  {
    Shrinks(w, e, email);
    OtherRecordKeepsInv(w, e, email);
  }

  /** An abandoned login only makes room. */
  lemma AbandonKeepsPaced(w: World, e: Event, email: Id, k: nat)
    requires Paced(w, email, k) && e.Abandon? && Enabled(w, e)
    ensures Paced(Step(w, e, email), email, k)
  {
    DropsOne(w.inFlight, e.login, email);
    var q, n, m := w.failures, |w.failures|, |Flying(Step(w, e, email), email)|;
    if m > 0 && n + m >= 5 + k && m < |Flying(w, email)| {
      assert q[n + m - (5 + k)] <= q[n + m + 1 - (5 + k)];
    }
  }

  lemma StepKeepsPaced(w: World, e: Event, email: Id, k: nat)
    requires Paced(w, email, k) && Enabled(w, e)
    requires |Flying(w, email)| <= k && |Flying(Step(w, e, email), email)| <= k
    ensures Paced(Step(w, e, email), email, k)
  {
    match e
    case Cleanup(now) => CleanupKeepsInv(w, now, email);
    case Abandon(_, _) => AbandonKeepsPaced(w, e, email, k);
    case Check(_, _, _) => CheckKeepsInv(w, e, email); CheckKeepsRoom(w, e, email, k);
    case Record(login, _, valid) =>
      if w.inFlight[login] == email && !valid {
        FailureKeepsPaced(w, e, email, k);
      } else {
        OtherRecordKeepsPaced(w, e, email, k);
      }
  }

  lemma {:induction false} RunKeepsPaced(w: World, es: seq<Event>, email: Id, k: nat)
    requires Paced(w, email, k) && Legal(w, es, email) && AtMost(k, w, es, email)
    ensures Paced(Run(w, es, email), email, k)
    decreases |es|
  {
    if es != [] {
      StepKeepsPaced(w, es[0], email, k);
      RunKeepsPaced(Step(w, es[0], email), es[1..], email, k);
    }
  }

  function Window(q: seq<Time>, start: Time): set<nat> {
    set i: nat | 0 <= i < |q| && start <= q[i] < start + 15 * 60 * 1000
  }

  /** How many of the times lie before `start`. */
  function FirstFrom(q: seq<Time>, start: Time): (k: nat)
    ensures k <= |q| && forall i | 0 <= i < k :: q[i] < start
    ensures k < |q| ==> q[k] >= start
  {
    if q == [] || q[0] >= start then 0 else
      assert q == [q[0]] + q[1..];
      1 + FirstFrom(q[1..], start)
  }

  function Range(k: nat, d: nat): (r: set<nat>)
    ensures |r| == d && forall i: nat :: i in r <==> k <= i < k + d
  {
    if d == 0 then {} else Range(k, d - 1) + {k + d - 1}
  }

  lemma {:induction false} SubsetSize(a: set<nat>, b: set<nat>)
    requires a <= b
    ensures |a| <= |b|
    decreases |a|
  {
    if a != {} {
      var x :| x in a;
      SubsetSize(a - {x}, b - {x});
    }
  }

  lemma WindowIsSmall(q: seq<Time>, start: Time, d: nat)
    requires Ordered(q) && Spread(q, d)
    ensures |Window(q, start)| <= d
  {
    var k := FirstFrom(q, start);
    forall i | k + d <= i < |q| ensures q[i] >= start + LOCKOUT_MS {
      assert q[k + d] - q[k] >= LOCKOUT_MS;
      assert i > k + d ==> q[k + d] <= q[i];
    }
    assert Window(q, start) <= Range(k, d);
    SubsetSize(Window(q, start), Range(k, d));
  }

  /**
   With at most `k` logins of an account in flight at any moment, and other logins and cleanups
   anywhere, any `5 + k` consecutive failures span fifteen minutes, so a half-open window of
   fifteen minutes holds at most `4 + k` of them without a success in between.
   */
  lemma FailuresInWindow(start: Time, es: seq<Event>, email: Id, k: nat, from: Time)
    requires Legal(Boot(start), es, email) && AtMost(k, Boot(start), es, email)
    ensures Spread(Run(Boot(start), es, email).failures, 4 + k)
    ensures |Window(Run(Boot(start), es, email).failures, from)| <= 4 + k
  {
    RunKeepsPaced(Boot(start), es, email, k);
    WindowIsSmall(Run(Boot(start), es, email).failures, from, 4 + k);
  }

  /** One login of the account at a time: at most five. */
  lemma AtMostFiveFailures(start: Time, es: seq<Event>, email: Id, from: Time)
    requires Legal(Boot(start), es, email) && AtMost(1, Boot(start), es, email)
    ensures |Window(Run(Boot(start), es, email).failures, from)| <= 5
  {
    FailuresInWindow(start, es, email, 1, from);
  }

  // ---- Overlapping logins reach the bound ------------------------------------------------------------

  lemma {:induction false} RunAppend(w: World, a: seq<Event>, b: seq<Event>, email: Id)
    ensures Run(w, a + b, email) == Run(Run(w, a, email), b, email)
    ensures Legal(w, a + b, email) <==> Legal(w, a, email) && Legal(Run(w, a, email), b, email)
    ensures forall k :: AtMost(k, w, a + b, email) <==> AtMost(k, w, a, email) && AtMost(k, Run(w, a, email), b, email)
    decreases |a|
  {
    if a == [] {
      assert a + b == b;
      forall k ensures AtMost(k, w, b, email) ==> AtMost(k, w, [], email) {
      }
    } else {
      assert (a + b)[1..] == a[1..] + b && (a + b)[0] == a[0];
      RunAppend(Step(w, a[0], email), a[1..], b, email);
    }
  }

  function Zeros(n: nat): (q: seq<Time>)
    ensures |q| == n && forall i | 0 <= i < n :: q[i] == 0
  {
    seq(n, _ => 0)
  }

  function Ids(k: nat): (m: map<nat, Id>)
    ensures forall login: nat :: (login in m <==> login < k) && (login in m ==> m[login] == 0)
  {
    if k == 0 then map[] else Ids(k - 1)[k - 1 := 0]
  }

  lemma IdsSize(w: World, k: nat)
    requires w.inFlight == Ids(k)
    ensures |Flying(w, 0)| == k
  {
    assert Flying(w, 0) == Range(0, k);
  }

  /** Account 0 at time 0: `n` failures since the last success, `m` logins in flight. */
  function At(n: nat, m: nat): World {
    World(if n == 0 then map[] else map[0 := Attempts(n, 0)], Ids(m), 0, Zeros(n))
  }

  lemma OneCheck(n: nat, m: nat)
    requires n < 5
    ensures Enabled(At(n, m), Check(m, 0, 0)) && Step(At(n, m), Check(m, 0, 0), 0) == At(n, m + 1)
  {
    assert Ids(m)[m := 0] == Ids(m + 1);
  }

  lemma OneFailure(n: nat, m: nat)
    ensures Enabled(At(n, m + 1), Record(m, 0, false)) && Step(At(n, m + 1), Record(m, 0, false), 0) == At(n + 1, m)
  {
    assert Ids(m + 1) - {m} == Ids(m);
    assert Zeros(n) + [0] == Zeros(n + 1);
  }

  function Checks(m: nat): seq<Event> {
    if m == 0 then [] else Checks(m - 1) + [Check(m - 1, 0, 0)]
  }

  function Failures(m: nat): seq<Event> {
    if m == 0 then [] else [Record(m - 1, 0, false)] + Failures(m - 1)
  }

  /** The events take account 0 from `w` to `w'`, legally and with at most `k` logins in flight. */
  predicate Goes(k: nat, w: World, es: seq<Event>, w': World) {
    Run(w, es, 0) == w' && Legal(w, es, 0) && AtMost(k, w, es, 0)
  }

  lemma GoesThen(k: nat, w: World, a: seq<Event>, v: World, b: seq<Event>, u: World)
    requires Goes(k, w, a, v) && Goes(k, v, b, u)
    ensures Goes(k, w, a + b, u)
  {
    RunAppend(w, a, b, 0);
  }

  lemma GoesOne(k: nat, w: World, e: Event)
    requires Enabled(w, e) && |Flying(w, 0)| <= k && |Flying(Step(w, e, 0), 0)| <= k
    ensures Goes(k, w, [e], Step(w, e, 0))
  {
    assert [e][1..] == [];
    var w' := Step(w, e, 0);
    assert Run(w', [], 0) == w' && Legal(w', [], 0) && AtMost(k, w', [], 0);
  }

  lemma GoesNowhere(k: nat, n: nat, m: nat)
    requires m <= k
    ensures Goes(k, At(n, m), [], At(n, m))
  {
    IdsSize(At(n, m), m);
  }

  lemma CheckGoes(k: nat, n: nat, m: nat)
    requires n < 5 && m < k
    ensures Goes(k, At(n, m), [Check(m, 0, 0)], At(n, m + 1))
  {
    IdsSize(At(n, m), m);
    IdsSize(At(n, m + 1), m + 1);
    OneCheck(n, m);
    GoesOne(k, At(n, m), Check(m, 0, 0));
  }

  lemma FailureGoes(k: nat, n: nat, m: nat)
    requires m < k
    ensures Goes(k, At(n, m + 1), [Record(m, 0, false)], At(n + 1, m))
  {
    IdsSize(At(n, m + 1), m + 1);
    IdsSize(At(n + 1, m), m);
    OneFailure(n, m);
    GoesOne(k, At(n, m + 1), Record(m, 0, false));
  }

  lemma {:induction false} ChecksRun(n: nat, m: nat, k: nat)
    requires n < 5 && m <= k
    ensures Goes(k, At(n, 0), Checks(m), At(n, m))
    decreases m
  {
    if m == 0 {
      GoesNowhere(k, n, 0);
    } else {
      ChecksRun(n, m - 1, k);
      CheckGoes(k, n, m - 1);
      GoesThen(k, At(n, 0), Checks(m - 1), At(n, m - 1), [Check(m - 1, 0, 0)], At(n, m));
    }
  }

  lemma {:induction false} FailuresRun(n: nat, m: nat, k: nat, total: nat)
    requires m <= k && total == n + m
    ensures Goes(k, At(n, m), Failures(m), At(total, 0))
    decreases m
  {
    if m == 0 {
      GoesNowhere(k, n, 0);
    } else {
      var rest := Failures(m - 1);
      FailuresRun(n + 1, m - 1, k, total);
      FailureGoes(k, n, m - 1);
      GoesThen(k, At(n, m), [Record(m - 1, 0, false)], At(n + 1, m - 1), rest, At(total, 0));
    }
  }

  /** `m` checks, then as many failures. */
  lemma BurstRun(n: nat, m: nat, k: nat)
    requires n < 5 && m <= k
    ensures Goes(k, At(n, 0), Checks(m) + Failures(m), At(n + m, 0))
  {
    ChecksRun(n, m, k);
    FailuresRun(n, m, k, n + m);
    GoesThen(k, At(n, 0), Checks(m), At(n, m), Failures(m), At(n + m, 0));
  }

  /** One failing login after the other. */
  function OneByOne(n: nat): seq<Event> {
    if n == 0 then [] else OneByOne(n - 1) + (Checks(1) + Failures(1))
  }

  lemma {:induction false} OneByOneRun(n: nat, k: nat)
    requires n <= 5 && k >= 1
    ensures Goes(k, At(0, 0), OneByOne(n), At(n, 0))
    decreases n
  {
    if n == 0 {
      GoesNowhere(k, 0, 0);
    } else {
      OneByOneRun(n - 1, k);
      BurstRun(n - 1, 1, k);
      GoesThen(k, At(0, 0), OneByOne(n - 1), At(n - 1, 0), Checks(1) + Failures(1), At(n, 0));
    }
  }

  /** `n` failures one by one, then `k` logins at once, which all pass the check before any of them fails. */
  function Overlap(n: nat, k: nat): seq<Event> {
    OneByOne(n) + (Checks(k) + Failures(k))
  }

  lemma OverlapReachesBound(n: nat, k: nat)
    requires n < MAX_LOGIN_ATTEMPTS && k >= 1
    ensures Legal(Boot(0), Overlap(n, k), 0) && AtMost(k, Boot(0), Overlap(n, k), 0)
    ensures |Window(Run(Boot(0), Overlap(n, k), 0).failures, 0)| == n + k
  {
    OneByOneRun(n, k);
    BurstRun(n, k, k);
    GoesThen(k, At(0, 0), OneByOne(n), At(n, 0), Checks(k) + Failures(k), At(n + k, 0));
    BootIsAt();
    WindowOfZeros(n + k);
  }

  lemma BootIsAt()
    ensures Boot(0) == At(0, 0)
  {
  }

  lemma WindowOfZeros(n: nat)
    ensures |Window(Zeros(n), 0)| == n
  {
    assert Window(Zeros(n), 0) == Range(0, n);
  }

  /** `bound` failures per window are never exceeded on any run with at most `k` logins of an account in flight. */
  ghost predicate Holds(k: nat, bound: nat) {
    forall start, es, email, from | Legal(Boot(start), es, email) && AtMost(k, Boot(start), es, email) ::
      |Window(Run(Boot(start), es, email).failures, from)| <= bound
  }

  /** The bound `4 + k` is exact. */
  lemma WindowBoundIff(k: nat, bound: nat)
    requires k >= 1
    ensures Holds(k, bound) <==> bound >= 4 + k
  {
    if bound >= 4 + k {
      forall start, es, email, from | Legal(Boot(start), es, email) && AtMost(k, Boot(start), es, email)
        ensures |Window(Run(Boot(start), es, email).failures, from)| <= bound
      {
        FailuresInWindow(start, es, email, k, from);
      }
    } else {
      OverlapReachesBound(4, k);
      assert |Window(Run(Boot(0), Overlap(4, k), 0).failures, 0)| > bound;
    }
  }

  lemma {:induction false} AtMostMore(k: nat, more: nat, w: World, es: seq<Event>, email: Id)
    requires k <= more && AtMost(k, w, es, email)
    ensures AtMost(more, w, es, email)
    decreases |es|
  {
    if es != [] {
      AtMostMore(k, more, Step(w, es[0], email), es[1..], email);
    }
  }

  /** Five tries per fifteen minutes hold on every run exactly if no two logins of an account overlap. */
  lemma FiveHoldsIff(k: nat)
    ensures Holds(k, 5) <==> k <= 1
  {
    if k == 0 {
      forall start, es, email, from | Legal(Boot(start), es, email) && AtMost(0, Boot(start), es, email)
        ensures |Window(Run(Boot(start), es, email).failures, from)| <= 5
      {
        AtMostMore(0, 1, Boot(start), es, email);
        AtMostFiveFailures(start, es, email, from);
      }
    } else {
      WindowBoundIff(k, 5);
    }
  }

  // ---- Who is locked out --------------------------------------------------------------------------------

  /** The last five failures follow each other, and `now` follows the last, within the lockout time. */
  ghost predicate FiveInARow(q: seq<Time>, now: Time) {
    && |q| >= 5 && now - q[|q| - 1] < LOCKOUT_MS
    && forall i | |q| - 4 <= i < |q| :: q[i] - q[i - 1] < LOCKOUT_MS
  }

  /** A lockout needs five failures and a recent one; five in a row always bring it about, whatever interleaves. */
  lemma LockoutNeedsFiveFailures(start: Time, es: seq<Event>, email: Id, now: Time)
    requires Legal(Boot(start), es, email) && Run(Boot(start), es, email).clock <= now
    ensures var w := Run(Boot(start), es, email);
            && (Locked(w.table, email, now) ==>
                  |w.failures| >= 5 && now - w.failures[|w.failures| - 1] < LOCKOUT_MS)
            && (FiveInARow(w.failures, now) ==> Locked(w.table, email, now))
  {
    RunKeepsInv(Boot(start), es, email);
    var w := Run(Boot(start), es, email);
    if email in w.table {
      ElapsedExact(now, w.table[email].last);
      var q, n, c := w.failures, |w.failures|, w.table[email].count;
      assert c < n && c < 5 && n >= 5 ==> q[n - c] - q[n - c - 1] >= LOCKOUT_MS;
    }
  }

  /** The entry of `email` counts every failure since its last success. */
  ghost predicate CountsAll(w: World, email: Id) {
    if email in w.table then
      w.failures != [] && w.table[email] == Attempts(|w.failures|, w.failures[|w.failures| - 1])
    else w.failures == []
  }

  lemma {:induction false} WithoutCleanupCountsAll(w: World, es: seq<Event>, email: Id)
    requires CountsAll(w, email) && forall e <- es :: !e.Cleanup?
    ensures CountsAll(Run(w, es, email), email)
    decreases |es|
  {
    if es != [] {
      assert es[0] in es && forall e <- es[1..] :: e in es;
      WithoutCleanupCountsAll(Step(w, es[0], email), es[1..], email);
    }
  }

  /** Between cleanups failures never grow stale: any five, however far apart, lock while the last is recent. */
  lemma StaleFailuresCount(start: Time, es: seq<Event>, email: Id, now: Time)
    requires forall e <- es :: !e.Cleanup?
    ensures var w := Run(Boot(start), es, email);
            Locked(w.table, email, now) <==> |w.failures| >= 5 && now - w.failures[|w.failures| - 1] < LOCKOUT_MS
  {
    WithoutCleanupCountsAll(Boot(start), es, email);
    var w := Run(Boot(start), es, email);
    if email in w.table {
      ElapsedExact(now, w.table[email].last);
    }
  }
}
