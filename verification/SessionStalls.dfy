/**
 What the stall cleanup does in reachable states, and when a daemon that stopped
 reporting is freed again.
 */
module SessionStalls {
  import opened Common
  import opened Sequences
  import opened Sessions
  import opened SessionInvariants
  import opened SessionRuns
  import opened SessionLedger

  // ---- The stall cleanup -----------------------------------------------------------------

  /** What stays of the last-update times once the sessions `gone` have left. */
  predicate TimeStays(s: State, gone: set<Id>, now: Time, id: Id)
    requires id in s.lastUpdated
  {
    gone == {} || (id !in gone && (id in s.sessions || now - s.lastUpdated[id] < STALL_THRESHOLD))
  }

  predicate OfDaemon(s: State, ids: set<Id>, d: Id)
    requires ids <= s.sessions.Keys
  {
    exists id :: id in ids && s.sessions[id].daemonId == d
  }

  /**
   The sessions `gone` and nothing else left the table, every queue kept its order, the flags of
   their daemons went, their times and the old tombstones went, and each was recorded as failed.
   */
  ghost predicate StallCleaned(s: State, t: State, gone: set<Id>, now: Time)
    requires gone <= s.sessions.Keys
  {
    && t.sessions == s.sessions - gone
    && (forall d :: Queue(t, d) == Keep(Queue(s, d), gone))
    && (forall d :: d in t.flags <==> d in s.flags && !OfDaemon(s, gone, d))
    && (forall d | d in t.flags :: t.flags[d] == s.flags[d])
    && (forall id :: id in t.lastUpdated <==> id in s.lastUpdated && TimeStays(s, gone, now, id))
    && (forall id | id in t.lastUpdated :: t.lastUpdated[id] == s.lastUpdated[id])
    && (forall id | id in gone :: Records(t, id) == Records(s, id) + [FailedRecord(s.sessions[id], now)])
    && (forall id | id !in gone :: Records(t, id) == Records(s, id))
  }

  /** What the stall cleanup does in every state reached with rightly attributed reports. */
  lemma StallCleanupMeaning(es: seq<Step>, now: Time)
    requires Legal(RightDaemon, INIT, es)
    ensures var s := Exec(INIT, es).svc;
            StallCleaned(s, FailStalled(s, now), Stalled(s, now), now)
  {
    RunKeepsIndex(INIT, es);
    FailStalledCleans(Exec(INIT, es).svc, now);
  }

  lemma FailStalledCleans(s: State, now: Time)
    requires Indexed(s)
    ensures StallCleaned(s, FailStalled(s, now), Stalled(s, now), now)
  {
    StalledQueues(s, now);
    StalledUnflagged(s, now);
    StalledTimes(s, now);
    StalledRecords(s, now);
    StalledEffect(s, now);
  }

  lemma StalledUnflagged(s: State, now: Time)
    ensures var t, gone := FailStalled(s, now), Stalled(s, now);
            && (forall d :: d in t.flags <==> d in s.flags && !OfDaemon(s, gone, d))
            && (forall d | d in t.flags :: t.flags[d] == s.flags[d])
  {
    assert forall d :: d in DaemonsOf(s, Stalled(s, now)) <==> OfDaemon(s, Stalled(s, now), d);
  }

  lemma StalledTimes(s: State, now: Time)
    ensures var t, gone := FailStalled(s, now), Stalled(s, now);
            && (forall id :: id in t.lastUpdated <==> id in s.lastUpdated && TimeStays(s, gone, now, id))
            && (forall id | id in t.lastUpdated :: t.lastUpdated[id] == s.lastUpdated[id])
  {
  }

  lemma StalledRecords(s: State, now: Time)
    ensures var t, gone := FailStalled(s, now), Stalled(s, now);
            && (forall id | id in gone :: Records(t, id) == Records(s, id) + [FailedRecord(s.sessions[id], now)])
            && (forall id | id !in gone :: Records(t, id) == Records(s, id))
  {
  }

  lemma StalledQueues(s: State, now: Time)
    requires Indexed(s)
    ensures forall d :: Queue(FailStalled(s, now), d) == Keep(Queue(s, d), Stalled(s, now))
  {
    forall d ensures Queue(FailStalled(s, now), d) == Keep(Queue(s, d), Stalled(s, now)) {
      StalledQueue(s, Stalled(s, now), d);
    }
  }

  lemma StalledQueue(s: State, ids: set<Id>, d: Id)
    requires Indexed(s) && ids <= s.sessions.Keys
    ensures Keep(Queue(s, d), ids) == Keep(Queue(s, d), Of(s, ids, d))
    ensures ids == {} ==> Keep(Queue(s, d), ids) == Queue(s, d)
  {
    var q := Queue(s, d);
    var others := ids - Of(s, ids, d);
    KeepKeep(q, Of(s, ids, d), others);
    assert Of(s, ids, d) + others == ids;
    KeepAll(Keep(q, Of(s, ids, d)), others);
    if ids == {} {
      KeepAll(q, ids);
    }
  }

  // ---- Flags of sessions that did not stall -------------------------------------------------

  /**
   A cleanup takes the flag of a session that is not stalled exactly when a waiting session of
   the same daemon is: one that was put back to waiting after it had been reported on.
   */
  lemma FlagLostIff(es: seq<Step>, now: Time, d: Id)
    requires Legal(OneActive, INIT, es)
    ensures var s := Exec(INIT, es).svc;
            d in s.flags && s.flags[d].1 !in Stalled(s, now) ==>
              (d !in FailStalled(s, now).flags <==>
               exists id :: id in Stalled(s, now) && Waits(s, id) && s.sessions[id].daemonId == d)
  {
    RunKeepsCoherent(INIT, es);
    var s := Exec(INIT, es).svc;
    StalledUnflagged(s, now);
    if d in s.flags && s.flags[d].1 !in Stalled(s, now) {
      OthersStalledWait(s, now, d);
    }
  }

  lemma OthersStalledWait(s: State, now: Time, d: Id)
    requires FlagsNameActive(s) && SingleActive(s) && d in s.flags && s.flags[d].1 !in Stalled(s, now)
    ensures OfDaemon(s, Stalled(s, now), d) <==>
            exists id :: id in Stalled(s, now) && Waits(s, id) && s.sessions[id].daemonId == d
  {
    var f := s.flags[d].1;
    assert ActiveAt(s.sessions, f) && s.sessions[f].daemonId == d;
    forall id | id in Stalled(s, now) && s.sessions[id].daemonId == d ensures Waits(s, id) {
      assert !ActiveAt(s.sessions, id);
    }
  }

  /** Where no dispatch was undone, exactly the flags naming stalled sessions go. */
  lemma StalledFlagsAreTheirOwn(es: seq<Step>, now: Time, d: Id)
    requires Legal(NoneUndone, INIT, es)
    ensures var s := Exec(INIT, es).svc;
            d in FailStalled(s, now).flags <==> d in s.flags && s.flags[d].1 !in Stalled(s, now)
  {
    RunExtended(INIT, es);
    LegalWeaker(NoneUndone, OneActive, INIT, es);
    FlagLostIff(es, now, d);
    var s := Exec(INIT, es).svc;
    StalledUnflagged(s, now);
    if d in s.flags {
      assert ActiveAt(s.sessions, s.flags[d].1) && s.sessions[s.flags[d].1].daemonId == d;
      assert forall id | id in Stalled(s, now) :: !Waits(s, id);
    }
  }

  function Running(sid: Id, d: Id): Session {
    NewSession(sid, d, 0, 0).(phase := Started)
  }

  lemma FourSteps(w: World, a: Step, b: Step, c: Step, d: Step)
    ensures Exec(w, [a, b, c, d]) == Advance(Advance(Advance(Advance(w, a), b), c), d)
    ensures forall g :: Legal(g, w, [a, b, c, d]) <==>
                        && Enabled(g, w, a) && Enabled(g, Advance(w, a), b)
                        && Enabled(g, Advance(Advance(w, a), b), c) && Enabled(g, Advance(Advance(Advance(w, a), b), c), d)
  {
    assert [a, b, c, d][1..] == [b, c, d] && [b, c, d][1..] == [c, d] && [c, d][1..] == [d] && [d][1..] == [];
    var w1 := Advance(w, a);
    var w2 := Advance(w1, b);
    var w3 := Advance(w2, c);
    assert Exec(w1, [b, c, d]) == Exec(w2, [c, d]) == Exec(w3, [d]) == Exec(Advance(w3, d), []);
    forall g ensures Legal(g, w1, [b, c, d]) <==> Enabled(g, w1, b) && Enabled(g, w2, c) && Enabled(g, w3, d) {
      assert Legal(g, w2, [c, d]) <==> Enabled(g, w2, c) && Legal(g, w3, [d]);
      assert Legal(g, w3, [d]) <==> Enabled(g, w3, d) && Legal(g, Advance(w3, d), []);
    }
  }

  const ONE_RUNS := UpdateSession(Running(1, 1), 0)
  const TWO_ENDED := UpdateSession(Running(2, 1).(phase := Complete), 0)
  const THREE_RUNS := UpdateSession(Running(3, 1), 300_001)

  /**
   A session of daemon 1 runs; the late terminal report of an older one puts it back to waiting;
   another one runs and is cancelled; five minutes after its only report the first one stalls.
   */
  function FlagLossRun(): seq<Step> {
    [ONE_RUNS, TWO_ENDED, THREE_RUNS, CancelSession(3)]
  }

  predicate OneRunning(s: State) {
    && s.sessions == map[1 := Running(1, 1)] && s.queues == map[1 := [1]]
    && s.flags == map[] && s.lastUpdated == map[1 := 0]
  }

  predicate OneReleased(s: State) {
    && s.sessions == map[1 := Running(1, 1).(phase := Pending)]
    && s.flags == map[] && s.lastUpdated == map[1 := 0, 2 := 0]
  }

  predicate ThreeFlagged(s: State) {
    && s.sessions == map[1 := Running(1, 1).(phase := Pending), 3 := Running(3, 1)]
    && s.flags == map[1 := (true, 3)] && s.lastUpdated == map[1 := 0, 2 := 0, 3 := 300_001]
  }

  lemma FirstStep()
    ensures Enabled(OneActive, INIT, ONE_RUNS) && OneRunning(Advance(INIT, ONE_RUNS).svc)
  {
    assert [] + [1] == [1];
  }

  lemma SecondStep(w: World)
    requires OneRunning(w.svc)
    ensures Enabled(OneActive, w, TWO_ENDED) && !Enabled(NoneUndone, w, TWO_ENDED)
    ensures OneReleased(Advance(w, TWO_ENDED).svc)
  {
    var s, u := w.svc, TWO_ENDED.report;
    KeepAll([1], {2});
    TerminalSessions(s, u, 0);
    ReportRemembers(s, u, 0);
    ReportFlags(s, u, 0);
  }

  lemma LastTwoSteps(w: World)
    requires OneReleased(w.svc)
    ensures Enabled(OneActive, w, THREE_RUNS) && Enabled(OneActive, Advance(w, THREE_RUNS), CancelSession(3))
    ensures ThreeFlagged(Advance(Advance(w, THREE_RUNS), CancelSession(3)).svc)
  {
    var v := Advance(w, THREE_RUNS).svc;
    assert v.sessions == map[1 := Running(1, 1).(phase := Pending), 3 := Running(3, 1)];
    assert v.flags == map[] && v.lastUpdated == map[1 := 0, 2 := 0, 3 := 300_001];
  }

  lemma FirstStalls(s: State)
    requires ThreeFlagged(s)
    ensures FailStalled(s, 300_001).flags == map[] && ActiveAt(FailStalled(s, 300_001).sessions, 3)
  {
    assert 1 in Stalled(s, 300_001) && 3 !in Stalled(s, 300_001);
    StalledUnflagged(s, 300_001);
    StalledEffect(s, 300_001);
    assert OfDaemon(s, Stalled(s, 300_001), 1);
  }

  /** In that run the cleanup takes the cancellation of session 3, which is live and not stalled. */
  lemma FlagCanBeLost()
    ensures Legal(OneActive, INIT, FlagLossRun()) && !Legal(NoneUndone, INIT, FlagLossRun())
    ensures var s := Exec(INIT, FlagLossRun()).svc; var t := FailStalled(s, 300_001);
            s.flags == map[1 := (true, 3)] && t.flags == map[] && ActiveAt(t.sessions, 3)
  {
    FourSteps(INIT, ONE_RUNS, TWO_ENDED, THREE_RUNS, CancelSession(3));
    FirstStep();
    SecondStep(Advance(INIT, ONE_RUNS));
    LastTwoSteps(Advance(Advance(INIT, ONE_RUNS), TWO_ENDED));
    FirstStalls(Exec(INIT, FlagLossRun()).svc);
  }

  // ---- Waiting sessions that were never reported on ------------------------------------------

  ghost predicate WaitingUntouched(s: State) {
    forall id | Waits(s, id) :: Untouched(s, id)
  }

  /** Without start, finish and update time. */
  predicate Untouched(s: State, id: Id)
    requires id in s.sessions
  {
    s.sessions[id].startedAt == None && s.sessions[id].finishedAt == None && id !in s.lastUpdated
  }

  ghost predicate Extended(w: World) {
    Coherent(w.svc) && w.svc.sessions.Keys <= w.seen && WaitingUntouched(w.svc) && w.svc.lastUpdated.Keys <= w.seen
  }

  /** Only a report makes the last-updated table remember an id. */
  lemma OnlyReportsAreRemembered(s: State, e: Step)
    ensures Next(s, e).lastUpdated.Keys <= s.lastUpdated.Keys + if e.UpdateSession? then {e.report.sessionId} else {}
  {
  }

  lemma StepKeepsUntouched(w: World, e: Step)
    requires Coherent(w.svc) && Enabled(NoneUndone, w, e)
    requires WaitingUntouched(w.svc) && w.svc.lastUpdated.Keys <= w.seen
    ensures WaitingUntouched(Next(w.svc, e)) && Next(w.svc, e).lastUpdated.Keys <= Advance(w, e).seen
  {
    StepEffect(w, e);
    OnlyReportsAreRemembered(w.svc, e);
    EffectKeepsUntouched(w, e, Next(w.svc, e));
  }

  lemma EffectKeepsUntouched(w: World, e: Step, t: State)
    requires Effect(w.svc, e, t.sessions) && Enabled(NoneUndone, w, e)
    requires WaitingUntouched(w.svc) && w.svc.lastUpdated.Keys <= w.seen
    requires t.lastUpdated.Keys <= w.svc.lastUpdated.Keys + if e.UpdateSession? then {e.report.sessionId} else {}
    ensures WaitingUntouched(t) && t.lastUpdated.Keys <= Advance(w, e).seen
  {
    forall id | Waits(t, id) ensures Untouched(t, id) {
      if !(e.StartSession? && e.sid == id) {
        assert Waits(w.svc, id);
      }
    }
  }

  lemma {:induction false} RunExtended(w: World, es: seq<Step>)
    requires Extended(w) && Legal(NoneUndone, w, es)
    ensures Extended(Exec(w, es))
    decreases |es|
  {
    if es != [] {
      StepKeeps(w, es[0]);
      StepStaysSeen(NoneUndone, w, es[0]);
      StepKeepsUntouched(w, es[0]);
      RunExtended(Advance(w, es[0]), es[1..]);
    }
  }
}
