/**
 When a daemon whose session went silent is freed again, by itself or by others, and when a
 report takes a running session back.
 */
module SessionRecovery {
  import opened Common
  import opened Sequences
  import opened Sessions
  import opened SessionInvariants
  import opened SessionRuns
  import opened SessionLedger
  import opened SessionStalls

  // ---- What the stall cleanup frees ---------------------------------------------------------

  /** A cleanup frees a busy daemon exactly when the daemon's active session is stalled. */
  lemma CleanupFreesIff(s: State, sid: Id, now: Time)
    requires Coherent(s) && ActiveAt(s.sessions, sid)
    ensures !HasActive(FailStalled(s, now), s.sessions[sid].daemonId) <==> sid in Stalled(s, now)
  {
    StalledEffect(s, now);
    StalledKeepsIndex(s, now);
    ActiveCheckIsScan(FailStalled(s, now), s.sessions[sid].daemonId);
    RemovalFreesIff(s, Stalled(s, now), FailStalled(s, now), sid);
  }

  lemma RemovalFreesIff(s: State, ids: set<Id>, t: State, sid: Id)
    requires SingleActive(s) && ActiveAt(s.sessions, sid) && t.sessions == s.sessions - ids
    ensures (exists id :: ActiveAt(t.sessions, id) && t.sessions[id].daemonId == s.sessions[sid].daemonId) <==> sid !in ids
  {
    if sid in ids {
      forall id | ActiveAt(t.sessions, id) ensures t.sessions[id].daemonId != s.sessions[sid].daemonId {
        assert ActiveAt(s.sessions, id);
      }
    } else {
      assert ActiveAt(t.sessions, sid);
    }
  }

  /** Some later cleanup does so exactly when the session has an update or a start time. */
  lemma RecoversByItselfIff(s: State, sid: Id)
    requires Coherent(s) && ActiveAt(s.sessions, sid)
    ensures (exists now :: !HasActive(FailStalled(s, now), s.sessions[sid].daemonId)) <==>
            sid in s.lastUpdated || s.sessions[sid].startedAt.Some?
  {
    var d := s.sessions[sid].daemonId;
    forall now ensures !HasActive(FailStalled(s, now), d) <==> sid in Stalled(s, now) {
      CleanupFreesIff(s, sid, now);
    }
    if sid in s.lastUpdated || s.sessions[sid].startedAt.Some? {
      var since := if sid in s.lastUpdated then s.lastUpdated[sid] else s.sessions[sid].startedAt.value;
      var now := since + STALL_THRESHOLD + 1;
      assert sid in Stalled(s, now);
      assert !HasActive(FailStalled(s, now), d);
    }
  }

  /** A terminal report about the active session frees its daemon. */
  lemma TerminalReportUnblocks(s: State, u: Session, now: Time)
    requires Coherent(s) && ActiveAt(s.sessions, u.sessionId) && SameDaemon(s, u) && u.phase.Terminal()
    ensures !HasActive(Report(s, u, now), u.daemonId)
  {
    var t := Report(s, u, now);
    OnlyActive(s, u);
    WellFormedIsOrderly(s, u);
    ReportKeeps(s, u, now);
    ReportEffect(s, u, now);
    ActiveCheckIsScan(t, u.daemonId);
    forall id | ActiveAt(t.sessions, id) ensures t.sessions[id].daemonId != u.daemonId {
      assert ActiveAt(s.sessions, id);
    }
  }

  lemma OnlyActive(s: State, u: Session)
    requires SingleActive(s) && ActiveAt(s.sessions, u.sessionId) && SameDaemon(s, u)
    ensures NoOtherActive(s, u)
  {
    forall id | id in s.sessions && id != u.sessionId && s.sessions[id].daemonId == u.daemonId
      ensures !s.sessions[id].phase.Active()
    {
      assert ActiveAt(s.sessions, id) ==> id == u.sessionId;
    }
  }

  // ---- A dispatch that never reaches its daemon ----------------------------------------------

  /** Handed out and not heard of: starting, at the head of its queue, without any time. */
  ghost predicate Lost(s: State, sid: Id) {
    && sid in s.sessions && s.sessions[sid].phase == Starting && Untouched(s, sid)
    && Queue(s, s.sessions[sid].daemonId) != [] && Queue(s, s.sessions[sid].daemonId)[0] == sid
  }

  /** A report about it, a clear of its daemon, or a processed terminal report of another session of its daemon. */
  predicate Frees(s: State, e: Step, sid: Id)
    requires sid in s.sessions
  {
    || About(e, sid)
    || e == ClearDaemon(s.sessions[sid].daemonId)
    || (e.UpdateSession? && e.report.phase.Terminal() && e.report.daemonId == s.sessions[sid].daemonId && !Absorbed(s, e.report))
  }

  lemma KeepHead(q: seq<Id>, ids: set<Id>)
    requires q != [] && q[0] !in ids
    ensures Keep(q, ids) != [] && Keep(q, ids)[0] == q[0]
  {
  }

  /** Removing other sessions leaves a lost one lost. */
  lemma RemovalKeepsLost(s: State, ids: set<Id>, t: State, sid: Id)
    requires Lost(s, sid) && ids <= s.sessions.Keys && sid !in ids
    requires t.sessions == s.sessions - ids && t.queues == Dequeue(s, ids) && sid !in t.lastUpdated
    ensures Lost(t, sid)
  {
    KeepHead(Queue(s, s.sessions[sid].daemonId), Of(s, ids, s.sessions[sid].daemonId));
  }

  /** So does anything that leaves it, and the head of its queue, as they are. */
  lemma FrameKeepsLost(s: State, t: State, sid: Id)
    requires Lost(s, sid) && sid in t.sessions && t.sessions[sid] == s.sessions[sid] && sid !in t.lastUpdated
    requires Queue(s, s.sessions[sid].daemonId) <= Queue(t, s.sessions[sid].daemonId)
    ensures Lost(t, sid)
  {
  }

  lemma WorkKeepsLost(s: State, d: Id, sid: Id)
    requires Coherent(s) && Lost(s, sid)
    ensures Lost(Work(s, d).0, sid) && Lost(PullCancellation(Work(s, d).0, d).0, sid)
  {
    WorkHandsOutFirst(s, d);
    FrameKeepsLost(s, Work(s, d).0, sid);
    FrameKeepsLost(s, PullCancellation(Work(s, d).0, d).0, sid);
  }

  lemma CancelKeepsLost(s: State, id: Id, sid: Id)
    requires Coherent(s) && Lost(s, sid)
    ensures Lost(Cancel(s, id).0, sid)
  {
    if Waits(s, id) {
      DequeueOne(s, id);
      RemovalKeepsLost(s, {id}, Cancel(s, id).0, sid);
    } else {
      FrameKeepsLost(s, Cancel(s, id).0, sid);
    }
  }

  lemma ClearKeepsLostIff(s: State, d: Id, sid: Id)
    requires Indexed(s) && Lost(s, sid)
    ensures Lost(Clear(s, d), sid) <==> d != s.sessions[sid].daemonId
  {
    if d == s.sessions[sid].daemonId {
      assert sid in Elements(Queue(s, d));
    } else {
      assert sid !in Queue(s, d);
      FrameKeepsLost(s, Clear(s, d), sid);
    }
  }

  lemma StartKeepsLost(s: State, e: Step, sid: Id)
    requires e.StartSession? && e.sid !in s.sessions && Lost(s, sid)
    ensures Lost(Next(s, e), sid)
  {
    FrameKeepsLost(s, Next(s, e), sid);
  }

  lemma AgeOutKeepsLost(s: State, cutoff: Time, sid: Id)
    requires Lost(s, sid)
    ensures Lost(AgeOut(s, cutoff), sid)
  {
    RemovalKeepsLost(s, Outdated(s, cutoff), AgeOut(s, cutoff), sid);
  }

  lemma StalledKeepsLost(s: State, now: Time, sid: Id)
    requires Lost(s, sid)
    ensures Lost(FailStalled(s, now), sid)
  {
    if Stalled(s, now) != {} {
      RemovalKeepsLost(s, Stalled(s, now), FailStalled(s, now), sid);
    }
  }

  /** A report about another session frees the lost one exactly by ending a session of its daemon. */
  lemma OtherReportKeepsLostIff(s: State, u: Session, now: Time, sid: Id)
    requires Indexed(s) && SameDaemon(s, u) && Lost(s, sid) && u.sessionId != sid
    ensures Lost(Report(s, u, now), sid) <==> !Frees(s, UpdateSession(u, now), sid)
  {
    if u.phase.Terminal() && !Absorbed(s, u) {
      if u.daemonId == s.sessions[sid].daemonId {
        EndingReleases(s, u, now, sid);
      } else {
        EndingElsewhereKeepsLost(s, u, now, sid);
      }
    } else {
      StoringKeepsLost(s, u, now, sid);
    }
  }

  lemma EndingReleases(s: State, u: Session, now: Time, sid: Id)
    requires Lost(s, sid) && u.sessionId != sid && u.daemonId == s.sessions[sid].daemonId
    requires u.phase.Terminal() && !Absorbed(s, u)
    ensures Waits(Report(s, u, now), sid)
  {
    TerminalSessions(s, u, now);
    KeepHead(Queue(s, u.daemonId), {u.sessionId});
  }

  lemma EndingElsewhereKeepsLost(s: State, u: Session, now: Time, sid: Id)
    requires Indexed(s) && SameDaemon(s, u) && Lost(s, sid) && u.daemonId != s.sessions[sid].daemonId
    requires u.phase.Terminal() && !Absorbed(s, u)
    ensures Lost(Report(s, u, now), sid)
  {
    ReportRemembers(s, u, now);
    ReportedQueues(s, u, now);
    TerminalSessions(s, u, now);
    OtherQueue(s, u, sid);
    FrameKeepsLost(s, Report(s, u, now), sid);
  }

  lemma StoringKeepsLost(s: State, u: Session, now: Time, sid: Id)
    requires Lost(s, sid) && u.sessionId != sid && (!u.phase.Terminal() || Absorbed(s, u))
    ensures Lost(Report(s, u, now), sid)
  {
    ReportRemembers(s, u, now);
    FrameKeepsLost(s, Report(s, u, now), sid);
  }

  lemma OtherQueue(s: State, u: Session, sid: Id)
    requires Indexed(s) && SameDaemon(s, u) && sid in s.sessions && s.sessions[sid].daemonId != u.daemonId
    ensures sid !in Keep(Queue(s, u.daemonId), {u.sessionId})
    ensures u.sessionId in s.sessions ==>
              Queue(s.(queues := Dequeue(s, {u.sessionId})), s.sessions[sid].daemonId) == Queue(s, s.sessions[sid].daemonId)
  {
    if u.sessionId in s.sessions {
      DequeueOne(s, u.sessionId);
    }
  }

  lemma ReportKeepsLostIff(s: State, u: Session, now: Time, sid: Id)
    requires Indexed(s) && SameDaemon(s, u) && Lost(s, sid)
    ensures Lost(Report(s, u, now), sid) <==> !Frees(s, UpdateSession(u, now), sid)
  {
    if u.sessionId == sid {
      ReportRemembers(s, u, now);
    } else {
      OtherReportKeepsLostIff(s, u, now, sid);
    }
  }

  /** Every step but a report or a clear leaves a lost session lost. */
  lemma OtherStepKeepsLost(w: World, e: Step, sid: Id)
    requires Coherent(w.svc) && w.svc.sessions.Keys <= w.seen && Enabled(OneActive, w, e) && Lost(w.svc, sid)
    requires !e.UpdateSession? && !e.ClearDaemon?
    ensures Lost(Next(w.svc, e), sid)
  {
    var s := w.svc;
    match e
    case StartSession(_, _, _, _) => StartKeepsLost(s, e, sid);
    case RequestWork(d) => WorkKeepsLost(s, d, sid);
    case DispatchWork(d) => WorkKeepsLost(s, d, sid);
    case CancelSession(id) => CancelKeepsLost(s, id, sid);
    case CleanupOld(cutoff) => AgeOutKeepsLost(s, cutoff, sid);
    case CleanupStalled(now) => StalledKeepsLost(s, now, sid);
    case _ =>
  }

  /** Exactly these steps end the loss of a session. */
  lemma LostEndsIff(w: World, e: Step, sid: Id)
    requires Coherent(w.svc) && w.svc.sessions.Keys <= w.seen && Enabled(OneActive, w, e) && Lost(w.svc, sid)
    ensures Lost(Next(w.svc, e), sid) <==> !Frees(w.svc, e, sid)
  {
    match e
    case UpdateSession(u, now) => ReportKeepsLostIff(w.svc, u, now, sid);
    case ClearDaemon(d) => ClearKeepsLostIff(w.svc, d, sid);
    case _ => OtherStepKeepsLost(w, e, sid);
  }

  /** While it is lost its daemon gets no work and it cannot be cancelled. */
  lemma LostBlocks(s: State, sid: Id)
    requires Lost(s, sid)
    ensures Work(s, s.sessions[sid].daemonId) == (s, None)
    ensures Cancel(s, sid) == (s, StillStarting)
  {
    assert ActiveAt(s.sessions, sid) && sid in Queue(s, s.sessions[sid].daemonId);
  }

  // ---- Over whole runs --------------------------------------------------------------------------

  ghost predicate LostThroughout(w: World, es: seq<Step>, sid: Id)
    decreases |es|
  {
    Lost(w.svc, sid) && (es != [] ==> LostThroughout(Advance(w, es[0]), es[1..], sid))
  }

  ghost predicate FreedNever(w: World, es: seq<Step>, sid: Id)
    decreases |es|
  {
    es != [] ==> sid in w.svc.sessions && !Frees(w.svc, es[0], sid) && FreedNever(Advance(w, es[0]), es[1..], sid)
  }

  /** Over every run without second active sessions, a session stays lost exactly until a freeing step. */
  lemma {:induction false} LostThroughoutIff(w: World, es: seq<Step>, sid: Id)
    requires Coherent(w.svc) && w.svc.sessions.Keys <= w.seen && Legal(OneActive, w, es) && Lost(w.svc, sid)
    ensures LostThroughout(w, es, sid) <==> FreedNever(w, es, sid)
    decreases |es|
  {
    if es != [] {
      LostEndsIff(w, es[0], sid);
      StepKeeps(w, es[0]);
      StepStaysSeen(OneActive, w, es[0]);
      if Lost(Next(w.svc, es[0]), sid) {
        LostThroughoutIff(Advance(w, es[0]), es[1..], sid);
      }
    }
  }

  predicate NeverTouched(es: seq<Step>, sid: Id, d: Id) {
    forall e | e in es :: !About(e, sid) && e != ClearDaemon(d)
  }

  lemma NeverTouchedSplits(es: seq<Step>, sid: Id, d: Id)
    requires es != []
    ensures NeverTouched(es, sid, d) <==> !About(es[0], sid) && es[0] != ClearDaemon(d) && NeverTouched(es[1..], sid, d)
  {
    assert forall e :: e in es <==> e == es[0] || e in es[1..];
  }

  /** Once reported on or cleared: if live, then remembered. */
  predicate Heard(s: State, sid: Id) {
    sid in s.sessions ==> sid in s.lastUpdated
  }

  lemma StepKeepsHeard(w: World, e: Step, sid: Id)
    requires Heard(w.svc, sid) && sid in w.seen && Enabled(AnyReport, w, e)
    ensures Heard(Next(w.svc, e), sid)
  {
    var s := w.svc;
    match e
    case RequestWork(d) => WorkKeys(s, d);
    case DispatchWork(d) => WorkKeys(s, d);
    case UpdateSession(u, now) => ReportKeys(s, u, now); ReportRemembers(s, u, now);
    case CleanupStalled(now) => StalledEffect(s, now); StalledTimes(s, now);
    case _ =>
  }

  lemma {:induction false} RunKeepsHeard(w: World, es: seq<Step>, sid: Id)
    requires Heard(w.svc, sid) && sid in w.seen && Legal(AnyReport, w, es)
    ensures Heard(Exec(w, es).svc, sid)
    decreases |es|
  {
    if es != [] {
      StepKeepsHeard(w, es[0], sid);
      RunKeepsHeard(Advance(w, es[0]), es[1..], sid);
    }
  }

  /** Where no dispatch gets undone, only a report about the session or a clear frees it, and it is heard of at once. */
  lemma FreedIsHeard(w: World, e: Step, sid: Id)
    requires Coherent(w.svc) && Enabled(NoneUndone, w, e) && Lost(w.svc, sid)
    ensures Frees(w.svc, e, sid) <==> About(e, sid) || e == ClearDaemon(w.svc.sessions[sid].daemonId)
    ensures Frees(w.svc, e, sid) ==> Heard(Next(w.svc, e), sid)
  {
    match e
    case UpdateSession(u, now) => FreedByReport(w.svc, u, now, sid);
    case ClearDaemon(d) => ClearIsHeard(w.svc, d, sid);
    case _ =>
  }

  lemma FreedByReport(s: State, u: Session, now: Time, sid: Id)
    requires Orderly(s, u) && Lost(s, sid)
    ensures Frees(s, UpdateSession(u, now), sid) <==> u.sessionId == sid
    ensures u.sessionId == sid ==> Heard(Report(s, u, now), sid)
  {
    ReportRemembers(s, u, now);
    if u.sessionId != sid {
      OrderlyEndsOthers(s, u, sid);
    }
  }

  lemma OrderlyEndsOthers(s: State, u: Session, sid: Id)
    requires Lost(s, sid) && u.sessionId != sid && !Undoes(s, u)
    ensures u.daemonId == s.sessions[sid].daemonId && u.phase.Terminal() ==> Absorbed(s, u)
  {
    if u.daemonId == s.sessions[sid].daemonId {
      KeepHead(Queue(s, u.daemonId), {u.sessionId});
      assert ActiveAt(s.sessions, sid);
    }
  }

  lemma ClearIsHeard(s: State, d: Id, sid: Id)
    requires Lost(s, sid)
    ensures d == s.sessions[sid].daemonId ==> Heard(Clear(s, d), sid)
  {
    assert d == s.sessions[sid].daemonId ==> sid in Elements(Queue(s, d));
  }

  /**
   Over every run in which no dispatch is undone, a lost session is lost at the end if and only
   if nobody ever reported on it or cleared its daemon.
   */
  lemma {:induction false} LostIffNeverTouched(w: World, es: seq<Step>, sid: Id)
    requires Coherent(w.svc) && w.svc.sessions.Keys <= w.seen && Legal(NoneUndone, w, es) && Lost(w.svc, sid)
    ensures Lost(Exec(w, es).svc, sid) <==> NeverTouched(es, sid, w.svc.sessions[sid].daemonId)
    ensures NeverTouched(es, sid, w.svc.sessions[sid].daemonId) ==> Exec(w, es).svc.sessions[sid].daemonId == w.svc.sessions[sid].daemonId
    decreases |es|
  {
    if es != [] {
      var e := es[0];
      NeverTouchedSplits(es, sid, w.svc.sessions[sid].daemonId);
      LostEndsIff(w, e, sid);
      FreedIsHeard(w, e, sid);
      if Frees(w.svc, e, sid) {
        LegalWeaker(NoneUndone, AnyReport, w, es);
        RunKeepsHeard(Advance(w, e), es[1..], sid);
      } else {
        UnfreedStays(w, e, sid);
        StepKeeps(w, e);
        StepStaysSeen(NoneUndone, w, e);
        LostIffNeverTouched(Advance(w, e), es[1..], sid);
      }
    }
  }

  lemma UnfreedStays(w: World, e: Step, sid: Id)
    requires Coherent(w.svc) && Enabled(NoneUndone, w, e) && w.svc.sessions.Keys <= w.seen && Lost(w.svc, sid)
    requires !Frees(w.svc, e, sid) && sid in Next(w.svc, e).sessions
    ensures Next(w.svc, e).sessions[sid] == w.svc.sessions[sid]
  {
    StepEffect(w, e);
  }

  /** A session just handed out, and never reported on before, is lost until it is heard of. */
  lemma DispatchedIsLost(s: State, d: Id, sid: Id)
    requires Coherent(s) && Work(s, d).1.Some? && sid == Work(s, d).1.value.sessionId
    requires sid in s.sessions && Untouched(s, sid)
    ensures Lost(Work(s, d).0, sid)
  {
    WorkHandsOutFirst(s, d);
  }

  /**
   A session handed out whose request does not arrive blocks its daemon until it is reported on
   or its daemon is cleared, and no longer: exactly until then it stays lost, and as long as it
   is, the daemon is handed nothing more and the session cannot be cancelled.
   */
  lemma LostDispatchBlocksDaemon(es: seq<Step>, d: Id, later: seq<Step>)
    requires Legal(NoneUndone, INIT, es) && Work(Exec(INIT, es).svc, d).1.Some?
    requires Legal(NoneUndone, Advance(Exec(INIT, es), DispatchWork(d)), later)
    ensures var sid := Work(Exec(INIT, es).svc, d).1.value.sessionId;
            var s := Exec(Advance(Exec(INIT, es), DispatchWork(d)), later).svc;
            && (Lost(s, sid) <==> NeverTouched(later, sid, d))
            && (Lost(s, sid) ==> Work(s, d) == (s, None) && Cancel(s, sid) == (s, StillStarting))
  {
    RunExtended(INIT, es);
    var w := Exec(INIT, es);
    var w' := Advance(w, DispatchWork(d));
    WorkHandsOutFirst(w.svc, d);
    var sid := Work(w.svc, d).1.value.sessionId;
    assert Waits(w.svc, sid);
    DispatchedIsLost(w.svc, d, sid);
    StepKeeps(w, DispatchWork(d));
    StepStaysSeen(NoneUndone, w, DispatchWork(d));
    LostIffNeverTouched(w', later, sid);
    if Lost(Exec(w', later).svc, sid) {
      LostBlocks(Exec(w', later).svc, sid);
    }
  }

  // ---- When a report takes a session back -------------------------------------------------

  /**
   A daemon report puts a running session back to waiting exactly when it ends a session while
   another one, running, heads the rest of the queue.
   */
  lemma ReportUndoesDispatchIff(s: State, u: Session, now: Time)
    requires Coherent(s) && SameDaemon(s, u) && u.phase != Pending
    ensures (exists id :: ActiveAt(s.sessions, id) && Waits(Report(s, u, now), id)) <==> Undoes(s, u)
  {
    if u.phase.Terminal() && !Absorbed(s, u) {
      TerminalSessions(s, u, now);
      var rest := Keep(Queue(s, u.daemonId), {u.sessionId});
      if rest != [] {
        assert rest[0] in rest && rest[0] in Queue(s, u.daemonId) && rest[0] in s.queues[u.daemonId];
      }
      ReleasedIff(rest, s.sessions, u, Report(s, u, now));
    }
  }

  lemma ReleasedIff(rest: seq<Id>, sessions: map<Id, Session>, u: Session, t: State)
    requires u.phase != Pending && u.sessionId !in rest && (rest != [] ==> rest[0] in sessions)
    requires t.sessions == HeadToPending(rest, sessions[u.sessionId := u]) - {u.sessionId}
    ensures (exists id :: ActiveAt(sessions, id) && Waits(t, id)) <==> rest != [] && ActiveAt(sessions, rest[0])
  {
    if rest != [] {
      assert rest[0] != u.sessionId;
      assert Waits(t, rest[0]);
    }
  }

  /** And then that session, still running on the daemon, is what the daemon's next request is handed. */
  lemma UndoneIsHandedAgain(s: State, u: Session, now: Time)
    requires Coherent(s) && SameDaemon(s, u) && Undoes(s, u)
    ensures var rest := Keep(Queue(s, u.daemonId), {u.sessionId}); var t := Report(s, u, now);
            && ActiveAt(s.sessions, rest[0]) && s.sessions[rest[0]].daemonId == u.daemonId
            && Work(t, u.daemonId).1 == Some(s.sessions[rest[0]].(phase := Pending))
  {
    UndoneHead(s, u, now);
    UndoneIsIdle(s, u, now);
    UndoneQueue(s, u, now);
    ReportKeeps(s, u, now);
    WorkHandsOutFirst(Report(s, u, now), u.daemonId);
  }

  lemma UndoneHead(s: State, u: Session, now: Time)
    requires Indexed(s) && Undoes(s, u)
    ensures var head := Keep(Queue(s, u.daemonId), {u.sessionId})[0]; var t := Report(s, u, now);
            && head in s.sessions && s.sessions[head].daemonId == u.daemonId
            && head in t.sessions && t.sessions[head] == s.sessions[head].(phase := Pending)
            && forall id | id in t.sessions && id != head :: id in s.sessions && t.sessions[id] == s.sessions[id]
  {
    var rest := Keep(Queue(s, u.daemonId), {u.sessionId});
    assert rest[0] in rest && rest[0] in s.queues[u.daemonId];
    TerminalSessions(s, u, now);
  }

  lemma UndoneIsIdle(s: State, u: Session, now: Time)
    requires Coherent(s) && SameDaemon(s, u) && Undoes(s, u)
    ensures !HasActive(Report(s, u, now), u.daemonId)
  {
    var t, head := Report(s, u, now), Keep(Queue(s, u.daemonId), {u.sessionId})[0];
    UndoneHead(s, u, now);
    ReportKeepsIndexIff(s, u, now);
    ActiveCheckIsScan(t, u.daemonId);
    forall id | ActiveAt(t.sessions, id) ensures t.sessions[id].daemonId != u.daemonId {
      assert ActiveAt(s.sessions, id) && ActiveAt(s.sessions, head);
    }
  }

  lemma UndoneQueue(s: State, u: Session, now: Time)
    requires Indexed(s) && SameDaemon(s, u) && Undoes(s, u)
    ensures Queue(Report(s, u, now), u.daemonId) == Keep(Queue(s, u.daemonId), {u.sessionId})
  {
    ReportedQueues(s, u, now);
    if u.sessionId in s.sessions {
      DequeueOne(s, u.sessionId);
    } else {
      assert u.sessionId !in Queue(s, u.daemonId);
      KeepAll(Queue(s, u.daemonId), {u.sessionId});
    }
  }
}
