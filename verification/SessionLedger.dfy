/**
 Bookkeeping laws over whole runs: what comes in goes out once, and repeated terminal
 reports change nothing.
 */
module SessionLedger {
  import opened Common
  import opened Sequences
  import opened Sessions
  import opened SessionInvariants
  import opened SessionRuns

  // ---- Conservation ---------------------------------------------------------------

  datatype Exit = ByReport | ByStall | ByCancel | ByAge | ByClear

  /** Ids whose entry a step creates: a start, or a report about an unknown session. */
  function Enters(s: State, e: Step): set<Id> {
    match e
    case StartSession(sid, _, _, _) => {sid}
    case UpdateSession(u, _) => if u.sessionId !in s.sessions && !Absorbed(s, u) then {u.sessionId} else {}
    case _ => {}
  }

  /** Ids whose entry a step ends, by the way it ends. */
  function Leaves(s: State, e: Step, x: Exit): set<Id> {
    match (x, e)
    case (ByReport, UpdateSession(u, _)) => if u.phase.Terminal() && !Absorbed(s, u) then {u.sessionId} else {}
    case (ByStall, CleanupStalled(now)) => Stalled(s, now)
    case (ByCancel, CancelSession(sid)) => if Waits(s, sid) then {sid} else {}
    case (ByAge, CleanupOld(cutoff)) => Outdated(s, cutoff)
    case (ByClear, ClearDaemon(d)) => Elements(Queue(s, d)) * s.sessions.Keys
    case _ => {}
  }

  function One(b: bool): nat {
    if b then 1 else 0
  }

  function LeavesAnyhow(s: State, e: Step, id: Id): nat {
    One(id in Leaves(s, e, ByReport)) + One(id in Leaves(s, e, ByStall)) + One(id in Leaves(s, e, ByCancel))
    + One(id in Leaves(s, e, ByAge)) + One(id in Leaves(s, e, ByClear))
  }

  function Entries(w: World, es: seq<Step>, id: Id): nat
    decreases |es|
  {
    if es == [] then 0 else One(id in Enters(w.svc, es[0])) + Entries(Advance(w, es[0]), es[1..], id)
  }

  function Exits(w: World, es: seq<Step>, id: Id, x: Exit): nat
    decreases |es|
  {
    if es == [] then 0 else One(id in Leaves(w.svc, es[0], x)) + Exits(Advance(w, es[0]), es[1..], id, x)
  }

  lemma StepBalance(w: World, e: Step, id: Id)
    requires w.svc.sessions.Keys <= w.seen && Enabled(AnyReport, w, e)
    ensures One(id in Next(w.svc, e).sessions) + LeavesAnyhow(w.svc, e, id)
            == One(id in w.svc.sessions) + One(id in Enters(w.svc, e))
  {
    var s := w.svc;
    match e
    case RequestWork(d) => WorkKeys(s, d);
    case DispatchWork(d) => WorkKeys(s, d);
    case UpdateSession(u, now) => ReportKeys(s, u, now);
    case CancelSession(sid) => CancelBalance(s, sid, id);
    case CleanupStalled(now) => StalledEffect(s, now);
    case _ =>
  }

  lemma CancelBalance(s: State, sid: Id, id: Id)
    ensures id in Cancel(s, sid).0.sessions <==> id in s.sessions && !(id == sid && Waits(s, sid))
  {
  }

  lemma StepRecords(s: State, e: Step, id: Id)
    ensures |Records(Next(s, e), id)| == |Records(s, id)| + One(id in Leaves(s, e, ByReport)) + One(id in Leaves(s, e, ByStall))
    ensures Records(s, id) <= Records(Next(s, e), id)
  {
  }

  /**
   Along any run, entries equal exits plus what is live, and records equal processed plus
   stalled exits.  Nothing is asked of the reports.
   */
  lemma {:induction false} RunBalance(w: World, es: seq<Step>, id: Id)
    requires w.svc.sessions.Keys <= w.seen && Legal(AnyReport, w, es)
    ensures One(id in w.svc.sessions) + Entries(w, es, id)
            == One(id in Exec(w, es).svc.sessions)
               + Exits(w, es, id, ByReport) + Exits(w, es, id, ByStall) + Exits(w, es, id, ByCancel)
               + Exits(w, es, id, ByAge) + Exits(w, es, id, ByClear)
    ensures |Records(Exec(w, es).svc, id)|
            == |Records(w.svc, id)| + Exits(w, es, id, ByReport) + Exits(w, es, id, ByStall)
    decreases |es|
  {
    if es != [] {
      StepStaysSeen(AnyReport, w, es[0]);
      StepBalance(w, es[0], id);
      StepRecords(w.svc, es[0], id);
      RunBalance(Advance(w, es[0]), es[1..], id);
    }
  }

  lemma Conservation(es: seq<Step>, id: Id)
    requires Legal(AnyReport, INIT, es)
    ensures Entries(INIT, es, id)
            == One(id in Exec(INIT, es).svc.sessions)
               + Exits(INIT, es, id, ByReport) + Exits(INIT, es, id, ByStall) + Exits(INIT, es, id, ByCancel)
               + Exits(INIT, es, id, ByAge) + Exits(INIT, es, id, ByClear)
    ensures |Records(Exec(INIT, es).svc, id)| == Exits(INIT, es, id, ByReport) + Exits(INIT, es, id, ByStall)
  {
    RunBalance(INIT, es, id);
  }

  /** With an exact index, the sessions that leave by a clear are all of the daemon's. */
  lemma ClearedAreAll(s: State, d: Id)
    requires Indexed(s)
    ensures Leaves(s, ClearDaemon(d), ByClear) == AllOf(s, d)
  {
    ClearIsScan(s, d);
    assert forall id | id in s.sessions :: id in Elements(Queue(s, d)) <==> id !in Clear(s, d).sessions.Keys;
  }

  // ---- Tombstones -------------------------------------------------------------------

  /** Processed and removed, but still remembered by its last update time. */
  ghost predicate Tombstone(s: State, sid: Id) {
    Unlisted(s, sid) && sid in s.lastUpdated
  }

  ghost predicate Unlisted(s: State, sid: Id) {
    sid !in s.sessions && forall d | d in s.queues :: sid !in s.queues[d]
  }

  /** Equal in everything but the last update time of `sid`. */
  ghost predicate SameBut(s: State, t: State, sid: Id) {
    s.(lastUpdated := map[]) == t.(lastUpdated := map[]) && s.lastUpdated - {sid} == t.lastUpdated - {sid}
  }

  function Run(s: State, es: seq<Step>): State
    decreases |es|
  {
    if es == [] then s else Run(Next(s, es[0]), es[1..])
  }

  predicate About(e: Step, sid: Id) {
    e.UpdateSession? && e.report.sessionId == sid
  }

  function WithoutReports(es: seq<Step>, sid: Id): seq<Step> {
    if es == [] then [] else
      (if About(es[0], sid) then [] else [es[0]]) + WithoutReports(es[1..], sid)
  }

  /** `sid` is not started anew, its reports are terminal, and no cleanup evicts its tombstone. */
  ghost predicate Shielded(s: State, es: seq<Step>, sid: Id)
    decreases |es|
  {
    es != [] ==>
      var e := es[0];
      && (e.StartSession? ==> e.sid != sid)
      && (About(e, sid) ==> e.report.phase.Terminal())
      && (e.CleanupStalled? && sid in s.lastUpdated ==>
            Stalled(s, e.now) == {} || e.now - s.lastUpdated[sid] < STALL_THRESHOLD)
      && Shielded(Next(s, e), es[1..], sid)
  }

  lemma TerminalReportLeavesTombstone(s: State, u: Session, now: Time)
    requires KeysMatch(s) && Indexed(s) && SameDaemon(s, u) && u.phase.Terminal()
    ensures Tombstone(Report(s, u, now), u.sessionId) && Report(s, u, now).lastUpdated[u.sessionId] == now
  {
    ReportKeys(s, u, now);
    ReportKeepsIndexIff(s, u, now);
    UnlistedIff(Report(s, u, now), u.sessionId);
    ReportRemembers(s, u, now);
  }

  lemma UnlistedIff(s: State, sid: Id)
    requires Indexed(s)
    ensures Unlisted(s, sid) <==> sid !in s.sessions
  {
  }

  lemma ReportRemembers(s: State, u: Session, now: Time)
    ensures Report(s, u, now).lastUpdated == s.lastUpdated[u.sessionId := now]
  {
  }

  lemma ElsewhereKeepsUnlisted(s: State, e: Step, sid: Id)
    requires Unlisted(s, sid) && !About(e, sid) && !(e.StartSession? && e.sid == sid)
    ensures Unlisted(Next(s, e), sid)
  {
    if e.UpdateSession? {
      OtherReportKeepsUnlisted(s, e.report, e.now, sid);
    }
  }

  lemma OtherReportKeepsUnlisted(s: State, u: Session, now: Time, sid: Id)
    requires Unlisted(s, sid) && u.sessionId != sid
    ensures Unlisted(Report(s, u, now), sid)
  {
    var v := Stored(s, u, now);
    assert Unlisted(v, sid);
    assert sid !in Queue(v, u.daemonId);
  }

  lemma ElsewhereKeepsTombstone(s: State, e: Step, sid: Id)
    requires Tombstone(s, sid) && !About(e, sid) && !(e.StartSession? && e.sid == sid)
    requires e.CleanupStalled? ==> Stalled(s, e.now) == {} || e.now - s.lastUpdated[sid] < STALL_THRESHOLD
    ensures Tombstone(Next(s, e), sid)
  {
    ElsewhereKeepsUnlisted(s, e, sid);
    if e.ClearDaemon? {
      assert sid !in Queue(s, e.daemon);
    }
  }

  ghost predicate SameTimesBut(a: map<Id, Time>, b: map<Id, Time>, sid: Id) {
    && (forall id | id != sid :: id in a <==> id in b)
    && (forall id | id != sid && id in a :: a[id] == b[id])
  }

  lemma SameTimesButIff(a: map<Id, Time>, b: map<Id, Time>, sid: Id)
    ensures SameTimesBut(a, b, sid) <==> a - {sid} == b - {sid}
  {
    if a - {sid} == b - {sid} {
      forall id | id != sid ensures (id in a <==> id in b) && (id in a ==> a[id] == b[id]) {
        assert id in a - {sid} <==> id in b - {sid};
        assert id in a ==> (a - {sid})[id] == (b - {sid})[id];
      }
    }
  }

  /** A step about another session does the same in both tables. */
  lemma ElsewhereSame(s: State, t: State, e: Step, sid: Id)
    requires SameBut(s, t, sid) && sid !in s.sessions && !About(e, sid) && !(e.StartSession? && e.sid == sid)
    ensures SameBut(Next(s, e), Next(t, e), sid)
  {
    SameTimesButIff(s.lastUpdated, t.lastUpdated, sid);
    assert t == s.(lastUpdated := t.lastUpdated);
    ElsewhereSameTimes(s, t.lastUpdated, e, sid);
    SameTimesButIff(Next(s, e).lastUpdated, Next(t, e).lastUpdated, sid);
  }

  lemma ElsewhereSameTimes(s: State, times: map<Id, Time>, e: Step, sid: Id)
    requires SameTimesBut(s.lastUpdated, times, sid) && sid !in s.sessions && !About(e, sid)
    ensures var a, b := Next(s, e), Next(s.(lastUpdated := times), e);
            a == b.(lastUpdated := a.lastUpdated) && SameTimesBut(a.lastUpdated, b.lastUpdated, sid)
  {
    var t := s.(lastUpdated := times);
    match e
    case CleanupStalled(now) => StalledSameTimes(s, times, now, sid);
    case UpdateSession(u, now) => ReportSameTimes(s, times, u, now, sid);
    case RequestWork(d) => WorkSameTimes(s, times, d);
    case DispatchWork(d) => WorkSameTimes(s, times, d);
    case CleanupOld(cutoff) => AgeOutSameTimes(s, times, cutoff);
    case CancelSession(other) => CancelSameTimes(s, times, other);
    case ClearDaemon(d) => ClearSameTimes(s, times, d);
    case StartSession(other, d, network, kind) => StartSameTimes(s, times, other, d, network, kind);
  }

  lemma CancelSameTimes(s: State, times: map<Id, Time>, sid: Id)
    ensures Cancel(s.(lastUpdated := times), sid).0 == Cancel(s, sid).0.(lastUpdated := times)
    ensures Cancel(s, sid).0.lastUpdated == s.lastUpdated
  {
  }

  lemma ClearSameTimes(s: State, times: map<Id, Time>, d: Id)
    ensures Clear(s.(lastUpdated := times), d) == Clear(s, d).(lastUpdated := times - Elements(Queue(s, d)))
    ensures Clear(s, d).lastUpdated == s.lastUpdated - Elements(Queue(s, d))
  {
    assert Queue(s.(lastUpdated := times), d) == Queue(s, d);
  }

  lemma StartSameTimes(s: State, times: map<Id, Time>, sid: Id, d: Id, network: Id, kind: nat)
    ensures Start(s.(lastUpdated := times), sid, d, network, kind) == Start(s, sid, d, network, kind).(lastUpdated := times)
    ensures Start(s, sid, d, network, kind).lastUpdated == s.lastUpdated
  {
  }

  lemma AgeOutSameTimes(s: State, times: map<Id, Time>, cutoff: Time)
    ensures AgeOut(s.(lastUpdated := times), cutoff) == AgeOut(s, cutoff).(lastUpdated := times)
    ensures AgeOut(s, cutoff).lastUpdated == s.lastUpdated
  {
    var t := s.(lastUpdated := times);
    assert Outdated(t, cutoff) == Outdated(s, cutoff);
    assert Dequeue(t, Outdated(s, cutoff)) == Dequeue(s, Outdated(s, cutoff));
  }

  lemma WorkSameTimes(s: State, times: map<Id, Time>, d: Id)
    ensures Work(s.(lastUpdated := times), d).0 == Work(s, d).0.(lastUpdated := times)
    ensures Work(s, d).0.lastUpdated == s.lastUpdated
  {
    assert HasActive(s, d) == HasActive(s.(lastUpdated := times), d);
  }

  lemma ReportSameTimes(s: State, times: map<Id, Time>, u: Session, now: Time, sid: Id)
    requires SameTimesBut(s.lastUpdated, times, sid) && u.sessionId != sid
    ensures var t := s.(lastUpdated := times);
            Report(t, u, now) == Report(s, u, now).(lastUpdated := times[u.sessionId := now])
    ensures Report(s, u, now).lastUpdated == s.lastUpdated[u.sessionId := now]
  {
    var t := s.(lastUpdated := times);
    assert Absorbed(s, u) == Absorbed(t, u);
    if !Absorbed(s, u) {
      assert Stored(t, u, now) == Stored(s, u, now).(lastUpdated := times[u.sessionId := now]);
    }
  }

  lemma StalledSameTimes(s: State, times: map<Id, Time>, now: Time, sid: Id)
    requires SameTimesBut(s.lastUpdated, times, sid) && sid !in s.sessions
    ensures var a, b := FailStalled(s, now), FailStalled(s.(lastUpdated := times), now);
            a == b.(lastUpdated := a.lastUpdated) && SameTimesBut(a.lastUpdated, b.lastUpdated, sid)
  {
    assert Stalled(s, now) == Stalled(s.(lastUpdated := times), now);
    FailSame(s, times, now);
    EvictSame(s.lastUpdated, times, Stalled(s, now), s.sessions.Keys - Stalled(s, now), now, sid);
  }

  lemma EvictSame(a: map<Id, Time>, b: map<Id, Time>, gone: set<Id>, live: set<Id>, now: Time, sid: Id)
    requires SameTimesBut(a, b, sid)
    ensures SameTimesBut(Evict(a - gone, live, now), Evict(b - gone, live, now), sid)
  {
  }

  lemma FailSame(s: State, times: map<Id, Time>, now: Time)
    requires Stalled(s, now) == Stalled(s.(lastUpdated := times), now)
    ensures var a, b := FailStalled(s, now), FailStalled(s.(lastUpdated := times), now);
            var gone := Stalled(s, now); var live := s.sessions.Keys - gone;
            && a == b.(lastUpdated := a.lastUpdated)
            && a.lastUpdated == (if gone == {} then s.lastUpdated else Evict(s.lastUpdated - gone, live, now))
            && b.lastUpdated == (if gone == {} then times else Evict(times - gone, live, now))
  {
    var t, ids := s.(lastUpdated := times), Stalled(s, now);
    assert Dequeue(t, ids) == Dequeue(s, ids);
    assert DaemonsOf(t, ids) == DaemonsOf(s, ids);
    SameRecorded(s, t, ids, now);
  }

  lemma SameRecorded(s: State, t: State, ids: set<Id>, now: Time)
    requires ids <= s.sessions.Keys && t.sessions == s.sessions && t.history == s.history
    ensures Recorded(s, ids, now) == Recorded(t, ids, now)
  {
    assert forall id :: Records(t, id) == Records(s, id);
  }

  /** Repeated terminal reports of a processed session: the run without them ends in the same table. */
  lemma {:induction false} TombstoneAbsorbs(s: State, t: State, es: seq<Step>, sid: Id)
    requires Tombstone(s, sid) && SameBut(s, t, sid) && Shielded(s, es, sid)
    ensures Tombstone(Run(s, es), sid)
    ensures SameBut(Run(s, es), Run(t, WithoutReports(es, sid)), sid)
    decreases |es|
  {
    if es != [] {
      var e := es[0];
      if About(e, sid) {
        assert Absorbed(s, e.report);
        assert WithoutReports(es, sid) == WithoutReports(es[1..], sid);
        TombstoneAbsorbs(Next(s, e), t, es[1..], sid);
      } else {
        ElsewhereKeepsTombstone(s, e, sid);
        ElsewhereSame(s, t, e, sid);
        TombstoneAbsorbs(Next(s, e), Next(t, e), es[1..], sid);
        assert ([e] + WithoutReports(es[1..], sid))[1..] == WithoutReports(es[1..], sid);
      }
    }
  }

  /** A terminal report about an unknown session is ignored exactly when its id is still remembered. */
  lemma RepeatIgnoredIff(s: State, u: Session, now: Time)
    requires u.sessionId !in s.sessions && u.phase.Terminal()
    ensures Report(s, u, now).history == s.history <==> u.sessionId in s.lastUpdated
  {
    if u.sessionId !in s.lastUpdated {
      assert |Records(Report(s, u, now), u.sessionId)| == |Records(s, u.sessionId)| + 1;
    }
  }

  /**
   A tombstone goes only in a stall cleanup at least five minutes after the latest report, and
   only if that cleanup finds some stalled session: otherwise it stays however old it is.
   */
  lemma TombstoneGoesIff(s: State, e: Step, sid: Id)
    requires Tombstone(s, sid)
    ensures sid !in Next(s, e).lastUpdated <==>
            && e.CleanupStalled? && Stalled(s, e.now) != {}
            && e.now - s.lastUpdated[sid] >= STALL_THRESHOLD
  {
    match e
    case ClearDaemon(d) => assert sid !in Queue(s, d);
    case UpdateSession(u, now) => ReportRemembers(s, u, now);
    case _ =>
  }
}
