/**
 What each operation of the session table does, told in the table's own fields: phases and limits
 written out, every field accounted for.
 */
module SessionEffects {
  import opened Common
  import opened Sequences
  import opened Sessions
  import opened SessionInvariants
  import opened SessionRuns

  /** Complete, failed or cancelled. */
  predicate Over(p: Phase) {
    p in {Complete, Failed, Cancelled}
  }

  /** Handed to a daemon and not over. */
  predicate Busy(p: Phase) {
    p in {Starting, Started, Scanning}
  }

  lemma PhasesAre(p: Phase)
    ensures p.Terminal() <==> Over(p)
    ensures p.Active() <==> Busy(p)
    ensures p == Pending <==> !Over(p) && !Busy(p)
  {
  }

  /** The queues agree but for daemon `d`. */
  ghost predicate OtherQueuesSame(s: State, t: State, d: Id) {
    forall e | e != d :: (e in t.queues <==> e in s.queues) && (e in s.queues ==> t.queues[e] == s.queues[e])
  }

  function Queued(s: State, d: Id): seq<Id> {
    if d in s.queues then s.queues[d] else []
  }

  /** `r` is `q` without the ids in `gone`: the others are all there, in the same order, none repeated anew. */
  ghost predicate Filtered(r: seq<Id>, q: seq<Id>, gone: set<Id>) {
    && (forall x :: x in r <==> x in q && x !in gone)
    && (forall a, b | a in r && b in r :: IndexOf(r, a) < IndexOf(r, b) <==> IndexOf(q, a) < IndexOf(q, b))
    && (Distinct(q) ==> Distinct(r))
  }

  lemma KeepIsFiltered(q: seq<Id>, gone: set<Id>)
    ensures Filtered(Keep(q, gone), q, gone)
  {
    var r: seq<Id> := Keep(q, gone);
    forall a, b | a in r && b in r ensures IndexOf(r, a) < IndexOf(r, b) <==> IndexOf(q, a) < IndexOf(q, b) {
      KeepOrder(q, gone, a, b);
    }
    if Distinct(q) {
      KeepDistinct(q, gone);
    }
  }

  // ---- Start -----------------------------------------------------------------------------------

  /** A session without progress, error and times waits at the end of its daemon's queue; nothing else changes. */
  lemma StartMeans(s: State, sid: Id, d: Id, network: Id, kind: nat)
    ensures var t := Start(s, sid, d, network, kind);
            && t.sessions == s.sessions[sid := Session(sid, d, network, Pending, kind, 0, None, None, None)]
            && d in t.queues && t.queues[d] == Queued(s, d) + [sid] && OtherQueuesSame(s, t, d)
            && t.flags == s.flags && t.lastUpdated == s.lastUpdated && t.history == s.history
  {
  }

  // ---- Work --------------------------------------------------------------------------------------

  /** Only a waiting session becomes starting, and only its phase changes. */
  lemma ToStartingMeans(s: State, sid: Id)
    ensures sid in s.sessions && s.sessions[sid].phase == Pending ==>
              ToStarting(s, sid) == State(s.sessions[sid := s.sessions[sid].(phase := Starting)],
                                          s.queues, s.flags, s.lastUpdated, s.history)
    ensures !(sid in s.sessions && s.sessions[sid].phase == Pending) ==> ToStarting(s, sid) == s
  {
  }

  /** The queued session that waits and has no waiting session before it. */
  predicate NextUp(s: State, d: Id, i: nat) {
    var q := Queued(s, d);
    && i < |q| && q[i] in s.sessions && s.sessions[q[i]].phase == Pending
    && forall j | 0 <= j < i :: !(q[j] in s.sessions && s.sessions[q[j]].phase == Pending)
  }

  predicate Occupied(s: State, d: Id) {
    exists id :: id in Queued(s, d) && id in s.sessions && Busy(s.sessions[id].phase)
  }

  lemma {:induction false} FirstOfWaiting(q: seq<Id>, sessions: map<Id, Session>, i: nat)
    requires i < |q| && q[i] in sessions && sessions[q[i]].phase == Pending
    requires forall j | 0 <= j < i :: !(q[j] in sessions && sessions[q[j]].phase == Pending)
    ensures Waiting(q, sessions) != [] && Waiting(q, sessions)[0] == sessions[q[i]]
    decreases |q|
  {
    if i > 0 {
      assert !(q[0] in sessions && sessions[q[0]].phase == Pending);
      forall j | 0 <= j < i - 1 ensures !(q[1..][j] in sessions && sessions[q[1..][j]].phase == Pending) {
        assert q[1..][j] == q[j + 1];
      }
      FirstOfWaiting(q[1..], sessions, i - 1);
    }
  }

  lemma {:induction false} SomeNextUp(q: seq<Id>, sessions: map<Id, Session>) returns (i: nat)
    requires Waiting(q, sessions) != []
    ensures i < |q| && q[i] in sessions && sessions[q[i]].phase == Pending
    ensures forall j | 0 <= j < i :: !(q[j] in sessions && sessions[q[j]].phase == Pending)
  {
    if q[0] in sessions && sessions[q[0]].phase == Pending {
      i := 0;
    } else {
      i := SomeNextUp(q[1..], sessions);
      i := i + 1;
      assert forall j | 0 < j < i :: q[j] == q[1..][j - 1];
    }
  }

  lemma OccupiedIff(s: State, d: Id)
    ensures HasActive(s, d) <==> Occupied(s, d)
  {
    if id :| id in Queue(s, d) && ActiveAt(s.sessions, id) {
      assert Busy(s.sessions[id].phase);
    }
    if id :| id in Queued(s, d) && id in s.sessions && Busy(s.sessions[id].phase) {
      assert ActiveAt(s.sessions, id);
    }
  }

  /** An occupied daemon gets nothing; else its first waiting session is handed out as it was, and becomes starting. */
  lemma WorkMeans(s: State, d: Id)
    requires KeysMatch(s)
    ensures Occupied(s, d) ==> Work(s, d) == (s, None)
    ensures !Occupied(s, d) ==> forall i: nat | NextUp(s, d, i) ::
              && Work(s, d).1 == Some(s.sessions[Queued(s, d)[i]])
              && Work(s, d).0 == State(s.sessions[Queued(s, d)[i] := s.sessions[Queued(s, d)[i]].(phase := Starting)],
                                       s.queues, s.flags, s.lastUpdated, s.history)
    ensures (forall i: nat :: !NextUp(s, d, i)) ==> Work(s, d) == (s, None)
  {
    OccupiedIff(s, d);
    forall i: nat | NextUp(s, d, i) ensures Waiting(Queue(s, d), s.sessions) != [] && Waiting(Queue(s, d), s.sessions)[0] == s.sessions[Queued(s, d)[i]] {
      FirstOfWaiting(Queued(s, d), s.sessions, i);
    }
    if Waiting(Queue(s, d), s.sessions) != [] {
      var i := SomeNextUp(Queue(s, d), s.sessions);
      assert NextUp(s, d, i);
    }
  }

  predicate IsPending(sessions: map<Id, Session>, id: Id) {
    id in sessions && sessions[id].phase == Pending
  }

  /** `w` lists the sessions of `ids`, in that order. */
  ghost predicate Mirrors(w: seq<Session>, ids: seq<Id>, sessions: map<Id, Session>) {
    |w| == |ids| && forall i | 0 <= i < |ids| :: ids[i] in sessions && w[i] == sessions[ids[i]]
  }

  lemma MirrorsCons(w: seq<Session>, ids: seq<Id>, sessions: map<Id, Session>, id: Id)
    requires Mirrors(w, ids, sessions) && id in sessions
    ensures Mirrors([sessions[id]] + w, [id] + ids, sessions)
  {
  }

  lemma WaitingCons(q: seq<Id>, sessions: map<Id, Session>)
    requires q != []
    ensures Waiting(q, sessions) == (if IsPending(sessions, q[0]) then [sessions[q[0]]] else []) + Waiting(q[1..], sessions)
  {
  }

  lemma KeepCons(q: seq<Id>, gone: set<Id>)
    requires q != []
    ensures Keep(q, gone) == (if q[0] in gone then [] else [q[0]]) + Keep(q[1..], gone)
  {
  }

  /** The waiting sessions are those of the queue without the ids that do not wait. */
  lemma {:induction false} WaitingIsKept(q: seq<Id>, sessions: map<Id, Session>, gone: set<Id>)
    requires forall x | x in q :: x in gone <==> !IsPending(sessions, x)
    ensures Mirrors(Waiting(q, sessions), Keep(q, gone), sessions)
  {
    if q != [] {
      assert q[0] in q && forall x | x in q[1..] :: x in q;
      WaitingIsKept(q[1..], sessions, gone);
      WaitingCons(q, sessions);
      KeepCons(q, gone);
      if IsPending(sessions, q[0]) {
        MirrorsCons(Waiting(q[1..], sessions), Keep(q[1..], gone), sessions, q[0]);
      }
    }
  }

  /** So they are all listed, in the order of the queue. */
  lemma WaitingIsFiltered(q: seq<Id>, sessions: map<Id, Session>, gone: set<Id>)
    requires forall x | x in q :: x in gone <==> !IsPending(sessions, x)
    ensures exists ids :: Filtered(ids, q, gone) && Mirrors(Waiting(q, sessions), ids, sessions)
  {
    KeepIsFiltered(q, gone);
    WaitingIsKept(q, sessions, gone);
  }

  /** The daemon's flag is answered and dropped; nothing else changes. */
  lemma PullMeans(s: State, d: Id)
    ensures var (t, flag) := PullCancellation(s, d);
            && flag == (if d in s.flags then s.flags[d] else (false, 0))
            && d !in t.flags && (forall e | e != d :: (e in t.flags <==> e in s.flags) && (e in s.flags ==> t.flags[e] == s.flags[e]))
            && t.sessions == s.sessions && t.queues == s.queues && t.lastUpdated == s.lastUpdated && t.history == s.history
  {
  }

  // ---- Reports ---------------------------------------------------------------------------------------

  predicate AlreadyProcessed(s: State, u: Session) {
    Over(u.phase) && u.sessionId !in s.sessions && u.sessionId in s.lastUpdated
  }

  /** A report notes its time.  A repeated final one does nothing else. */
  lemma RepeatedReportMeans(s: State, u: Session, now: Time)
    requires AlreadyProcessed(s, u)
    ensures Report(s, u, now) == State(s.sessions, s.queues, s.flags, s.lastUpdated[u.sessionId := now], s.history)
  {
  }

  /** A report that does not end its session is stored as it is, and joins its daemon's queue if it was unknown. */
  lemma ProgressReportMeans(s: State, u: Session, now: Time)
    requires !Over(u.phase)
    ensures var t := Report(s, u, now);
            && t.sessions == s.sessions[u.sessionId := u]
            && (u.sessionId in s.sessions ==> t.queues == s.queues)
            && (u.sessionId !in s.sessions ==>
                  u.daemonId in t.queues && t.queues[u.daemonId] == Queued(s, u.daemonId) + [u.sessionId] && OtherQueuesSame(s, t, u.daemonId))
            && t.flags == s.flags && t.lastUpdated == s.lastUpdated[u.sessionId := now] && t.history == s.history
  {
  }

  /** The first of the queue that is not `gone`. */
  predicate IsNext(q: seq<Id>, gone: Id, id: Id) {
    exists i :: 0 <= i < |q| && q[i] == id && id != gone && forall j | 0 <= j < i :: q[j] == gone
  }

  lemma {:induction false} HeadIsNext(q: seq<Id>, gone: Id, id: Id)
    ensures IsNext(q, gone, id) <==> Keep(q, {gone}) != [] && Keep(q, {gone})[0] == id
  {
    if q != [] {
      assert q == [q[0]] + q[1..];
      HeadIsNext(q[1..], gone, id);
      if q[0] == gone {
        if i :| 0 <= i < |q| && q[i] == id && id != gone && forall j | 0 <= j < i :: q[j] == gone {
          assert q[1..][i - 1] == id;
          assert forall j | 0 <= j < i - 1 :: q[1..][j] == q[j + 1];
        }
        if i :| 0 <= i < |q[1..]| && q[1..][i] == id && id != gone && forall j | 0 <= j < i :: q[1..][j] == gone {
          assert q[i + 1] == id;
          assert forall j | 0 < j < i + 1 :: q[j] == q[1..][j - 1];
        }
      } else {
        assert id == q[0] ==> q[0] == id;
      }
    }
  }

  /**
   A report that ends its session removes it from table and queue, drops its daemon's flag, and
   records exactly what was reported; the next session in the daemon's queue is set to waiting.
   */
  lemma FinalReportMeans(s: State, u: Session, now: Time)
    requires Over(u.phase) && !AlreadyProcessed(s, u)
    ensures var t := Report(s, u, now);
            && u.sessionId !in t.sessions
            && (forall id | id != u.sessionId ::
                  (id in t.sessions <==> id in s.sessions)
                  && (id in s.sessions ==>
                        t.sessions[id] == if IsNext(Queued(s, u.daemonId), u.sessionId, id)
                                          then s.sessions[id].(phase := Pending) else s.sessions[id]))
            && Filtered(Queued(t, u.daemonId), Queued(s, u.daemonId), {u.sessionId}) && OtherQueuesSame(s, t, u.daemonId)
            && t.flags == s.flags - {u.daemonId}
            && t.lastUpdated == s.lastUpdated[u.sessionId := now]
  {
    var q := Queued(s, u.daemonId);
    FinalQueue(s, u, now);
    KeepIsFiltered(q, {u.sessionId});
    TerminalSessions(s, u, now);
    forall id ensures IsNext(q, u.sessionId, id) <==> Keep(q, {u.sessionId}) != [] && Keep(q, {u.sessionId})[0] == id {
      HeadIsNext(q, u.sessionId, id);
    }
  }

  lemma FinalQueue(s: State, u: Session, now: Time)
    requires Over(u.phase) && !AlreadyProcessed(s, u)
    ensures Queued(Report(s, u, now), u.daemonId) == Keep(Queued(s, u.daemonId), {u.sessionId})
    ensures OtherQueuesSame(s, Report(s, u, now), u.daemonId)
    ensures Report(s, u, now).flags == s.flags - {u.daemonId}
    ensures Report(s, u, now).lastUpdated == s.lastUpdated[u.sessionId := now]
  {
    var q := Queued(s, u.daemonId);
    KeepAppend(q, [u.sessionId], {u.sessionId});
    assert Keep([u.sessionId], {u.sessionId}) == [];
  }

  /** The record of a final report is the report; nobody else gets one. */
  lemma FinalReportRecords(s: State, u: Session, now: Time, id: Id)
    ensures Over(u.phase) && !AlreadyProcessed(s, u) && id == u.sessionId ==>
              Records(Report(s, u, now), id) == Records(s, id) + [u]
    ensures !Over(u.phase) || AlreadyProcessed(s, u) || id != u.sessionId ==>
              Records(Report(s, u, now), id) == Records(s, id)
  {
  }

  // ---- Cancellation ------------------------------------------------------------------------------------

  /** What a cancellation answers and does, phase by phase. */
  lemma CancelMeans(s: State, sid: Id)
    ensures sid !in s.sessions ==> Cancel(s, sid) == (s, NotFound)
    ensures sid in s.sessions ==>
              var x := s.sessions[sid]; var (t, outcome) := Cancel(s, sid);
              && (x.phase == Starting ==> outcome == StillStarting && t == s)
              && (Over(x.phase) ==> outcome == AlreadyDone && t == s)
              && (x.phase in {Started, Scanning} ==>
                    outcome == Requested
                    && t == State(s.sessions, s.queues, s.flags[x.daemonId := (true, sid)], s.lastUpdated, s.history))
              && (x.phase == Pending ==>
                    && outcome == Dequeued && t.sessions == s.sessions - {sid}
                    && Filtered(Queued(t, x.daemonId), Queued(s, x.daemonId), {sid}) && OtherQueuesSame(s, t, x.daemonId)
                    && t.flags == s.flags && t.lastUpdated == s.lastUpdated && t.history == s.history)
  {
    if sid in s.sessions {
      KeepIsFiltered(Queued(s, s.sessions[sid].daemonId), {sid});
    }
  }

  /** The daemon's next work response carries the cancellation of a session that runs, and no work. */
  lemma CancellationIsDelivered(s: State, sid: Id)
    requires Coherent(s) && sid in s.sessions && s.sessions[sid].phase in {Started, Scanning}
    ensures var t, d := Cancel(s, sid).0, s.sessions[sid].daemonId;
            Work(t, d) == (t, None) && PullCancellation(Work(t, d).0, d).1 == (true, sid)
  {
    var t, d := Cancel(s, sid).0, s.sessions[sid].daemonId;
    assert sid in Queue(s, d);
    assert sid in Queue(t, d) && ActiveAt(t.sessions, sid);
  }

  // ---- Age-out and clear -----------------------------------------------------------------------------------

  predicate FinishedBefore(s: State, id: Id, cutoff: Time) {
    id in s.sessions && s.sessions[id].finishedAt != None && s.sessions[id].finishedAt.value < cutoff
  }

  /** Exactly the sessions finished before the cutoff leave table and queue, and their daemons' flags go. */
  lemma AgeOutMeans(s: State, cutoff: Time)
    ensures var t := AgeOut(s, cutoff);
            && (forall id :: id in t.sessions <==> id in s.sessions && !FinishedBefore(s, id, cutoff))
            && (forall id | id in t.sessions :: t.sessions[id] == s.sessions[id])
            && (forall d :: d in t.queues <==> d in s.queues)
            && (forall d | d in s.queues ::
                  Filtered(t.queues[d], s.queues[d], set id | FinishedBefore(s, id, cutoff) && id in s.sessions && s.sessions[id].daemonId == d))
            && (forall d :: d in t.flags <==>
                  d in s.flags && forall id :: FinishedBefore(s, id, cutoff) ==> s.sessions[id].daemonId != d)
            && (forall d | d in t.flags :: t.flags[d] == s.flags[d])
            && t.lastUpdated == s.lastUpdated && t.history == s.history
  {
    var t, ids := AgeOut(s, cutoff), Outdated(s, cutoff);
    forall id ensures id in ids <==> FinishedBefore(s, id, cutoff) {
    }
    forall d | d in s.queues
      ensures Filtered(t.queues[d], s.queues[d], set id | FinishedBefore(s, id, cutoff) && id in s.sessions && s.sessions[id].daemonId == d)
    {
      assert Of(s, ids, d) == set id | FinishedBefore(s, id, cutoff) && id in s.sessions && s.sessions[id].daemonId == d;
      KeepIsFiltered(s.queues[d], Of(s, ids, d));
    }
    forall d ensures d in DaemonsOf(s, ids) <==> exists id :: FinishedBefore(s, id, cutoff) && s.sessions[id].daemonId == d {
      if id :| FinishedBefore(s, id, cutoff) && s.sessions[id].daemonId == d {
        assert id in ids;
      }
    }
  }

  /** Everything in the daemon's queue leaves table and times, with the queue and the flag; the rest stays. */
  lemma ClearMeans(s: State, d: Id)
    ensures var t := Clear(s, d);
            && (forall id :: id in t.sessions <==> id in s.sessions && id !in Queued(s, d))
            && (forall id | id in t.sessions :: t.sessions[id] == s.sessions[id])
            && (forall id :: id in t.lastUpdated <==> id in s.lastUpdated && id !in Queued(s, d))
            && (forall id | id in t.lastUpdated :: t.lastUpdated[id] == s.lastUpdated[id])
            && d !in t.queues && OtherQueuesSame(s, t, d)
            && t.flags == s.flags - {d} && t.history == s.history
  {
  }

  // ---- Stalls --------------------------------------------------------------------------------------------------

  /** Stalled: not over, and nothing heard for more than five minutes, or, if never heard of, started as long ago. */
  predicate Silent(s: State, id: Id, now: Time) {
    && id in s.sessions && !Over(s.sessions[id].phase)
    && (id in s.lastUpdated ==> now - s.lastUpdated[id] > 5 * 60 * 1000)
    && (id !in s.lastUpdated ==> s.sessions[id].startedAt != None && now - s.sessions[id].startedAt.value > 5 * 60 * 1000)
  }

  lemma StalledMeans(s: State, now: Time, id: Id)
    ensures id in Stalled(s, now) <==> Silent(s, id, now)
  {
  }

  /** The session as it is recorded when it stalls. */
  function StallRecord(x: Session, now: Time): Session {
    Session(x.sessionId, x.daemonId, x.networkId, Failed, x.discoveryType, x.progress,
            Some("Session stalled - no updates received from daemon for more than 5 minutes"), x.startedAt, Some(now))
  }

  /** After a stall cleanup each stalled session has one failed record more, and nobody else has. */
  lemma StallRecords(s: State, now: Time, id: Id)
    ensures Silent(s, id, now) ==> Records(FailStalled(s, now), id) == Records(s, id) + [StallRecord(s.sessions[id], now)]
    ensures !Silent(s, id, now) ==> Records(FailStalled(s, now), id) == Records(s, id)
  {
    StalledMeans(s, now, id);
  }

  /**
   With something stalled, exactly the stalled sessions leave table and queue, with their daemons' flags,
   and of the other times exactly those of unknown sessions five minutes old or older go.
   */
  lemma FailStalledMeans(s: State, now: Time)
    requires exists id :: Silent(s, id, now)
    ensures var t := FailStalled(s, now);
            && (forall id :: id in t.sessions <==> id in s.sessions && !Silent(s, id, now))
            && (forall id | id in t.sessions :: t.sessions[id] == s.sessions[id])
            && (forall d :: d in t.flags <==> d in s.flags && forall id :: Silent(s, id, now) ==> s.sessions[id].daemonId != d)
            && (forall d | d in t.flags :: t.flags[d] == s.flags[d])
  {
    var ids := Stalled(s, now);
    forall id ensures id in ids <==> Silent(s, id, now) {
      StalledMeans(s, now, id);
    }
    var some :| Silent(s, some, now);
    assert some in ids;
    forall d ensures d in DaemonsOf(s, ids) <==> exists id :: Silent(s, id, now) && s.sessions[id].daemonId == d {
      if id :| Silent(s, id, now) && s.sessions[id].daemonId == d {
        assert id in ids;
      }
    }
  }

  /** The queues lose exactly the stalled sessions of their daemon, and keep their order. */
  lemma FailStalledQueues(s: State, now: Time, d: Id)
    ensures d in FailStalled(s, now).queues <==> d in s.queues
    ensures d in s.queues ==>
              Filtered(FailStalled(s, now).queues[d], s.queues[d],
                       set id | id in s.sessions && Silent(s, id, now) && s.sessions[id].daemonId == d)
  {
    var gone := set id | id in s.sessions && Silent(s, id, now) && s.sessions[id].daemonId == d;
    forall id | id in s.sessions ensures id in Stalled(s, now) <==> Silent(s, id, now) {
      StalledMeans(s, now, id);
    }
    assert Of(s, Stalled(s, now), d) == gone;
    if d in s.queues {
      KeepIsFiltered(s.queues[d], gone);
      if Stalled(s, now) == {} {
        KeepAll(s.queues[d], gone);
      }
    }
  }

  lemma FailStalledTimes(s: State, now: Time, id: Id)
    requires exists some :: Silent(s, some, now)
    ensures id in FailStalled(s, now).lastUpdated <==>
            && id in s.lastUpdated && !Silent(s, id, now)
            && (id in s.sessions || now - s.lastUpdated[id] < 5 * 60 * 1000)
    ensures id in FailStalled(s, now).lastUpdated ==> FailStalled(s, now).lastUpdated[id] == s.lastUpdated[id]
  {
    var some :| Silent(s, some, now);
    StalledMeans(s, now, some);
    StalledMeans(s, now, id);
  }

  /** With nothing stalled a stall cleanup does nothing at all. */
  lemma NothingStalled(s: State, now: Time)
    requires forall id :: !Silent(s, id, now)
    ensures FailStalled(s, now) == s
  {
    forall id ensures id !in Stalled(s, now) {
      StalledMeans(s, now, id);
    }
    assert Stalled(s, now) == {};
  }

  // ---- The records of a run -----------------------------------------------------------------------------------------

  /** The record a step makes of session `id`. */
  function Made(s: State, e: Step, id: Id): seq<Session> {
    match e
    case UpdateSession(u, _) => if u.sessionId == id && Over(u.phase) && !AlreadyProcessed(s, u) then [u] else []
    case CleanupStalled(now) => if Silent(s, id, now) then [StallRecord(s.sessions[id], now)] else []
    case _ => []
  }

  function MadeBy(w: World, es: seq<Step>, id: Id): seq<Session>
    decreases |es|
  {
    if es == [] then [] else Made(w.svc, es[0], id) + MadeBy(Advance(w, es[0]), es[1..], id)
  }

  lemma StepMakes(s: State, e: Step, id: Id)
    ensures Records(Next(s, e), id) == Records(s, id) + Made(s, e, id)
  {
    match e
    case UpdateSession(u, now) => FinalReportRecords(s, u, now, id);
    case CleanupStalled(now) => StallRecords(s, now, id);
    case _ => assert Next(s, e).history == s.history;
  }

  /** Over every run, a session's records are what was reported of it last, or its stall, in the order it happened. */
  lemma {:induction false} RunMakes(w: World, es: seq<Step>, id: Id)
    ensures Records(Exec(w, es).svc, id) == Records(w.svc, id) + MadeBy(w, es, id)
    decreases |es|
  {
    if es != [] {
      StepMakes(w.svc, es[0], id);
      RunMakes(Advance(w, es[0]), es[1..], id);
    }
  }

  lemma {:induction false} MadeIsExplained(w: World, es: seq<Step>, id: Id, r: Session)
    requires r in MadeBy(w, es, id)
    ensures (exists now :: UpdateSession(r, now) in es && r.sessionId == id && Over(r.phase))
            || (exists now :: CleanupStalled(now) in es && r.phase == Failed && r.finishedAt == Some(now)
                              && r.error == Some("Session stalled - no updates received from daemon for more than 5 minutes"))
    decreases |es|
  {
    assert es[0] in es && forall e | e in es[1..] :: e in es;
    if r !in Made(w.svc, es[0], id) {
      MadeIsExplained(Advance(w, es[0]), es[1..], id, r);
    }
  }

  /** Every record of a session is a final report the run made about it, or a stall cleanup's failure. */
  lemma RecordsAreExplained(es: seq<Step>, id: Id, r: Session)
    requires r in Records(Exec(INIT, es).svc, id)
    ensures (exists now :: UpdateSession(r, now) in es && r.sessionId == id && Over(r.phase))
            || (exists now :: CleanupStalled(now) in es && r.phase == Failed && r.finishedAt == Some(now)
                              && r.error == Some("Session stalled - no updates received from daemon for more than 5 minutes"))
  {
    RunMakes(INIT, es, id);
    MadeIsExplained(INIT, es, id, r);
  }
}
