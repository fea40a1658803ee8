/**
 The in-memory session table of the discovery service as a value, and what each
 service operation does to it in one atomic step.

 Identifiers stand for UUIDs and times are integer milliseconds.  `history` is
 the table of historical discovery records, grouped by the session they report on.
 */
module Sessions {
  import opened Common
  import opened Sequences

  type Time = int

  const NIL_ID: Id := 0
  const STALL_THRESHOLD: Time := 5 * 60 * 1000

  datatype Phase = Pending | Starting | Started | Scanning | Complete | Failed | Cancelled {
    predicate Terminal() {
      this == Complete || this == Cancelled || this == Failed
    }

    /** Dispatched to a daemon and not finished. */
    predicate Active() {
      !Terminal() && this != Pending
    }
  }

  datatype Session = Session(
    sessionId: Id,
    daemonId: Id,
    networkId: Id,
    phase: Phase,
    discoveryType: nat,
    progress: nat,
    error: Option<string>,
    startedAt: Option<Time>,
    finishedAt: Option<Time>)

  datatype State = State(
    sessions: map<Id, Session>,
    queues: map<Id, seq<Id>>,
    flags: map<Id, (bool, Id)>,
    lastUpdated: map<Id, Time>,
    history: map<Id, seq<Session>>)

  const EMPTY: State := State(map[], map[], map[], map[], map[])

  function Queue(s: State, d: Id): seq<Id> {
    if d in s.queues then s.queues[d] else []
  }

  function Records(s: State, id: Id): seq<Session> {
    if id in s.history then s.history[id] else []
  }

  function NewSession(sid: Id, d: Id, network: Id, kind: nat): Session {
    Session(sid, d, network, Pending, kind, 0, None, None, None)
  }

  // ---- Queries -------------------------------------------------------------

  /** The queued sessions that are still waiting, in queue order. */
  function Waiting(q: seq<Id>, sessions: map<Id, Session>): (r: seq<Session>)
    ensures forall x :: x in r <==>
              exists id :: id in q && id in sessions && sessions[id] == x && x.phase == Pending
  {
    if q == [] then [] else
      var rest := Waiting(q[1..], sessions);
      assert q == [q[0]] + q[1..];
      if q[0] in sessions && sessions[q[0]].phase == Pending then [sessions[q[0]]] + rest else rest
  }

  predicate ActiveAt(sessions: map<Id, Session>, id: Id) {
    id in sessions && sessions[id].phase.Active()
  }

  /** The queue-based check for a running session. */
  predicate HasActive(s: State, d: Id) {
    exists id :: id in Queue(s, d) && ActiveAt(s.sessions, id)
  }

  // ---- Steps ---------------------------------------------------------------

  function Start(s: State, sid: Id, d: Id, network: Id, kind: nat): State {
    s.(sessions := s.sessions[sid := NewSession(sid, d, network, kind)],
       queues := s.queues[d := Queue(s, d) + [sid]])
  }

  function ToStarting(s: State, sid: Id): State {
    if sid in s.sessions && s.sessions[sid].phase == Pending
    then s.(sessions := s.sessions[sid := s.sessions[sid].(phase := Starting)])
    else s
  }

  /** Hands out the first waiting session, unless the daemon is busy. */
  function Work(s: State, d: Id): (State, Option<Session>) {
    if HasActive(s, d) then (s, None) else
      var waiting := Waiting(Queue(s, d), s.sessions);
      if waiting == [] then (s, None)
      else (ToStarting(s, waiting[0].sessionId), Some(waiting[0]))
  }

  function PullCancellation(s: State, d: Id): (State, (bool, Id)) {
    (s.(flags := s.flags - {d}), if d in s.flags then s.flags[d] else (false, NIL_ID))
  }

  /** A terminal report about a session that was already processed and removed. */
  predicate Absorbed(s: State, u: Session) {
    u.sessionId !in s.sessions && u.phase.Terminal() && u.sessionId in s.lastUpdated
  }

  /** The table once the report's session exists and holds the reported payload. */
  function Stored(s: State, u: Session, now: Time): State {
    State(
      s.sessions[u.sessionId := u],
      if u.sessionId in s.sessions then s.queues
      else s.queues[u.daemonId := Queue(s, u.daemonId) + [u.sessionId]],
      s.flags,
      s.lastUpdated[u.sessionId := now],
      s.history)
  }

  /** The session at the head of a queue goes back to waiting. */
  function HeadToPending(q: seq<Id>, sessions: map<Id, Session>): map<Id, Session> {
    if q != [] && q[0] in sessions then sessions[q[0] := sessions[q[0]].(phase := Pending)] else sessions
  }

  /** Terminal processing: record, dequeue, release the next session, remove. */
  function Finished(s: State, u: Session): State {
    var q := Keep(Queue(s, u.daemonId), {u.sessionId});
    State(
      HeadToPending(q, s.sessions) - {u.sessionId},
      if u.daemonId in s.queues then s.queues[u.daemonId := q] else s.queues,
      s.flags - {u.daemonId},
      s.lastUpdated,
      s.history[u.sessionId := Records(s, u.sessionId) + [u]])
  }

  function Report(s: State, u: Session, now: Time): State {
    if Absorbed(s, u) then s.(lastUpdated := s.lastUpdated[u.sessionId := now])
    else if u.phase.Terminal() then Finished(Stored(s, u, now), u)
    else Stored(s, u, now)
  }

  datatype CancelOutcome = NotFound | Dequeued | StillStarting | Requested | AlreadyDone

  function Cancel(s: State, sid: Id): (State, CancelOutcome) {
    if sid !in s.sessions then (s, NotFound) else
      var x := s.sessions[sid];
      match x.phase
      case Pending =>
        (s.(sessions := s.sessions - {sid},
            queues := if x.daemonId in s.queues
                      then s.queues[x.daemonId := Keep(s.queues[x.daemonId], {sid})]
                      else s.queues), Dequeued)
      case Starting => (s, StillStarting)
      case Started => (s.(flags := s.flags[x.daemonId := (true, sid)]), Requested)
      case Scanning => (s.(flags := s.flags[x.daemonId := (true, sid)]), Requested)
      case _ => (s, AlreadyDone)
  }

  // ---- Bulk removal --------------------------------------------------------

  /** Those of `ids` that belong to daemon `d`. */
  function Of(s: State, ids: set<Id>, d: Id): set<Id>
    requires ids <= s.sessions.Keys
  {
    set id | id in ids && s.sessions[id].daemonId == d
  }

  function DaemonsOf(s: State, ids: set<Id>): set<Id>
    requires ids <= s.sessions.Keys
  {
    set id | id in ids :: s.sessions[id].daemonId
  }

  /** Every daemon's queue loses exactly its own sessions among `ids`. */
  function Dequeue(s: State, ids: set<Id>): map<Id, seq<Id>>
    requires ids <= s.sessions.Keys
  {
    map d | d in s.queues :: Keep(s.queues[d], Of(s, ids, d))
  }

  function Outdated(s: State, cutoff: Time): (ids: set<Id>)
    ensures ids <= s.sessions.Keys
  {
    set id | id in s.sessions && s.sessions[id].finishedAt.Some? && s.sessions[id].finishedAt.value < cutoff
  }

  function AgeOut(s: State, cutoff: Time): State {
    var ids := Outdated(s, cutoff);
    s.(sessions := s.sessions - ids,
       queues := Dequeue(s, ids),
       flags := s.flags - DaemonsOf(s, ids))
  }

  predicate IsStalled(s: State, id: Id, now: Time)
    requires id in s.sessions
  {
    && !s.sessions[id].phase.Terminal()
    && (if id in s.lastUpdated then now - s.lastUpdated[id] > STALL_THRESHOLD
        else s.sessions[id].startedAt.Some? && now - s.sessions[id].startedAt.value > STALL_THRESHOLD)
  }

  function Stalled(s: State, now: Time): (ids: set<Id>)
    ensures ids <= s.sessions.Keys
  {
    set id | id in s.sessions && IsStalled(s, id, now)
  }

  const STALL_ERROR := "Session stalled - no updates received from daemon for more than 5 minutes"

  function FailedRecord(x: Session, now: Time): Session {
    x.(phase := Failed, error := Some(STALL_ERROR), finishedAt := Some(now))
  }

  /** The records with one failed entry more for each of `ids`. */
  function Recorded(s: State, ids: set<Id>, now: Time): map<Id, seq<Session>>
    requires ids <= s.sessions.Keys
  {
    s.history + map id | id in ids :: Records(s, id) + [FailedRecord(s.sessions[id], now)]
  }

  /** What stays of the last-updated table: live sessions and recent tombstones. */
  function Evict(lastUpdated: map<Id, Time>, live: set<Id>, now: Time): map<Id, Time> {
    map id | id in lastUpdated && (id in live || now - lastUpdated[id] < STALL_THRESHOLD) :: lastUpdated[id]
  }

  /** The stall cleanup in one step; with nothing stalled it does nothing at all. */
  function FailStalled(s: State, now: Time): State {
    var ids := Stalled(s, now);
    if ids == {} then s else
      State(
        s.sessions - ids,
        Dequeue(s, ids),
        s.flags - DaemonsOf(s, ids),
        Evict(s.lastUpdated - ids, s.sessions.Keys - ids, now),
        Recorded(s, ids, now))
  }

  function Elements(q: seq<Id>): (r: set<Id>)
    ensures forall x :: x in r <==> x in q
  {
    set x | x in q
  }

  function Clear(s: State, d: Id): State {
    var ids := Elements(Queue(s, d));
    s.(sessions := s.sessions - ids,
       queues := s.queues - {d},
       flags := s.flags - {d},
       lastUpdated := s.lastUpdated - ids)
  }
}
