/**
 Runs of the session table: any number of service steps in any order, from an
 empty table.  Started sessions have fresh ids; how well daemon reports must agree
 with the table is a parameter of the run; every other step is allowed at any moment.
 */
module SessionRuns {
  import opened Common
  import opened Sequences
  import opened Sessions
  import opened SessionInvariants

  datatype Step =
    | StartSession(sid: Id, daemon: Id, network: Id, kind: nat)
    | RequestWork(daemon: Id)
    | DispatchWork(daemon: Id)
    | UpdateSession(report: Session, now: Time)
    | CancelSession(sid: Id)
    | CleanupOld(cutoff: Time)
    | CleanupStalled(now: Time)
    | ClearDaemon(daemon: Id)

  function Next(s: State, e: Step): State {
    match e
    case StartSession(sid, d, network, kind) => Start(s, sid, d, network, kind)
    case RequestWork(d) => PullCancellation(Work(s, d).0, d).0
    case DispatchWork(d) => Work(s, d).0
    case UpdateSession(u, now) => Report(s, u, now)
    case CancelSession(sid) => Cancel(s, sid).0
    case CleanupOld(cutoff) => AgeOut(s, cutoff)
    case CleanupStalled(now) => FailStalled(s, now)
    case ClearDaemon(d) => Clear(s, d)
  }

  /** The session a step hands to a daemon. */
  function HandedBy(s: State, e: Step): Option<Session> {
    match e
    case RequestWork(d) => Work(s, d).1
    case DispatchWork(d) => Work(s, d).1
    case _ => None
  }

  /**
   The table with a record of the run: ids used so far, the sessions started (daemon, id)
   in order, each started id's number in that order, and the numbers handed out, in order.
   */
  datatype World = World(
    svc: State,
    seen: set<Id>,
    starts: seq<(Id, Id)>,
    number: map<Id, nat>,
    handed: seq<nat>)

  const INIT: World := World(EMPTY, {}, [], map[], [])

  /** What is asked of the reports of a run, from nothing to well-formedness. */
  datatype Guard = AnyReport | RightDaemon | NoSecond | OneActive | NoneUndone | Strict

  predicate Acceptable(g: Guard, s: State, u: Session) {
    match g
    case AnyReport => true
    case RightDaemon => SameDaemon(s, u)
    case NoSecond => SameDaemon(s, u) && (u.phase.Active() ==> NoOtherActive(s, u))
    case OneActive => Admissible(s, u)
    case NoneUndone => Orderly(s, u)
    case Strict => WellFormed(s, u)
  }

  predicate Enabled(g: Guard, w: World, e: Step) {
    match e
    case StartSession(sid, _, _, _) => sid !in w.seen
    case UpdateSession(u, _) => Acceptable(g, w.svc, u)
    case _ => true
  }

  function Advance(w: World, e: Step): World {
    match e
    case StartSession(sid, d, _, _) =>
      World(Next(w.svc, e), w.seen + {sid}, w.starts + [(d, sid)], w.number[sid := |w.starts|], w.handed)
    case UpdateSession(u, _) =>
      w.(svc := Next(w.svc, e), seen := w.seen + {u.sessionId})
    case _ =>
      w.(svc := Next(w.svc, e),
         handed := if HandedBy(w.svc, e).Some? && HandedBy(w.svc, e).value.sessionId in w.number
                   then w.handed + [w.number[HandedBy(w.svc, e).value.sessionId]]
                   else w.handed)
  }

  function Exec(w: World, es: seq<Step>): World
    decreases |es|
  {
    if es == [] then w else Exec(Advance(w, es[0]), es[1..])
  }

  predicate Legal(g: Guard, w: World, es: seq<Step>)
    decreases |es|
  {
    es != [] ==> Enabled(g, w, es[0]) && Legal(g, Advance(w, es[0]), es[1..])
  }

  /** `b` asks no more of a report than `a`, whatever the table. */
  predicate Weaker(b: Guard, a: Guard) {
    match a
    case AnyReport => b == AnyReport
    case RightDaemon => b == AnyReport || b == RightDaemon
    case NoSecond => b == AnyReport || b == RightDaemon || b == NoSecond
    case OneActive => b != NoneUndone && b != Strict
    case NoneUndone => b != Strict
    case Strict => b != NoneUndone
  }

  lemma {:induction false} LegalWeaker(a: Guard, b: Guard, w: World, es: seq<Step>)
    requires Weaker(b, a) && Legal(a, w, es)
    ensures Legal(b, w, es)
    decreases |es|
  {
    if es != [] {
      LegalWeaker(a, b, Advance(w, es[0]), es[1..]);
    }
  }

  // ---- Waiting sessions and their places ---------------------------------------

  predicate Waits(s: State, id: Id) {
    id in s.sessions && s.sessions[id].phase == Pending
  }

  /** How many sessions stand ahead of `id` in its daemon's queue. */
  function Ahead(s: State, id: Id): nat
    requires id in s.sessions
  {
    IndexOf(Queue(s, s.sessions[id].daemonId), id)
  }

  /** No session but those in `newcomers` starts waiting, falls back, or overtakes. */
  ghost predicate Shrinks(s: State, t: State, newcomers: set<Id>) {
    && (forall id | Waits(t, id) && id !in newcomers ::
          Waits(s, id) && t.sessions[id].daemonId == s.sessions[id].daemonId && Ahead(t, id) <= Ahead(s, id))
    && (forall a, b | Waits(t, a) && a !in newcomers && Waits(t, b) && b !in newcomers
                      && t.sessions[a].daemonId == t.sessions[b].daemonId && Ahead(t, a) < Ahead(t, b) ::
          Waits(s, a) && Waits(s, b) && Ahead(s, a) < Ahead(s, b))
  }

  ghost predicate FewerWait(s: State, t: State, newcomers: set<Id>) {
    forall id | Waits(t, id) && id !in newcomers :: Waits(s, id) && t.sessions[id].daemonId == s.sessions[id].daemonId
  }

  lemma SameQueueShrink(s: State, t: State)
    requires FewerWait(s, t, {}) && forall d :: Queue(t, d) == Queue(s, d)
    ensures Shrinks(s, t, {})
  {
  }

  lemma SameQueuesShrink(s: State, t: State)
    requires t.queues == s.queues && FewerWait(s, t, {})
    ensures Shrinks(s, t, {})
  {
    assert forall d :: Queue(t, d) == Queue(s, d);
  }

  lemma RemovalShrinks(s: State, ids: set<Id>, t: State)
    requires Indexed(s) && ids <= s.sessions.Keys && t.queues == Dequeue(s, ids)
    requires FewerWait(s, t, {}) && forall id | Waits(t, id) :: id !in ids
    ensures Shrinks(s, t, {})
  {
    forall id | Waits(t, id)
      ensures Ahead(t, id) <= Ahead(s, id)
    {
      var d := s.sessions[id].daemonId;
      assert id in Queue(s, d);
      KeepMovesUp(Queue(s, d), Of(s, ids, d), id);
    }
    forall a, b | Waits(t, a) && Waits(t, b) && t.sessions[a].daemonId == t.sessions[b].daemonId && Ahead(t, a) < Ahead(t, b)
      ensures Ahead(s, a) < Ahead(s, b)
    {
      var d := s.sessions[a].daemonId;
      assert a in Queue(s, d) && b in Queue(s, d);
      KeepOrder(Queue(s, d), Of(s, ids, d), a, b);
    }
  }

  lemma AppendShrinks(s: State, d: Id, z: Id, t: State)
    requires Indexed(s) && t.queues == s.queues[d := Queue(s, d) + [z]] && FewerWait(s, t, {z})
    ensures Shrinks(s, t, {z})
  {
    forall id | Waits(t, id) && id != z
      ensures Ahead(t, id) == Ahead(s, id)
    {
      assert id in Queue(s, s.sessions[id].daemonId);
      IndexOfAppend(Queue(s, d), z, id);
    }
  }

  lemma ReportFewerWait(s: State, u: Session, t: State)
    requires u.phase != Pending
    requires t.sessions == if u.phase.Terminal() then s.sessions - {u.sessionId} else s.sessions[u.sessionId := u]
    ensures FewerWait(s, t, {}) && forall id | Waits(t, id) :: id != u.sessionId
  {
  }

  lemma ReportShrinks(s: State, u: Session, now: Time)
    requires Coherent(s) && Orderly(s, u)
    ensures Shrinks(s, Report(s, u, now), {})
  {
    ReportEffect(s, u, now);
    ReportFewerWait(s, u, Report(s, u, now));
    ReportedQueues(s, u, now);
    ReportedShrinks(s, u, Report(s, u, now));
  }

  lemma ReportedShrinks(s: State, u: Session, t: State)
    requires Indexed(s) && FewerWait(s, t, {}) && forall id | Waits(t, id) :: id != u.sessionId
    requires (forall d :: Queue(t, d) == Queue(s, d))
             || (u.sessionId in s.sessions && t.queues == Dequeue(s, {u.sessionId}))
             || t.queues == s.queues[u.daemonId := Queue(s, u.daemonId) + [u.sessionId]]
    ensures Shrinks(s, t, {})
  {
    if forall d :: Queue(t, d) == Queue(s, d) {
      SameQueueShrink(s, t);
    } else if u.sessionId in s.sessions && t.queues == Dequeue(s, {u.sessionId}) {
      RemovalShrinks(s, {u.sessionId}, t);
    } else {
      AppendShrinks(s, u.daemonId, u.sessionId, t);
    }
  }

  /** The effect of a report on the queues. */
  lemma ReportedQueues(s: State, u: Session, now: Time)
    requires Indexed(s) && SameDaemon(s, u)
    ensures var t := Report(s, u, now);
            && (u.phase.Terminal() && u.sessionId in s.sessions ==> t.queues == Dequeue(s, {u.sessionId}))
            && (u.phase.Terminal() && u.sessionId !in s.sessions ==> forall d :: Queue(t, d) == Queue(s, d))
            && (!u.phase.Terminal() && u.sessionId in s.sessions ==> forall d :: Queue(t, d) == Queue(s, d))
            && (!u.phase.Terminal() && u.sessionId !in s.sessions ==>
                  t.queues == s.queues[u.daemonId := Queue(s, u.daemonId) + [u.sessionId]])
  {
    if u.phase.Terminal() {
      if u.sessionId in s.sessions {
        DequeueOne(s, u.sessionId);
      } else {
        assert u.sessionId !in Queue(s, u.daemonId);
        UnknownTerminalQueues(s, u, now);
      }
    }
  }

  /** A terminal report about an unknown session queues and dequeues it again. */
  lemma UnknownTerminalQueues(s: State, u: Session, now: Time)
    requires u.phase.Terminal() && u.sessionId !in s.sessions && u.sessionId !in Queue(s, u.daemonId)
    ensures forall d :: Queue(Report(s, u, now), d) == Queue(s, d)
  {
    var q := Queue(s, u.daemonId);
    KeepAppend(q, [u.sessionId], {u.sessionId});
    KeepAll(q, {u.sessionId});
    assert Keep([u.sessionId], {u.sessionId}) == [];
    assert Keep(q + [u.sessionId], {u.sessionId}) == q;
  }

  lemma StartShrinks(s: State, sid: Id, d: Id, network: Id, kind: nat)
    requires Indexed(s)
    ensures Shrinks(s, Start(s, sid, d, network, kind), {sid})
  {
    AppendShrinks(s, d, sid, Start(s, sid, d, network, kind));
  }

  lemma WorkShrinks(s: State, d: Id)
    requires Coherent(s)
    ensures Shrinks(s, Work(s, d).0, {})
    ensures Shrinks(s, PullCancellation(Work(s, d).0, d).0, {})
  {
    WorkHandsOutFirst(s, d);
    SameQueuesShrink(s, Work(s, d).0);
    SameQueuesShrink(s, PullCancellation(Work(s, d).0, d).0);
  }

  lemma CancelShrinks(s: State, sid: Id)
    requires Coherent(s)
    ensures Shrinks(s, Cancel(s, sid).0, {})
  {
    var t := Cancel(s, sid).0;
    if Waits(s, sid) {
      DequeueOne(s, sid);
      RemovalShrinks(s, {sid}, t);
    } else {
      SameQueuesShrink(s, t);
    }
  }

  lemma ClearShrinks(s: State, d: Id)
    requires Indexed(s)
    ensures Shrinks(s, Clear(s, d), {})
  {
    var t := Clear(s, d);
    ClearIsScan(s, d);
    assert forall e | e != d :: Queue(t, e) == Queue(s, e);
    assert forall id | Waits(t, id) :: t.sessions[id] == s.sessions[id] && id in t.sessions.Keys;
  }

  ghost function Fresh(e: Step): set<Id> {
    if e.StartSession? then {e.sid} else {}
  }

  /** The ids a step may bring into the table. */
  function Introduced(e: Step): set<Id> {
    match e
    case StartSession(sid, _, _, _) => {sid}
    case UpdateSession(u, _) => {u.sessionId}
    case _ => {}
  }

  lemma StepKeysGrow(s: State, e: Step)
    ensures Next(s, e).sessions.Keys <= s.sessions.Keys + Introduced(e)
  {
    match e
    case RequestWork(d) => WorkKeys(s, d);
    case DispatchWork(d) => WorkKeys(s, d);
    case UpdateSession(u, now) => ReportKeys(s, u, now);
    case _ =>
  }

  lemma WorkKeys(s: State, d: Id)
    ensures Work(s, d).0.sessions.Keys == s.sessions.Keys
  {
  }

  /** Whatever a report says, only its own session enters or leaves the table. */
  lemma ReportKeys(s: State, u: Session, now: Time)
    ensures Report(s, u, now).sessions.Keys ==
            if Absorbed(s, u) then s.sessions.Keys
            else if u.phase.Terminal() then s.sessions.Keys - {u.sessionId}
            else s.sessions.Keys + {u.sessionId}
  {
    if u.phase.Terminal() && !Absorbed(s, u) {
      TerminalSessions(s, u, now);
    }
  }

  lemma StepStaysSeen(g: Guard, w: World, e: Step)
    requires w.svc.sessions.Keys <= w.seen && Enabled(g, w, e)
    ensures Next(w.svc, e).sessions.Keys <= Advance(w, e).seen
  {
    StepKeysGrow(w.svc, e);
  }

  /** One step keeps the index if its report names the session's daemon. */
  lemma StepKeepsIndex(w: World, e: Step)
    requires KeysMatch(w.svc) && Indexed(w.svc) && w.svc.sessions.Keys <= w.seen && Enabled(RightDaemon, w, e)
    ensures KeysMatch(Next(w.svc, e)) && Indexed(Next(w.svc, e))
  {
    var s := w.svc;
    match e
    case StartSession(sid, d, network, kind) => StartKeepsIndex(s, sid, d, network, kind);
    case RequestWork(d) => WorkKeepsIndex(s, d); SameIndex(Work(s, d).0, Next(s, e));
    case DispatchWork(d) => WorkKeepsIndex(s, d);
    case UpdateSession(u, now) => ReportKeepsKeys(s, u, now); ReportKeepsIndexIff(s, u, now);
    case CancelSession(sid) => CancelKeepsIndex(s, sid);
    case CleanupOld(cutoff) => RemovalKeepsIndex(s, Outdated(s, cutoff), Next(s, e));
    case CleanupStalled(now) => StalledKeepsIndex(s, now);
    case ClearDaemon(d) => ClearIsScan(s, d);
  }

  lemma StalledKeepsIndex(s: State, now: Time)
    requires Indexed(s)
    ensures Indexed(FailStalled(s, now))
  {
    if Stalled(s, now) != {} {
      RemovalKeepsIndex(s, Stalled(s, now), FailStalled(s, now));
    }
  }

  /** One step keeps the table coherent if its report starts no second active session. */
  lemma StepKeeps(w: World, e: Step)
    requires Coherent(w.svc) && w.svc.sessions.Keys <= w.seen && Enabled(OneActive, w, e)
    ensures Coherent(Next(w.svc, e))
  {
    var s := w.svc;
    match e
    case StartSession(sid, d, network, kind) => StartKeeps(s, sid, d, network, kind);
    case RequestWork(d) => WorkKeeps(s, d); PullKeeps(Work(s, d).0, d);
    case DispatchWork(d) => WorkKeeps(s, d);
    case UpdateSession(u, now) => ReportKeeps(s, u, now);
    case CancelSession(sid) => CancelKeeps(s, sid);
    case CleanupOld(cutoff) => AgeOutKeeps(s, cutoff);
    case CleanupStalled(now) => FailStalledKeeps(s, now);
    case ClearDaemon(d) => ClearKeeps(s, d);
  }

  lemma StepShrinks(w: World, e: Step)
    requires Coherent(w.svc) && w.svc.sessions.Keys <= w.seen && Enabled(NoneUndone, w, e)
    ensures Shrinks(w.svc, Next(w.svc, e), Fresh(e))
  {
    var s := w.svc;
    match e
    case StartSession(sid, d, network, kind) => StartShrinks(s, sid, d, network, kind);
    case RequestWork(d) => WorkShrinks(s, d);
    case DispatchWork(d) => WorkShrinks(s, d);
    case UpdateSession(u, now) => ReportShrinks(s, u, now);
    case CancelSession(sid) => CancelShrinks(s, sid);
    case CleanupOld(cutoff) => RemovalShrinks(s, Outdated(s, cutoff), AgeOut(s, cutoff));
    case CleanupStalled(now) =>
      if Stalled(s, now) == {} {
        SameQueuesShrink(s, s);
      } else {
        RemovalShrinks(s, Stalled(s, now), FailStalled(s, now));
      }
    case ClearDaemon(d) => ClearShrinks(s, d);
  }

  // ---- First in, first out --------------------------------------------------------

  ghost predicate Numbered(w: World, id: Id, d: Id) {
    id in w.number && w.number[id] < |w.starts| && w.starts[w.number[id]] == (d, id)
  }

  ghost predicate WaitingNumbered(w: World) {
    forall id | Waits(w.svc, id) :: Numbered(w, id, w.svc.sessions[id].daemonId)
  }

  ghost predicate QueueInOrder(w: World)
    requires WaitingNumbered(w)
  {
    forall a, b | Waits(w.svc, a) && Waits(w.svc, b) && w.svc.sessions[a].daemonId == w.svc.sessions[b].daemonId
                  && Ahead(w.svc, a) < Ahead(w.svc, b) :: w.number[a] < w.number[b]
  }

  ghost predicate HandedInOrder(w: World) {
    && (forall i | 0 <= i < |w.handed| :: w.handed[i] < |w.starts|)
    && (forall i, j | 0 <= i < j < |w.handed| && w.starts[w.handed[i]].0 == w.starts[w.handed[j]].0 ::
          w.handed[i] < w.handed[j])
  }

  ghost predicate HandedBeforeWaiting(w: World)
    requires WaitingNumbered(w) && HandedInOrder(w)
  {
    forall i, id | 0 <= i < |w.handed| && Waits(w.svc, id)
                   && w.starts[w.handed[i]].0 == w.svc.sessions[id].daemonId :: w.handed[i] < w.number[id]
  }

  ghost predicate Fifo(w: World) {
    WaitingNumbered(w) && QueueInOrder(w) && HandedInOrder(w) && HandedBeforeWaiting(w)
  }

  ghost predicate Inv(w: World) {
    Coherent(w.svc) && w.svc.sessions.Keys <= w.seen && w.number.Keys <= w.seen && Fifo(w)
  }

  /** Steps that start and hand out nothing keep the order. */
  lemma QuietKeepsFifo(w: World, w': World)
    requires Fifo(w) && Shrinks(w.svc, w'.svc, {})
    requires w'.starts == w.starts && w'.number == w.number && w'.handed == w.handed
    ensures Fifo(w')
  {
    assert forall id | Waits(w'.svc, id) :: Waits(w.svc, id);
  }

  lemma StartKeepsFifo(w: World, e: Step)
    requires Indexed(w.svc) && Fifo(w) && e.StartSession? && e.sid !in w.svc.sessions && e.sid !in w.number
    requires Shrinks(w.svc, Next(w.svc, e), {e.sid})
    ensures Fifo(Advance(w, e))
  {
    StartKeepsNumbers(w, e);
    StartKeepsOrder(w, e);
    StartKeepsHanded(w, e);
  }

  lemma StartKeepsNumbers(w: World, e: Step)
    requires WaitingNumbered(w) && e.StartSession?
    requires Shrinks(w.svc, Next(w.svc, e), {e.sid})
    ensures WaitingNumbered(Advance(w, e))
  {
    var w' := Advance(w, e);
    forall id | Waits(w'.svc, id) ensures Numbered(w', id, w'.svc.sessions[id].daemonId) {
      assert id != e.sid ==> Numbered(w, id, w.svc.sessions[id].daemonId);
    }
  }

  lemma StartKeepsOrder(w: World, e: Step)
    requires Indexed(w.svc) && WaitingNumbered(w) && QueueInOrder(w) && WaitingNumbered(Advance(w, e))
    requires e.StartSession? && e.sid !in w.svc.sessions && e.sid !in w.number
    requires Shrinks(w.svc, Next(w.svc, e), {e.sid})
    ensures QueueInOrder(Advance(w, e))
  {
    var w' := Advance(w, e);
    var t := w'.svc;
    forall a, b | Waits(t, a) && Waits(t, b) && t.sessions[a].daemonId == t.sessions[b].daemonId && Ahead(t, a) < Ahead(t, b)
      ensures w'.number[a] < w'.number[b]
    {
      StartKeepsPair(w, e, a, b);
    }
  }

  lemma StartKeepsPair(w: World, e: Step, a: Id, b: Id)
    requires Indexed(w.svc) && WaitingNumbered(w) && QueueInOrder(w)
    requires e.StartSession? && e.sid !in w.svc.sessions && e.sid !in w.number
    requires var t := Next(w.svc, e);
             && Shrinks(w.svc, t, {e.sid}) && Waits(t, a) && Waits(t, b)
             && t.sessions[a].daemonId == t.sessions[b].daemonId && Ahead(t, a) < Ahead(t, b)
    ensures var number := Advance(w, e).number; a in number && b in number && number[a] < number[b]
  {
    if a == e.sid {
      StartGoesLast(w.svc, e, b);
    } else {
      assert Numbered(w, a, w.svc.sessions[a].daemonId);
    }
  }

  lemma StartKeepsHanded(w: World, e: Step)
    requires Fifo(w) && WaitingNumbered(Advance(w, e)) && e.StartSession?
    requires Shrinks(w.svc, Next(w.svc, e), {e.sid})
    ensures HandedInOrder(Advance(w, e)) && HandedBeforeWaiting(Advance(w, e))
  {
    var w' := Advance(w, e);
    forall i, id | 0 <= i < |w'.handed| && Waits(w'.svc, id) && w'.starts[w'.handed[i]].0 == w'.svc.sessions[id].daemonId
      ensures w'.handed[i] < w'.number[id]
    {
      assert id != e.sid ==> Waits(w.svc, id);
    }
  }

  /** A started session joins behind every other session of its daemon. */
  lemma StartGoesLast(s: State, e: Step, a: Id)
    requires Indexed(s) && e.StartSession? && e.sid !in s.sessions
    requires a in Next(s, e).sessions && Next(s, e).sessions[a].daemonId == e.daemon
    ensures Ahead(Next(s, e), a) <= Ahead(Next(s, e), e.sid)
  {
    var q := Queue(s, e.daemon);
    assert e.sid !in q;
    IndexOfAppend(q, e.sid, e.sid);
    IndexOfAppend(q, e.sid, a);
  }

  /** The session handed out was started before every other waiting session of its daemon. */
  lemma HeadComesFirst(w: World, d: Id, id: Id)
    requires Coherent(w.svc) && WaitingNumbered(w) && QueueInOrder(w) && Work(w.svc, d).1.Some?
    ensures var sid := Work(w.svc, d).1.value.sessionId;
            Waits(w.svc, id) && w.svc.sessions[id].daemonId == d && id != sid ==>
              Waits(w.svc, sid) && w.svc.sessions[sid].daemonId == d && w.number[sid] < w.number[id]
  {
    WorkHandsOutFirst(w.svc, d);
    var sid := Work(w.svc, d).1.value.sessionId;
    if Waits(w.svc, id) && w.svc.sessions[id].daemonId == d && id != sid {
      assert id in Queue(w.svc, d) && Ahead(w.svc, sid) < Ahead(w.svc, id);
    }
  }

  lemma HandedOut(w: World, d: Id)
    requires Coherent(w.svc) && WaitingNumbered(w) && Work(w.svc, d).1.Some?
    ensures var sid := Work(w.svc, d).1.value.sessionId;
            && Waits(w.svc, sid) && w.svc.sessions[sid].daemonId == d && Numbered(w, sid, d)
            && Work(w.svc, d).0.sessions == w.svc.sessions[sid := w.svc.sessions[sid].(phase := Starting)]
  {
    WorkHandsOutFirst(w.svc, d);
  }

  /** Handing out the head of the queue extends the order and leaves only later sessions waiting. */
  lemma DispatchKeepsFifo(w: World, d: Id, w': World)
    requires Coherent(w.svc) && Fifo(w) && Work(w.svc, d).1.Some?
    requires Shrinks(w.svc, w'.svc, {}) && w'.svc.sessions == Work(w.svc, d).0.sessions
    requires w'.starts == w.starts && w'.number == w.number
    requires Work(w.svc, d).1.value.sessionId in w.number ==> w'.handed == w.handed + [w.number[Work(w.svc, d).1.value.sessionId]]
    ensures Fifo(w')
  {
    HandedOut(w, d);
    var sid := Work(w.svc, d).1.value.sessionId;
    forall id | Waits(w'.svc, id) && w'.svc.sessions[id].daemonId == d
      ensures id in w.number && w.number[sid] < w.number[id]
    {
      HeadComesFirst(w, d, id);
      assert Numbered(w, id, d);
    }
    DispatchOrder(w, d, sid, w');
  }

  lemma DispatchOrder(w: World, d: Id, sid: Id, w': World)
    requires Fifo(w) && Shrinks(w.svc, w'.svc, {})
    requires Waits(w.svc, sid) && w.svc.sessions[sid].daemonId == d
    requires w'.starts == w.starts && w'.number == w.number && w'.handed == w.handed + [w.number[sid]]
    requires forall id | Waits(w'.svc, id) && w'.svc.sessions[id].daemonId == d :: id in w.number && w.number[sid] < w.number[id]
    ensures Fifo(w')
  {
    QuietKeepsFifo(w, w'.(handed := w.handed));
    HandOutInOrder(w, d, sid, w');
    HandOutBeforeWaiting(w, d, sid, w');
  }

  lemma HandOutInOrder(w: World, d: Id, sid: Id, w': World)
    requires Fifo(w) && Waits(w.svc, sid) && w.svc.sessions[sid].daemonId == d
    requires w'.starts == w.starts && w'.handed == w.handed + [w.number[sid]]
    ensures HandedInOrder(w') && w.starts[w.number[sid]].0 == d
  {
    assert Numbered(w, sid, d);
  }

  lemma HandOutBeforeWaiting(w: World, d: Id, sid: Id, w': World)
    requires Fifo(w'.(handed := w.handed)) && WaitingNumbered(w') && HandedInOrder(w') && sid in w.number
    requires w'.starts == w.starts && w'.number == w.number && w'.handed == w.handed + [w.number[sid]]
    requires w.number[sid] < |w.starts| && w.starts[w.number[sid]].0 == d
    requires forall id | Waits(w'.svc, id) && w'.svc.sessions[id].daemonId == d :: id in w.number && w.number[sid] < w.number[id]
    ensures HandedBeforeWaiting(w')
  {
    forall i, id | 0 <= i < |w'.handed| && Waits(w'.svc, id) && w'.starts[w'.handed[i]].0 == w'.svc.sessions[id].daemonId
      ensures w'.handed[i] < w'.number[id]
    {
      if i < |w.handed| {
        assert w'.handed[i] == w.handed[i];
      }
    }
  }

  lemma StepKeepsInv(w: World, e: Step)
    requires Inv(w) && Enabled(NoneUndone, w, e)
    ensures Inv(Advance(w, e))
  {
    StepKeeps(w, e);
    StepShrinks(w, e);
    StepStaysSeen(NoneUndone, w, e);
    if e.StartSession? {
      StartKeepsFifo(w, e);
    } else if (e.RequestWork? || e.DispatchWork?) && Work(w.svc, e.daemon).1.Some? {
      DispatchKeepsFifo(w, e.daemon, Advance(w, e));
    } else {
      QuietKeepsFifo(w, Advance(w, e));
    }
  }

  // ---- The effect of a legal step on the session table ----------------------------

  ghost predicate Dispatched(s: State, d: Id, t: map<Id, Session>) {
    t == s.sessions
    || exists id :: Waits(s, id) && s.sessions[id].daemonId == d && t == s.sessions[id := s.sessions[id].(phase := Starting)]
  }

  function AllOf(s: State, d: Id): set<Id> {
    set id | id in s.sessions && s.sessions[id].daemonId == d
  }

  ghost predicate Effect(s: State, e: Step, t: map<Id, Session>) {
    match e
    case StartSession(sid, d, network, kind) => t == s.sessions[sid := NewSession(sid, d, network, kind)]
    case RequestWork(d) => Dispatched(s, d, t)
    case DispatchWork(d) => Dispatched(s, d, t)
    case UpdateSession(u, _) =>
      t == if u.phase.Terminal() then s.sessions - {u.sessionId} else s.sessions[u.sessionId := u]
    case CancelSession(sid) => t == if Waits(s, sid) then s.sessions - {sid} else s.sessions
    case CleanupOld(cutoff) => t == s.sessions - Outdated(s, cutoff)
    case CleanupStalled(now) => t == s.sessions - Stalled(s, now)
    case ClearDaemon(d) => t == s.sessions - AllOf(s, d)
  }

  /** A step with an orderly report starts, stores, dispatches or removes sessions, and touches no other. */
  lemma StepEffect(w: World, e: Step)
    requires Coherent(w.svc) && Enabled(NoneUndone, w, e)
    ensures Effect(w.svc, e, Next(w.svc, e).sessions)
  {
    var s := w.svc;
    match e
    case UpdateSession(u, now) => ReportEffect(s, u, now);
    case RequestWork(d) => WorkEffect(s, d);
    case DispatchWork(d) => WorkEffect(s, d);
    case ClearDaemon(d) => ClearEffect(s, d);
    case CancelSession(sid) => assert Waits(s, sid) || Cancel(s, sid).0.sessions == s.sessions;
    case CleanupStalled(now) => StalledEffect(s, now);
    case _ =>
  }

  lemma StalledEffect(s: State, now: Time)
    ensures FailStalled(s, now).sessions == s.sessions - Stalled(s, now)
  {
  }

  lemma WorkEffect(s: State, d: Id)
    requires Coherent(s)
    ensures Dispatched(s, d, Work(s, d).0.sessions)
  {
    WorkHandsOutFirst(s, d);
    if Work(s, d).1.Some? {
      assert Waits(s, Work(s, d).1.value.sessionId);
    }
  }

  lemma ClearEffect(s: State, d: Id)
    requires Indexed(s)
    ensures Clear(s, d).sessions == s.sessions - AllOf(s, d)
  {
    ClearIsScan(s, d);
    assert Clear(s, d).sessions.Keys == (s.sessions - AllOf(s, d)).Keys;
  }

  lemma {:induction false} RunKeepsInv(w: World, es: seq<Step>)
    requires Inv(w) && Legal(NoneUndone, w, es)
    ensures Inv(Exec(w, es))
    decreases |es|
  {
    if es != [] {
      StepKeepsInv(w, es[0]);
      RunKeepsInv(Advance(w, es[0]), es[1..]);
    }
  }

  // ---- Main results ----------------------------------------------------------------

  lemma {:induction false} RunKeepsIndex(w: World, es: seq<Step>)
    requires KeysMatch(w.svc) && Indexed(w.svc) && w.svc.sessions.Keys <= w.seen && Legal(RightDaemon, w, es)
    ensures KeysMatch(Exec(w, es).svc) && Indexed(Exec(w, es).svc)
    decreases |es|
  {
    if es != [] {
      StepKeepsIndex(w, es[0]);
      StepStaysSeen(RightDaemon, w, es[0]);
      RunKeepsIndex(Advance(w, es[0]), es[1..]);
    }
  }

  /** If reports name the right daemon, table and queues index each other exactly in every reachable state. */
  lemma ReachableIndexed(es: seq<Step>, d: Id)
    requires Legal(RightDaemon, INIT, es)
    ensures var s := Exec(INIT, es).svc;
            && KeysMatch(s) && Indexed(s)
            && (HasActive(s, d) <==> exists id :: ActiveAt(s.sessions, id) && s.sessions[id].daemonId == d)
            && (forall x :: x in Waiting(Queue(s, d), s.sessions) <==>
                  x.sessionId in s.sessions && s.sessions[x.sessionId] == x && x.daemonId == d && x.phase == Pending)
  {
    RunKeepsIndex(INIT, es);
    var s := Exec(INIT, es).svc;
    ActiveCheckIsScan(s, d);
    forall x ensures x in Waiting(Queue(s, d), s.sessions) <==>
                     x.sessionId in s.sessions && s.sessions[x.sessionId] == x && x.daemonId == d && x.phase == Pending {
      PendingListIsScan(s, d, x);
    }
  }

  /** One step keeps at most one active session per daemon if its report starts no second one. */
  lemma StepKeepsSingle(w: World, e: Step)
    requires KeysMatch(w.svc) && Indexed(w.svc) && SingleActive(w.svc) && Enabled(NoSecond, w, e)
    ensures SingleActive(Next(w.svc, e))
  {
    var s := w.svc;
    match e
    case RequestWork(d) => WorkKeepsSingle(s, d);
    case DispatchWork(d) => WorkKeepsSingle(s, d);
    case UpdateSession(u, now) => ReportKeepsSingleActiveIff(s, u, now);
    case _ => FewerActive(s, Next(s, e));
  }

  lemma FewerActive(s: State, t: State)
    requires SingleActive(s)
    requires forall id | ActiveAt(t.sessions, id) :: ActiveAt(s.sessions, id) && t.sessions[id].daemonId == s.sessions[id].daemonId
    ensures SingleActive(t)
  {
  }

  lemma WorkKeepsSingle(s: State, d: Id)
    requires KeysMatch(s) && Indexed(s) && SingleActive(s)
    ensures SingleActive(Work(s, d).0)
  {
    var t := Work(s, d).0;
    if Work(s, d).1.Some? {
      var sid := Work(s, d).1.value.sessionId;
      ActiveCheckIsScan(s, d);
      PendingListIsScan(s, d, Work(s, d).1.value);
      forall a, b | ActiveAt(t.sessions, a) && ActiveAt(t.sessions, b) && t.sessions[a].daemonId == t.sessions[b].daemonId
        ensures a == b
      {
        assert a != sid ==> ActiveAt(s.sessions, a);
        assert b != sid ==> ActiveAt(s.sessions, b);
      }
    }
  }

  lemma {:induction false} RunKeepsSingle(w: World, es: seq<Step>)
    requires KeysMatch(w.svc) && Indexed(w.svc) && SingleActive(w.svc) && w.svc.sessions.Keys <= w.seen
    requires Legal(NoSecond, w, es)
    ensures SingleActive(Exec(w, es).svc)
    decreases |es|
  {
    if es != [] {
      StepKeepsSingle(w, es[0]);
      StepKeepsIndex(w, es[0]);
      StepStaysSeen(NoSecond, w, es[0]);
      RunKeepsSingle(Advance(w, es[0]), es[1..]);
    }
  }

  /** A daemon has at most one active session in every state reached without reports that start a second one. */
  lemma ReachableSingleActive(es: seq<Step>)
    requires Legal(NoSecond, INIT, es)
    ensures SingleActive(Exec(INIT, es).svc)
  {
    RunKeepsSingle(INIT, es);
  }

  lemma {:induction false} RunKeepsCoherent(w: World, es: seq<Step>)
    requires Coherent(w.svc) && w.svc.sessions.Keys <= w.seen && Legal(OneActive, w, es)
    ensures Coherent(Exec(w, es).svc) && Exec(w, es).svc.sessions.Keys <= Exec(w, es).seen
    decreases |es|
  {
    if es != [] {
      StepKeeps(w, es[0]);
      StepStaysSeen(OneActive, w, es[0]);
      RunKeepsCoherent(Advance(w, es[0]), es[1..]);
    }
  }

  /** If none of them starts a second active session, table, queues and flags agree and no daemon has two active ones. */
  lemma ReachableCoherent(es: seq<Step>)
    requires Legal(OneActive, INIT, es)
    ensures Coherent(Exec(INIT, es).svc)
  {
    RunKeepsCoherent(INIT, es);
  }

  /** Runs of well-formed reports undo no dispatch. */
  lemma {:induction false} StrictRunsUndoNothing(w: World, es: seq<Step>)
    requires Coherent(w.svc) && w.svc.sessions.Keys <= w.seen && Legal(Strict, w, es)
    ensures Legal(NoneUndone, w, es)
    decreases |es|
  {
    if es != [] {
      if es[0].UpdateSession? {
        WellFormedIsOrderly(w.svc, es[0].report);
      }
      StepKeeps(w, es[0]);
      StepStaysSeen(NoneUndone, w, es[0]);
      StrictRunsUndoNothing(Advance(w, es[0]), es[1..]);
    }
  }

  /** Sessions are handed out in the order they were started, per daemon, and none twice. */
  lemma DispatchIsFifo(es: seq<Step>, i: nat, j: nat)
    requires Legal(NoneUndone, INIT, es) && i < j < |Exec(INIT, es).handed|
    ensures var w := Exec(INIT, es);
            && w.handed[i] < |w.starts| && w.handed[j] < |w.starts|
            && w.handed[i] != w.handed[j]
            && (w.starts[w.handed[i]].0 == w.starts[w.handed[j]].0 ==> w.handed[i] < w.handed[j])
  {
    RunKeepsInv(INIT, es);
  }

  /** Every session handed out is recorded in `handed` under its start number. */
  lemma HandedIsRecorded(es: seq<Step>, e: Step)
    requires Legal(NoneUndone, INIT, es) && HandedBy(Exec(INIT, es).svc, e).Some?
    ensures var w := Exec(INIT, es); var x := HandedBy(w.svc, e).value;
            && Numbered(w, x.sessionId, x.daemonId)
            && Advance(w, e).handed == w.handed + [w.number[x.sessionId]]
  {
    RunKeepsInv(INIT, es);
    WorkHandsOutFirst(Exec(INIT, es).svc, e.daemon);
  }

  /** A session that waits before and after any run waited all along, and nobody got ahead of it. */
  lemma {:induction false} WaitingNeverOvertaken(w: World, es: seq<Step>, id: Id)
    requires Inv(w) && Legal(NoneUndone, w, es) && id in w.seen && Waits(Exec(w, es).svc, id)
    ensures Waits(w.svc, id) && Ahead(Exec(w, es).svc, id) <= Ahead(w.svc, id)
    decreases |es|
  {
    if es != [] {
      StepKeepsInv(w, es[0]);
      StepShrinks(w, es[0]);
      WaitingNeverOvertaken(Advance(w, es[0]), es[1..], id);
    }
  }

  /** Who stands ahead never changes either: no session moves from behind a waiting one to before it. */
  lemma {:induction false} OrderIsKept(w: World, es: seq<Step>, a: Id, b: Id)
    requires Inv(w) && Legal(NoneUndone, w, es) && a in w.seen && b in w.seen
    requires Waits(Exec(w, es).svc, a) && Waits(Exec(w, es).svc, b)
    requires Exec(w, es).svc.sessions[a].daemonId == Exec(w, es).svc.sessions[b].daemonId
    requires Ahead(Exec(w, es).svc, a) < Ahead(Exec(w, es).svc, b)
    ensures Waits(w.svc, a) && Waits(w.svc, b)
    ensures w.svc.sessions[a].daemonId == w.svc.sessions[b].daemonId && Ahead(w.svc, a) < Ahead(w.svc, b)
    decreases |es|
  {
    if es != [] {
      StepKeepsInv(w, es[0]);
      StepShrinks(w, es[0]);
      OrderIsKept(Advance(w, es[0]), es[1..], a, b);
    }
  }

  /** In every reachable state a work response carries a session or a cancellation, never both. */
  lemma ResponsesNeverCarryBoth(es: seq<Step>, d: Id)
    requires Legal(OneActive, INIT, es)
    ensures var s := Exec(INIT, es).svc;
            !(Work(s, d).1.Some? && PullCancellation(Work(s, d).0, d).1.0)
  {
    RunKeepsCoherent(INIT, es);
    WorkExcludesCancellation(Exec(INIT, es).svc, d);
  }
}
