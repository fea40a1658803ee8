/**
 That no waiting session starves: how often a daemon can be handed other sessions first, and that
 rounds of hand-out and finish serve the queue in turn.
 */
module SessionProgress {
  import opened Common
  import opened Sequences
  import opened Sessions
  import opened SessionInvariants
  import opened SessionRuns
  import opened SessionRecovery

  // ---- How often a session is passed over ------------------------------------------------------

  /** The waiting sessions that stand ahead of `id` in its queue. */
  function Before(s: State, id: Id): set<Id>
    requires id in s.sessions
  {
    set x | x in s.sessions && Waits(s, x) && s.sessions[x].daemonId == s.sessions[id].daemonId && Ahead(s, x) < Ahead(s, id)
  }

  predicate HandsOut(s: State, e: Step, d: Id) {
    HandedBy(s, e).Some? && HandedBy(s, e).value.daemonId == d
  }

  /** How many sessions a run hands to the daemon. */
  function HandOuts(w: World, es: seq<Step>, d: Id): nat
    decreases |es|
  {
    if es == [] then 0 else (if HandsOut(w.svc, es[0], d) then 1 else 0) + HandOuts(Advance(w, es[0]), es[1..], d)
  }

  /** Nobody gets ahead of a session that keeps waiting. */
  lemma BeforeShrinks(w: World, e: Step, id: Id)
    requires Coherent(w.svc) && w.svc.sessions.Keys <= w.seen && Enabled(NoneUndone, w, e) && id in w.seen
    requires Waits(Next(w.svc, e), id)
    ensures Waits(w.svc, id) && Next(w.svc, e).sessions[id].daemonId == w.svc.sessions[id].daemonId
    ensures Before(Next(w.svc, e), id) <= Before(w.svc, id)
  {
    var s, t := w.svc, Next(w.svc, e);
    StepShrinks(w, e);
    forall x | x in Before(t, id) ensures x in Before(s, id) {
      if e.StartSession? && x == e.sid {
        StartGoesLast(s, e, id);
      }
    }
  }

  /** A session handed out was ahead of every other waiting session, and waits no more. */
  lemma HandOutLeaves(s: State, e: Step, id: Id)
    requires Coherent(s) && Waits(s, id) && Waits(Next(s, e), id) && HandsOut(s, e, s.sessions[id].daemonId)
    ensures var x := HandedBy(s, e).value.sessionId; x in Before(s, id) && !Waits(Next(s, e), x)
  {
    var d := s.sessions[id].daemonId;
    WorkHandsOutFirst(s, e.daemon);
    assert id in Queue(s, d);
  }

  lemma StepPassesOver(w: World, e: Step, id: Id)
    requires Coherent(w.svc) && w.svc.sessions.Keys <= w.seen && Enabled(NoneUndone, w, e) && id in w.seen
    requires Waits(Next(w.svc, e), id)
    ensures Waits(w.svc, id) && Next(w.svc, e).sessions[id].daemonId == w.svc.sessions[id].daemonId
    ensures |Before(Next(w.svc, e), id)| + (if HandsOut(w.svc, e, w.svc.sessions[id].daemonId) then 1 else 0) <= |Before(w.svc, id)|
  {
    var s, t := w.svc, Next(w.svc, e);
    BeforeShrinks(w, e, id);
    if HandsOut(s, e, s.sessions[id].daemonId) {
      HandOutLeaves(s, e, id);
      SmallerSet(Before(t, id), Before(s, id), HandedBy(s, e).value.sessionId);
    } else {
      SubsetIsSmaller(Before(t, id), Before(s, id));
    }
  }

  lemma {:induction false} SubsetIsSmaller(a: set<Id>, b: set<Id>)
    requires a <= b
    ensures |a| <= |b|
    decreases |a|
  {
    if a != {} {
      var x :| x in a;
      SubsetIsSmaller(a - {x}, b - {x});
    }
  }

  lemma SmallerSet(a: set<Id>, b: set<Id>, x: Id)
    requires a <= b && x in b && x !in a
    ensures |a| + 1 <= |b|
  {
    SubsetIsSmaller(a + {x}, b);
  }

  /**
   Over every run in which no dispatch is undone, a session that waits to the end has been passed
   over at most as often as there were waiting sessions ahead of it at the start.
   */
  lemma {:induction false} PassedOverAtMost(w: World, es: seq<Step>, id: Id)
    requires Coherent(w.svc) && w.svc.sessions.Keys <= w.seen && Legal(NoneUndone, w, es) && id in w.seen
    requires Waits(Exec(w, es).svc, id)
    ensures Waits(w.svc, id)
    ensures HandOuts(w, es, w.svc.sessions[id].daemonId) <= |Before(w.svc, id)|
    decreases |es|
  {
    if es != [] {
      StepKeeps(w, es[0]);
      StepStaysSeen(NoneUndone, w, es[0]);
      PassedOverAtMost(Advance(w, es[0]), es[1..], id);
      StepPassesOver(w, es[0], id);
    }
  }

  lemma BeforeIsAhead(s: State, id: Id)
    requires Indexed(s) && id in s.sessions
    ensures |Before(s, id)| <= Ahead(s, id)
  {
    var q := Queue(s, s.sessions[id].daemonId);
    var k := Ahead(s, id);
    forall x | x in Before(s, id) ensures x in Elements(q[..k]) {
      assert x in q;
      assert q[..k][IndexOf(q, x)] == x;
    }
    SubsetIsSmaller(Before(s, id), Elements(q[..k]));
    ElementsAtMost(q[..k]);
  }

  lemma {:induction false} ElementsAtMost(q: seq<Id>)
    ensures |Elements(q)| <= |q|
  {
    if q != [] {
      ElementsAtMost(q[1..]);
      assert q == [q[0]] + q[1..];
      assert Elements(q) == Elements(q[1..]) + {q[0]};
    }
  }

  /** So a session with `k` ahead of it is among the first `k + 1` its daemon is handed, unless it is cancelled or removed. */
  lemma NoStarvation(es: seq<Step>, later: seq<Step>, id: Id)
    requires Legal(NoneUndone, INIT, es) && Legal(NoneUndone, Exec(INIT, es), later) && Waits(Exec(INIT, es).svc, id)
    requires HandOuts(Exec(INIT, es), later, Exec(INIT, es).svc.sessions[id].daemonId) > Ahead(Exec(INIT, es).svc, id)
    ensures !Waits(Exec(Exec(INIT, es), later).svc, id)
  {
    var w := Exec(INIT, es);
    LegalWeaker(NoneUndone, OneActive, INIT, es);
    RunKeepsCoherent(INIT, es);
    BeforeIsAhead(w.svc, id);
    if Waits(Exec(w, later).svc, id) {
      PassedOverAtMost(w, later, id);
    }
  }

  // ---- Rounds -----------------------------------------------------------------------------------

  /** The daemon asks for work, and the session it is handed is reported finished. */
  function Round(s: State, d: Id, u: Session, now: Time): State {
    Report(Work(s, d).0, u, now)
  }

  /** A terminal report of the session the daemon is handed next. */
  predicate Answers(s: State, d: Id, u: Session) {
    Work(s, d).1.Some? && u.sessionId == Work(s, d).1.value.sessionId && u.daemonId == d && u.phase.Terminal()
  }

  lemma HandsOutHead(s: State, d: Id, u: Session)
    requires Coherent(s) && Answers(s, d, u)
    ensures var m := Work(s, d).0;
            && Queue(s, d) != [] && u.sessionId == Queue(s, d)[0]
            && Coherent(m) && ActiveAt(m.sessions, u.sessionId) && SameDaemon(m, u)
            && m.queues == s.queues && m.sessions - {u.sessionId} == s.sessions - {u.sessionId}
  {
    WorkHandsOutFirst(s, d);
    WorkKeeps(s, d);
  }

  lemma FinishEmpties(m: State, u: Session, now: Time)
    requires Coherent(m) && ActiveAt(m.sessions, u.sessionId) && SameDaemon(m, u) && u.phase.Terminal()
    ensures var t := Report(m, u, now);
            Coherent(t) && !HasActive(t, u.daemonId) && t.sessions == m.sessions - {u.sessionId}
  {
    OnlyActive(m, u);
    WellFormedIsOrderly(m, u);
    ReportKeeps(m, u, now);
    ReportEffect(m, u, now);
    TerminalReportUnblocks(m, u, now);
  }

  /** A round leaves the daemon idle and its queue without its head; every other session stays as it was. */
  lemma RoundServesHead(s: State, d: Id, u: Session, now: Time)
    requires Coherent(s) && Answers(s, d, u)
    ensures var t := Round(s, d, u, now);
            && Coherent(t) && !HasActive(t, d)
            && Queue(s, d) != [] && u.sessionId == Queue(s, d)[0]
            && Queue(t, d) == Queue(s, d)[1..] && t.sessions == s.sessions - {u.sessionId}
  {
    var m := Work(s, d).0;
    HandsOutHead(s, d, u);
    FinishEmpties(m, u, now);
    RoundQueue(s, m, u, now);
  }

  /** Every other session of the daemon moves up by one. */
  lemma RoundMovesUp(s: State, d: Id, u: Session, now: Time, id: Id)
    requires Coherent(s) && Answers(s, d, u)
    requires id in s.sessions && s.sessions[id].daemonId == d && id != u.sessionId
    ensures var t := Round(s, d, u, now);
            id in t.sessions && t.sessions[id] == s.sessions[id] && Ahead(t, id) + 1 == Ahead(s, id)
  {
    RoundServesHead(s, d, u, now);
    assert id in Queue(s, d);
    TailIndex(Queue(s, d), id);
  }

  lemma TailIndex(q: seq<Id>, x: Id)
    requires x in q && q[0] != x
    ensures x in q[1..] && IndexOf(q, x) == 1 + IndexOf(q[1..], x)
  {
    assert q == [q[0]] + q[1..];
  }

  lemma RoundQueue(s: State, m: State, u: Session, now: Time)
    requires Indexed(m) && m.queues == s.queues && SameDaemon(m, u) && u.phase.Terminal() && u.sessionId in m.sessions
    requires Queue(s, u.daemonId) != [] && u.sessionId == Queue(s, u.daemonId)[0]
    ensures Queue(Report(m, u, now), u.daemonId) == Queue(s, u.daemonId)[1..]
  {
    ReportedQueues(m, u, now);
    DequeueOne(m, u.sessionId);
    WithoutHead(Queue(s, u.daemonId));
  }

  lemma WithoutHead(q: seq<Id>)
    requires q != [] && Distinct(q)
    ensures Keep(q, {q[0]}) == q[1..]
  {
    assert q == [q[0]] + q[1..];
    KeepAll(q[1..], {q[0]});
  }

  function Rounds(s: State, d: Id, reports: seq<(Session, Time)>): State
    decreases |reports|
  {
    if reports == [] then s else Rounds(Round(s, d, reports[0].0, reports[0].1), d, reports[1..])
  }

  predicate AllAnswer(s: State, d: Id, reports: seq<(Session, Time)>)
    decreases |reports|
  {
    reports != [] ==> Answers(s, d, reports[0].0) && AllAnswer(Round(s, d, reports[0].0, reports[0].1), d, reports[1..])
  }

  /** With `k` sessions ahead of it, a session is what the idle daemon is handed after exactly `k` rounds. */
  lemma {:induction false} ServedInTurn(s: State, d: Id, reports: seq<(Session, Time)>, id: Id)
    requires Coherent(s) && !HasActive(s, d) && Waits(s, id) && s.sessions[id].daemonId == d
    requires AllAnswer(s, d, reports) && |reports| == Ahead(s, id)
    ensures Work(Rounds(s, d, reports), d).1 == Some(s.sessions[id])
    decreases |reports|
  {
    if reports == [] {
      HeadIsNext(s, d, id);
    } else {
      var u, now := reports[0].0, reports[0].1;
      RoundServesHead(s, d, u, now);
      NotTheHead(s, d, id);
      RoundMovesUp(s, d, u, now, id);
      ServedInTurn(Round(s, d, u, now), d, reports[1..], id);
    }
  }

  lemma HeadIsNext(s: State, d: Id, id: Id)
    requires Coherent(s) && !HasActive(s, d) && Waits(s, id) && s.sessions[id].daemonId == d && Ahead(s, id) == 0
    ensures Work(s, d).1 == Some(s.sessions[id])
  {
    assert id in Queue(s, d);
    WorkHandsOutFirst(s, d);
  }

  lemma NotTheHead(s: State, d: Id, id: Id)
    requires Indexed(s) && id in s.sessions && s.sessions[id].daemonId == d && Ahead(s, id) > 0
    ensures Queue(s, d) != [] && Queue(s, d)[0] != id
  {
    assert id in Queue(s, d);
  }
}
