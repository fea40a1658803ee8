/**
 What every operation of the session table keeps, and exactly which reports keep it.
 */
module SessionInvariants {
  import opened Common
  import opened Sequences
  import opened Sessions

  ghost predicate KeysMatch(s: State) {
    forall id | id in s.sessions :: s.sessions[id].sessionId == id
  }

  /** Queues and session table index each other: each live id is once in its own daemon's queue. */
  ghost predicate Indexed(s: State) {
    && (forall id | id in s.sessions :: id in Queue(s, s.sessions[id].daemonId))
    && (forall d, id | d in s.queues && id in s.queues[d] :: id in s.sessions && s.sessions[id].daemonId == d)
    && (forall d | d in s.queues :: Distinct(s.queues[d]))
  }

  ghost predicate NoneTerminal(s: State) {
    forall id | id in s.sessions :: !s.sessions[id].phase.Terminal()
  }

  /** A cancellation flag names a live, active session of that very daemon. */
  ghost predicate FlagsNameActive(s: State) {
    forall d | d in s.flags ::
      s.flags[d].0 && ActiveAt(s.sessions, s.flags[d].1) && s.sessions[s.flags[d].1].daemonId == d
  }

  ghost predicate SingleActive(s: State) {
    forall a, b | ActiveAt(s.sessions, a) && ActiveAt(s.sessions, b)
                  && s.sessions[a].daemonId == s.sessions[b].daemonId :: a == b
  }

  ghost predicate Live(s: State) {
    NoneTerminal(s) && FlagsNameActive(s) && SingleActive(s)
  }

  ghost predicate Coherent(s: State) {
    KeysMatch(s) && Indexed(s) && Live(s)
  }

  // ---- Reports, by how far they agree with the table -------------------------------------------------

  predicate SameDaemon(s: State, u: Session) {
    u.sessionId in s.sessions ==> s.sessions[u.sessionId].daemonId == u.daemonId
  }

  predicate NoOtherActive(s: State, u: Session) {
    forall id | id in s.sessions && id != u.sessionId && s.sessions[id].daemonId == u.daemonId ::
      !s.sessions[id].phase.Active()
  }

  /** Puts a session back to waiting that has been flagged for cancellation. */
  predicate StripsFlagged(s: State, u: Session) {
    u.phase == Pending && u.daemonId in s.flags && s.flags[u.daemonId].1 == u.sessionId
  }

  /** Names the stored session's daemon, leaves flagged sessions running, and starts no second active session. */
  predicate Admissible(s: State, u: Session) {
    SameDaemon(s, u) && !StripsFlagged(s, u) && (u.phase.Active() ==> NoOtherActive(s, u))
  }

  /** A terminal report that finds a running session at the head of the remaining queue. */
  predicate Undoes(s: State, u: Session) {
    && u.phase.Terminal() && !Absorbed(s, u)
    && var rest := Keep(Queue(s, u.daemonId), {u.sessionId});
    && rest != [] && ActiveAt(s.sessions, rest[0])
  }

  predicate Orderly(s: State, u: Session) {
    Admissible(s, u) && u.phase != Pending && !Undoes(s, u)
  }

  /** As a daemon behaves that runs one session at a time: no other session of it is active. */
  predicate WellFormed(s: State, u: Session) {
    SameDaemon(s, u) && u.phase != Pending && NoOtherActive(s, u)
  }

  // ---- The queue-based queries equal a plain scan ---------------------------

  lemma PendingListIsScan(s: State, d: Id, x: Session)
    requires KeysMatch(s) && Indexed(s)
    ensures x in Waiting(Queue(s, d), s.sessions) <==>
            x.sessionId in s.sessions && s.sessions[x.sessionId] == x && x.daemonId == d && x.phase == Pending
  {
    if x.sessionId in s.sessions && s.sessions[x.sessionId] == x && x.daemonId == d && x.phase == Pending {
      assert x.sessionId in Queue(s, d);
    }
  }

  lemma ActiveCheckIsScan(s: State, d: Id)
    requires Indexed(s)
    ensures HasActive(s, d) <==> exists id :: ActiveAt(s.sessions, id) && s.sessions[id].daemonId == d
  {
    if id :| ActiveAt(s.sessions, id) && s.sessions[id].daemonId == d {
      assert id in Queue(s, d);
    }
  }

  /** The first waiting session stands before every other waiting session of its queue. */
  lemma {:induction false} FirstWaiting(q: seq<Id>, sessions: map<Id, Session>, id: Id)
    requires forall x | x in q && x in sessions :: sessions[x].sessionId == x
    requires id in q && id in sessions && sessions[id].phase == Pending
    ensures Waiting(q, sessions) != []
    ensures var first := Waiting(q, sessions)[0].sessionId;
            first in q && first in sessions && sessions[first] == Waiting(q, sessions)[0]
            && IndexOf(q, first) <= IndexOf(q, id)
  {
    assert q == [q[0]] + q[1..];
    if !(q[0] in sessions && sessions[q[0]].phase == Pending) {
      FirstWaiting(q[1..], sessions, id);
    }
  }

  /** What a work request returns: nothing while the daemon is busy, else its earliest queued session. */
  lemma WorkHandsOutFirst(s: State, d: Id)
    requires Coherent(s)
    ensures Work(s, d).1 == None <==> HasActive(s, d) || Queue(s, d) == []
    ensures Work(s, d).1.Some? ==>
              && !HasActive(s, d)
              && var sid := Work(s, d).1.value.sessionId;
              && sid == Queue(s, d)[0]
              && sid in s.sessions && s.sessions[sid] == Work(s, d).1.value
              && s.sessions[sid].daemonId == d && s.sessions[sid].phase == Pending
              && Work(s, d).0 == s.(sessions := s.sessions[sid := s.sessions[sid].(phase := Starting)])
  {
    var q := Queue(s, d);
    if !HasActive(s, d) {
      if q != [] {
        assert q[0] in s.queues[d];
        assert !ActiveAt(s.sessions, q[0]);
        FirstWaiting(q, s.sessions, q[0]);
      } else {
        assert Waiting(q, s.sessions) == [];
      }
    }
  }

  // ---- Preservation --------------------------------------------------------

  lemma StartKeepsIndex(s: State, sid: Id, d: Id, network: Id, kind: nat)
    requires Indexed(s) && sid !in s.sessions
    ensures Indexed(Start(s, sid, d, network, kind))
  {
    var t := Start(s, sid, d, network, kind);
    assert sid !in Queue(s, d);
    DistinctAppend(Queue(s, d), sid);
    forall id | id in t.sessions ensures id in Queue(t, t.sessions[id].daemonId) {
      assert id != sid ==> id in Queue(s, s.sessions[id].daemonId);
    }
  }

  lemma StartKeepsLive(s: State, sid: Id, d: Id, network: Id, kind: nat)
    requires Live(s) && sid !in s.sessions
    ensures Live(Start(s, sid, d, network, kind))
  {
  }

  lemma StartKeeps(s: State, sid: Id, d: Id, network: Id, kind: nat)
    requires Coherent(s) && sid !in s.sessions
    ensures Coherent(Start(s, sid, d, network, kind))
  {
    StartKeepsIndex(s, sid, d, network, kind);
    StartKeepsLive(s, sid, d, network, kind);
  }

  /** Storing a payload under an id whose daemon does not change keeps the index. */
  lemma ReplaceKeepsIndex(s: State, id: Id, x: Session, t: State)
    requires Indexed(s) && id in s.sessions && x.daemonId == s.sessions[id].daemonId
    requires t.sessions == s.sessions[id := x] && t.queues == s.queues
    ensures Indexed(t)
  {
    forall k | k in t.sessions ensures k in Queue(t, t.sessions[k].daemonId) {
      assert k in Queue(s, s.sessions[k].daemonId);
    }
  }

  /** Storing an active payload keeps the phase invariants when its daemon has no other active session. */
  lemma ActivateKeepsLive(s: State, x: Session, t: State)
    requires Live(s) && x.phase.Active() && SameDaemon(s, x) && NoOtherActive(s, x)
    requires t.sessions == s.sessions[x.sessionId := x] && t.flags == s.flags
    ensures Live(t)
  {
  }

  lemma WorkKeeps(s: State, d: Id)
    requires Coherent(s)
    ensures Coherent(Work(s, d).0)
  {
    WorkHandsOutFirst(s, d);
    if Work(s, d).1.Some? {
      var x := Work(s, d).1.value.(phase := Starting);
      IdleHasNoActive(s, d, x);
      ReplaceKeepsIndex(s, x.sessionId, x, Work(s, d).0);
      ActivateKeepsLive(s, x, Work(s, d).0);
    }
  }

  lemma WorkKeepsIndex(s: State, d: Id)
    requires KeysMatch(s) && Indexed(s)
    ensures KeysMatch(Work(s, d).0) && Indexed(Work(s, d).0)
  {
    if Work(s, d).1.Some? {
      var sid := Work(s, d).1.value.sessionId;
      ReplaceKeepsIndex(s, sid, s.sessions[sid].(phase := Starting), Work(s, d).0);
    }
  }

  lemma CancelKeepsIndex(s: State, sid: Id)
    requires KeysMatch(s) && Indexed(s)
    ensures KeysMatch(Cancel(s, sid).0) && Indexed(Cancel(s, sid).0)
  {
    if sid in s.sessions && s.sessions[sid].phase == Pending {
      DequeueOne(s, sid);
      RemovalKeepsIndex(s, {sid}, Cancel(s, sid).0);
    } else {
      SameIndex(s, Cancel(s, sid).0);
    }
  }

  lemma IdleHasNoActive(s: State, d: Id, x: Session)
    requires Indexed(s) && !HasActive(s, d) && x.daemonId == d
    ensures NoOtherActive(s, x)
  {
    ActiveCheckIsScan(s, d);
    forall id | id in s.sessions && s.sessions[id].daemonId == d ensures !s.sessions[id].phase.Active() {
      assert !ActiveAt(s.sessions, id);
    }
  }

  lemma PullKeeps(s: State, d: Id)
    requires Coherent(s)
    ensures Coherent(PullCancellation(s, d).0)
  {
    SameIndex(s, PullCancellation(s, d).0);
  }

  /** Removing `ids` from table and queues keeps the index exact. */
  lemma RemovalKeepsIndex(s: State, ids: set<Id>, t: State)
    requires Indexed(s) && ids <= s.sessions.Keys
    requires t.sessions == s.sessions - ids && t.queues == Dequeue(s, ids)
    ensures Indexed(t)
  {
    forall d | d in t.queues ensures Distinct(t.queues[d]) {
      KeepDistinct(s.queues[d], Of(s, ids, d));
    }
    forall id | id in t.sessions ensures id in Queue(t, t.sessions[id].daemonId) {
      assert id in Queue(s, s.sessions[id].daemonId);
    }
  }

  /** Removing sessions keeps the phase invariants if no remaining flag names a removed one. */
  lemma RemovalKeepsLive(s: State, ids: set<Id>, t: State)
    requires Live(s)
    requires t.sessions == s.sessions - ids
    requires forall d | d in t.flags :: d in s.flags && t.flags[d] == s.flags[d] && t.flags[d].1 !in ids
    ensures Live(t)
  {
  }

  lemma DequeueKeeps(s: State, sid: Id)
    requires Coherent(s) && sid in s.sessions && s.sessions[sid].phase == Pending
    ensures Coherent(Cancel(s, sid).0)
  {
    DequeueOne(s, sid);
    RemovalKeepsIndex(s, {sid}, Cancel(s, sid).0);
    RemovalKeepsLive(s, {sid}, Cancel(s, sid).0);
  }

  lemma FlagKeepsLive(s: State, sid: Id)
    requires Live(s) && ActiveAt(s.sessions, sid)
    ensures Live(Cancel(s, sid).0)
  {
  }

  lemma CancelKeeps(s: State, sid: Id)
    requires Coherent(s)
    ensures Coherent(Cancel(s, sid).0)
  {
    if sid in s.sessions && s.sessions[sid].phase == Pending {
      DequeueKeeps(s, sid);
    } else if ActiveAt(s.sessions, sid) {
      FlagKeepsLive(s, sid);
      assert Cancel(s, sid).0.queues == s.queues && Cancel(s, sid).0.sessions == s.sessions;
      SameIndex(s, Cancel(s, sid).0);
    }
  }

  lemma SameIndex(s: State, t: State)
    requires Indexed(s) && t.sessions == s.sessions && t.queues == s.queues
    ensures Indexed(t)
  {
    assert forall e :: Queue(t, e) == Queue(s, e);
  }

  /** With an exact index, removing one id everywhere is removing it from its own queue. */
  lemma DequeueOne(s: State, sid: Id)
    requires Indexed(s) && sid in s.sessions
    ensures var d := s.sessions[sid].daemonId;
            d in s.queues && Dequeue(s, {sid}) == s.queues[d := Keep(s.queues[d], {sid})]
  {
    var d := s.sessions[sid].daemonId;
    assert sid in Queue(s, d);
    assert Of(s, {sid}, d) == {sid};
    forall e | e in s.queues && e != d ensures Keep(s.queues[e], Of(s, {sid}, e)) == s.queues[e] {
      assert Of(s, {sid}, e) == {};
      KeepAll(s.queues[e], {});
    }
  }

  lemma AgeOutKeeps(s: State, cutoff: Time)
    requires Coherent(s)
    ensures Coherent(AgeOut(s, cutoff))
  {
    RemovalKeepsIndex(s, Outdated(s, cutoff), AgeOut(s, cutoff));
    RemovalKeepsLive(s, Outdated(s, cutoff), AgeOut(s, cutoff));
  }

  lemma FailStalledKeeps(s: State, now: Time)
    requires Coherent(s)
    ensures Coherent(FailStalled(s, now))
  {
    if Stalled(s, now) != {} {
      RemovalKeepsIndex(s, Stalled(s, now), FailStalled(s, now));
      RemovalKeepsLive(s, Stalled(s, now), FailStalled(s, now));
    }
  }

  /** With an exact index, clearing a daemon removes all its sessions and nothing else. */
  lemma ClearIsScan(s: State, d: Id)
    requires Indexed(s)
    ensures Clear(s, d).sessions.Keys == set id | id in s.sessions && s.sessions[id].daemonId != d
    ensures Indexed(Clear(s, d))
  {
    var t := Clear(s, d);
    forall id | id in s.sessions ensures id in Queue(s, d) <==> s.sessions[id].daemonId == d {
      assert id in Queue(s, s.sessions[id].daemonId);
    }
    forall id | id in t.sessions ensures id in Queue(t, t.sessions[id].daemonId) {
      assert id in Queue(s, s.sessions[id].daemonId);
    }
  }

  lemma ClearKeeps(s: State, d: Id)
    requires Coherent(s)
    ensures Coherent(Clear(s, d))
  {
    ClearIsScan(s, d);
    forall e | e in Clear(s, d).flags ensures s.flags[e].1 !in Elements(Queue(s, d)) {
      assert ActiveAt(s.sessions, s.flags[e].1) && s.sessions[s.flags[e].1].daemonId == e;
    }
    RemovalKeepsLive(s, Elements(Queue(s, d)), Clear(s, d));
  }

  // ---- Reports -------------------------------------------------------------

  lemma StoredKeepsIndex(s: State, u: Session, now: Time)
    requires KeysMatch(s) && Indexed(s) && SameDaemon(s, u)
    ensures KeysMatch(Stored(s, u, now)) && Indexed(Stored(s, u, now))
  {
    var t := Stored(s, u, now);
    if u.sessionId in s.sessions {
      ReplaceKeepsIndex(s, u.sessionId, u, t);
    } else {
      assert u.sessionId !in Queue(s, u.daemonId);
      DistinctAppend(Queue(s, u.daemonId), u.sessionId);
      forall id | id in t.sessions ensures id in Queue(t, t.sessions[id].daemonId) {
        assert id in s.sessions ==> id in Queue(s, s.sessions[id].daemonId);
      }
    }
  }

  /** Terminal processing removes exactly the reported session from table and queue. */
  lemma FinishedKeepsIndex(s: State, u: Session)
    requires Indexed(s)
    requires u.sessionId in s.sessions && s.sessions[u.sessionId] == u
    ensures Finished(s, u).queues == Dequeue(s, {u.sessionId})
    ensures Indexed(Finished(s, u))
  {
    var t := Finished(s, u);
    var v := t.(sessions := s.sessions - {u.sessionId});
    assert t.queues == Dequeue(s, {u.sessionId}) by { DequeueOne(s, u.sessionId); }
    assert Indexed(v) by { RemovalKeepsIndex(s, {u.sessionId}, v); }
    ReleaseThenRemove(Keep(Queue(s, u.daemonId), {u.sessionId}), s.sessions, u.sessionId);
    assert Queue(v, u.daemonId) == Keep(Queue(s, u.daemonId), {u.sessionId}) by { DequeueOne(s, u.sessionId); }
    ReleaseKeepsIndex(v, u.daemonId, t);
  }

  lemma ReleaseThenRemove(q: seq<Id>, sessions: map<Id, Session>, sid: Id)
    requires sid !in q
    ensures HeadToPending(q, sessions) - {sid} == HeadToPending(q, sessions - {sid})
  {
  }

  lemma ReleaseKeepsIndex(v: State, d: Id, t: State)
    requires Indexed(v) && t.queues == v.queues
    requires t.sessions == HeadToPending(Queue(v, d), v.sessions)
    ensures Indexed(t)
  {
    if Queue(v, d) == [] {
      SameIndex(v, t);
    } else {
      var id := Queue(v, d)[0];
      assert id in v.queues[d];
      ReplaceKeepsIndex(v, id, v.sessions[id].(phase := Pending), t);
    }
  }

  /** A report keeps the index exact if and only if it names the daemon the session belongs to. */
  lemma ReportKeepsIndexIff(s: State, u: Session, now: Time)
    requires KeysMatch(s) && Indexed(s)
    ensures Indexed(Report(s, u, now)) <==> SameDaemon(s, u)
  {
    if SameDaemon(s, u) {
      StoredKeepsIndex(s, u, now);
      if Absorbed(s, u) {
        SameIndex(s, Report(s, u, now));
      } else if u.phase.Terminal() {
        FinishedKeepsIndex(Stored(s, u, now), u);
      }
    } else {
      MisattributedReportBreaksIndex(s, u, now);
    }
  }

  lemma MisattributedReportBreaksIndex(s: State, u: Session, now: Time)
    requires Indexed(s) && !SameDaemon(s, u)
    ensures !Indexed(Report(s, u, now))
  {
    var t := Report(s, u, now);
    var d := s.sessions[u.sessionId].daemonId;
    assert u.sessionId in Queue(s, d);
    MisattributedReportMoves(s, u, now);
    assert t.queues[d] == s.queues[d];
  }

  /** A misattributed report leaves the id in its old queue but not with its old daemon. */
  lemma MisattributedReportMoves(s: State, u: Session, now: Time)
    requires !SameDaemon(s, u) && s.sessions[u.sessionId].daemonId in s.queues
    ensures var t := Report(s, u, now); var d := s.sessions[u.sessionId].daemonId;
            && d in t.queues && t.queues[d] == s.queues[d]
            && (u.sessionId in t.sessions ==> t.sessions[u.sessionId].daemonId == u.daemonId != d)
  {
  }

  /** Terminal processing activates no session, whatever the other sessions are doing. */
  lemma FinishedActivatesNone(s: State, u: Session, id: Id)
    requires ActiveAt(Finished(s, u).sessions, id)
    ensures ActiveAt(s.sessions, id) && id != u.sessionId
    ensures Finished(s, u).sessions[id].daemonId == s.sessions[id].daemonId
  {
  }

  /** A report keeps "at most one active session per daemon" iff it starts no second one. */
  lemma ReportKeepsSingleActiveIff(s: State, u: Session, now: Time)
    requires SingleActive(s) && SameDaemon(s, u)
    ensures SingleActive(Report(s, u, now)) <==> (u.phase.Active() ==> NoOtherActive(s, u))
  {
    var t := Report(s, u, now);
    if u.phase.Terminal() {
      forall a, b | ActiveAt(t.sessions, a) && ActiveAt(t.sessions, b)
                    && t.sessions[a].daemonId == t.sessions[b].daemonId
        ensures a == b
      {
        if !Absorbed(s, u) {
          FinishedActivatesNone(Stored(s, u, now), u, a);
          FinishedActivatesNone(Stored(s, u, now), u, b);
        }
        assert ActiveAt(s.sessions, a) && ActiveAt(s.sessions, b);
      }
    } else if u.phase.Active() && !NoOtherActive(s, u) {
      var id :| id in s.sessions && id != u.sessionId && s.sessions[id].daemonId == u.daemonId && s.sessions[id].phase.Active();
      assert ActiveAt(t.sessions, id) && ActiveAt(t.sessions, u.sessionId);
    } else {
      forall a, b | ActiveAt(t.sessions, a) && ActiveAt(t.sessions, b)
                    && t.sessions[a].daemonId == t.sessions[b].daemonId
        ensures a == b
      {
        assert a != u.sessionId ==> ActiveAt(s.sessions, a);
        assert b != u.sessionId ==> ActiveAt(s.sessions, b);
      }
    }
  }

  lemma WellFormedIsOrderly(s: State, u: Session)
    requires Indexed(s) && WellFormed(s, u)
    ensures Orderly(s, u)
  {
    var rest := Keep(Queue(s, u.daemonId), {u.sessionId});
    if rest != [] {
      assert rest[0] in rest && rest[0] in s.queues[u.daemonId];
    }
  }

  lemma ReportFlags(s: State, u: Session, now: Time)
    ensures Report(s, u, now).flags ==
            if u.phase.Terminal() && !Absorbed(s, u) then s.flags - {u.daemonId} else s.flags
  {
  }

  /** What terminal processing leaves: the other sessions, the next one put back to waiting. */
  lemma TerminalSessions(s: State, u: Session, now: Time)
    requires u.phase.Terminal() && !Absorbed(s, u)
    ensures Report(s, u, now).sessions
            == HeadToPending(Keep(Queue(s, u.daemonId), {u.sessionId}), s.sessions[u.sessionId := u]) - {u.sessionId}
  {
    var q := Queue(s, u.daemonId);
    if u.sessionId !in s.sessions {
      KeepAppend(q, [u.sessionId], {u.sessionId});
      assert Keep([u.sessionId], {u.sessionId}) == [];
      assert Keep(q + [u.sessionId], {u.sessionId}) == Keep(q, {u.sessionId});
    }
  }

  /** The effect of an orderly report on the session table: store, or remove, one session. */
  lemma ReportEffect(s: State, u: Session, now: Time)
    requires Indexed(s) && NoneTerminal(s) && Orderly(s, u)
    ensures Report(s, u, now).sessions ==
            if u.phase.Terminal() then s.sessions - {u.sessionId} else s.sessions[u.sessionId := u]
  {
    if u.phase.Terminal() && !Absorbed(s, u) {
      TerminalSessions(s, u, now);
      var rest := Keep(Queue(s, u.daemonId), {u.sessionId});
      if rest != [] {
        assert rest[0] in rest && rest[0] in s.queues[u.daemonId];
        assert s.sessions[rest[0]].phase == Pending;
      }
      SettledHead(rest, s.sessions, u);
    }
  }

  lemma SettledHead(rest: seq<Id>, sessions: map<Id, Session>, u: Session)
    requires rest != [] ==> rest[0] != u.sessionId && rest[0] in sessions && sessions[rest[0]].phase == Pending
    ensures HeadToPending(rest, sessions[u.sessionId := u]) - {u.sessionId} == sessions - {u.sessionId}
  {
  }

  lemma ReportKeepsKeys(s: State, u: Session, now: Time)
    requires KeysMatch(s)
    ensures KeysMatch(Report(s, u, now))
  {
  }

  /** Ending a session keeps the phase invariants, also while another session of its daemon runs. */
  lemma EndingKeepsLive(s: State, rest: seq<Id>, u: Session, t: State)
    requires Live(s) && SameDaemon(s, u)
    requires forall id | id in rest && id in s.sessions :: s.sessions[id].daemonId == u.daemonId
    requires t.sessions == HeadToPending(rest, s.sessions[u.sessionId := u]) - {u.sessionId}
    requires t.flags == s.flags - {u.daemonId}
    ensures NoneTerminal(t) && FlagsNameActive(t)
  {
    forall d | d in t.flags
      ensures t.flags[d].0 && ActiveAt(t.sessions, t.flags[d].1) && t.sessions[t.flags[d].1].daemonId == d
    {
      assert ActiveAt(s.sessions, s.flags[d].1) && s.sessions[s.flags[d].1].daemonId == d;
    }
  }

  /** Storing a waiting payload keeps the phase invariants exactly if it strips no flagged session. */
  lemma WaitingKeepsLiveIff(s: State, x: Session, t: State)
    requires Live(s) && x.phase == Pending && SameDaemon(s, x)
    requires t.sessions == s.sessions[x.sessionId := x] && t.flags == s.flags
    ensures FlagsNameActive(t) <==> !StripsFlagged(s, x)
    ensures NoneTerminal(t) && SingleActive(t)
  {
    forall a, b | ActiveAt(t.sessions, a) && ActiveAt(t.sessions, b) && t.sessions[a].daemonId == t.sessions[b].daemonId
      ensures a == b
    {
      assert ActiveAt(s.sessions, a) && ActiveAt(s.sessions, b);
    }
    forall d | d in t.flags && t.flags[d].1 != x.sessionId
      ensures ActiveAt(t.sessions, t.flags[d].1) && t.sessions[t.flags[d].1].daemonId == d
    {
      assert ActiveAt(s.sessions, s.flags[d].1);
    }
    if StripsFlagged(s, x) {
      assert !ActiveAt(t.sessions, t.flags[x.daemonId].1);
    }
  }

  lemma EndingReportKeepsLive(s: State, u: Session, now: Time)
    requires Indexed(s) && Live(s) && SameDaemon(s, u) && u.phase.Terminal() && !Absorbed(s, u)
    ensures Live(Report(s, u, now))
  {
    var q := Queue(s, u.daemonId);
    ReportFlags(s, u, now);
    TerminalSessions(s, u, now);
    assert forall id | id in q :: id in s.queues[u.daemonId];
    EndingKeepsLive(s, Keep(q, {u.sessionId}), u, Report(s, u, now));
    ReportKeepsSingleActiveIff(s, u, now);
  }

  lemma ReportKeepsLive(s: State, u: Session, now: Time)
    requires Indexed(s) && Live(s) && Admissible(s, u)
    ensures Live(Report(s, u, now))
  {
    var t := Report(s, u, now);
    if u.phase.Active() {
      ActivateKeepsLive(s, u, t);
    } else if u.phase == Pending {
      WaitingKeepsLiveIff(s, u, t);
    } else if Absorbed(s, u) {
      assert t.sessions == s.sessions && t.flags == s.flags;
    } else {
      EndingReportKeepsLive(s, u, now);
    }
  }

  lemma ReportKeeps(s: State, u: Session, now: Time)
    requires Coherent(s) && Admissible(s, u)
    ensures Coherent(Report(s, u, now))
  {
    ReportKeepsKeys(s, u, now);
    ReportKeepsIndexIff(s, u, now);
    ReportKeepsLive(s, u, now);
  }

  /** A rightly attributed report keeps every flag naming an active session exactly if it strips no flagged one. */
  lemma ReportKeepsFlagsIff(s: State, u: Session, now: Time)
    requires Coherent(s) && SameDaemon(s, u)
    ensures FlagsNameActive(Report(s, u, now)) <==> !StripsFlagged(s, u)
  {
    ReportFlags(s, u, now);
    if u.phase == Pending {
      WaitingKeepsLiveIff(s, u, Report(s, u, now));
    } else if u.phase.Active() {
      StoringActiveKeepsFlags(s, u, Report(s, u, now));
    } else {
      ReportKeepsLive(s, u, now);
    }
  }

  lemma StoringActiveKeepsFlags(s: State, x: Session, t: State)
    requires FlagsNameActive(s) && x.phase.Active() && SameDaemon(s, x)
    requires t.sessions == s.sessions[x.sessionId := x] && t.flags == s.flags
    ensures FlagsNameActive(t)
  {
    forall d | d in t.flags
      ensures t.flags[d].0 && ActiveAt(t.sessions, t.flags[d].1) && t.sessions[t.flags[d].1].daemonId == d
    {
      assert ActiveAt(s.sessions, s.flags[d].1);
    }
  }

  /** Admissible reports are exactly those that keep a coherent table coherent. */
  lemma ReportKeepsIff(s: State, u: Session, now: Time)
    requires Coherent(s)
    ensures Coherent(Report(s, u, now)) <==> Admissible(s, u)
  {
    ReportKeepsIndexIff(s, u, now);
    if SameDaemon(s, u) {
      ReportKeepsFlagsIff(s, u, now);
      ReportKeepsSingleActiveIff(s, u, now);
      if Admissible(s, u) {
        ReportKeeps(s, u, now);
      }
    }
  }

  // ---- The work response ----------------------------------------------------

  /** A response never carries both a session and a cancellation. */
  lemma WorkExcludesCancellation(s: State, d: Id)
    requires Coherent(s)
    ensures Work(s, d).1.Some? ==> !PullCancellation(Work(s, d).0, d).1.0
  {
    WorkHandsOutFirst(s, d);
    ActiveCheckIsScan(s, d);
  }
}
