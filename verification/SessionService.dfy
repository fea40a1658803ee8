/**
 The discovery service and the daemon service's dispatch, as mutable state.

 Every method is one atomic step: its contract equates the new table with the
 corresponding function of the old one, for every table whose keys match their
 payloads.  Map iteration picks entries in any order.
 */
module SessionService {
  import opened Common
  import opened Sequences
  import opened Sessions
  import opened SessionInvariants

  /** What the handler learns about the daemon behind a work request. */
  datatype Caller = Caller(known: bool, sameNetwork: bool, standby: bool, statusRecorded: bool)

  datatype WorkError = DaemonNotFound | AccessDenied | DaemonStandby | StatusFailed

  datatype Result<T> = Success(value: T) | Failure(error: WorkError)

  class DiscoveryService {
    var sessions: map<Id, Session>
    var daemonSessions: map<Id, seq<Id>>
    var pullCancellations: map<Id, (bool, Id)>
    var lastUpdated: map<Id, Time>
    var history: map<Id, seq<Session>>

    ghost function View(): State
      reads this
    {
      State(sessions, daemonSessions, pullCancellations, lastUpdated, history)
    }

    ghost predicate Valid()
      reads this
    {
      KeysMatch(View())
    }

    constructor ()
      ensures Valid() && View() == EMPTY && Coherent(View())
    {
      sessions, daemonSessions, pullCancellations, lastUpdated, history := map[], map[], map[], map[], map[];
    }

    method StartSession(sid: Id, d: Id, network: Id, kind: nat) returns (x: Session)
      requires Valid() && sid !in sessions
      modifies this
      ensures Valid() && View() == Start(old(View()), sid, d, network, kind) && x == sessions[sid]
    {
      x := NewSession(sid, d, network, kind);
      sessions := sessions[sid := x];
      var queue := if d in daemonSessions then daemonSessions[d] else [];
      daemonSessions := daemonSessions[d := queue + [sid]];
    }

    /** The waiting sessions of a daemon, in queue order. */
    method GetSessionsForDaemon(d: Id) returns (r: seq<Session>)
      ensures r == Waiting(Queue(View(), d), sessions)
    {
      var ids := if d in daemonSessions then daemonSessions[d] else [];
      r := [];
      var i := |ids|;
      while i > 0
        invariant 0 <= i <= |ids|
        invariant r == Waiting(ids[i..], sessions)
      {
        i := i - 1;
        assert ids[i..][0] == ids[i] && ids[i..][1..] == ids[i + 1..];
        if ids[i] in sessions && sessions[ids[i]].phase == Pending {
          r := [sessions[ids[i]]] + r;
        }
      }
    }

    method HasActiveSession(d: Id) returns (busy: bool)
      ensures busy == HasActive(View(), d)
    {
      var ids := if d in daemonSessions then daemonSessions[d] else [];
      for i := 0 to |ids|
        invariant forall k | 0 <= k < i :: !ActiveAt(sessions, ids[k])
      {
        if ids[i] in sessions && !sessions[ids[i]].phase.Terminal() && sessions[ids[i]].phase != Pending {
          assert ids[i] in Queue(View(), d) && ActiveAt(sessions, ids[i]);
          return true;
        }
      }
      return false;
    }

    method TransitionToStarting(sid: Id)
      requires Valid()
      modifies this`sessions
      ensures Valid() && View() == ToStarting(old(View()), sid)
    {
      if sid in sessions && sessions[sid].phase == Pending {
        sessions := sessions[sid := sessions[sid].(phase := Starting)];
      }
    }

    method GetPendingWork(d: Id) returns (work: Option<Session>)
      requires Valid()
      modifies this`sessions
      ensures Valid() && (View(), work) == Work(old(View()), d)
    {
      var busy := HasActiveSession(d);
      if busy {
        return None;
      }
      var waiting := GetSessionsForDaemon(d);
      if waiting == [] {
        return None;
      }
      TransitionToStarting(waiting[0].sessionId);
      return Some(waiting[0]);
    }

    method PullCancellationFor(d: Id) returns (flag: (bool, Id))
      modifies this`pullCancellations
      ensures (View(), flag) == PullCancellation(old(View()), d)
    {
      flag := if d in pullCancellations then pullCancellations[d] else (false, NIL_ID);
      pullCancellations := pullCancellations - {d};
    }

    /**
     The daemon must exist, belong to the caller's network and not be on standby, and its status
     must be recorded, before it gets work and then a cancellation.
     */
    method ReceiveWorkRequest(d: Id, caller: Caller) returns (response: Result<(Option<Session>, bool)>)
      requires Valid()
      modifies this`sessions, this`pullCancellations
      ensures Valid()
      ensures response == Failure(DaemonNotFound) <==> !caller.known
      ensures response == Failure(AccessDenied) <==> caller.known && !caller.sameNetwork
      ensures response == Failure(DaemonStandby) <==> caller.known && caller.sameNetwork && caller.standby
      ensures response == Failure(StatusFailed) <==>
              caller.known && caller.sameNetwork && !caller.standby && !caller.statusRecorded
      ensures response.Failure? ==> View() == old(View())
      ensures response.Success? ==>
                && response.value.0 == Work(old(View()), d).1
                && View() == PullCancellation(Work(old(View()), d).0, d).0
                && response.value.1 == PullCancellation(Work(old(View()), d).0, d).1.0
      ensures old(Coherent(View())) ==> Coherent(View())
      ensures old(Coherent(View())) && response.Success? ==> !(response.value.0.Some? && response.value.1)
    {
      ghost var before := View();
      if !caller.known {
        return Failure(DaemonNotFound);
      }
      if !caller.sameNetwork {
        return Failure(AccessDenied);
      }
      if caller.standby {
        return Failure(DaemonStandby);
      }
      if !caller.statusRecorded {
        return Failure(StatusFailed);
      }
      var work := GetPendingWork(d);
      var flag := PullCancellationFor(d);
      response := Success((work, flag.0));
      if Coherent(before) {
        WorkExcludesCancellation(before, d);
        WorkKeeps(before, d);
        PullKeeps(Work(before, d).0, d);
      }
    }

    method UpdateSession(u: Session, now: Time)
      requires Valid()
      modifies this
      ensures Valid() && View() == Report(old(View()), u, now)
    {
      ghost var before := View();
      var alreadySeen := u.sessionId in lastUpdated;
      lastUpdated := lastUpdated[u.sessionId := now];
      if u.sessionId !in sessions {
        if u.phase.Terminal() && alreadySeen {
          return;
        }
        var queue := if u.daemonId in daemonSessions then daemonSessions[u.daemonId] else [];
        daemonSessions := daemonSessions[u.daemonId := queue + [u.sessionId]];
      }
      sessions := sessions[u.sessionId := u];
      assert View() == Stored(before, u, now);
      if u.phase.Terminal() {
        Finish(u);
      }
    }

    method Finish(u: Session)
      requires Valid() && u.sessionId in sessions && sessions[u.sessionId] == u
      modifies this
      ensures Valid() && View() == Finished(old(View()), u)
    {
      var _ := PullCancellationFor(u.daemonId);
      var records := if u.sessionId in history then history[u.sessionId] else [];
      history := history[u.sessionId := records + [u]];
      if u.daemonId in daemonSessions {
        var queue := Keep(daemonSessions[u.daemonId], {u.sessionId});
        daemonSessions := daemonSessions[u.daemonId := queue];
        if queue != [] && queue[0] in sessions {
          sessions := sessions[queue[0] := sessions[queue[0]].(phase := Pending)];
        }
      }
      sessions := sessions - {u.sessionId};
    }

    method CancelSession(sid: Id) returns (outcome: CancelOutcome)
      requires Valid()
      modifies this
      ensures Valid() && (View(), outcome) == Cancel(old(View()), sid)
    {
      if sid !in sessions {
        return NotFound;
      }
      var x := sessions[sid];
      match x.phase {
        case Pending =>
          sessions := sessions - {sid};
          if x.daemonId in daemonSessions {
            daemonSessions := daemonSessions[x.daemonId := Keep(daemonSessions[x.daemonId], {sid})];
          }
          return Dequeued;
        case Starting =>
          return StillStarting;
        case Started =>
          pullCancellations := pullCancellations[x.daemonId := (true, sid)];
          return Requested;
        case Scanning =>
          pullCancellations := pullCancellations[x.daemonId := (true, sid)];
          return Requested;
        case _ =>
          return AlreadyDone;
      }
    }

    method ClearSessionsForDaemon(d: Id)
      requires Valid()
      modifies this
      ensures Valid() && View() == Clear(old(View()), d)
    {
      ghost var before := View();
      if d in daemonSessions {
        var ids := daemonSessions[d];
        daemonSessions := daemonSessions - {d};
        for i := 0 to |ids|
          modifies this
          invariant sessions == before.sessions - Elements(ids[..i])
          invariant lastUpdated == before.lastUpdated - Elements(ids[..i])
          invariant daemonSessions == before.queues - {d}
          invariant pullCancellations == before.flags && history == before.history
        {
          assert Elements(ids[..i + 1]) == Elements(ids[..i]) + {ids[i]};
          sessions := sessions - {ids[i]};
          lastUpdated := lastUpdated - {ids[i]};
        }
        assert ids[..|ids|] == ids;
      }
      pullCancellations := pullCancellations - {d};
    }

    // ---- Cleanup -------------------------------------------------------------

    /** Walks the table, in any order, and keeps the sessions that pass the test. */
    method Collect(test: Session -> bool) returns (found: seq<Session>)
      requires Valid()
      ensures ListOf(found, Passing(sessions, test), sessions)
    {
      found := [];
      var todo := sessions.Keys;
      ghost var wanted := Passing(sessions, test);
      while todo != {}
        invariant todo <= sessions.Keys
        invariant ListOf(found, wanted - todo, sessions)
        decreases todo
      {
        var id :| id in todo;
        todo := todo - {id};
        if test(sessions[id]) {
          ListOfAppend(found, wanted - todo - {id}, sessions, id);
          found := found + [sessions[id]];
          assert wanted - todo == wanted - todo - {id} + {id};
        } else {
          assert wanted - todo == wanted - (todo + {id});
        }
      }
      assert wanted - todo == wanted;
    }

    method CleanupOldSessions(cutoff: Time)
      requires Valid()
      modifies this
      ensures Valid() && View() == AgeOut(old(View()), cutoff)
    {
      ghost var before := View();
      var toRemove := Collect((x: Session) => x.finishedAt.Some? && x.finishedAt.value < cutoff);
      assert Passing(sessions, (x: Session) => x.finishedAt.Some? && x.finishedAt.value < cutoff) == Outdated(before, cutoff);
      for i := 0 to |toRemove|
        modifies this
        invariant View() == DropEach(before, toRemove[..i])
      {
        assert toRemove[..i + 1][..i] == toRemove[..i];
        Drop(toRemove[i].sessionId);
      }
      assert toRemove[..|toRemove|] == toRemove;
      DropEachIs(before, toRemove, Outdated(before, cutoff), |toRemove|);
      ListOfIds(toRemove, Outdated(before, cutoff), before);
    }

    method Drop(sid: Id)
      modifies this
      ensures View() == DropOne(old(View()), sid)
    {
      if sid in sessions {
        var x := sessions[sid];
        sessions := sessions - {sid};
        pullCancellations := pullCancellations - {x.daemonId};
        if x.daemonId in daemonSessions {
          daemonSessions := daemonSessions[x.daemonId := Keep(daemonSessions[x.daemonId], {x.sessionId})];
        }
      }
    }

    /** The three passes of the stall cleanup, then the eviction of old tombstones. */
    method CleanupStalledSessions(now: Time)
      requires Valid()
      modifies this
      ensures Valid() && View() == FailStalled(old(View()), now)
    {
      ghost var before := View();
      var stalled := FindStalled(now);
      PassesAre(before, stalled, now);
      if stalled == [] {
        return;
      }
      RequestCancellations(stalled);
      FailAll(stalled, now);
      EvictTombstones(now);
      assert View() == Passes(before, stalled, now);
    }

    method EvictTombstones(now: Time)
      modifies this`lastUpdated
      ensures View() == old(View()).(lastUpdated := Evict(old(lastUpdated), old(sessions).Keys, now))
    {
      lastUpdated := Evict(lastUpdated, sessions.Keys, now);
    }

    /** First pass. */
    method FindStalled(now: Time) returns (stalled: seq<Session>)
      requires Valid()
      ensures ListOf(stalled, Stalled(View(), now), sessions)
    {
      var times := lastUpdated;
      var test := (x: Session) =>
        && !x.phase.Terminal()
        && (if x.sessionId in times then now - times[x.sessionId] > STALL_THRESHOLD
            else x.startedAt.Some? && now - x.startedAt.value > STALL_THRESHOLD);
      stalled := Collect(test);
      assert Passing(sessions, test) == Stalled(View(), now);
    }

    /** Second pass: flag every stalled session; a later one overwrites an earlier one. */
    method RequestCancellations(stalled: seq<Session>)
      modifies this`pullCancellations
      ensures pullCancellations == Flagged(old(pullCancellations), stalled)
    {
      for i := 0 to |stalled|
        invariant pullCancellations == Flagged(old(pullCancellations), stalled[..i])
      {
        assert stalled[..i + 1][..i] == stalled[..i];
        pullCancellations := pullCancellations[stalled[i].daemonId := (true, stalled[i].sessionId)];
      }
      assert stalled[..|stalled|] == stalled;
    }

    /** Third pass. */
    method FailAll(stalled: seq<Session>, now: Time)
      modifies this
      ensures View() == FailEach(old(View()), stalled, now)
    {
      ghost var flagged := View();
      for i := 0 to |stalled|
        modifies this
        invariant View() == FailEach(flagged, stalled[..i], now)
      {
        assert stalled[..i + 1][..i] == stalled[..i];
        Fail(stalled[i].sessionId, now);
      }
      assert stalled[..|stalled|] == stalled;
    }

    /** Third pass, one session: remove, dequeue, forget, unflag and record it. */
    method Fail(sid: Id, now: Time)
      modifies this
      ensures View() == FailOne(old(View()), sid, now)
    {
      if sid in sessions {
        var x := sessions[sid];
        sessions := sessions - {sid};
        if x.daemonId in daemonSessions {
          daemonSessions := daemonSessions[x.daemonId := Keep(daemonSessions[x.daemonId], {x.sessionId})];
        }
        lastUpdated := lastUpdated - {x.sessionId};
        if x.daemonId in pullCancellations && pullCancellations[x.daemonId].1 == x.sessionId {
          pullCancellations := pullCancellations - {x.daemonId};
        }
        var records := if x.sessionId in history then history[x.sessionId] else [];
        history := history[x.sessionId := records + [FailedRecord(x, now)]];
      }
    }
  }

  function Passing(sessions: map<Id, Session>, test: Session -> bool): (ids: set<Id>)
    ensures ids <= sessions.Keys
  {
    set id | id in sessions && test(sessions[id])
  }

  // ---- Lists of sessions gathered from the table ------------------------------

  ghost predicate ListOf(v: seq<Session>, ids: set<Id>, sessions: map<Id, Session>) {
    && (forall x | x in v :: x.sessionId in ids && x.sessionId in sessions && sessions[x.sessionId] == x)
    && (forall id | id in ids :: id in sessions && sessions[id] in v)
    && (forall i, j | 0 <= i < j < |v| :: v[i].sessionId != v[j].sessionId)
  }

  ghost function Ids(v: seq<Session>): set<Id> {
    set x | x in v :: x.sessionId
  }

  ghost function Daemons(v: seq<Session>): set<Id> {
    set x | x in v :: x.daemonId
  }

  lemma ListOfAppend(v: seq<Session>, ids: set<Id>, sessions: map<Id, Session>, id: Id)
    requires ListOf(v, ids, sessions) && id !in ids && id in sessions && sessions[id].sessionId == id
    ensures ListOf(v + [sessions[id]], ids + {id}, sessions)
  {
  }

  lemma ListOfIds(v: seq<Session>, ids: set<Id>, s: State)
    requires KeysMatch(s) && ids <= s.sessions.Keys && ListOf(v, ids, s.sessions)
    ensures Ids(v) == ids && Daemons(v) == DaemonsOf(s, ids)
  {
    forall id | id in ids ensures id in Ids(v) {
      assert s.sessions[id] in v;
    }
    forall d | d in DaemonsOf(s, ids) ensures d in Daemons(v) {
      var id :| id in ids && s.sessions[id].daemonId == d;
      assert s.sessions[id] in v;
    }
    forall x | x in v ensures x.daemonId in DaemonsOf(s, ids) {
      assert s.sessions[x.sessionId] == x;
    }
  }

  lemma ListOfFresh(v: seq<Session>, ids: set<Id>, sessions: map<Id, Session>, i: nat)
    requires ListOf(v, ids, sessions) && i < |v|
    ensures v[i].sessionId in sessions && sessions[v[i].sessionId] == v[i]
    ensures v[i].sessionId !in Ids(v[..i])
  {
    assert v[i] in v;
  }

  lemma IdsExtend(v: seq<Session>, i: nat)
    requires i < |v|
    ensures Ids(v[..i + 1]) == Ids(v[..i]) + {v[i].sessionId}
    ensures Daemons(v[..i + 1]) == Daemons(v[..i]) + {v[i].daemonId}
  {
    assert v[..i + 1] == v[..i] + [v[i]];
  }

  // ---- Removing one session at a time ----------------------------------------

  function DequeueFrom(queues: map<Id, seq<Id>>, d: Id, id: Id): map<Id, seq<Id>> {
    if d in queues then queues[d := Keep(queues[d], {id})] else queues
  }

  lemma DequeueNone(s: State)
    ensures Dequeue(s, {}) == s.queues
  {
    forall d | d in s.queues ensures Keep(s.queues[d], Of(s, {}, d)) == s.queues[d] {
      assert Of(s, {}, d) == {};
      KeepAll(s.queues[d], {});
    }
  }

  lemma DequeueNext(s: State, ids: set<Id>, id: Id)
    requires ids <= s.sessions.Keys && id in s.sessions
    ensures Dequeue(s, ids + {id}) == DequeueFrom(Dequeue(s, ids), s.sessions[id].daemonId, id)
  {
    var d := s.sessions[id].daemonId;
    forall e | e in s.queues
      ensures Keep(s.queues[e], Of(s, ids + {id}, e))
              == if e == d then Keep(Keep(s.queues[e], Of(s, ids, e)), {id}) else Keep(s.queues[e], Of(s, ids, e))
    {
      if e == d {
        assert Of(s, ids + {id}, e) == Of(s, ids, e) + {id};
        KeepKeep(s.queues[e], Of(s, ids, e), {id});
      } else {
        assert Of(s, ids + {id}, e) == Of(s, ids, e);
      }
    }
  }

  function DropOne(s: State, sid: Id): State {
    if sid !in s.sessions then s else
      var x := s.sessions[sid];
      s.(sessions := s.sessions - {sid},
         queues := DequeueFrom(s.queues, x.daemonId, x.sessionId),
         flags := s.flags - {x.daemonId})
  }

  function DropEach(s: State, v: seq<Session>): State {
    if v == [] then s else DropOne(DropEach(s, v[..|v| - 1]), v[|v| - 1].sessionId)
  }

  ghost function Dropped(s: State, ids: set<Id>, daemons: set<Id>): State
    requires ids <= s.sessions.Keys
  {
    s.(sessions := s.sessions - ids, queues := Dequeue(s, ids), flags := s.flags - daemons)
  }

  lemma DroppedNone(s: State)
    ensures Dropped(s, {}, {}) == s
  {
    DequeueNone(s);
    assert s.sessions - {} == s.sessions && s.flags - {} == s.flags;
  }

  lemma DroppedNext(s: State, ids: set<Id>, daemons: set<Id>, x: Session)
    requires ids <= s.sessions.Keys && x.sessionId !in ids
    requires x.sessionId in s.sessions && s.sessions[x.sessionId] == x
    ensures DropOne(Dropped(s, ids, daemons), x.sessionId) == Dropped(s, ids + {x.sessionId}, daemons + {x.daemonId})
  {
    DequeueNext(s, ids, x.sessionId);
    assert s.sessions - ids - {x.sessionId} == s.sessions - (ids + {x.sessionId});
    assert s.flags - daemons - {x.daemonId} == s.flags - (daemons + {x.daemonId});
  }

  ghost predicate Cleansed(s: State, v: seq<Session>) {
    Ids(v) <= s.sessions.Keys && DropEach(s, v) == Dropped(s, Ids(v), Daemons(v))
  }

  lemma DropEachNone(s: State)
    ensures Cleansed(s, [])
  {
    DroppedNone(s);
    assert Ids([]) == {} && Daemons([]) == {};
  }

  lemma DropEachStep(s: State, v: seq<Session>, n: nat)
    requires 0 < n <= |v| && Cleansed(s, v[..n - 1]) && v[n - 1].sessionId !in Ids(v[..n - 1])
    requires v[n - 1].sessionId in s.sessions && s.sessions[v[n - 1].sessionId] == v[n - 1]
    ensures Cleansed(s, v[..n])
  {
    IdsExtend(v, n - 1);
    DroppedNext(s, Ids(v[..n - 1]), Daemons(v[..n - 1]), v[n - 1]);
    assert v[..n][..n - 1] == v[..n - 1];
  }

  /** Dropping a list of sessions one by one removes them together. */
  lemma {:induction false} DropEachIs(s: State, v: seq<Session>, ids: set<Id>, n: nat)
    requires ListOf(v, ids, s.sessions) && n <= |v|
    ensures Cleansed(s, v[..n])
  {
    if n == 0 {
      DropEachNone(s);
      assert v[..n] == [];
    } else {
      DropEachIs(s, v, ids, n - 1);
      ListOfFresh(v, ids, s.sessions, n - 1);
      DropEachStep(s, v, n);
    }
  }

  function FailOne(s: State, sid: Id, now: Time): State {
    if sid !in s.sessions then s else
      var x := s.sessions[sid];
      State(
        s.sessions - {sid},
        DequeueFrom(s.queues, x.daemonId, x.sessionId),
        Unflag(s.flags, x),
        s.lastUpdated - {x.sessionId},
        s.history[x.sessionId := Records(s, x.sessionId) + [FailedRecord(x, now)]])
  }

  function FailEach(s: State, v: seq<Session>, now: Time): State {
    if v == [] then s else FailOne(FailEach(s, v[..|v| - 1], now), v[|v| - 1].sessionId, now)
  }

  lemma RecordedAt(s: State, ids: set<Id>, now: Time, id: Id)
    requires ids <= s.sessions.Keys
    ensures id in Recorded(s, ids, now) <==> id in s.history || id in ids
    ensures id in Recorded(s, ids, now) ==>
              Recorded(s, ids, now)[id] == if id in ids then Records(s, id) + [FailedRecord(s.sessions[id], now)] else s.history[id]
  {
  }

  lemma RecordedNext(s: State, ids: set<Id>, id: Id, now: Time)
    requires ids <= s.sessions.Keys && id in s.sessions && id !in ids
    ensures Recorded(s, ids + {id}, now)
            == Recorded(s, ids, now)[id := Records(s, id) + [FailedRecord(s.sessions[id], now)]]
    ensures id in Recorded(s, ids, now) <==> id in s.history
    ensures id in s.history ==> Recorded(s, ids, now)[id] == s.history[id]
  {
    RecordedAt(s, ids, now, id);
    MapsAgree(Recorded(s, ids + {id}, now), Recorded(s, ids, now)[id := Records(s, id) + [FailedRecord(s.sessions[id], now)]]) by {
      forall k
        ensures k in Recorded(s, ids + {id}, now) <==> k in Recorded(s, ids, now) || k == id
        ensures k in Recorded(s, ids + {id}, now) ==>
                  Recorded(s, ids + {id}, now)[k]
                  == if k == id then Records(s, id) + [FailedRecord(s.sessions[id], now)] else Recorded(s, ids, now)[k]
      {
        RecordedAt(s, ids, now, k);
        RecordedAt(s, ids + {id}, now, k);
      }
    }
  }

  lemma MapsAgree(a: map<Id, seq<Session>>, b: map<Id, seq<Session>>)
    requires forall k :: k in a <==> k in b
    requires forall k | k in a :: a[k] == b[k]
    ensures a == b
  {
  }

  ghost function FailedAt(s: State, ids: set<Id>, flags: map<Id, (bool, Id)>, now: Time): State
    requires ids <= s.sessions.Keys
  {
    State(s.sessions - ids, Dequeue(s, ids), flags, s.lastUpdated - ids, Recorded(s, ids, now))
  }

  lemma FailedNone(s: State, flags: map<Id, (bool, Id)>, now: Time)
    ensures FailedAt(s, {}, flags, now) == s.(flags := flags)
  {
    DequeueNone(s);
    assert s.sessions - {} == s.sessions && s.lastUpdated - {} == s.lastUpdated && Recorded(s, {}, now) == s.history;
  }

  lemma FailedNext(s: State, ids: set<Id>, flags: map<Id, (bool, Id)>, x: Session, now: Time)
    requires ids <= s.sessions.Keys && x.sessionId !in ids
    requires x.sessionId in s.sessions && s.sessions[x.sessionId] == x
    ensures FailOne(FailedAt(s, ids, flags, now), x.sessionId, now) == FailedAt(s, ids + {x.sessionId}, Unflag(flags, x), now)
  {
    DequeueNext(s, ids, x.sessionId);
    RecordedNext(s, ids, x.sessionId, now);
    assert s.sessions - ids - {x.sessionId} == s.sessions - (ids + {x.sessionId});
    assert s.lastUpdated - ids - {x.sessionId} == s.lastUpdated - (ids + {x.sessionId});
  }

  ghost predicate Cleared(s: State, f: map<Id, (bool, Id)>, v: seq<Session>, now: Time) {
    Ids(v) <= s.sessions.Keys && FailEach(s.(flags := f), v, now) == FailedAt(s, Ids(v), Unflagged(f, v), now)
  }

  /** The third pass, session by session, removes the whole list together. */
  lemma {:induction false} FailEachIs(s: State, f: map<Id, (bool, Id)>, v: seq<Session>, ids: set<Id>, n: nat, now: Time)
    requires ListOf(v, ids, s.sessions) && n <= |v|
    ensures Cleared(s, f, v[..n], now)
  {
    if n == 0 {
      FailEachNone(s, f, now);
      assert v[..n] == [];
    } else {
      FailEachIs(s, f, v, ids, n - 1, now);
      ListOfFresh(v, ids, s.sessions, n - 1);
      FailEachStep(s, f, v, n, now);
    }
  }

  lemma FailEachNone(s: State, f: map<Id, (bool, Id)>, now: Time)
    ensures Cleared(s, f, [], now)
  {
    FailedNone(s, f, now);
    assert Ids([]) == {};
  }

  lemma FailEachStep(s: State, f: map<Id, (bool, Id)>, v: seq<Session>, n: nat, now: Time)
    requires 0 < n <= |v| && Cleared(s, f, v[..n - 1], now) && v[n - 1].sessionId !in Ids(v[..n - 1])
    requires v[n - 1].sessionId in s.sessions && s.sessions[v[n - 1].sessionId] == v[n - 1]
    ensures Cleared(s, f, v[..n], now)
  {
    LastPass(s.(flags := f), f, v, n, now);
    IdsExtend(v, n - 1);
    FailedNext(s, Ids(v[..n - 1]), Unflagged(f, v[..n - 1]), v[n - 1], now);
  }

  /** The passes over `n` sessions end with the step for the last of them. */
  lemma LastPass(s: State, f: map<Id, (bool, Id)>, v: seq<Session>, n: nat, now: Time)
    requires 0 < n <= |v|
    ensures FailEach(s, v[..n], now) == FailOne(FailEach(s, v[..n - 1], now), v[n - 1].sessionId, now)
    ensures Unflagged(f, v[..n]) == Unflag(Unflagged(f, v[..n - 1]), v[n - 1])
  {
    assert v[..n][..n - 1] == v[..n - 1];
  }

  /** Second and third pass together. */
  lemma FailPassesAre(s: State, v: seq<Session>, ids: set<Id>, now: Time)
    requires KeysMatch(s) && ids <= s.sessions.Keys && ListOf(v, ids, s.sessions)
    ensures FailEach(s.(flags := Flagged(s.flags, v)), v, now) == FailedAt(s, ids, s.flags - DaemonsOf(s, ids), now)
  {
    assert v[..|v|] == v;
    FailEachIs(s, Flagged(s.flags, v), v, ids, |v|, now);
    ListOfIds(v, ids, s);
    FlagsRestored(s.flags, v, ids, s.sessions);
  }

  function Passes(s: State, v: seq<Session>, now: Time): State {
    var t := FailEach(s.(flags := Flagged(s.flags, v)), v, now);
    t.(lastUpdated := Evict(t.lastUpdated, t.sessions.Keys, now))
  }

  /** The three passes and the eviction are the one-step cleanup. */
  lemma PassesAre(s: State, v: seq<Session>, now: Time)
    requires KeysMatch(s) && ListOf(v, Stalled(s, now), s.sessions)
    ensures FailStalled(s, now) == if v == [] then s else Passes(s, v, now)
    ensures KeysMatch(FailStalled(s, now))
  {
    var ids := Stalled(s, now);
    ListOfIds(v, ids, s);
    if v != [] {
      assert v[0].sessionId in Ids(v);
      FailPassesAre(s, v, ids, now);
      assert (s.sessions - ids).Keys == s.sessions.Keys - ids;
    }
  }

  // ---- Flags set by the second pass and removed by the third -------------------

  function Flagged(flags: map<Id, (bool, Id)>, v: seq<Session>): map<Id, (bool, Id)> {
    if v == [] then flags else
      var x := v[|v| - 1];
      Flagged(flags, v[..|v| - 1])[x.daemonId := (true, x.sessionId)]
  }

  function Unflagged(flags: map<Id, (bool, Id)>, v: seq<Session>): map<Id, (bool, Id)> {
    if v == [] then flags else
      var x := v[|v| - 1];
      Unflag(Unflagged(flags, v[..|v| - 1]), x)
  }

  function Unflag(flags: map<Id, (bool, Id)>, x: Session): map<Id, (bool, Id)> {
    if x.daemonId in flags && flags[x.daemonId].1 == x.sessionId then flags - {x.daemonId} else flags
  }

  /** After the second pass a daemon's flag names its last stalled session. */
  lemma {:induction false} FlaggedAt(flags: map<Id, (bool, Id)>, v: seq<Session>, d: Id)
    ensures d !in Daemons(v) ==> (d in Flagged(flags, v) <==> d in flags)
                                 && (d in flags ==> Flagged(flags, v)[d] == flags[d])
    ensures d in Daemons(v) ==>
              d in Flagged(flags, v)
              && exists k: nat :: LastAt(v, d, k) && Flagged(flags, v)[d] == (true, v[k].sessionId)
  {
    if v != [] {
      var n := |v| - 1;
      IdsExtend(v, n);
      assert v[..n + 1] == v;
      FlaggedAt(flags, v[..n], d);
      if v[n].daemonId == d {
        assert LastAt(v, d, n);
      } else if d in Daemons(v) {
        var k: nat :| LastAt(v[..n], d, k) && Flagged(flags, v[..n])[d] == (true, v[..n][k].sessionId);
        assert LastAt(v, d, k);
      }
    }
  }

  ghost predicate LastAt(v: seq<Session>, d: Id, k: nat) {
    k < |v| && v[k].daemonId == d && forall j | k < j < |v| :: v[j].daemonId != d
  }

  /** The third pass drops a daemon's flag exactly when it reaches the session the flag names. */
  lemma {:induction false} UnflaggedAt(flags: map<Id, (bool, Id)>, v: seq<Session>, d: Id)
    ensures d in Unflagged(flags, v) <==>
            d in flags && forall x | x in v && x.daemonId == d :: x.sessionId != flags[d].1
    ensures d in Unflagged(flags, v) ==> Unflagged(flags, v)[d] == flags[d]
  {
    if v != [] {
      var n := |v| - 1;
      assert v == v[..n] + [v[n]];
      UnflaggedAt(flags, v[..n], d);
    }
  }

  /** Together, the two passes remove exactly the flags of the daemons with a stalled session. */
  lemma FlagsRestored(flags: map<Id, (bool, Id)>, v: seq<Session>, ids: set<Id>, sessions: map<Id, Session>)
    requires ListOf(v, ids, sessions)
    ensures Unflagged(Flagged(flags, v), v) == flags - Daemons(v)
  {
    var f := Flagged(flags, v);
    forall d ensures d in Unflagged(f, v) <==> d in flags && d !in Daemons(v) {
      FlaggedAt(flags, v, d);
      UnflaggedAt(f, v, d);
      if d in Daemons(v) {
        var k: nat :| LastAt(v, d, k) && f[d] == (true, v[k].sessionId);
        assert v[k] in v;
      }
    }
    forall d | d in Unflagged(f, v) ensures Unflagged(f, v)[d] == flags[d] {
      FlaggedAt(flags, v, d);
      UnflaggedAt(f, v, d);
    }
  }
}
