/**
 Service bindings: the three-branch conflict check, and the creates, updates and
 deletes it guards.  The check compares a binding with those of the same service that are
 filed under the same network id; BindingServices says what that means for the whole service.
 */
module BindingConflicts {
  import opened Common

  datatype Kind = Interface(interfaceId: Id) | Port(portId: Id, on: Option<Id>)

  datatype Binding = Binding(serviceId: Id, networkId: Id, kind: Kind)

  type Table = map<Id, Binding>

  predicate SameScope(a: Binding, b: Binding) {
    a.networkId == b.networkId && a.serviceId == b.serviceId
  }

  /** The check as written: one branch per kind of the new binding. */
  predicate Rejects(candidate: Kind, existing: Kind) {
    match candidate
    case Interface(i) => existing.Port? && (existing.on == Some(i) || existing.on == None)
    case Port(_, Some(i)) => existing == Interface(i)
    case Port(_, None) => existing.Interface?
  }

  /** Some interface is claimed both as a whole and through a port. */
  ghost predicate Overlap(a: Kind, b: Kind) {
    exists i :: (a == Interface(i) && ReachedByPort(b, i)) || (b == Interface(i) && ReachedByPort(a, i))
  }

  predicate ReachedByPort(k: Kind, i: Id) {
    k.Port? && (k.on == None || k.on == Some(i))
  }

  /** The three branches decide one symmetric relation. */
  lemma CheckIsOverlap(a: Kind, b: Kind)
    ensures Rejects(a, b) <==> Overlap(a, b)
    ensures Rejects(a, b) <==> Rejects(b, a)
  {
    if Rejects(a, b) {
      if a.Interface? {
        assert a == Interface(a.interfaceId) && ReachedByPort(b, a.interfaceId);
      } else {
        assert b == Interface(b.interfaceId) && ReachedByPort(a, b.interfaceId);
      }
    }
  }

  predicate Accepts(t: Table, b: Binding, exclude: Option<Id>) {
    forall id | id in t && exclude != Some(id) && SameScope(t[id], b) :: !Rejects(b.kind, t[id].kind)
  }

  /** Specific-interface bindings a new all-interfaces port binding replaces. */
  predicate Superseded(existing: Binding, b: Binding) {
    b.kind.Port? && b.kind.on == None && SameScope(existing, b)
    && existing.kind.Port? && existing.kind.on.Some? && existing.kind.portId == b.kind.portId
  }

  function WithoutSuperseded(t: Table, b: Binding): Table {
    map id | id in t && !Superseded(t[id], b) :: t[id]
  }

  datatype Outcome = Done | Conflict | Refused | DuplicateId | NotFound

  /**
   Superseded bindings are deleted before the insert, even if it is then refused (`admitted` is
   false: invalid, no access, or a reference missing) or fails on a duplicate id.
   */
  function Create(t: Table, id: Id, b: Binding, admitted: bool): (Table, Outcome) {
    if !Accepts(t, b, None) then (t, Conflict)
    else
      var rest := WithoutSuperseded(t, b);
      if !admitted then (rest, Refused) else if id in rest then (rest, DuplicateId) else (rest[id := b], Done)
  }

  function Update(t: Table, id: Id, b: Binding, admitted: bool): (Table, Outcome) {
    if !Accepts(t, b, Some(id)) then (t, Conflict)
    else if id !in t then (t, NotFound)
    else if !admitted then (t, Refused)
    else (t[id := b], Done)
  }

  function Delete(t: Table, id: Id): Table {
    t - {id}
  }

  /** No two bindings of a service filed under the same network id conflict. */
  ghost predicate ConflictFree(t: Table) {
    forall a, b | a in t && b in t && a != b && SameScope(t[a], t[b]) :: !Rejects(t[a].kind, t[b].kind)
  }

  /** Storing a binding keeps the table conflict-free exactly when the check accepts it. */
  lemma StoreKeepsConflictFreeIff(t: Table, id: Id, b: Binding)
    requires ConflictFree(t)
    ensures ConflictFree(t[id := b]) <==> Accepts(t, b, Some(id))
  {
    var u := t[id := b];
    if Accepts(t, b, Some(id)) {
      forall x, y | x in u && y in u && x != y && SameScope(u[x], u[y]) ensures !Rejects(u[x].kind, u[y].kind) {
        CheckIsOverlap(u[x].kind, u[y].kind);
      }
    } else {
      var k :| k in t && Some(id) != Some(k) && SameScope(t[k], b) && Rejects(b.kind, t[k].kind);
      assert u[id] == b && u[k] == t[k];
    }
  }

  lemma CreateKeepsConflictFree(t: Table, id: Id, b: Binding, admitted: bool)
    requires ConflictFree(t)
    ensures ConflictFree(Create(t, id, b, admitted).0)
  {
    var rest := WithoutSuperseded(t, b);
    if Accepts(t, b, None) && admitted && id !in rest {
      StoreKeepsConflictFreeIff(rest, id, b);
    }
  }

  /** After creating an all-interfaces port binding, no specific binding of that port remains under its service and network id. */
  lemma CreateSupersedes(t: Table, id: Id, b: Binding, admitted: bool, k: Id)
    requires b.kind.Port? && b.kind.on == None && Create(t, id, b, admitted).1 == Done
    requires k in Create(t, id, b, admitted).0 && SameScope(Create(t, id, b, admitted).0[k], b)
    ensures var x := Create(t, id, b, admitted).0[k].kind; x.Port? && x.portId == b.kind.portId ==> x.on == None
    ensures k != id ==> k in t && Create(t, id, b, admitted).0[k] == t[k]
    ensures forall j | j in t && !Superseded(t[j], b) && j != id :: j in Create(t, id, b, admitted).0
  {
  }

  /** Some binding of the same service, filed under the same network id, overlaps with `b`. */
  ghost predicate Clashes(t: Table, b: Binding, except: Option<Id>) {
    exists k :: k in t && except != Some(k) && t[k].serviceId == b.serviceId && t[k].networkId == b.networkId
                && Overlap(b.kind, t[k].kind)
  }

  lemma AcceptsIff(t: Table, b: Binding, except: Option<Id>)
    ensures Accepts(t, b, except) <==> !Clashes(t, b, except)
  {
    forall k | k in t ensures Rejects(b.kind, t[k].kind) <==> Overlap(b.kind, t[k].kind) {
      CheckIsOverlap(b.kind, t[k].kind);
    }
  }

  /** A specific binding of the port that `b` binds on all interfaces, in the same service and network. */
  predicate Replaced(x: Binding, b: Binding) {
    && x.serviceId == b.serviceId && x.networkId == b.networkId
    && x.kind.Port? && b.kind.Port? && x.kind.portId == b.kind.portId && x.kind.on != None && b.kind.on == None
  }

  /** What a creation answers, and the table it leaves, binding by binding. */
  lemma CreateMeans(t: Table, id: Id, b: Binding, admitted: bool)
    ensures var (u, outcome) := Create(t, id, b, admitted);
            && (outcome == Conflict <==> Clashes(t, b, None))
            && (outcome == Conflict ==> u == t)
            && (outcome != Conflict ==>
                  && (outcome == Refused <==> !admitted)
                  && (outcome == DuplicateId <==> admitted && id in t && !Replaced(t[id], b))
                  && (outcome == Done <==> admitted && !(id in t && !Replaced(t[id], b)))
                  && (outcome == Done ==> id in u && u[id] == b)
                  && forall k | k != id || outcome != Done ::
                       (k in u <==> k in t && !Replaced(t[k], b)) && (k in u ==> u[k] == t[k]))
  {
    AcceptsIff(t, b, None);
  }

  /** What an update answers and does. */
  lemma UpdateMeans(t: Table, id: Id, b: Binding, admitted: bool)
    ensures var (u, outcome) := Update(t, id, b, admitted);
            && (outcome == Conflict <==> Clashes(t, b, Some(id)))
            && (outcome == NotFound <==> !Clashes(t, b, Some(id)) && id !in t)
            && (outcome == Refused <==> !Clashes(t, b, Some(id)) && id in t && !admitted)
            && (outcome == Done <==> !Clashes(t, b, Some(id)) && id in t && admitted)
            && u == if outcome == Done then t[id := b] else t
  {
    AcceptsIff(t, b, Some(id));
  }

  /** A deletion removes the binding and no other. */
  lemma DeleteMeans(t: Table, id: Id)
    ensures id !in Delete(t, id)
    ensures forall k | k != id :: (k in Delete(t, id) <==> k in t) && (k in t ==> Delete(t, id)[k] == t[k])
  {
  }

  /** A creation that fails has lost something exactly when the check passed and it superseded a binding. */
  lemma FailedCreateLosesIff(t: Table, id: Id, b: Binding, admitted: bool)
    requires Create(t, id, b, admitted).1 != Done
    ensures Create(t, id, b, admitted).0 != t <==> Accepts(t, b, None) && exists k | k in t :: Superseded(t[k], b)
  {
    var rest := WithoutSuperseded(t, b);
    if k :| k in t && Superseded(t[k], b) {
      assert k !in rest;
    } else {
      assert rest == t;
    }
  }

  /** Under one service and network id, no port is bound both on all interfaces and on a specific one. */
  ghost predicate Irredundant(t: Table) {
    forall a, b | a in t && b in t :: !Superseded(t[a], t[b])
  }

  /** A successful create brings such a redundancy in exactly when the port was bound on all interfaces already. */
  lemma CreateKeepsIrredundantIff(t: Table, id: Id, b: Binding, admitted: bool)
    requires Irredundant(t) && Create(t, id, b, admitted).1 == Done
    ensures Irredundant(Create(t, id, b, admitted).0) <==> forall k | k in t :: !Superseded(b, t[k])
  {
    var u := Create(t, id, b, admitted).0;
    if k :| k in t && Superseded(b, t[k]) {
      assert !Superseded(t[k], b);
      assert u[id] == b && u[k] == t[k];
    }
  }

  /** An update may do so too: it checks conflicts but supersedes nothing. */
  lemma UpdateKeepsIrredundantIff(t: Table, id: Id, b: Binding, admitted: bool)
    requires Irredundant(t) && Update(t, id, b, admitted).1 == Done
    ensures Irredundant(Update(t, id, b, admitted).0) <==>
            forall k | k in t && k != id :: !Superseded(b, t[k]) && !Superseded(t[k], b)
  {
    var u := Update(t, id, b, admitted).0;
    if k :| k in t && k != id && (Superseded(b, t[k]) || Superseded(t[k], b)) {
      assert u[id] == b && u[k] == t[k];
    }
  }

  // ---- Whole runs --------------------------------------------------------------------------

  datatype Op =
    | CreateOp(id: Id, binding: Binding, admitted: bool)
    | UpdateOp(uid: Id, change: Binding, permitted: bool)
    | DeleteOp(did: Id)

  function Apply(t: Table, op: Op): Table {
    match op
    case CreateOp(id, b, admitted) => Create(t, id, b, admitted).0
    case UpdateOp(id, b, admitted) => Update(t, id, b, admitted).0
    case DeleteOp(id) => Delete(t, id)
  }

  function Run(t: Table, ops: seq<Op>): Table
    decreases |ops|
  {
    if ops == [] then t else Run(Apply(t, ops[0]), ops[1..])
  }

  lemma {:induction false} RunsStayConflictFree(t: Table, ops: seq<Op>)
    requires ConflictFree(t)
    ensures ConflictFree(Run(t, ops))
    decreases |ops|
  {
    if ops != [] {
      match ops[0] {
        case CreateOp(id, b, admitted) => CreateKeepsConflictFree(t, id, b, admitted);
        case UpdateOp(id, b, _) => StoreKeepsConflictFreeIff(t, id, b);
        case DeleteOp(id) =>
      }
      RunsStayConflictFree(Apply(t, ops[0]), ops[1..]);
    }
  }

  // ---- The handlers ---------------------------------------------------------------------------

  class BindingService {
    var bindings: Table

    constructor ()
      ensures bindings == map[] && ConflictFree(bindings)
    {
      bindings := map[];
    }

    /** Walks the service's bindings, in any order, up to the first conflict. */
    method Validate(b: Binding, exclude: Option<Id>) returns (ok: bool)
      ensures ok == Accepts(bindings, b, exclude)
    {
      var todo := set id | id in bindings && SameScope(bindings[id], b);
      while todo != {}
        invariant forall id | id in todo :: id in bindings && SameScope(bindings[id], b)
        invariant forall id | id in bindings && id !in todo && exclude != Some(id) && SameScope(bindings[id], b) ::
                    !Rejects(b.kind, bindings[id].kind)
        decreases todo
      {
        var id :| id in todo;
        todo := todo - {id};
        if exclude == Some(id) {
          continue;
        }
        var existing := bindings[id].kind;
        match b.kind {
          case Interface(i) =>
            if existing.Port? && (existing.on == Some(i) || existing.on == None) {
              return false;
            }
          case Port(_, Some(i)) =>
            if existing.Interface? && existing.interfaceId == i {
              return false;
            }
          case Port(_, None) =>
            if existing.Interface? {
              return false;
            }
        }
      }
      return true;
    }

    method CreateBinding(id: Id, b: Binding, admitted: bool) returns (outcome: Outcome)
      modifies this
      ensures (bindings, outcome) == Create(old(bindings), id, b, admitted)
    {
      var ok := Validate(b, None);
      if !ok {
        return Conflict;
      }
      DeleteSuperseded(b);
      if !admitted {
        return Refused;
      }
      if id in bindings {
        return DuplicateId;
      }
      bindings := bindings[id := b];
      return Done;
    }

    method DeleteSuperseded(b: Binding)
      modifies this
      ensures bindings == WithoutSuperseded(old(bindings), b)
    {
      ghost var before := bindings;
      if b.kind.Port? && b.kind.on == None {
        var existing := set id | id in bindings && SameScope(bindings[id], b);
        var todo := existing;
        while todo != {}
          invariant todo <= existing
          invariant bindings == map id | id in before && (id in todo || !Superseded(before[id], b)) :: before[id]
          decreases todo
        {
          var id :| id in todo;
          todo := todo - {id};
          var kind := bindings[id].kind;
          if kind.Port? && kind.on.Some? && kind.portId == b.kind.portId {
            bindings := bindings - {id};
          }
        }
      }
      assert bindings == WithoutSuperseded(before, b);
    }

    method UpdateBinding(id: Id, b: Binding, admitted: bool) returns (outcome: Outcome)
      modifies this
      ensures (bindings, outcome) == Update(old(bindings), id, b, admitted)
    {
      var ok := Validate(b, Some(id));
      if !ok {
        return Conflict;
      }
      if id !in bindings {
        return NotFound;
      }
      if !admitted {
        return Refused;
      }
      bindings := bindings[id := b];
      return Done;
    }

    method DeleteBinding(id: Id)
      modifies this
      ensures bindings == Delete(old(bindings), id)
    {
      bindings := bindings - {id};
    }
  }
}
