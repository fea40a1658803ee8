/**
 The bindings of a whole service.  The conflict check and the removal of superseded bindings look
 only at bindings filed under the same network id, which the request chooses; this is exactly
 what they then promise for the service.
 */
module BindingServices {
  import opened Common
  import opened BindingConflicts

  /** No two bindings of a service conflict, whatever network ids they carry. */
  ghost predicate ServiceConflictFree(t: Table) {
    forall a, b | a in t && b in t && a != b && t[a].serviceId == t[b].serviceId :: !Rejects(t[a].kind, t[b].kind)
  }

  /** A binding of the same service that the check does not look at. */
  predicate Elsewhere(existing: Binding, b: Binding) {
    existing.serviceId == b.serviceId && existing.networkId != b.networkId
  }

  predicate ClearElsewhere(t: Table, b: Binding) {
    forall k | k in t && Elsewhere(t[k], b) :: !Rejects(b.kind, t[k].kind)
  }

  /** Storing an accepted binding keeps the service free of conflicts exactly if it meets none under another network id. */
  lemma StoreKeepsServiceIff(t: Table, id: Id, b: Binding)
    requires ServiceConflictFree(t) && Accepts(t, b, Some(id))
    ensures ServiceConflictFree(t[id := b]) <==> ClearElsewhere(t - {id}, b)
  {
    var u, rest := t[id := b], t - {id};
    if ClearElsewhere(rest, b) {
      forall x, y | x in u && y in u && x != y && u[x].serviceId == u[y].serviceId ensures !Rejects(u[x].kind, u[y].kind) {
        CheckIsOverlap(u[x].kind, u[y].kind);
        assert x == id ==> y in rest;
        assert y == id ==> x in rest;
      }
    } else {
      var k :| k in rest && Elsewhere(rest[k], b) && Rejects(b.kind, rest[k].kind);
      assert u[id] == b && u[k] == t[k];
    }
  }

  /** So does a successful creation, exactly then. */
  lemma CreateKeepsServiceIff(t: Table, id: Id, b: Binding, admitted: bool)
    requires ServiceConflictFree(t) && Create(t, id, b, admitted).1 == Done
    ensures ServiceConflictFree(Create(t, id, b, admitted).0) <==> ClearElsewhere(t, b)
  {
    var rest := WithoutSuperseded(t, b);
    StoreKeepsServiceIff(rest, id, b);
    assert rest - {id} == rest;
    assert forall k | k in t && Elsewhere(t[k], b) :: k in rest;
  }

  lemma UpdateKeepsServiceIff(t: Table, id: Id, b: Binding, admitted: bool)
    requires ServiceConflictFree(t) && Update(t, id, b, admitted).1 == Done
    ensures ServiceConflictFree(Update(t, id, b, admitted).0) <==> ClearElsewhere(t - {id}, b)
  {
    StoreKeepsServiceIff(t, id, b);
  }

  // ---- Superseding ------------------------------------------------------------------------------

  /** `x` binds on one interface the port that `y` binds on all, in the same service. */
  predicate Covered(x: Binding, y: Binding) {
    && x.serviceId == y.serviceId && x.kind.Port? && y.kind.Port?
    && x.kind.portId == y.kind.portId && x.kind.on.Some? && y.kind.on == None
  }

  /** The bindings superseded are the covered ones under the same network id. */
  lemma SupersededIsCovered(x: Binding, y: Binding)
    ensures Superseded(x, y) <==> Covered(x, y) && x.networkId == y.networkId
  {
  }

  /**
   After an all-interfaces creation no specific binding of that port is left in the service exactly if
   none was filed under another network id.
   */
  lemma CreateSupersedesServiceIff(t: Table, id: Id, b: Binding, admitted: bool)
    requires Create(t, id, b, admitted).1 == Done
    ensures (forall k | k in Create(t, id, b, admitted).0 :: !Covered(Create(t, id, b, admitted).0[k], b)) <==>
            (forall k | k in t && Elsewhere(t[k], b) :: !Covered(t[k], b))
  {
    var u := Create(t, id, b, admitted).0;
    forall k | k in t && Elsewhere(t[k], b) ensures k in u && u[k] == t[k] {
      SupersededIsCovered(t[k], b);
    }
  }

  /** No port of a service is bound both on all interfaces and on a specific one. */
  ghost predicate ServiceIrredundant(t: Table) {
    forall a, b | a in t && b in t :: !Covered(t[a], t[b])
  }

  /** A creation brings a redundancy into the service exactly if it is covered, or covers a binding under another network id. */
  lemma CreateKeepsServiceIrredundantIff(t: Table, id: Id, b: Binding, admitted: bool)
    requires ServiceIrredundant(t) && Create(t, id, b, admitted).1 == Done
    ensures ServiceIrredundant(Create(t, id, b, admitted).0) <==>
            && (forall k | k in t :: !Covered(b, t[k]))
            && (forall k | k in t && Elsewhere(t[k], b) :: !Covered(t[k], b))
  {
    var u := Create(t, id, b, admitted).0;
    if k :| k in t && Covered(b, t[k]) {
      assert k in u && u[k] == t[k] && u[id] == b;
    } else if k :| k in t && Elsewhere(t[k], b) && Covered(t[k], b) {
      assert k in u && u[k] == t[k] && u[id] == b;
    }
  }

  /** An update does exactly if it is covered by, or covers, any other binding of the service. */
  lemma UpdateKeepsServiceIrredundantIff(t: Table, id: Id, b: Binding, admitted: bool)
    requires ServiceIrredundant(t) && Update(t, id, b, admitted).1 == Done
    ensures ServiceIrredundant(Update(t, id, b, admitted).0) <==>
            forall k | k in t && k != id :: !Covered(b, t[k]) && !Covered(t[k], b)
  {
    var u := Update(t, id, b, admitted).0;
    if k :| k in t && k != id && (Covered(b, t[k]) || Covered(t[k], b)) {
      assert u[id] == b && u[k] == t[k];
    }
  }

  // ---- Whole runs ----------------------------------------------------------------------------------

  /** The pairs of service and network id a run files its bindings under. */
  ghost predicate Uses(op: Op, net: iset<(Id, Id)>) {
    match op
    case CreateOp(_, b, _) => (b.serviceId, b.networkId) in net
    case UpdateOp(_, b, _) => (b.serviceId, b.networkId) in net
    case DeleteOp(_) => true
  }

  ghost predicate Within(ops: seq<Op>, net: iset<(Id, Id)>) {
    forall op | op in ops :: Uses(op, net)
  }

  ghost predicate OneNetworkEach(net: iset<(Id, Id)>) {
    forall s, m, n | (s, m) in net && (s, n) in net :: m == n
  }

  ghost predicate Filed(t: Table, net: iset<(Id, Id)>) {
    forall k | k in t :: (t[k].serviceId, t[k].networkId) in net
  }

  lemma {:induction false} RunStaysFiled(t: Table, ops: seq<Op>, net: iset<(Id, Id)>)
    requires Filed(t, net) && Within(ops, net)
    ensures Filed(Run(t, ops), net)
    decreases |ops|
  {
    if ops != [] {
      assert Uses(ops[0], net) && forall op | op in ops[1..] :: op in ops;
      RunStaysFiled(Apply(t, ops[0]), ops[1..], net);
    }
  }

  /** Where a service has one network id, the check sees all of its bindings. */
  lemma FiledIsScoped(t: Table, net: iset<(Id, Id)>)
    requires Filed(t, net) && OneNetworkEach(net) && ConflictFree(t)
    ensures ServiceConflictFree(t)
  {
    forall a, b | a in t && b in t && a != b && t[a].serviceId == t[b].serviceId ensures !Rejects(t[a].kind, t[b].kind) {
      assert SameScope(t[a], t[b]);
    }
  }

  /** Two creations for service `s`, under different network ids: an interface, and a port on all interfaces. */
  function TwoNetworks(s: Id, m: Id, n: Id): seq<Op> {
    [CreateOp(0, Binding(s, m, Interface(5)), true), CreateOp(1, Binding(s, n, Port(9, None)), true)]
  }

  lemma TwoNetworksConflict(s: Id, m: Id, n: Id)
    requires m != n
    ensures !ServiceConflictFree(Run(map[], TwoNetworks(s, m, n)))
    ensures ConflictFree(Run(map[], TwoNetworks(s, m, n)))
  {
    var a, b := Binding(s, m, Interface(5)), Binding(s, n, Port(9, None));
    var ops := TwoNetworks(s, m, n);
    var t := Apply(map[], ops[0]);
    assert t == map[0 := a];
    assert WithoutSuperseded(t, b) == t;
    assert Apply(t, ops[1]) == t[1 := b];
    assert ops[1..] == [ops[1]] && [ops[1]][1..] == [];
    assert Run(t, [ops[1]]) == Run(Apply(t, ops[1]), []);
    assert Rejects(t[1 := b][0].kind, t[1 := b][1].kind);
    RunsStayConflictFree(map[], ops);
  }

  /**
   Every run that files its bindings under the pairs in `net` keeps every service free of conflicts
   exactly if `net` gives each service at most one network id.
   */
  lemma RunsStayServiceConflictFreeIff(net: iset<(Id, Id)>)
    ensures (forall ops | Within(ops, net) :: ServiceConflictFree(Run(map[], ops))) <==> OneNetworkEach(net)
  {
    if OneNetworkEach(net) {
      forall ops | Within(ops, net) ensures ServiceConflictFree(Run(map[], ops)) {
        RunsStayConflictFree(map[], ops);
        RunStaysFiled(map[], ops, net);
        FiledIsScoped(Run(map[], ops), net);
      }
    } else {
      var s, m, n :| (s, m) in net && (s, n) in net && m != n;
      TwoNetworksConflict(s, m, n);
      assert Within(TwoNetworks(s, m, n), net);
    }
  }
}
