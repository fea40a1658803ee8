/**
 Poll, process, confirm: how the daemon's buffer and the server agree on discovered
 entities when messages are lost, repeated, late, or overtaken by new discoveries.
 */
module ConfirmationProtocol {
  import opened Common
  import opened EntityBuffer

  // ---- Server processing ----------------------------------------------------------

  /** Confirmations for the hosts the server handled; `outcomes[i]` is its answer to host `i`. */
  function HandledHosts(hosts: seq<Request>, outcomes: seq<Option<Request>>): seq<(Id, Request)>
    requires |hosts| == |outcomes|
    decreases |hosts|
  {
    if hosts == [] then [] else
      var n := |hosts| - 1;
      HandledHosts(hosts[..n], outcomes[..n])
      + match outcomes[n]
        case Some(r) => [(hosts[n].host.id, r)]
        case None => []
  }

  function HandledSubnets(subnets: seq<Subnet>, outcomes: seq<Option<Subnet>>): seq<(Id, Subnet)>
    requires |subnets| == |outcomes|
    decreases |subnets|
  {
    if subnets == [] then [] else
      var n := |subnets| - 1;
      HandledSubnets(subnets[..n], outcomes[..n])
      + match outcomes[n]
        case Some(r) => [(subnets[n].id, r)]
        case None => []
  }

  function Failures<T>(outcomes: seq<Option<T>>): nat
    decreases |outcomes|
  {
    if outcomes == [] then 0 else
      Failures(outcomes[..|outcomes| - 1]) + if outcomes[|outcomes| - 1].None? then 1 else 0
  }

  /** Best effort: a failed entity is counted and skipped, the others are confirmed. */
  method ProcessDiscoveryEntities(hosts: seq<Request>, subnets: seq<Subnet>,
                                  hostOutcomes: seq<Option<Request>>, subnetOutcomes: seq<Option<Subnet>>)
    returns (p: Payload, hostFailures: nat, subnetFailures: nat)
    requires |hosts| == |hostOutcomes| && |subnets| == |subnetOutcomes|
    ensures p == Payload(HandledSubnets(subnets, subnetOutcomes), HandledHosts(hosts, hostOutcomes))
    ensures hostFailures == Failures(hostOutcomes) && subnetFailures == Failures(subnetOutcomes)
    ensures |p.hosts| + hostFailures == |hosts| && |p.subnets| + subnetFailures == |subnets|
  {
    var createdHosts, createdSubnets := [], [];
    hostFailures, subnetFailures := 0, 0;
    for i := 0 to |hosts|
      invariant createdHosts == HandledHosts(hosts[..i], hostOutcomes[..i])
      invariant hostFailures == Failures(hostOutcomes[..i]) && |createdHosts| + hostFailures == i
    {
      assert hosts[..i + 1][..i] == hosts[..i] && hostOutcomes[..i + 1][..i] == hostOutcomes[..i];
      match hostOutcomes[i] {
        case Some(r) => createdHosts := createdHosts + [(hosts[i].host.id, r)];
        case None => hostFailures := hostFailures + 1;
      }
    }
    for i := 0 to |subnets|
      invariant createdSubnets == HandledSubnets(subnets[..i], subnetOutcomes[..i])
      invariant subnetFailures == Failures(subnetOutcomes[..i]) && |createdSubnets| + subnetFailures == i
    {
      assert subnets[..i + 1][..i] == subnets[..i] && subnetOutcomes[..i + 1][..i] == subnetOutcomes[..i];
      match subnetOutcomes[i] {
        case Some(n) => createdSubnets := createdSubnets + [(subnets[i].id, n)];
        case None => subnetFailures := subnetFailures + 1;
      }
    }
    assert hosts[..|hosts|] == hosts && hostOutcomes[..|hosts|] == hostOutcomes;
    assert subnets[..|subnets|] == subnets && subnetOutcomes[..|subnets|] == subnetOutcomes;
    p := Payload(createdSubnets, createdHosts);
  }

  /** `at` lists the places with an answer, in order. */
  ghost predicate Answered<T>(at: seq<nat>, outcomes: seq<Option<T>>) {
    && (forall i, j | 0 <= i < j < |at| :: at[i] < at[j])
    && (forall i | 0 <= i < |at| :: at[i] < |outcomes| && outcomes[at[i]].Some?)
    && (forall k | 0 <= k < |outcomes| && outcomes[k].Some? :: k in at)
  }

  lemma AnsweredSnoc<T>(at: seq<nat>, outcomes: seq<Option<T>>) returns (more: seq<nat>)
    requires outcomes != [] && Answered(at, outcomes[..|outcomes| - 1])
    ensures Answered(more, outcomes)
    ensures more == at + if outcomes[|outcomes| - 1].Some? then [|outcomes| - 1] else []
  {
    var n := |outcomes| - 1;
    more := at + if outcomes[n].Some? then [n] else [];
    forall i | 0 <= i < |at| ensures at[i] < n && outcomes[at[i]].Some? {
      assert outcomes[..n][at[i]] == outcomes[at[i]];
    }
    forall k | 0 <= k < |outcomes| && outcomes[k].Some? ensures k in more {
      if k < n {
        assert outcomes[..n][k] == outcomes[k];
        assert k in at;
      } else {
        assert more[|at|] == n;
      }
    }
  }

  /** The confirmation holds the answers that succeeded, in order, each under the id its host was polled with. */
  lemma {:induction false} HandledHostsAre(hosts: seq<Request>, outcomes: seq<Option<Request>>) returns (at: seq<nat>)
    requires |hosts| == |outcomes|
    ensures Answered(at, outcomes) && |HandledHosts(hosts, outcomes)| == |at|
    ensures forall m | 0 <= m < |at| :: HandledHosts(hosts, outcomes)[m] == (hosts[at[m]].host.id, outcomes[at[m]].value)
    decreases |hosts|
  {
    at := [];
    if hosts != [] {
      var n := |hosts| - 1;
      var before := HandledHostsAre(hosts[..n], outcomes[..n]);
      at := AnsweredSnoc(before, outcomes);
    }
  }

  lemma {:induction false} HandledSubnetsAre(subnets: seq<Subnet>, outcomes: seq<Option<Subnet>>) returns (at: seq<nat>)
    requires |subnets| == |outcomes|
    ensures Answered(at, outcomes) && |HandledSubnets(subnets, outcomes)| == |at|
    ensures forall m | 0 <= m < |at| :: HandledSubnets(subnets, outcomes)[m] == (subnets[at[m]].id, outcomes[at[m]].value)
    decreases |subnets|
  {
    at := [];
    if subnets != [] {
      var n := |subnets| - 1;
      var before := HandledSubnetsAre(subnets[..n], outcomes[..n]);
      at := AnsweredSnoc(before, outcomes);
    }
  }

  // ---- What a confirmation does ------------------------------------------------------

  function FirstFor<T>(ps: seq<(Id, T)>, k: Id): Option<T> {
    if ps == [] then None else if ps[0].0 == k then Some(ps[0].1) else FirstFor(ps[1..], k)
  }

  function LastFor<T>(ps: seq<(Id, T)>, k: Id): Option<T> {
    if ps == [] then None else
      match LastFor(ps[1..], k)
      case Some(x) => Some(x)
      case None => if ps[0].0 == k then Some(ps[0].1) else None
  }

  /** A pending host takes the first response naming it; every other entry stays. */
  lemma {:induction false} ConfirmHostsAt(b: Buffer, ps: seq<(Id, Request)>)
    ensures ConfirmHosts(b, ps).subnets == b.subnets && ConfirmHosts(b, ps).hosts.Keys == b.hosts.Keys
    ensures forall k | k in b.hosts ::
              ConfirmHosts(b, ps).hosts[k]
              == if b.hosts[k].Pending? && FirstFor(ps, k).Some? then Created(k, FirstFor(ps, k).value) else b.hosts[k]
    decreases |ps|
  {
    if ps != [] {
      ConfirmHostsAt(ConfirmHost(b, ps[0].0, ps[0].1), ps[1..]);
    }
  }

  /** A known subnet takes the last response naming it. */
  lemma {:induction false} ConfirmSubnetsAt(b: Buffer, ps: seq<(Id, Subnet)>)
    ensures ConfirmSubnets(b, ps).hosts == b.hosts && ConfirmSubnets(b, ps).subnets.Keys == b.subnets.Keys
    ensures forall k | k in b.subnets ::
              ConfirmSubnets(b, ps).subnets[k] == if LastFor(ps, k).Some? then Created(k, LastFor(ps, k).value) else b.subnets[k]
    decreases |ps|
  {
    if ps != [] {
      ConfirmSubnetsAt(ConfirmSubnet(b, ps[0].0, ps[0].1), ps[1..]);
    }
  }

  lemma ConfirmAt(b: Buffer, p: Payload)
    ensures Confirm(b, p).hosts.Keys == b.hosts.Keys && Confirm(b, p).subnets.Keys == b.subnets.Keys
    ensures forall k | k in b.hosts ::
              Confirm(b, p).hosts[k]
              == if b.hosts[k].Pending? && FirstFor(p.hosts, k).Some? then Created(k, FirstFor(p.hosts, k).value) else b.hosts[k]
    ensures forall k | k in b.subnets ::
              Confirm(b, p).subnets[k]
              == if LastFor(p.subnets, k).Some? then Created(k, LastFor(p.subnets, k).value) else b.subnets[k]
  {
    ConfirmSubnetsAt(b, p.subnets);
    ConfirmHostsAt(ConfirmSubnets(b, p.subnets), p.hosts);
  }

  predicate FirstNaming<T>(ps: seq<(Id, T)>, k: Id, i: nat) {
    i < |ps| && ps[i].0 == k && forall j | 0 <= j < i :: ps[j].0 != k
  }

  predicate LastNaming<T>(ps: seq<(Id, T)>, k: Id, i: nat) {
    i < |ps| && ps[i].0 == k && forall j | i < j < |ps| :: ps[j].0 != k
  }

  lemma {:induction false} FirstForIs<T>(ps: seq<(Id, T)>, k: Id)
    ensures forall i: nat | FirstNaming(ps, k, i) :: FirstFor(ps, k) == Some(ps[i].1)
    ensures (forall x <- ps :: x.0 != k) ==> FirstFor(ps, k) == None
  {
    if ps != [] {
      FirstForIs(ps[1..], k);
      forall i: nat | FirstNaming(ps, k, i) ensures FirstFor(ps, k) == Some(ps[i].1) {
        if i > 0 {
          assert ps[1..][i - 1] == ps[i] && forall j | 0 <= j < i - 1 :: ps[1..][j] == ps[j + 1];
          assert FirstNaming(ps[1..], k, i - 1);
        }
      }
    }
  }

  lemma {:induction false} LastForIs<T>(ps: seq<(Id, T)>, k: Id)
    ensures forall i: nat | LastNaming(ps, k, i) :: LastFor(ps, k) == Some(ps[i].1)
    ensures (forall x <- ps :: x.0 != k) ==> LastFor(ps, k) == None
  {
    if ps != [] {
      LastForIs(ps[1..], k);
      forall i: nat | LastNaming(ps, k, i) ensures LastFor(ps, k) == Some(ps[i].1) {
        if i > 0 {
          assert ps[1..][i - 1] == ps[i] && forall j | i - 1 < j < |ps[1..]| :: ps[1..][j] == ps[j + 1];
          assert LastNaming(ps[1..], k, i - 1);
        } else {
          assert forall x <- ps[1..] :: x.0 != k;
        }
      }
    }
  }

  /** Entry by entry: a pending host takes the first answer for it, a subnet the last; nothing else changes. */
  lemma ConfirmMeans(b: Buffer, p: Payload, k: Id)
    ensures Confirm(b, p).hosts.Keys == b.hosts.Keys && Confirm(b, p).subnets.Keys == b.subnets.Keys
    ensures k in b.hosts ==>
              && (b.hosts[k].Pending? ==> forall i: nat | FirstNaming(p.hosts, k, i) :: Confirm(b, p).hosts[k] == Created(k, p.hosts[i].1))
              && (b.hosts[k].Created? || (forall x <- p.hosts :: x.0 != k) ==> Confirm(b, p).hosts[k] == b.hosts[k])
    ensures k in b.subnets ==>
              && (forall i: nat | LastNaming(p.subnets, k, i) :: Confirm(b, p).subnets[k] == Created(k, p.subnets[i].1))
              && ((forall x <- p.subnets :: x.0 != k) ==> Confirm(b, p).subnets[k] == b.subnets[k])
  {
    ConfirmAt(b, p);
    FirstForIs(p.hosts, k);
    LastForIs(p.subnets, k);
  }

  /** Applying any confirmation twice equals applying it once. */
  lemma ConfirmIdempotent(b: Buffer, p: Payload)
    ensures Confirm(Confirm(b, p), p) == Confirm(b, p)
  {
    ConfirmAt(b, p);
    ConfirmAt(Confirm(b, p), p);
    assert Confirm(Confirm(b, p), p).hosts == Confirm(b, p).hosts;
    assert Confirm(Confirm(b, p), p).subnets == Confirm(b, p).subnets;
  }

  // ---- One round -----------------------------------------------------------------------

  lemma {:induction false} FirstForSnoc<T>(ps: seq<(Id, T)>, last: (Id, T), k: Id)
    ensures FirstFor(ps + [last], k)
            == if FirstFor(ps, k).Some? then FirstFor(ps, k) else if last.0 == k then Some(last.1) else None
  {
    if ps == [] {
      assert ps + [last] == [last] && [last][1..] == [];
    } else {
      assert (ps + [last])[1..] == ps[1..] + [last];
      FirstForSnoc(ps[1..], last, k);
    }
  }

  lemma {:induction false} LastForSnoc<T>(ps: seq<(Id, T)>, last: (Id, T), k: Id)
    ensures LastFor(ps + [last], k) == if last.0 == k then Some(last.1) else LastFor(ps, k)
  {
    if ps == [] {
      assert ps + [last] == [last] && [last][1..] == [];
    } else {
      assert (ps + [last])[1..] == ps[1..] + [last];
      LastForSnoc(ps[1..], last, k);
    }
  }

  /** With distinct hosts, the confirmation names host `i` exactly when the server handled it. */
  lemma {:induction false} HandledAt(hosts: seq<Request>, outcomes: seq<Option<Request>>, k: Id)
    requires |hosts| == |outcomes|
    requires forall i, j | 0 <= i < j < |hosts| :: hosts[i].host.id != hosts[j].host.id
    ensures forall i | 0 <= i < |hosts| && hosts[i].host.id == k :: FirstFor(HandledHosts(hosts, outcomes), k) == outcomes[i]
    ensures (forall i | 0 <= i < |hosts| :: hosts[i].host.id != k) ==> FirstFor(HandledHosts(hosts, outcomes), k) == None
    decreases |hosts|
  {
    if hosts != [] {
      var n := |hosts| - 1;
      HandledAt(hosts[..n], outcomes[..n], k);
      if outcomes[n].Some? {
        FirstForSnoc(HandledHosts(hosts[..n], outcomes[..n]), (hosts[n].host.id, outcomes[n].value), k);
      } else {
        assert HandledHosts(hosts[..n], outcomes[..n]) + [] == HandledHosts(hosts[..n], outcomes[..n]);
      }
    }
  }

  lemma {:induction false} HandledSubnetsAt(subnets: seq<Subnet>, outcomes: seq<Option<Subnet>>, k: Id)
    requires |subnets| == |outcomes|
    requires forall i, j | 0 <= i < j < |subnets| :: subnets[i].id != subnets[j].id
    ensures forall i | 0 <= i < |subnets| && subnets[i].id == k :: LastFor(HandledSubnets(subnets, outcomes), k) == outcomes[i]
    ensures (forall i | 0 <= i < |subnets| :: subnets[i].id != k) ==> LastFor(HandledSubnets(subnets, outcomes), k) == None
    decreases |subnets|
  {
    if subnets != [] {
      var n := |subnets| - 1;
      HandledSubnetsAt(subnets[..n], outcomes[..n], k);
      if outcomes[n].Some? {
        LastForSnoc(HandledSubnets(subnets[..n], outcomes[..n]), (subnets[n].id, outcomes[n].value), k);
      } else {
        assert HandledSubnets(subnets[..n], outcomes[..n]) + [] == HandledSubnets(subnets[..n], outcomes[..n]);
      }
    }
  }

  ghost predicate Polled(b: Buffer, hosts: seq<Request>, subnets: seq<Subnet>) {
    ListsPending(TagHosts(hosts), b.hosts) && ListsPending(TagSubnets(subnets), b.subnets)
  }

  function Round(b: Buffer, hosts: seq<Request>, subnets: seq<Subnet>,
                 hostOutcomes: seq<Option<Request>>, subnetOutcomes: seq<Option<Subnet>>): Buffer
    requires |hosts| == |hostOutcomes| && |subnets| == |subnetOutcomes|
  {
    Confirm(b, Payload(HandledSubnets(subnets, subnetOutcomes), HandledHosts(hosts, hostOutcomes)))
  }

  /**
   After a poll, best-effort processing and a confirmation with no push in between, exactly the
   hosts the server failed on stay pending, unchanged; each other one holds the server's response.
   */
  lemma RoundLeavesFailures(b: Buffer, hosts: seq<Request>, subnets: seq<Subnet>,
                            hostOutcomes: seq<Option<Request>>, subnetOutcomes: seq<Option<Subnet>>, k: Id)
    requires |hosts| == |hostOutcomes| && |subnets| == |subnetOutcomes| && Polled(b, hosts, subnets)
    ensures var t := Round(b, hosts, subnets, hostOutcomes, subnetOutcomes);
            && (HostPending(t, k) <==> exists i :: 0 <= i < |hosts| && hosts[i].host.id == k && hostOutcomes[i] == None)
            && (SubnetPending(t, k) <==> exists i :: 0 <= i < |subnets| && subnets[i].id == k && subnetOutcomes[i] == None)
            && (HostPending(t, k) ==> HostPending(b, k) && t.hosts[k] == b.hosts[k])
            && (SubnetPending(t, k) ==> SubnetPending(b, k) && t.subnets[k] == b.subnets[k])
            && (forall i | 0 <= i < |hosts| && hosts[i].host.id == k && hostOutcomes[i].Some? ::
                  k in t.hosts && t.hosts[k] == Created(k, hostOutcomes[i].value))
            && (forall i | 0 <= i < |subnets| && subnets[i].id == k && subnetOutcomes[i].Some? ::
                  k in t.subnets && t.subnets[k] == Created(k, subnetOutcomes[i].value))
  {
    RoundHosts(b, hosts, subnets, hostOutcomes, subnetOutcomes, k);
    RoundSubnets(b, hosts, subnets, hostOutcomes, subnetOutcomes, k);
  }

  lemma RoundHosts(b: Buffer, hosts: seq<Request>, subnets: seq<Subnet>,
                   hostOutcomes: seq<Option<Request>>, subnetOutcomes: seq<Option<Subnet>>, k: Id)
    requires |hosts| == |hostOutcomes| && |subnets| == |subnetOutcomes| && ListsPending(TagHosts(hosts), b.hosts)
    ensures var t := Round(b, hosts, subnets, hostOutcomes, subnetOutcomes);
            && (HostPending(t, k) <==> exists i :: 0 <= i < |hosts| && hosts[i].host.id == k && hostOutcomes[i] == None)
            && (HostPending(t, k) ==> HostPending(b, k) && t.hosts[k] == b.hosts[k])
            && (forall i | 0 <= i < |hosts| && hosts[i].host.id == k && hostOutcomes[i].Some? ::
                  k in t.hosts && t.hosts[k] == Created(k, hostOutcomes[i].value))
  {
    var p := Payload(HandledSubnets(subnets, subnetOutcomes), HandledHosts(hosts, hostOutcomes));
    var tags := TagHosts(hosts);
    assert forall i | 0 <= i < |hosts| :: tags[i] == (hosts[i].host.id, hosts[i]);
    forall i, j | 0 <= i < j < |hosts| ensures hosts[i].host.id != hosts[j].host.id {
      assert tags[i].0 != tags[j].0;
    }
    HandledAt(hosts, hostOutcomes, k);
    ConfirmAt(b, p);
    if HostPending(b, k) {
      assert (k, b.hosts[k].data) in tags;
      var i :| 0 <= i < |tags| && tags[i] == (k, b.hosts[k].data);
      assert hosts[i].host.id == k;
    } else {
      forall i | 0 <= i < |hosts| ensures hosts[i].host.id != k {
        assert b.hosts[tags[i].0].Pending?;
      }
    }
  }

  lemma RoundSubnets(b: Buffer, hosts: seq<Request>, subnets: seq<Subnet>,
                     hostOutcomes: seq<Option<Request>>, subnetOutcomes: seq<Option<Subnet>>, k: Id)
    requires |hosts| == |hostOutcomes| && |subnets| == |subnetOutcomes| && ListsPending(TagSubnets(subnets), b.subnets)
    ensures var t := Round(b, hosts, subnets, hostOutcomes, subnetOutcomes);
            && (SubnetPending(t, k) <==> exists i :: 0 <= i < |subnets| && subnets[i].id == k && subnetOutcomes[i] == None)
            && (SubnetPending(t, k) ==> SubnetPending(b, k) && t.subnets[k] == b.subnets[k])
            && (forall i | 0 <= i < |subnets| && subnets[i].id == k && subnetOutcomes[i].Some? ::
                  k in t.subnets && t.subnets[k] == Created(k, subnetOutcomes[i].value))
  {
    var p := Payload(HandledSubnets(subnets, subnetOutcomes), HandledHosts(hosts, hostOutcomes));
    var tags := TagSubnets(subnets);
    assert forall i | 0 <= i < |subnets| :: tags[i] == (subnets[i].id, subnets[i]);
    forall i, j | 0 <= i < j < |subnets| ensures subnets[i].id != subnets[j].id {
      assert tags[i].0 != tags[j].0;
    }
    HandledSubnetsAt(subnets, subnetOutcomes, k);
    ConfirmAt(b, p);
    if SubnetPending(b, k) {
      assert (k, b.subnets[k].data) in tags;
      var i :| 0 <= i < |tags| && tags[i] == (k, b.subnets[k].data);
      assert subnets[i].id == k;
    } else {
      forall i | 0 <= i < |subnets| ensures subnets[i].id != k {
        assert b.subnets[tags[i].0].Pending?;
      }
    }
  }

  // ---- Whole runs with lost, late and repeated messages --------------------------------------

  datatype Step =
    | Discover(event: Event)
    | Poll(hosts: seq<Request>, subnets: seq<Subnet>, hostOutcomes: seq<Option<Request>>, subnetOutcomes: seq<Option<Subnet>>)
    | Deliver(payload: Payload)

  /** The buffer, the confirmations ever sent, and the server's answers by pending id. */
  datatype World = World(buffer: Buffer, sent: set<Payload>, answers: set<(Id, Request)>, subnetAnswers: set<(Id, Subnet)>)

  const START: World := World(EMPTY, {}, {}, {})

  ghost predicate Enabled(w: World, e: Step) {
    match e
    case Discover(x) => x.HostPushed? || x.SubnetPushed? || x.Cleared?
    case Poll(hs, ns, ho, no) => |hs| == |ho| && |ns| == |no| && Polled(w.buffer, hs, ns)
    case Deliver(p) => p in w.sent
  }

  function Next(w: World, e: Step): World {
    match e
    case Discover(x) => w.(buffer := Apply(w.buffer, x))
    case Deliver(p) => w.(buffer := Confirm(w.buffer, p))
    case Poll(hs, ns, ho, no) =>
      if |hs| != |ho| || |ns| != |no| then w else
        var p := Payload(HandledSubnets(ns, no), HandledHosts(hs, ho));
        w.(sent := w.sent + {p},
           answers := w.answers + (set x | x in p.hosts),
           subnetAnswers := w.subnetAnswers + (set x | x in p.subnets))
  }

  function Exec(w: World, es: seq<Step>): World
    decreases |es|
  {
    if es == [] then w else Exec(Next(w, es[0]), es[1..])
  }

  ghost predicate Legal(w: World, es: seq<Step>)
    decreases |es|
  {
    es != [] ==> Enabled(w, es[0]) && Legal(Next(w, es[0]), es[1..])
  }

  ghost predicate Honest(w: World) {
    && (forall k | k in w.buffer.hosts && w.buffer.hosts[k].Created? ::
          w.buffer.hosts[k].pendingId == k && (k, w.buffer.hosts[k].actual) in w.answers)
    && (forall k | k in w.buffer.subnets && w.buffer.subnets[k].Created? ::
          w.buffer.subnets[k].pendingId == k && (k, w.buffer.subnets[k].actual) in w.subnetAnswers)
    && (forall p | p in w.sent :: (forall x | x in p.hosts :: x in w.answers) && (forall x | x in p.subnets :: x in w.subnetAnswers))
  }

  lemma {:induction false} FirstForIn<T>(ps: seq<(Id, T)>, k: Id)
    ensures FirstFor(ps, k).Some? ==> (k, FirstFor(ps, k).value) in ps
    ensures LastFor(ps, k).Some? ==> (k, LastFor(ps, k).value) in ps
  {
    if ps != [] {
      FirstForIn(ps[1..], k);
      assert forall x | x in ps[1..] :: x in ps;
      assert ps[0] in ps;
    }
  }

  lemma DeliverKeepsHonest(w: World, p: Payload)
    requires Honest(w) && p in w.sent
    ensures Honest(Next(w, Deliver(p)))
  {
    ConfirmAt(w.buffer, p);
    var t := Confirm(w.buffer, p);
    forall k | k in t.hosts && t.hosts[k].Created? ensures t.hosts[k].pendingId == k && (k, t.hosts[k].actual) in w.answers {
      FirstForIn(p.hosts, k);
    }
    forall k | k in t.subnets && t.subnets[k].Created? ensures t.subnets[k].pendingId == k && (k, t.subnets[k].actual) in w.subnetAnswers {
      FirstForIn(p.subnets, k);
    }
  }

  /**
   Under any interleaving, and however often confirmations are lost, delayed or repeated, an entry
   counts as created only with a server answer given for that very id.
   */
  lemma {:induction false} CreatedOnlyIfAnswered(w: World, es: seq<Step>)
    requires Honest(w) && Legal(w, es)
    ensures Honest(Exec(w, es))
    decreases |es|
  {
    if es != [] {
      if es[0].Deliver? {
        DeliverKeepsHonest(w, es[0].payload);
      }
      CreatedOnlyIfAnswered(Next(w, es[0]), es[1..]);
    }
  }

  lemma EveryRunHonest(es: seq<Step>)
    requires Legal(START, es)
    ensures Honest(Exec(START, es))
  {
    CreatedOnlyIfAnswered(START, es);
  }
}
