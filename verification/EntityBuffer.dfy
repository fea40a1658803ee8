/**
 The daemon's buffer of discovered hosts and subnets, and the log of events it refines.
 */
module EntityBuffer {
  import opened Common

  datatype Entity<T> = Pending(data: T) | Created(pendingId: Id, actual: T)

  datatype Host = Host(id: Id, content: nat)
  datatype Subnet = Subnet(id: Id, content: nat)

  /** A host with its children; also the shape of the server's host response. */
  datatype Request = Request(host: Host, interfaces: seq<nat>, ports: seq<nat>, services: seq<nat>, ifEntries: seq<nat>)

  /** The children of `r` appended to those of `existing`. */
  function Merge(existing: Request, r: Request): Request {
    Request(existing.host, existing.interfaces + r.interfaces, existing.ports + r.ports,
            existing.services + r.services, existing.ifEntries + r.ifEntries)
  }

  datatype Buffer = Buffer(hosts: map<Id, Entity<Request>>, subnets: map<Id, Entity<Subnet>>)

  const EMPTY: Buffer := Buffer(map[], map[])

  predicate HostPending(b: Buffer, k: Id) {
    k in b.hosts && b.hosts[k].Pending?
  }

  predicate SubnetPending(b: Buffer, k: Id) {
    k in b.subnets && b.subnets[k].Pending?
  }

  /** Entries are keyed by the id they were discovered under. */
  ghost predicate Keyed(b: Buffer) {
    && (forall k | HostPending(b, k) :: b.hosts[k].data.host.id == k)
    && (forall k | SubnetPending(b, k) :: b.subnets[k].data.id == k)
  }

  function PushHost(b: Buffer, r: Request): Buffer {
    b.(hosts := b.hosts[r.host.id := if HostPending(b, r.host.id) then Pending(Merge(b.hosts[r.host.id].data, r)) else Pending(r)])
  }

  function PushSubnet(b: Buffer, n: Subnet): Buffer {
    b.(subnets := b.subnets[n.id := Pending(n)])
  }

  function ConfirmHost(b: Buffer, k: Id, actual: Request): Buffer {
    if HostPending(b, k) then b.(hosts := b.hosts[k := Created(k, actual)]) else b
  }

  function ConfirmSubnet(b: Buffer, k: Id, actual: Subnet): Buffer {
    if k in b.subnets then b.(subnets := b.subnets[k := Created(k, actual)]) else b
  }

  /** Confirmations from the server: pending ids with the server's entities. */
  datatype Payload = Payload(subnets: seq<(Id, Subnet)>, hosts: seq<(Id, Request)>)

  function ConfirmSubnets(b: Buffer, ps: seq<(Id, Subnet)>): Buffer
    decreases |ps|
  {
    if ps == [] then b else ConfirmSubnets(ConfirmSubnet(b, ps[0].0, ps[0].1), ps[1..])
  }

  function ConfirmHosts(b: Buffer, ps: seq<(Id, Request)>): Buffer
    decreases |ps|
  {
    if ps == [] then b else ConfirmHosts(ConfirmHost(b, ps[0].0, ps[0].1), ps[1..])
  }

  function Confirm(b: Buffer, p: Payload): Buffer {
    ConfirmHosts(ConfirmSubnets(b, p.subnets), p.hosts)
  }

  /** `xs` lists the pending entries of a table, each once, in any order. */
  ghost predicate ListsPending<T(!new)>(xs: seq<(Id, T)>, table: map<Id, Entity<T>>) {
    && (forall i | 0 <= i < |xs| :: xs[i].0 in table && table[xs[i].0] == Pending(xs[i].1))
    && (forall k | k in table && table[k].Pending? :: (k, table[k].data) in xs)
    && (forall i, j | 0 <= i < j < |xs| :: xs[i].0 != xs[j].0)
  }

  function TagHosts(xs: seq<Request>): seq<(Id, Request)> {
    seq(|xs|, i requires 0 <= i < |xs| => (xs[i].host.id, xs[i]))
  }

  function TagSubnets(xs: seq<Subnet>): seq<(Id, Subnet)> {
    seq(|xs|, i requires 0 <= i < |xs| => (xs[i].id, xs[i]))
  }

  // ---- The buffer object ------------------------------------------------------------

  class EntityBuffer {
    var hosts: map<Id, Entity<Request>>
    var subnets: map<Id, Entity<Subnet>>

    ghost function View(): Buffer
      reads this
    {
      Buffer(hosts, subnets)
    }

    constructor ()
      ensures View() == EMPTY
    {
      hosts, subnets := map[], map[];
    }

    method AddSubnet(n: Subnet)
      modifies this`subnets
      ensures View() == PushSubnet(old(View()), n)
    {
      subnets := subnets[n.id := Pending(n)];
    }

    /** Reports the pair of ids when the server chose another one. */
    method MarkSubnetCreated(k: Id, actual: Subnet) returns (changed: Option<(Id, Id)>)
      modifies this`subnets
      ensures View() == ConfirmSubnet(old(View()), k, actual)
      ensures changed == if k in old(subnets) && k != actual.id then Some((k, actual.id)) else None
    {
      if k in subnets {
        subnets := subnets[k := Created(k, actual)];
        if k != actual.id {
          return Some((k, actual.id));
        }
      }
      return None;
    }

    method AddHost(r: Request)
      modifies this`hosts
      ensures View() == PushHost(old(View()), r)
    {
      if r.host.id in hosts && hosts[r.host.id].Pending? {
        var x := hosts[r.host.id].data;
        x := x.(interfaces := x.interfaces + r.interfaces);
        x := x.(ports := x.ports + r.ports);
        x := x.(services := x.services + r.services);
        x := x.(ifEntries := x.ifEntries + r.ifEntries);
        hosts := hosts[r.host.id := Pending(x)];
      } else {
        hosts := hosts[r.host.id := Pending(r)];
      }
    }

    method MarkHostCreated(k: Id, actual: Request)
      modifies this`hosts
      ensures View() == ConfirmHost(old(View()), k, actual)
    {
      if k in hosts && hosts[k].Pending? {
        hosts := hosts[k := Created(k, actual)];
      }
    }

    /** The daemon's side of a confirmation message. */
    method ReceiveCreatedEntities(p: Payload)
      modifies this
      ensures View() == Confirm(old(View()), p)
    {
      ghost var end := ConfirmSubnets(View(), p.subnets);
      for i := 0 to |p.subnets|
        modifies this
        invariant ConfirmSubnets(View(), p.subnets[i..]) == end
      {
        assert p.subnets[i..][1..] == p.subnets[i + 1..];
        var _ := MarkSubnetCreated(p.subnets[i].0, p.subnets[i].1);
      }
      assert p.subnets[|p.subnets|..] == [];
      for i := 0 to |p.hosts|
        modifies this
        invariant ConfirmHosts(View(), p.hosts[i..]) == ConfirmHosts(end, p.hosts)
      {
        assert p.hosts[i..][1..] == p.hosts[i + 1..];
        MarkHostCreated(p.hosts[i].0, p.hosts[i].1);
      }
      assert p.hosts[|p.hosts|..] == [];
    }

    /** All pending entries, in whatever order the tables are walked; nothing is removed. */
    method GetPending() returns (hostList: seq<Request>, subnetList: seq<Subnet>)
      requires Keyed(View())
      ensures ListsPending(TagHosts(hostList), hosts) && ListsPending(TagSubnets(subnetList), subnets)
    {
      var hs := PendingOf(hosts);
      hostList := seq(|hs|, i requires 0 <= i < |hs| => hs[i].1);
      assert forall i | 0 <= i < |hs| :: HostPending(View(), hs[i].0);
      assert TagHosts(hostList) == hs;
      var ns := PendingOf(subnets);
      subnetList := seq(|ns|, i requires 0 <= i < |ns| => ns[i].1);
      assert forall i | 0 <= i < |ns| :: SubnetPending(View(), ns[i].0);
      assert TagSubnets(subnetList) == ns;
    }

    method ClearAll()
      modifies this
      ensures View() == EMPTY
    {
      hosts := map[];
      subnets := map[];
    }
  }

  method PendingOf<T(!new)>(table: map<Id, Entity<T>>) returns (xs: seq<(Id, T)>)
    ensures ListsPending(xs, table)
  {
    xs := [];
    var todo := table.Keys;
    while todo != {}
      invariant todo <= table.Keys
      invariant forall i | 0 <= i < |xs| :: xs[i].0 in table && xs[i].0 !in todo && table[xs[i].0] == Pending(xs[i].1)
      invariant forall k | k in table && k !in todo && table[k].Pending? :: (k, table[k].data) in xs
      invariant forall i, j | 0 <= i < j < |xs| :: xs[i].0 != xs[j].0
      decreases todo
    {
      var k :| k in todo;
      todo := todo - {k};
      if table[k].Pending? {
        xs := xs + [(k, table[k].data)];
      }
    }
  }

  // ---- The event log ---------------------------------------------------------------

  datatype Event =
    | HostPushed(request: Request)
    | SubnetPushed(subnet: Subnet)
    | HostConfirmed(id: Id, response: Request)
    | SubnetConfirmed(sid: Id, actual: Subnet)
    | Cleared

  function Apply(b: Buffer, e: Event): Buffer {
    match e
    case HostPushed(r) => PushHost(b, r)
    case SubnetPushed(n) => PushSubnet(b, n)
    case HostConfirmed(k, r) => ConfirmHost(b, k, r)
    case SubnetConfirmed(k, n) => ConfirmSubnet(b, k, n)
    case Cleared => EMPTY
  }

  function Replay(b: Buffer, log: seq<Event>): Buffer
    decreases |log|
  {
    if log == [] then b else Apply(Replay(b, log[..|log| - 1]), log[|log| - 1])
  }

  /** The pushes of host `k` since its last confirmation or clear, in order. */
  function PushesSince(log: seq<Event>, k: Id): (r: seq<Request>)
    ensures forall x | x in r :: x.host.id == k
    decreases |log|
  {
    if log == [] then [] else
      var rest := log[..|log| - 1];
      match log[|log| - 1]
      case HostPushed(r) => if r.host.id == k then PushesSince(rest, k) + [r] else PushesSince(rest, k)
      case HostConfirmed(c, _) => if c == k then [] else PushesSince(rest, k)
      case Cleared => []
      case _ => PushesSince(rest, k)
  }

  /** The response that confirmed host `k`, if nothing was pushed or cleared since. */
  function ConfirmedBy(log: seq<Event>, k: Id): Option<Request>
    decreases |log|
  {
    if log == [] then None else
      var rest := log[..|log| - 1];
      match log[|log| - 1]
      case HostPushed(r) => if r.host.id == k then None else ConfirmedBy(rest, k)
      case HostConfirmed(c, r) =>
        if c == k && PushesSince(rest, k) != [] then Some(r) else ConfirmedBy(rest, k)
      case Cleared => None
      case _ => ConfirmedBy(rest, k)
  }

  function Concat(parts: seq<seq<nat>>): seq<nat> {
    if parts == [] then [] else Concat(parts[..|parts| - 1]) + parts[|parts| - 1]
  }

  /** The first push's host record with the children of all pushes, in order. */
  function Combined(pushes: seq<Request>): Request
    requires pushes != []
  {
    Request(pushes[0].host,
            Concat(seq(|pushes|, i requires 0 <= i < |pushes| => pushes[i].interfaces)),
            Concat(seq(|pushes|, i requires 0 <= i < |pushes| => pushes[i].ports)),
            Concat(seq(|pushes|, i requires 0 <= i < |pushes| => pushes[i].services)),
            Concat(seq(|pushes|, i requires 0 <= i < |pushes| => pushes[i].ifEntries)))
  }

  lemma ConcatSnoc(parts: seq<seq<nat>>, last: seq<nat>)
    ensures Concat(parts + [last]) == Concat(parts) + last
  {
    assert (parts + [last])[..|parts|] == parts;
  }

  lemma CombinedSnoc(pushes: seq<Request>, r: Request)
    requires pushes != []
    ensures Combined(pushes + [r]) == Merge(Combined(pushes), r)
  {
    var all := pushes + [r];
    assert seq(|all|, i requires 0 <= i < |all| => all[i].interfaces)
        == seq(|pushes|, i requires 0 <= i < |pushes| => pushes[i].interfaces) + [r.interfaces];
    assert seq(|all|, i requires 0 <= i < |all| => all[i].ports)
        == seq(|pushes|, i requires 0 <= i < |pushes| => pushes[i].ports) + [r.ports];
    assert seq(|all|, i requires 0 <= i < |all| => all[i].services)
        == seq(|pushes|, i requires 0 <= i < |pushes| => pushes[i].services) + [r.services];
    assert seq(|all|, i requires 0 <= i < |all| => all[i].ifEntries)
        == seq(|pushes|, i requires 0 <= i < |pushes| => pushes[i].ifEntries) + [r.ifEntries];
    ConcatSnoc(seq(|pushes|, i requires 0 <= i < |pushes| => pushes[i].interfaces), r.interfaces);
    ConcatSnoc(seq(|pushes|, i requires 0 <= i < |pushes| => pushes[i].ports), r.ports);
    ConcatSnoc(seq(|pushes|, i requires 0 <= i < |pushes| => pushes[i].services), r.services);
    ConcatSnoc(seq(|pushes|, i requires 0 <= i < |pushes| => pushes[i].ifEntries), r.ifEntries);
  }

  lemma CombinedOne(r: Request)
    ensures Combined([r]) == r
  {
    ConcatOne(r.interfaces);
    ConcatOne(r.ports);
    ConcatOne(r.services);
    ConcatOne(r.ifEntries);
    assert seq(|[r]|, i requires 0 <= i < |[r]| => [r][i].interfaces) == [r.interfaces];
    assert seq(|[r]|, i requires 0 <= i < |[r]| => [r][i].ports) == [r.ports];
    assert seq(|[r]|, i requires 0 <= i < |[r]| => [r][i].services) == [r.services];
    assert seq(|[r]|, i requires 0 <= i < |[r]| => [r][i].ifEntries) == [r.ifEntries];
  }

  lemma ConcatOne(part: seq<nat>)
    ensures Concat([part]) == part
  {
    assert [part][..0] == [];
  }

  /** The host entry a log calls for. */
  function Meaning(log: seq<Event>, k: Id): Option<Entity<Request>> {
    var pushes := PushesSince(log, k);
    if pushes != [] then Some(Pending(Combined(pushes)))
    else match ConfirmedBy(log, k)
         case Some(r) => Some(Created(k, r))
         case None => None
  }

  function HostAt(b: Buffer, k: Id): Option<Entity<Request>> {
    if k in b.hosts then Some(b.hosts[k]) else None
  }

  /** After any sequence of pushes, confirmations and clears the host table says what the log says. */
  lemma {:induction false} BufferRefinesLog(log: seq<Event>, k: Id)
    ensures HostAt(Replay(EMPTY, log), k) == Meaning(log, k)
    decreases |log|
  {
    if log != [] {
      var rest, e := log[..|log| - 1], log[|log| - 1];
      BufferRefinesLog(rest, k);
      if e.HostPushed? && e.request.host.id == k {
        if PushesSince(rest, k) == [] {
          assert [] + [e.request] == [e.request];
          CombinedOne(e.request);
        } else {
          CombinedSnoc(PushesSince(rest, k), e.request);
        }
      }
    }
  }

  /** The last push of subnet `k`, with no clear after it. */
  predicate LastPush(log: seq<Event>, k: Id, i: nat) {
    && i < |log| && log[i].SubnetPushed? && log[i].subnet.id == k
    && forall j | i < j < |log| :: log[j] != Cleared && !(log[j].SubnetPushed? && log[j].subnet.id == k)
  }

  /** The last confirmation of subnet `k` after event `i`. */
  predicate LastConfirmation(log: seq<Event>, k: Id, i: nat, j: nat) {
    && i < j < |log| && log[j].SubnetConfirmed? && log[j].sid == k
    && forall m | j < m < |log| :: !(log[m].SubnetConfirmed? && log[m].sid == k)
  }

  predicate NoConfirmation(log: seq<Event>, k: Id, i: nat) {
    forall j | i < j < |log| :: !(log[j].SubnetConfirmed? && log[j].sid == k)
  }

  /** A subnet is listed exactly if it was pushed since the last clear. */
  lemma {:induction false} SubnetListedIff(log: seq<Event>, k: Id)
    ensures k in Replay(EMPTY, log).subnets <==> exists i: nat :: LastPush(log, k, i)
    decreases |log|
  {
    if log != [] {
      var n := |log| - 1;
      SubnetListedIff(log[..n], k);
      if log[n].SubnetPushed? && log[n].subnet.id == k {
        assert LastPush(log, k, n);
      } else if log[n] == Cleared {
        assert forall i: nat :: LastPush(log, k, i) ==> i < n;
      } else {
        LastPushSame(log, k);
        if i: nat :| LastPush(log[..n], k, i) {
          assert LastPush(log, k, i);
        }
      }
    }
  }

  /** Not confirmed since its last push, it is pending as it was pushed then. */
  lemma {:induction false} SubnetPendingAt(log: seq<Event>, k: Id, i: nat)
    requires LastPush(log, k, i) && NoConfirmation(log, k, i)
    ensures k in Replay(EMPTY, log).subnets && Replay(EMPTY, log).subnets[k] == Pending(log[i].subnet)
    decreases |log|
  {
    var n := |log| - 1;
    if i < n {
      assert LastPush(log[..n], k, i) && NoConfirmation(log[..n], k, i);
      SubnetPendingAt(log[..n], k, i);
      assert log[n] != Cleared;
    }
  }

  /** Confirmed since, it is created as it was confirmed last. */
  lemma {:induction false} SubnetCreatedAt(log: seq<Event>, k: Id, i: nat, j: nat)
    requires LastPush(log, k, i) && LastConfirmation(log, k, i, j)
    ensures k in Replay(EMPTY, log).subnets && Replay(EMPTY, log).subnets[k] == Created(k, log[j].actual)
    decreases |log|
  {
    var n := |log| - 1;
    if j < n {
      assert LastPush(log[..n], k, i) && LastConfirmation(log[..n], k, i, j);
      SubnetCreatedAt(log[..n], k, i, j);
      assert log[n] != Cleared;
    } else {
      assert LastPush(log[..n], k, i);
      SubnetListedIff(log[..n], k);
    }
  }

  /**
   After any sequence of pushes, confirmations and clears a subnet is listed exactly if it was pushed
   since the last clear: pending as it was pushed last, or, if confirmed since, as it was confirmed last.
   */
  lemma SubnetsRefineLog(log: seq<Event>, k: Id)
    ensures k in Replay(EMPTY, log).subnets <==> exists i: nat :: LastPush(log, k, i)
    ensures forall i: nat | LastPush(log, k, i) && NoConfirmation(log, k, i) ::
              k in Replay(EMPTY, log).subnets && Replay(EMPTY, log).subnets[k] == Pending(log[i].subnet)
    ensures forall i: nat, j: nat | LastPush(log, k, i) && LastConfirmation(log, k, i, j) ::
              k in Replay(EMPTY, log).subnets && Replay(EMPTY, log).subnets[k] == Created(k, log[j].actual)
  {
    SubnetListedIff(log, k);
    forall i: nat | LastPush(log, k, i) && NoConfirmation(log, k, i)
      ensures k in Replay(EMPTY, log).subnets && Replay(EMPTY, log).subnets[k] == Pending(log[i].subnet)
    {
      SubnetPendingAt(log, k, i);
    }
    forall i: nat, j: nat | LastPush(log, k, i) && LastConfirmation(log, k, i, j)
      ensures k in Replay(EMPTY, log).subnets && Replay(EMPTY, log).subnets[k] == Created(k, log[j].actual)
    {
      SubnetCreatedAt(log, k, i, j);
    }
  }

  lemma LastPushSame(log: seq<Event>, k: Id)
    requires log != []
    requires var e := log[|log| - 1]; e != Cleared && !(e.SubnetPushed? && e.subnet.id == k)
    ensures forall i: nat :: LastPush(log, k, i) <==> LastPush(log[..|log| - 1], k, i)
  {
    var rest := log[..|log| - 1];
    forall i: nat | LastPush(rest, k, i) ensures LastPush(log, k, i) {
      forall j | i < j < |log| ensures log[j] != Cleared && !(log[j].SubnetPushed? && log[j].subnet.id == k) {
        assert j < |rest| ==> log[j] == rest[j];
      }
    }
    forall i: nat | LastPush(log, k, i) ensures LastPush(rest, k, i) {
      assert i < |rest|;
    }
  }

  /** Whatever happens in between, an entry stops being pending only by a confirmation naming it, or a clear. */
  lemma {:induction false} PendingLeavesOnlyByConfirmation(b: Buffer, log: seq<Event>, k: Id)
    requires Cleared !in log
    ensures HostPending(b, k) && (forall e | e in log :: !(e.HostConfirmed? && e.id == k)) ==> HostPending(Replay(b, log), k)
    ensures SubnetPending(b, k) && (forall e | e in log :: !(e.SubnetConfirmed? && e.sid == k)) ==> SubnetPending(Replay(b, log), k)
    decreases |log|
  {
    if log != [] {
      var rest := log[..|log| - 1];
      assert log[|log| - 1] in log && forall e | e in rest :: e in log;
      PendingLeavesOnlyByConfirmation(b, rest, k);
    }
  }

  lemma {:induction false} LogKeepsKeyed(log: seq<Event>)
    ensures Keyed(Replay(EMPTY, log))
    decreases |log|
  {
    if log != [] {
      LogKeepsKeyed(log[..|log| - 1]);
    }
  }
}
