/**
 What becomes of the children (interfaces, ports, services, table entries) of discovered hosts
 when pushes, polls, lost, late and repeated confirmations and session ends interleave freely:
 which of them a confirmation swallows, and that nothing else is ever lost.
 */
module ChildDelivery {
  import opened Common
  import opened EntityBuffer
  import opened ConfirmationProtocol

  datatype Sort = AnInterface | APort | AService | AnIfEntry

  datatype Child = Child(host: Id, sort: Sort, id: nat)

  predicate Holds(r: Request, c: Child) {
    match c.sort
    case AnInterface => c.id in r.interfaces
    case APort => c.id in r.ports
    case AService => c.id in r.services
    case AnIfEntry => c.id in r.ifEntries
  }

  /** The children of a request, under the host's pending id. */
  function ChildrenOf(r: Request): (s: set<Child>)
    ensures forall c :: c in s <==> c.host == r.host.id && Holds(r, c)
  {
    (set i | i in r.interfaces :: Child(r.host.id, AnInterface, i))
    + (set i | i in r.ports :: Child(r.host.id, APort, i))
    + (set i | i in r.services :: Child(r.host.id, AService, i))
    + (set i | i in r.ifEntries :: Child(r.host.id, AnIfEntry, i))
  }

  /** The children in the requests the server answered. */
  function Answered(hosts: seq<Request>, outcomes: seq<Option<Request>>): (s: set<Child>)
    requires |hosts| == |outcomes|
  {
    set i, c | 0 <= i < |hosts| && outcomes[i].Some? && c in ChildrenOf(hosts[i]) :: c
  }

  ghost predicate Waiting(b: Buffer, c: Child) {
    HostPending(b, c.host) && Holds(b.hosts[c.host].data, c)
  }

  /** The payload confirms the host. */
  predicate Names(p: Payload, k: Id) {
    FirstFor(p.hosts, k).Some?
  }

  // ---- One message at a time -----------------------------------------------------------------

  lemma PushAdds(b: Buffer, r: Request, c: Child)
    requires Keyed(b)
    ensures Keyed(PushHost(b, r))
    ensures Waiting(PushHost(b, r), c) <==> Waiting(b, c) || c in ChildrenOf(r)
  {
  }

  lemma DeliveryEmpties(b: Buffer, p: Payload, c: Child)
    ensures Waiting(Confirm(b, p), c) <==> Waiting(b, c) && !Names(p, c.host)
  {
    ConfirmAt(b, p);
  }

  lemma DeliveryKeepsKeyed(b: Buffer, p: Payload)
    requires Keyed(b)
    ensures Keyed(Confirm(b, p))
  {
    ConfirmAt(b, p);
  }

  function Answer(hs: seq<Request>, ns: seq<Subnet>, ho: seq<Option<Request>>, no: seq<Option<Subnet>>): Payload
    requires |hs| == |ho| && |ns| == |no|
  {
    Payload(HandledSubnets(ns, no), HandledHosts(hs, ho))
  }

  /** What the server takes from a poll was waiting, and is all that waited at the hosts it answers. */
  lemma AnswerTakes(b: Buffer, hs: seq<Request>, ns: seq<Subnet>, ho: seq<Option<Request>>, no: seq<Option<Subnet>>, c: Child)
    requires |hs| == |ho| && |ns| == |no| && Polled(b, hs, ns)
    ensures c in Answered(hs, ho) <==> Waiting(b, c) && Names(Answer(hs, ns, ho, no), c.host)
    ensures Names(Answer(hs, ns, ho, no), c.host) ==> HostPending(b, c.host)
  {
    var tags := TagHosts(hs);
    assert forall i | 0 <= i < |hs| :: tags[i] == (hs[i].host.id, hs[i]);
    forall i, j | 0 <= i < j < |hs| ensures hs[i].host.id != hs[j].host.id {
      assert tags[i].0 != tags[j].0;
    }
    HandledAt(hs, ho, c.host);
    if c in Answered(hs, ho) {
      var i :| 0 <= i < |hs| && ho[i].Some? && c in ChildrenOf(hs[i]);
      assert b.hosts[tags[i].0] == Pending(tags[i].1);
    }
    if Names(Answer(hs, ns, ho, no), c.host) {
      var i :| 0 <= i < |hs| && hs[i].host.id == c.host;
      assert b.hosts[tags[i].0] == Pending(tags[i].1);
      assert Holds(hs[i], c) ==> c in ChildrenOf(hs[i]);
    }
  }

  // ---- Pushes between a poll and its confirmation ----------------------------------------------

  function PushAll(b: Buffer, pushes: seq<Request>): Buffer
    decreases |pushes|
  {
    if pushes == [] then b else PushHost(PushAll(b, pushes[..|pushes| - 1]), pushes[|pushes| - 1])
  }

  function ChildrenOfAll(pushes: seq<Request>): set<Child> {
    set r, c | r in pushes && c in ChildrenOf(r) :: c
  }

  lemma {:induction false} PushAllAdds(b: Buffer, pushes: seq<Request>, c: Child)
    requires Keyed(b)
    ensures Keyed(PushAll(b, pushes))
    ensures Waiting(PushAll(b, pushes), c) <==> Waiting(b, c) || c in ChildrenOfAll(pushes)
    decreases |pushes|
  {
    if pushes != [] {
      var rest, r := pushes[..|pushes| - 1], pushes[|pushes| - 1];
      assert pushes == rest + [r];
      PushAllAdds(b, rest, c);
      PushAdds(PushAll(b, rest), r, c);
      assert c in ChildrenOfAll(pushes) <==> c in ChildrenOfAll(rest) || c in ChildrenOf(r);
    }
  }

  /**
   A confirmation swallows a child, leaving it neither waiting nor taken, exactly when the child
   was pushed after the poll to a host the server answered, and was not in what the server took.
   */
  lemma SwallowedIff(b: Buffer, hs: seq<Request>, ns: seq<Subnet>, ho: seq<Option<Request>>, no: seq<Option<Subnet>>,
                     pushes: seq<Request>, c: Child)
    requires Keyed(b) && |hs| == |ho| && |ns| == |no| && Polled(b, hs, ns)
    ensures var before := PushAll(b, pushes); var p := Answer(hs, ns, ho, no);
            (Waiting(before, c) && !Waiting(Confirm(before, p), c) && c !in Answered(hs, ho)) <==>
            (c in ChildrenOfAll(pushes) && Names(p, c.host) && c !in Answered(hs, ho))
  {
    PushAllAdds(b, pushes, c);
    DeliveryEmpties(PushAll(b, pushes), Answer(hs, ns, ho, no), c);
    AnswerTakes(b, hs, ns, ho, no, c);
  }

  /** So nothing is swallowed exactly when every child pushed meanwhile to an answered host had been polled. */
  lemma NothingSwallowedIff(b: Buffer, hs: seq<Request>, ns: seq<Subnet>, ho: seq<Option<Request>>, no: seq<Option<Subnet>>,
                            pushes: seq<Request>)
    requires Keyed(b) && |hs| == |ho| && |ns| == |no| && Polled(b, hs, ns)
    ensures var before := PushAll(b, pushes); var p := Answer(hs, ns, ho, no);
            (forall c :: Waiting(before, c) ==> Waiting(Confirm(before, p), c) || c in Answered(hs, ho)) <==>
            (forall c <- ChildrenOfAll(pushes) | Names(p, c.host) :: Waiting(b, c))
  {
    var before, p := PushAll(b, pushes), Answer(hs, ns, ho, no);
    forall c
      ensures (Waiting(before, c) ==> Waiting(Confirm(before, p), c) || c in Answered(hs, ho)) <==>
              (c in ChildrenOfAll(pushes) && Names(p, c.host) ==> Waiting(b, c))
    {
      SwallowedIff(b, hs, ns, ho, no, pushes, c);
      AnswerTakes(b, hs, ns, ho, no, c);
    }
  }

  // ---- Whole runs --------------------------------------------------------------------------------

  datatype Step =
    | Push(request: Request)
    | PushNet(subnet: Subnet)
    | Poll(hosts: seq<Request>, subnets: seq<Subnet>, hostOutcomes: seq<Option<Request>>, subnetOutcomes: seq<Option<Subnet>>)
    | Deliver(payload: Payload)
    | EndSession

  /**
   The buffer, the confirmations ever sent, and of the current session the children pushed, those
   the server took, and those a confirmation swallowed.
   */
  datatype Journal = Journal(buffer: Buffer, sent: set<Payload>, pushed: set<Child>, taken: set<Child>, swallowed: set<Child>)

  const BLANK: Journal := Journal(EMPTY, {}, {}, {}, {})

  ghost predicate Enabled(w: Journal, e: Step) {
    match e
    case Poll(hs, ns, ho, no) => |hs| == |ho| && |ns| == |no| && Polled(w.buffer, hs, ns)
    case Deliver(p) => p in w.sent
    case _ => true
  }

  ghost function SwallowedBy(w: Journal, p: Payload): set<Child> {
    set c | c in w.pushed && c !in w.taken && Waiting(w.buffer, c) && Names(p, c.host)
  }

  ghost function Next(w: Journal, e: Step): Journal
    requires Enabled(w, e)
  {
    match e
    case Push(r) =>
      w.(buffer := PushHost(w.buffer, r), pushed := w.pushed + ChildrenOf(r), swallowed := w.swallowed - ChildrenOf(r))
    case PushNet(n) => w.(buffer := PushSubnet(w.buffer, n))
    case Poll(hs, ns, ho, no) => w.(sent := w.sent + {Answer(hs, ns, ho, no)}, taken := w.taken + Answered(hs, ho))
    case Deliver(p) => w.(buffer := Confirm(w.buffer, p), swallowed := w.swallowed + SwallowedBy(w, p))
    case EndSession => w.(buffer := EMPTY, pushed := {}, taken := {}, swallowed := {})
  }

  ghost predicate Accounted(w: Journal) {
    && Keyed(w.buffer)
    && (forall c :: Waiting(w.buffer, c) ==> c in w.pushed)
    && (forall c <- w.pushed :: c in w.swallowed <==> !Waiting(w.buffer, c) && c !in w.taken)
    && w.swallowed <= w.pushed
  }

  lemma PushKeepsAccounted(w: Journal, r: Request)
    requires Accounted(w)
    ensures Accounted(Next(w, Push(r)))
  {
    forall c ensures Waiting(PushHost(w.buffer, r), c) <==> Waiting(w.buffer, c) || c in ChildrenOf(r) {
      PushAdds(w.buffer, r, c);
    }
  }

  lemma PollKeepsAccounted(w: Journal, e: Step)
    requires Accounted(w) && Enabled(w, e) && e.Poll?
    ensures Accounted(Next(w, e))
  {
    forall c | c in Answered(e.hosts, e.hostOutcomes) ensures Waiting(w.buffer, c) {
      AnswerTakes(w.buffer, e.hosts, e.subnets, e.hostOutcomes, e.subnetOutcomes, c);
    }
  }

  lemma DeliverKeepsAccounted(w: Journal, p: Payload)
    requires Accounted(w) && p in w.sent
    ensures Accounted(Next(w, Step.Deliver(p)))
  {
    DeliveryKeepsKeyed(w.buffer, p);
    forall c ensures Waiting(Confirm(w.buffer, p), c) <==> Waiting(w.buffer, c) && !Names(p, c.host) {
      DeliveryEmpties(w.buffer, p, c);
    }
  }

  lemma StepKeepsAccounted(w: Journal, e: Step)
    requires Accounted(w) && Enabled(w, e)
    ensures Accounted(Next(w, e))
  {
    match e
    case Push(r) => PushKeepsAccounted(w, r);
    case Poll(_, _, _, _) => PollKeepsAccounted(w, e);
    case Deliver(p) => DeliverKeepsAccounted(w, p);
    case _ =>
  }

  ghost predicate Legal(w: Journal, es: seq<Step>)
    decreases |es|
  {
    es != [] ==> Enabled(w, es[0]) && Legal(Next(w, es[0]), es[1..])
  }

  ghost function Exec(w: Journal, es: seq<Step>): Journal
    requires Legal(w, es)
    decreases |es|
  {
    if es == [] then w else Exec(Next(w, es[0]), es[1..])
  }

  lemma {:induction false} RunKeepsAccounted(w: Journal, es: seq<Step>)
    requires Accounted(w) && Legal(w, es)
    ensures Accounted(Exec(w, es))
    decreases |es|
  {
    if es != [] {
      StepKeepsAccounted(w, es[0]);
      RunKeepsAccounted(Next(w, es[0]), es[1..]);
    }
  }

  /**
   Over every run, with confirmations lost, late or repeated, the server failing on any hosts and
   pushes at any moment: a child pushed in the session neither waits nor was taken by the server
   if and only if a confirmation swallowed it.
   */
  lemma LostIffSwallowed(es: seq<Step>, c: Child)
    requires Legal(BLANK, es)
    ensures var w := Exec(BLANK, es);
            c in w.pushed ==> (!Waiting(w.buffer, c) && c !in w.taken <==> c in w.swallowed)
  {
    RunKeepsAccounted(BLANK, es);
  }

  /** Confirmations arrive, if at all, right after the poll they answer. */
  ghost predicate Prompt(es: seq<Step>, last: Option<Payload>)
    decreases |es|
  {
    es != [] ==>
      var e := es[0];
      && (e.Deliver? ==> last == Some(e.payload))
      && (e.Poll? ==> |e.hosts| == |e.hostOutcomes| && |e.subnets| == |e.subnetOutcomes|)
      && Prompt(es[1..], if e.Poll? then Some(Answer(e.hosts, e.subnets, e.hostOutcomes, e.subnetOutcomes)) else None)
  }

  /** Everything waiting at the hosts the last answer names was taken. */
  ghost predicate Harmless(w: Journal, last: Option<Payload>) {
    last.Some? ==> SwallowedBy(w, last.value) == {}
  }

  lemma {:induction false} PromptSwallowsNothing(w: Journal, es: seq<Step>, last: Option<Payload>)
    requires Accounted(w) && Legal(w, es) && Prompt(es, last) && w.swallowed == {} && Harmless(w, last)
    ensures Exec(w, es).swallowed == {}
    decreases |es|
  {
    if es != [] {
      var e := es[0];
      StepKeepsAccounted(w, e);
      if e.Poll? {
        var p := Answer(e.hosts, e.subnets, e.hostOutcomes, e.subnetOutcomes);
        forall c ensures c !in SwallowedBy(Next(w, e), p) {
          AnswerTakes(w.buffer, e.hosts, e.subnets, e.hostOutcomes, e.subnetOutcomes, c);
        }
        PromptSwallowsNothing(Next(w, e), es[1..], Some(p));
      } else {
        PromptSwallowsNothing(Next(w, e), es[1..], None);
      }
    }
  }

  /** If no push comes between a poll and its confirmation, every pushed child waits or was taken. */
  lemma NoChildLost(es: seq<Step>)
    requires Legal(BLANK, es) && Prompt(es, None)
    ensures var w := Exec(BLANK, es);
            forall c <- w.pushed :: Waiting(w.buffer, c) || c in w.taken
  {
    PromptSwallowsNothing(BLANK, es, None);
    RunKeepsAccounted(BLANK, es);
  }

  /** A poll the server answers in full leaves it with everything pushed in the session but what was swallowed. */
  lemma CleanPollTakesAll(es: seq<Step>, e: Step)
    requires Legal(BLANK, es) && Enabled(Exec(BLANK, es), e) && e.Poll?
    requires forall i | 0 <= i < |e.hosts| :: e.hostOutcomes[i].Some?
    ensures var w := Exec(BLANK, es);
            forall c <- w.pushed :: c in Next(w, e).taken <==> c !in w.swallowed
  {
    RunKeepsAccounted(BLANK, es);
    var w := Exec(BLANK, es);
    forall c <- w.pushed ensures c in Next(w, e).taken <==> c !in w.swallowed {
      AnswerTakes(w.buffer, e.hosts, e.subnets, e.hostOutcomes, e.subnetOutcomes, c);
      if Waiting(w.buffer, c) {
        WaitingIsPolled(w.buffer, e.hosts, e.subnets, e.hostOutcomes, c);
      }
    }
  }

  lemma WaitingIsPolled(b: Buffer, hs: seq<Request>, ns: seq<Subnet>, ho: seq<Option<Request>>, c: Child)
    requires |hs| == |ho| && Polled(b, hs, ns) && Waiting(b, c)
    requires forall i | 0 <= i < |hs| :: ho[i].Some?
    ensures c in Answered(hs, ho)
  {
    var tags := TagHosts(hs);
    assert (c.host, b.hosts[c.host].data) in tags;
    var i :| 0 <= i < |tags| && tags[i] == (c.host, b.hosts[c.host].data);
    assert c in ChildrenOf(hs[i]);
  }
}
