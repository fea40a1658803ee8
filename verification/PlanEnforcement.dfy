/**
 Trimming an organization to its billing plan, and the preview shown before a plan change.

 Tables are listed in a stable order (creation time); deleting a network deletes its
 hosts, daemons and discoveries with it.
 */
module PlanEnforcement {
  import opened Common
  import opened Sequences
  import opened Tables

  datatype Network = Network(id: Id)
  datatype Host = Host(id: Id, networkId: Id, updatedAt: int)
  datatype Mode = ServerPoll | DaemonPoll
  datatype Daemon = Daemon(id: Id, networkId: Id, hostId: Id, mode: Mode, standby: bool)
  datatype RunType = Scheduled(cron: string, lastRun: Option<int>, enabled: bool) | Historical(results: nat) | AdHoc(last: Option<int>)
  datatype Discovery = Discovery(id: Id, networkId: Id, runType: RunType)

  datatype Org = Org(networks: seq<Network>, hosts: seq<Host>, daemons: seq<Daemon>, discoveries: seq<Discovery>)

  datatype Plan = Plan(
    includedNetworks: Option<nat>,
    networkCents: Option<nat>,
    includedHosts: Option<nat>,
    hostCents: Option<nat>,
    daemonPoll: bool,
    scheduledDiscovery: bool)

  // Row tests, named so that equal tests are equal values.

  function NetworkOutside(ids: set<Id>): Network -> bool {
    (n: Network) => n.id !in ids
  }

  function HostOutside(ids: set<Id>): Host -> bool {
    (h: Host) => h.networkId !in ids
  }

  function DaemonOutside(ids: set<Id>): Daemon -> bool {
    (d: Daemon) => d.networkId !in ids
  }

  function DiscoveryOutside(ids: set<Id>): Discovery -> bool {
    (x: Discovery) => x.networkId !in ids
  }

  function HostWithin(ids: set<Id>): Host -> bool {
    (h: Host) => h.networkId in ids
  }

  function DaemonWithin(ids: set<Id>): Daemon -> bool {
    (d: Daemon) => d.networkId in ids
  }

  function DiscoveryWithin(ids: set<Id>): Discovery -> bool {
    (x: Discovery) => x.networkId in ids
  }

  function Other(daemonHosts: set<Id>): Host -> bool {
    (h: Host) => h.id !in daemonHosts
  }

  function Spared(gone: seq<Host>): Host -> bool {
    (h: Host) => h !in gone
  }

  function Excess(count: nat, limit: Option<nat>): nat {
    if limit.Some? && count > limit.value then count - limit.value else 0
  }

  // ---- Hosts to trim ----------------------------------------------------------------

  predicate NoOlder(g: Host, h: Host) {
    g.updatedAt >= h.updatedAt
  }

  predicate Recent(hosts: seq<Host>) {
    SortedBy(hosts, NoOlder)
  }

  function ByRecency(hosts: seq<Host>): (r: seq<Host>)
    ensures multiset(r) == multiset(hosts)
    ensures |r| == |hosts|
  {
    if hosts == [] then [] else
      assert hosts == [hosts[0]] + hosts[1..];
      Insert(hosts[0], ByRecency(hosts[1..]), NoOlder)
  }

  lemma {:induction false} ByRecencyIsRecent(hosts: seq<Host>)
    ensures Recent(ByRecency(hosts))
  {
    if hosts != [] {
      ByRecencyIsRecent(hosts[1..]);
      InsertSorted(hosts[0], ByRecency(hosts[1..]), NoOlder);
    }
  }

  /** The walk over the sorted hosts: `kept` others so far; daemon hosts always stay. */
  function ToDelete(sorted: seq<Host>, daemonHosts: set<Id>, limit: nat, kept: nat): seq<Host> {
    if sorted == [] then [] else
      var h, rest := sorted[0], sorted[1..];
      if h.id in daemonHosts then ToDelete(rest, daemonHosts, limit, kept)
      else if kept < limit then ToDelete(rest, daemonHosts, limit, kept + 1)
      else [h] + ToDelete(rest, daemonHosts, limit, kept)
  }

  function Others(hosts: seq<Host>, daemonHosts: set<Id>): seq<Host> {
    Where(hosts, Other(daemonHosts))
  }

  /** The walk deletes the non-daemon hosts beyond the limit, in the order given. */
  lemma {:induction false} ToDeleteIsTail(sorted: seq<Host>, daemonHosts: set<Id>, limit: nat, kept: nat)
    requires kept <= limit
    ensures var others := Others(sorted, daemonHosts);
            ToDelete(sorted, daemonHosts, limit, kept) == others[Min(limit - kept, |others|)..]
    decreases |sorted|
  {
    if sorted != [] {
      var h, rest := sorted[0], sorted[1..];
      if h.id in daemonHosts {
        ToDeleteIsTail(rest, daemonHosts, limit, kept);
      } else if kept < limit {
        ToDeleteIsTail(rest, daemonHosts, limit, kept + 1);
      } else {
        ToDeleteIsTail(rest, daemonHosts, limit, kept);
      }
    }
  }

  function Trimmed(hosts: seq<Host>, daemonHosts: set<Id>, limit: nat): seq<Host> {
    if |hosts| > limit then ToDelete(ByRecency(hosts), daemonHosts, limit, 0) else []
  }

  /** The non-daemon hosts by recency: the same hosts, each once, the most recent first. */
  lemma OthersByRecency(hosts: seq<Host>, daemonHosts: set<Id>)
    requires Distinct(hosts)
    ensures var others := Others(ByRecency(hosts), daemonHosts);
            && Distinct(others) && Recent(others) && |others| == |Others(hosts, daemonHosts)| <= |hosts|
            && forall h :: h in others <==> h in hosts && h.id !in daemonHosts
  {
    var sorted := ByRecency(hosts);
    ByRecencyIsRecent(hosts);
    DistinctPermutation(sorted, hosts);
    WhereDistinct(sorted, Other(daemonHosts));
    WhereRecent(sorted, Other(daemonHosts));
    OthersCount(sorted, hosts, daemonHosts);
    forall h ensures h in Others(sorted, daemonHosts) <==> h in hosts && h.id !in daemonHosts {
      MembersOf(sorted, hosts, h);
    }
  }

  lemma TailIsLeastRecent(others: seq<Host>, m: nat)
    requires Distinct(others) && Recent(others) && m <= |others|
    ensures Distinct(others[m..]) && |others[m..]| == |others| - m
    ensures forall g <- others[m..] :: g in others
    ensures forall h <- others, g <- others[m..] | h !in others[m..] :: h.updatedAt >= g.updatedAt
  {
    assert others == others[..m] + others[m..];
    forall h <- others[..m], g <- others[m..] ensures h.updatedAt >= g.updatedAt {
      var i :| 0 <= i < m && others[i] == h;
      var j :| 0 <= j < |others| - m && others[m..][j] == g;
      assert others[m + j] == g;
    }
  }

  /** Exactly the most recent `limit` non-daemon hosts survive a trim. */
  lemma TrimKeepsMostRecent(hosts: seq<Host>, daemonHosts: set<Id>, limit: nat)
    requires Distinct(hosts)
    ensures var gone := Trimmed(hosts, daemonHosts, limit);
            && Distinct(gone)
            && (forall g <- gone :: g in hosts && g.id !in daemonHosts)
            && |Others(hosts, daemonHosts)| - |gone| == Min(limit, |Others(hosts, daemonHosts)|)
            && (forall g <- gone, h <- hosts | h.id !in daemonHosts && h !in gone :: h.updatedAt >= g.updatedAt)
  {
    OthersByRecency(hosts, daemonHosts);
    if |hosts| > limit {
      var others := Others(ByRecency(hosts), daemonHosts);
      ToDeleteIsTail(ByRecency(hosts), daemonHosts, limit, 0);
      TailIsLeastRecent(others, Min(limit, |others|));
    }
  }

  lemma {:induction false} WhereRecent(sorted: seq<Host>, p: Host -> bool)
    requires Recent(sorted)
    ensures Recent(Where(sorted, p))
  {
    if sorted != [] {
      WhereRecent(sorted[1..], p);
      forall x <- Where(sorted[1..], p) ensures sorted[0].updatedAt >= x.updatedAt {
        assert x in sorted[1..];
      }
    }
  }

  lemma OthersCount(a: seq<Host>, b: seq<Host>, daemonHosts: set<Id>)
    requires multiset(a) == multiset(b)
    ensures |Others(a, daemonHosts)| == |Others(b, daemonHosts)|
  {
    var p := Other(daemonHosts);
    forall x ensures multiset(Where(a, p))[x] == multiset(Where(b, p))[x] {
      WhereMultiset(a, p, x);
      WhereMultiset(b, p, x);
    }
    assert multiset(Where(a, p)) == multiset(Where(b, p));
    assert |multiset(Where(a, p))| == |Where(a, p)| && |multiset(Where(b, p))| == |Where(b, p)|;
  }

  // ---- Enforcement as one step --------------------------------------------------------

  function NetworkLimit(plan: Plan): Option<nat> {
    if plan.networkCents.None? then plan.includedNetworks else None
  }

  function HostLimit(plan: Plan): Option<nat> {
    if plan.hostCents.None? then plan.includedHosts else None
  }

  function IdsOf(networks: seq<Network>): set<Id> {
    set n | n in networks :: n.id
  }

  function KeptNetworks(org: Org, plan: Plan): seq<Network> {
    match NetworkLimit(plan)
    case Some(limit) => org.networks[..Min(limit, |org.networks|)]
    case None => org.networks
  }

  function DaemonHosts(daemons: seq<Daemon>): set<Id> {
    set d | d in daemons :: d.hostId
  }

  function Within(org: Org, kept: seq<Network>): Org {
    var ids := IdsOf(kept);
    Org(kept,
        Where(org.hosts, HostWithin(ids)),
        Where(org.daemons, DaemonWithin(ids)),
        Where(org.discoveries, DiscoveryWithin(ids)))
  }

  function Adjusted(d: Daemon, daemonPoll: bool): Daemon {
    if daemonPoll then d.(standby := false)
    else if d.mode == DaemonPoll then d.(standby := true)
    else d
  }

  function Rescheduled(x: Discovery, scheduledDiscovery: bool): Discovery {
    if !scheduledDiscovery && x.runType.Scheduled? then x.(runType := AdHoc(x.runType.lastRun)) else x
  }

  function Without(hosts: seq<Host>, gone: seq<Host>): seq<Host> {
    Where(hosts, Spared(gone))
  }

  function AdjustedAll(daemons: seq<Daemon>, daemonPoll: bool): seq<Daemon> {
    seq(|daemons|, i requires 0 <= i < |daemons| => Adjusted(daemons[i], daemonPoll))
  }

  function RescheduledAll(discoveries: seq<Discovery>, scheduledDiscovery: bool): seq<Discovery> {
    seq(|discoveries|, i requires 0 <= i < |discoveries| => Rescheduled(discoveries[i], scheduledDiscovery))
  }

  function Surplus(hosts: seq<Host>, daemonHosts: set<Id>, plan: Plan): seq<Host> {
    match HostLimit(plan)
    case Some(limit) => Trimmed(hosts, daemonHosts, limit)
    case None => []
  }

  function GoneHosts(org: Org, plan: Plan): seq<Host> {
    Surplus(org.hosts, DaemonHosts(org.daemons), plan)
  }

  function Settled(org: Org, plan: Plan): Org {
    Org(org.networks,
        Without(org.hosts, GoneHosts(org, plan)),
        AdjustedAll(org.daemons, plan.daemonPoll),
        RescheduledAll(org.discoveries, plan.scheduledDiscovery))
  }

  function Enforce(org: Org, plan: Plan): Org {
    Settled(Within(org, KeptNetworks(org, plan)), plan)
  }

  /** Primary keys, and every row's network exists. */
  ghost predicate Keyed(org: Org) {
    && Distinct(org.networks) && Distinct(org.hosts)
    && (forall h <- org.hosts :: h.networkId in IdsOf(org.networks))
    && (forall d <- org.daemons :: d.networkId in IdsOf(org.networks))
    && (forall x <- org.discoveries :: x.networkId in IdsOf(org.networks))
    && (forall g <- org.hosts, h <- org.hosts | g.id == h.id :: g == h)
  }

  // ---- Main results ---------------------------------------------------------------------

  /** Daemon hosts and the most recent others stay; the plan's limits hold afterwards. */
  lemma EnforceKeepsMostRecent(org: Org, plan: Plan)
    requires Keyed(org)
    ensures var before := Within(org, KeptNetworks(org, plan)); var after := Enforce(org, plan);
            var daemonHosts := DaemonHosts(before.daemons);
            && (NetworkLimit(plan).Some? ==> |after.networks| == Min(NetworkLimit(plan).value, |org.networks|))
            && (forall h <- before.hosts | h.id in daemonHosts :: h in after.hosts)
            && (HostLimit(plan).Some? ==>
                  |Others(after.hosts, daemonHosts)| == Min(HostLimit(plan).value, |Others(before.hosts, daemonHosts)|))
            && (HostLimit(plan).None? ==> after.hosts == before.hosts)
            && (forall g <- before.hosts, h <- after.hosts | g !in after.hosts && h.id !in daemonHosts :: h.updatedAt >= g.updatedAt)
  {
    var before := Within(org, KeptNetworks(org, plan));
    var daemonHosts, gone := DaemonHosts(before.daemons), GoneHosts(before, plan);
    var ids := IdsOf(KeptNetworks(org, plan));
    WhereDistinct(org.hosts, HostWithin(ids));
    if HostLimit(plan).Some? {
      TrimKeepsMostRecent(before.hosts, daemonHosts, HostLimit(plan).value);
      OthersWithout(before.hosts, gone, daemonHosts);
    } else {
      WhereAll(before.hosts, Spared(gone));
    }
  }

  /** Removing distinct listed non-daemon hosts removes just as many non-daemon hosts. */
  lemma OthersWithout(hosts: seq<Host>, gone: seq<Host>, daemonHosts: set<Id>)
    requires Distinct(hosts) && Distinct(gone)
    requires forall g <- gone :: g in hosts && g.id !in daemonHosts
    ensures |Others(Without(hosts, gone), daemonHosts)| == |Others(hosts, daemonHosts)| - |gone|
    ensures |Without(hosts, gone)| == |hosts| - |gone|
  {
    var other := Other(daemonHosts);
    var stays := Spared(gone);
    WhereDistinct(hosts, other);
    WhereDistinct(hosts, stays);
    WhereDistinct(Without(hosts, gone), other);
    var a, b, c := Others(hosts, daemonHosts), Others(Without(hosts, gone), daemonHosts), Without(hosts, gone);
    Partition(a, b, gone);
    Partition(hosts, c, gone);
  }

  lemma Partition(all: seq<Host>, left: seq<Host>, gone: seq<Host>)
    requires Distinct(all) && Distinct(left) && Distinct(gone)
    requires forall h :: h in all <==> h in left || h in gone
    requires forall h <- left :: h !in gone
    ensures |all| == |left| + |gone|
  {
    SetSize(all);
    SetSize(left);
    SetSize(gone);
    assert (set x | x in all) == (set x | x in left) + (set x | x in gone);
    assert (set x | x in left) !! (set x | x in gone);
  }

  lemma EnforceKeepsKeyed(org: Org, plan: Plan)
    requires Keyed(org)
    ensures Keyed(Enforce(org, plan))
  {
    var ids := IdsOf(KeptNetworks(org, plan));
    var before := Within(org, KeptNetworks(org, plan));
    WhereDistinct(org.hosts, HostWithin(ids));
    WhereDistinct(before.hosts, Spared(GoneHosts(before, plan)));
    AdjustedStay(before.daemons, plan.daemonPoll, ids);
    RescheduledStay(before.discoveries, plan.scheduledDiscovery, ids);
  }

  lemma AdjustedStay(daemons: seq<Daemon>, daemonPoll: bool, ids: set<Id>)
    requires forall d <- daemons :: d.networkId in ids
    ensures forall d <- AdjustedAll(daemons, daemonPoll) :: d.networkId in ids
  {
    forall i | 0 <= i < |daemons| ensures AdjustedAll(daemons, daemonPoll)[i].networkId in ids {
      assert daemons[i] in daemons;
    }
  }

  lemma RescheduledStay(discoveries: seq<Discovery>, scheduledDiscovery: bool, ids: set<Id>)
    requires forall x <- discoveries :: x.networkId in ids
    ensures forall x <- RescheduledAll(discoveries, scheduledDiscovery) :: x.networkId in ids
  {
    forall i | 0 <= i < |discoveries| ensures RescheduledAll(discoveries, scheduledDiscovery)[i].networkId in ids {
      assert discoveries[i] in discoveries;
    }
  }

  /** Enforcing a plan twice is enforcing it once. */
  lemma EnforceIdempotent(org: Org, plan: Plan)
    requires Keyed(org)
    ensures Enforce(Enforce(org, plan), plan) == Enforce(org, plan)
  {
    var once := Enforce(org, plan);
    EnforceKeepsKeyed(org, plan);
    assert KeptNetworks(once, plan) == once.networks;
    WithinAll(once);
    NothingLeftToTrim(org, plan);
    SettledAgain(Within(org, KeptNetworks(org, plan)), plan);
    WhereAll(once.hosts, Spared(GoneHosts(once, plan)));
  }

  /** Daemons and discoveries are adjusted once and for all. */
  lemma SettledAgain(org: Org, plan: Plan)
    ensures Settled(Settled(org, plan), plan).daemons == Settled(org, plan).daemons
    ensures Settled(Settled(org, plan), plan).discoveries == Settled(org, plan).discoveries
  {
  }

  /** Afterwards standby and schedules follow the plan: a daemon is left alone only if it is polled by the server. */
  lemma EnforceFeatures(org: Org, plan: Plan)
    ensures forall d <- Enforce(org, plan).daemons ::
              if plan.daemonPoll then !d.standby else d.mode == DaemonPoll ==> d.standby
    ensures !plan.daemonPoll ==>
              forall d <- Within(org, KeptNetworks(org, plan)).daemons | d.mode == ServerPoll :: d in Enforce(org, plan).daemons
    ensures !plan.scheduledDiscovery ==> forall x <- Enforce(org, plan).discoveries :: !x.runType.Scheduled?
    ensures plan.scheduledDiscovery ==> Enforce(org, plan).discoveries == Within(org, KeptNetworks(org, plan)).discoveries
  {
    var before, after := Within(org, KeptNetworks(org, plan)), Enforce(org, plan);
    if !plan.daemonPoll {
      forall d <- before.daemons | d.mode == ServerPoll ensures d in after.daemons {
        var i :| 0 <= i < |before.daemons| && before.daemons[i] == d;
        assert after.daemons[i] == d;
      }
    }
  }

  lemma WithinAll(org: Org)
    requires Keyed(org)
    ensures Within(org, org.networks) == org
  {
    var ids := IdsOf(org.networks);
    WhereAll(org.hosts, HostWithin(ids));
    WhereAll(org.daemons, DaemonWithin(ids));
    WhereAll(org.discoveries, DiscoveryWithin(ids));
  }

  lemma NothingLeftToTrim(org: Org, plan: Plan)
    requires Keyed(org)
    ensures GoneHosts(Enforce(org, plan), plan) == []
  {
    var before, once := Within(org, KeptNetworks(org, plan)), Enforce(org, plan);
    EnforceKeepsMostRecent(org, plan);
    EnforceKeepsKeyed(org, plan);
    SameDaemonHosts(before.daemons, once.daemons);
    if HostLimit(plan).Some? {
      TrimKeepsMostRecent(once.hosts, DaemonHosts(once.daemons), HostLimit(plan).value);
    }
  }

  lemma SameDaemonHosts(a: seq<Daemon>, b: seq<Daemon>)
    requires |a| == |b| && forall i | 0 <= i < |a| :: a[i].hostId == b[i].hostId
    ensures DaemonHosts(a) == DaemonHosts(b)
  {
    forall k | k in DaemonHosts(a) ensures k in DaemonHosts(b) {
      var d :| d in a && d.hostId == k;
      var i :| 0 <= i < |a| && a[i] == d;
      assert b[i] in b;
    }
    forall k | k in DaemonHosts(b) ensures k in DaemonHosts(a) {
      var d :| d in b && d.hostId == k;
      var i :| 0 <= i < |b| && b[i] == d;
      assert a[i] in a;
    }
  }

  // ---- The preview ------------------------------------------------------------------------

  datatype Preview = Preview(excessHosts: nat, excessNetworks: nat)

  function PreviewChange(org: Org, plan: Plan): Preview {
    Preview(Excess(|org.hosts|, plan.includedHosts), Excess(|org.networks|, plan.includedNetworks))
  }

  /** A host trim never removes more than the hosts beyond the limit, and exactly what it lists. */
  lemma TrimIsBounded(hosts: seq<Host>, daemonHosts: set<Id>, plan: Plan)
    requires Distinct(hosts)
    ensures var gone := Surplus(hosts, daemonHosts, plan);
            |gone| <= Excess(|hosts|, HostLimit(plan)) && |Without(hosts, gone)| == |hosts| - |gone|
  {
    var gone := Surplus(hosts, daemonHosts, plan);
    if HostLimit(plan).Some? {
      TrimKeepsMostRecent(hosts, daemonHosts, HostLimit(plan).value);
      OthersWithout(hosts, gone, daemonHosts);
      assert |Others(hosts, daemonHosts)| <= |hosts|;
    } else {
      WhereAll(hosts, Spared(gone));
    }
  }

  /** The trims never remove more networks, or more hosts, than the preview announces. */
  lemma PreviewBoundsTrims(org: Org, plan: Plan)
    requires Keyed(org)
    ensures |org.networks| - |KeptNetworks(org, plan)| <= PreviewChange(org, plan).excessNetworks
    ensures |GoneHosts(Within(org, KeptNetworks(org, plan)), plan)| <= PreviewChange(org, plan).excessHosts
    ensures |Enforce(org, plan).hosts|
            == |Within(org, KeptNetworks(org, plan)).hosts| - |GoneHosts(Within(org, KeptNetworks(org, plan)), plan)|
  {
    var before := Within(org, KeptNetworks(org, plan));
    WhereDistinct(org.hosts, HostWithin(IdsOf(KeptNetworks(org, plan))));
    TrimIsBounded(before.hosts, DaemonHosts(before.daemons), plan);
  }

  /**
   Hosts also go with their networks, which the preview does not count: it bounds all hosts lost
   exactly when the surplus networks are empty, or the kept networks fill the host limit by themselves.
   */
  lemma PreviewBoundsAllLossesIff(org: Org, plan: Plan)
    requires Keyed(org)
    ensures var keptHosts := |Within(org, KeptNetworks(org, plan)).hosts|;
            |org.hosts| - |Enforce(org, plan).hosts| <= PreviewChange(org, plan).excessHosts
            <==> keptHosts == |org.hosts| || (plan.includedHosts.Some? && keptHosts >= plan.includedHosts.value)
  {
    PreviewBoundsTrims(org, plan);
    var before := Within(org, KeptNetworks(org, plan));
    var ids := IdsOf(KeptNetworks(org, plan));
    WhereDistinct(org.hosts, HostWithin(ids));
    if HostLimit(plan).Some? {
      TrimKeepsMostRecent(before.hosts, DaemonHosts(before.daemons), HostLimit(plan).value);
      assert |Others(before.hosts, DaemonHosts(before.daemons))| <= |before.hosts|;
    }
  }

  // ---- The service ----------------------------------------------------------------------------

  class PlanStore {
    var networks: seq<Network>
    var hosts: seq<Host>
    var daemons: seq<Daemon>
    var discoveries: seq<Discovery>

    ghost function View(): Org
      reads this
    {
      Org(networks, hosts, daemons, discoveries)
    }

    /** Deletes a network and, by cascade, what belongs to it. */
    method DeleteNetwork(id: Id)
      modifies this
      ensures View() == WithoutNetworks(old(View()), {id})
    {
      networks := Where(networks, NetworkOutside({id}));
      hosts := Where(hosts, HostOutside({id}));
      daemons := Where(daemons, DaemonOutside({id}));
      discoveries := Where(discoveries, DiscoveryOutside({id}));
    }

    method DeleteNetworks(surplus: seq<Network>)
      modifies this
      ensures View() == WithoutNetworks(old(View()), IdsOf(surplus))
    {
      ghost var org := View();
      WithoutNone(org);
      assert surplus[..0] == [];
      for i := 0 to |surplus|
        modifies this
        invariant View() == WithoutNetworks(org, IdsOf(surplus[..i]))
      {
        WithoutNext(org, surplus, i);
        DeleteNetwork(surplus[i].id);
      }
      assert surplus[..|surplus|] == surplus;
    }

    method TrimNetworks(plan: Plan)
      requires Keyed(View())
      modifies this
      ensures View() == Within(old(View()), KeptNetworks(old(View()), plan))
    {
      ghost var org := View();
      if plan.includedNetworks.Some? && plan.networkCents.None? {
        var limit := Min(plan.includedNetworks.value, |networks|);
        WithoutIsWithin(org, limit);
        DeleteNetworks(networks[limit..]);
      } else {
        WithinAll(org);
      }
    }

    method AdjustDaemons(daemonPoll: bool)
      modifies this`daemons
      ensures daemons == AdjustedAll(old(daemons), daemonPoll)
    {
      ghost var before := daemons;
      for i := 0 to |daemons|
        invariant |daemons| == |before|
        invariant forall k | 0 <= k < |before| :: daemons[k] == if k < i then Adjusted(before[k], daemonPoll) else before[k]
      {
        var d := daemons[i];
        if !daemonPoll {
          if d.mode == DaemonPoll && !d.standby {
            daemons := daemons[i := d.(standby := true)];
          }
        } else if d.standby {
          daemons := daemons[i := d.(standby := false)];
        }
      }
    }

    method ConvertSchedules(scheduledDiscovery: bool)
      modifies this`discoveries
      ensures discoveries == RescheduledAll(old(discoveries), scheduledDiscovery)
    {
      ghost var before := discoveries;
      if !scheduledDiscovery {
        for i := 0 to |discoveries|
          invariant |discoveries| == |before|
          invariant forall k | 0 <= k < |before| :: discoveries[k] == if k < i then Rescheduled(before[k], false) else before[k]
        {
          if discoveries[i].runType.Scheduled? {
            discoveries := discoveries[i := discoveries[i].(runType := AdHoc(discoveries[i].runType.lastRun))];
          }
        }
      }
    }

    method TrimHosts(plan: Plan, daemonHosts: set<Id>)
      modifies this`hosts
      ensures hosts == Without(old(hosts), Surplus(old(hosts), daemonHosts, plan))
    {
      var toDelete := [];
      if plan.includedHosts.Some? && plan.hostCents.None? && |hosts| > plan.includedHosts.value {
        toDelete := FindExcess(ByRecency(hosts), daemonHosts, plan.includedHosts.value);
      }
      DeleteHosts(toDelete);
    }

    method DeleteHosts(toDelete: seq<Host>)
      modifies this`hosts
      ensures hosts == Without(old(hosts), toDelete)
    {
      ghost var before := hosts;
      WhereAll(before, Spared([]));
      assert toDelete[..0] == [];
      for i := 0 to |toDelete|
        invariant hosts == Without(before, toDelete[..i])
      {
        DeleteOne(before, toDelete, i);
        hosts := Where(hosts, Spared([toDelete[i]]));
      }
      assert toDelete[..|toDelete|] == toDelete;
    }

    method EnforcePlanRestrictions(plan: Plan)
      requires Keyed(View())
      modifies this
      ensures View() == Enforce(old(View()), plan)
    {
      TrimNetworks(plan);
      var daemonHosts := DaemonHosts(daemons);
      AdjustDaemons(plan.daemonPoll);
      ConvertSchedules(plan.scheduledDiscovery);
      TrimHosts(plan, daemonHosts);
    }
  }

  /** Walks the sorted hosts, counting the non-daemon hosts kept. */
  method FindExcess(sorted: seq<Host>, daemonHosts: set<Id>, limit: nat) returns (toDelete: seq<Host>)
    ensures toDelete == ToDelete(sorted, daemonHosts, limit, 0)
  {
    var kept := 0;
    toDelete := [];
    for i := 0 to |sorted|
      invariant kept <= limit
      invariant toDelete + ToDelete(sorted[i..], daemonHosts, limit, kept) == ToDelete(sorted, daemonHosts, limit, 0)
    {
      assert sorted[i..][1..] == sorted[i + 1..];
      if kept < limit || sorted[i].id in daemonHosts {
        if sorted[i].id !in daemonHosts {
          kept := kept + 1;
        }
      } else {
        toDelete := toDelete + [sorted[i]];
      }
    }
    assert sorted[|sorted|..] == [];
  }

  lemma DeleteOne(hosts: seq<Host>, gone: seq<Host>, i: nat)
    requires i < |gone|
    ensures Where(Without(hosts, gone[..i]), Spared([gone[i]])) == Without(hosts, gone[..i + 1])
  {
    assert gone[..i + 1] == gone[..i] + [gone[i]];
    WhereTwice(hosts, Spared(gone[..i]), Spared([gone[i]]), Spared(gone[..i + 1]));
  }

  function WithoutNetworks(org: Org, gone: set<Id>): Org {
    Org(Where(org.networks, NetworkOutside(gone)),
        Where(org.hosts, HostOutside(gone)),
        Where(org.daemons, DaemonOutside(gone)),
        Where(org.discoveries, DiscoveryOutside(gone)))
  }

  lemma WithoutNone(org: Org)
    ensures WithoutNetworks(org, {}) == org
    ensures IdsOf([]) == {}
  {
    WhereAll(org.networks, NetworkOutside({}));
    WhereAll(org.hosts, HostOutside({}));
    WhereAll(org.daemons, DaemonOutside({}));
    WhereAll(org.discoveries, DiscoveryOutside({}));
  }

  lemma WithoutNext(org: Org, surplus: seq<Network>, i: nat)
    requires i < |surplus|
    ensures WithoutNetworks(WithoutNetworks(org, IdsOf(surplus[..i])), {surplus[i].id}) == WithoutNetworks(org, IdsOf(surplus[..i + 1]))
  {
    var gone, id := IdsOf(surplus[..i]), surplus[i].id;
    assert surplus[..i + 1] == surplus[..i] + [surplus[i]];
    assert IdsOf(surplus[..i + 1]) == gone + {id};
    WhereTwice(org.networks, NetworkOutside(gone), NetworkOutside({id}), NetworkOutside(gone + {id}));
    WhereTwice(org.hosts, HostOutside(gone), HostOutside({id}), HostOutside(gone + {id}));
    WhereTwice(org.daemons, DaemonOutside(gone), DaemonOutside({id}), DaemonOutside(gone + {id}));
    WhereTwice(org.discoveries, DiscoveryOutside(gone), DiscoveryOutside({id}), DiscoveryOutside(gone + {id}));
  }

  /** Deleting the networks beyond the limit leaves exactly those within it. */
  lemma WithoutIsWithin(org: Org, limit: nat)
    requires Keyed(org) && limit <= |org.networks|
    ensures WithoutNetworks(org, IdsOf(org.networks[limit..])) == Within(org, org.networks[..limit])
  {
    var kept, gone := org.networks[..limit], org.networks[limit..];
    var keptIds, goneIds := IdsOf(kept), IdsOf(gone);
    assert org.networks == kept + gone;
    forall n | n in kept ensures n.id !in goneIds {
      assert n !in gone;
    }
    assert forall k | k in IdsOf(org.networks) :: k in keptIds <==> k !in goneIds;
    WhereAppend(kept, gone, NetworkOutside(goneIds));
    WhereAll(kept, NetworkOutside(goneIds));
    WhereNone(gone, NetworkOutside(goneIds));
    WhereSame(org.hosts, HostOutside(goneIds), HostWithin(keptIds));
    WhereSame(org.daemons, DaemonOutside(goneIds), DaemonWithin(keptIds));
    WhereSame(org.discoveries, DiscoveryOutside(goneIds), DiscoveryWithin(keptIds));
  }
}
