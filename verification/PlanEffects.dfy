/**
 What enforcing a plan does, told in the fields of the plan and of the rows.
 */
module PlanEffects {
  import opened Common
  import opened Sequences
  import opened Tables
  import opened PlanEnforcement

  /** The plan allows `n` networks and sells no more. */
  predicate LimitsNetworks(plan: Plan, n: nat) {
    plan.includedNetworks == Some(n) && plan.networkCents == None
  }

  predicate LimitsHosts(plan: Plan, n: nat) {
    plan.includedHosts == Some(n) && plan.hostCents == None
  }

  ghost predicate In(networks: seq<Network>, id: Id) {
    exists n :: n in networks && n.id == id
  }

  /** Some daemon of the organization, in a network that stays, runs on the host. */
  ghost predicate RunsDaemon(org: Org, networks: seq<Network>, h: Host) {
    exists d :: d in org.daemons && d.hostId == h.id && In(networks, d.networkId)
  }

  // ---- Networks -----------------------------------------------------------------------------------

  /** Without a limit, or with overage sold, every network stays; else exactly the first ones up to the limit. */
  lemma EnforceNetworks(org: Org, plan: Plan)
    ensures plan.networkCents.Some? || plan.includedNetworks.None? ==> Enforce(org, plan).networks == org.networks
    ensures forall n: nat | LimitsNetworks(plan, n) ::
              Enforce(org, plan).networks == if n < |org.networks| then org.networks[..n] else org.networks
  {
  }

  lemma InIds(networks: seq<Network>, id: Id)
    ensures id in IdsOf(networks) <==> In(networks, id)
  {
  }

  /** Of what the rows were, each one left is either untouched or adjusted as the plan's features demand. */
  predicate AdjustedTo(d: Daemon, was: Daemon, daemonPoll: bool) {
    && d.id == was.id && d.networkId == was.networkId && d.hostId == was.hostId && d.mode == was.mode
    && d.standby == (!daemonPoll && (was.mode == DaemonPoll || was.standby))
  }

  predicate RescheduledTo(x: Discovery, was: Discovery, scheduledDiscovery: bool) {
    && x.id == was.id && x.networkId == was.networkId
    && x.runType == if !scheduledDiscovery && was.runType.Scheduled? then AdHoc(was.runType.lastRun) else was.runType
  }

  /** The daemons left are those of the networks left, in their order, with standby set or cleared and nothing else changed. */
  lemma EnforceDaemons(org: Org, plan: Plan)
    ensures var t := Enforce(org, plan); var before := Where(org.daemons, DaemonWithin(IdsOf(t.networks)));
            && (forall d :: d in before <==> d in org.daemons && In(t.networks, d.networkId))
            && |t.daemons| == |before|
            && forall i | 0 <= i < |before| :: AdjustedTo(t.daemons[i], before[i], plan.daemonPoll)
  {
    var t := Enforce(org, plan);
    forall d ensures d in Where(org.daemons, DaemonWithin(IdsOf(t.networks))) <==> d in org.daemons && In(t.networks, d.networkId) {
      InIds(t.networks, d.networkId);
    }
  }

  /** The discoveries left are those of the networks left, schedules turned ad hoc with their last run if the plan has none. */
  lemma EnforceDiscoveries(org: Org, plan: Plan)
    ensures var t := Enforce(org, plan); var before := Where(org.discoveries, DiscoveryWithin(IdsOf(t.networks)));
            && (forall x :: x in before <==> x in org.discoveries && In(t.networks, x.networkId))
            && |t.discoveries| == |before|
            && forall i | 0 <= i < |before| :: RescheduledTo(t.discoveries[i], before[i], plan.scheduledDiscovery)
  {
    var t := Enforce(org, plan);
    forall x ensures x in Where(org.discoveries, DiscoveryWithin(IdsOf(t.networks))) <==> x in org.discoveries && In(t.networks, x.networkId) {
      InIds(t.networks, x.networkId);
    }
  }

  /** Where all networks stay, no row is lost with a network. */
  lemma NoNetworkLost(org: Org, plan: Plan)
    requires Keyed(org) && (plan.networkCents.Some? || plan.includedNetworks.None?)
    ensures |Enforce(org, plan).daemons| == |org.daemons| && |Enforce(org, plan).discoveries| == |org.discoveries|
    ensures plan.hostCents.Some? || plan.includedHosts.None? ==> Enforce(org, plan).hosts == org.hosts
  {
    WithinAll(org);
    WhereAll(org.hosts, Spared([]));
  }

  // ---- Hosts ----------------------------------------------------------------------------------------

  lemma DaemonHostIs(org: Org, plan: Plan, h: Host)
    ensures var kept := KeptNetworks(org, plan);
            h.id in DaemonHosts(Within(org, kept).daemons) <==> RunsDaemon(org, kept, h)
  {
    var kept := KeptNetworks(org, plan);
    forall d | d in org.daemons ensures d in Within(org, kept).daemons <==> In(kept, d.networkId) {
      InIds(kept, d.networkId);
    }
    if RunsDaemon(org, kept, h) {
      var d :| d in org.daemons && d.hostId == h.id && In(kept, d.networkId);
      assert d in Within(org, kept).daemons;
    }
  }

  /** Without a host limit, or with overage sold, exactly the hosts of the networks left stay. */
  lemma EnforceUnlimitedHosts(org: Org, plan: Plan, h: Host)
    requires plan.hostCents.Some? || plan.includedHosts.None?
    ensures h in Enforce(org, plan).hosts <==> h in org.hosts && In(Enforce(org, plan).networks, h.networkId)
  {
    InIds(Enforce(org, plan).networks, h.networkId);
  }

  /** Only hosts of the networks left stay; those that run a daemon all do. */
  lemma EnforceDaemonHosts(org: Org, plan: Plan, h: Host)
    requires Keyed(org)
    ensures var t := Enforce(org, plan);
            && (h in t.hosts ==> h in org.hosts && In(t.networks, h.networkId))
            && (h in org.hosts && In(t.networks, h.networkId) && RunsDaemon(org, t.networks, h) ==> h in t.hosts)
  {
    InIds(Enforce(org, plan).networks, h.networkId);
    EnforceKeepsMostRecent(org, plan);
    DaemonHostIs(org, plan, h);
  }

  /** The hosts of the networks left that run no daemon. */
  ghost function Trimmable(org: Org, networks: seq<Network>): set<Host> {
    set h | h in org.hosts && In(networks, h.networkId) && !RunsDaemon(org, networks, h)
  }

  lemma OthersAreTrimmable(org: Org, plan: Plan)
    requires Keyed(org)
    ensures var before := Within(org, KeptNetworks(org, plan));
            && |Others(before.hosts, DaemonHosts(before.daemons))| == |Trimmable(org, KeptNetworks(org, plan))|
            && forall h :: h in Others(before.hosts, DaemonHosts(before.daemons)) <==> h in Trimmable(org, KeptNetworks(org, plan))
  {
    var kept := KeptNetworks(org, plan);
    var before := Within(org, kept);
    var others := Others(before.hosts, DaemonHosts(before.daemons));
    forall h ensures h in others <==> h in Trimmable(org, kept) {
      InIds(kept, h.networkId);
      DaemonHostIs(org, plan, h);
    }
    WhereDistinct(org.hosts, HostWithin(IdsOf(kept)));
    WhereDistinct(before.hosts, Other(DaemonHosts(before.daemons)));
    SetSize(others);
    assert (set h | h in others) == Trimmable(org, kept);
  }

  /** With a limit of `n` hosts and no overage, `n` of the hosts without daemon stay, or all if there are fewer. */
  lemma EnforceLimitedHosts(org: Org, plan: Plan, n: nat)
    requires Keyed(org) && LimitsHosts(plan, n)
    ensures var t := Enforce(org, plan); var others := Trimmable(org, t.networks);
            |set h | h in others && h in t.hosts| == if n < |others| then n else |others|
  {
    EnforceKeepsMostRecent(org, plan);
    OthersAreTrimmable(org, plan);
    StayCount(org, plan);
  }

  lemma StayCount(org: Org, plan: Plan)
    requires Keyed(org)
    ensures var t, kept := Enforce(org, plan), KeptNetworks(org, plan);
            |set h | h in Trimmable(org, kept) && h in t.hosts| == |Others(t.hosts, DaemonHosts(Within(org, kept).daemons))|
  {
    var daemonHosts := DaemonHosts(Within(org, KeptNetworks(org, plan)).daemons);
    var stay := Others(Enforce(org, plan).hosts, daemonHosts);
    EnforceKeepsKeyed(org, plan);
    WhereDistinct(Enforce(org, plan).hosts, Other(daemonHosts));
    SetSize(stay);
    StayAreTrimmable(org, plan, stay);
    assert (set h | h in stay) == set h | h in Trimmable(org, KeptNetworks(org, plan)) && h in Enforce(org, plan).hosts;
  }

  /** Those that stay are the most recent ones. */
  lemma EnforceRecentHosts(org: Org, plan: Plan, g: Host, h: Host)
    requires Keyed(org)
    ensures var t := Enforce(org, plan);
            g in Trimmable(org, t.networks) && h in Trimmable(org, t.networks) && g !in t.hosts && h in t.hosts ==>
              h.updatedAt >= g.updatedAt
  {
    EnforceKeepsMostRecent(org, plan);
    OthersAreTrimmable(org, plan);
    var before := Within(org, KeptNetworks(org, plan));
    var others := Others(before.hosts, DaemonHosts(before.daemons));
    assert g in Trimmable(org, KeptNetworks(org, plan)) ==> g in others;
    assert h in Trimmable(org, KeptNetworks(org, plan)) ==> h in others;
  }

  lemma StayAreTrimmable(org: Org, plan: Plan, stay: seq<Host>)
    requires Keyed(org)
    requires stay == Others(Enforce(org, plan).hosts, DaemonHosts(Within(org, KeptNetworks(org, plan)).daemons))
    ensures forall h :: h in stay <==> h in Trimmable(org, KeptNetworks(org, plan)) && h in Enforce(org, plan).hosts
  {
    forall h ensures h in stay <==> h in Trimmable(org, KeptNetworks(org, plan)) && h in Enforce(org, plan).hosts {
      EnforceDaemonHosts(org, plan, h);
      DaemonHostIs(org, plan, h);
    }
  }

  // ---- The preview -------------------------------------------------------------------------------------

  /** What exceeds the included numbers, whether overage is sold or not. */
  lemma PreviewMeans(org: Org, plan: Plan)
    ensures var p := PreviewChange(org, plan);
            && (plan.includedHosts.None? ==> p.excessHosts == 0)
            && (plan.includedNetworks.None? ==> p.excessNetworks == 0)
            && (plan.includedHosts.Some? ==>
                  if |org.hosts| <= plan.includedHosts.value then p.excessHosts == 0
                  else p.excessHosts + plan.includedHosts.value == |org.hosts|)
            && (plan.includedNetworks.Some? ==>
                  if |org.networks| <= plan.includedNetworks.value then p.excessNetworks == 0
                  else p.excessNetworks + plan.includedNetworks.value == |org.networks|)
  {
  }

  // ---- The sort ----------------------------------------------------------------------------------------

  function UpdatedAt(time: int): Host -> bool {
    (h: Host) => h.updatedAt == time
  }

  lemma {:induction false} InsertIsStable(h: Host, sorted: seq<Host>, time: int)
    requires Recent(sorted)
    ensures Where(Insert(h, sorted, NoOlder), UpdatedAt(time)) == Where([h] + sorted, UpdatedAt(time))
  {
    if sorted == [] || NoOlder(h, sorted[0]) {
    } else {
      assert forall i, j | 0 <= i < j < |sorted[1..]| :: NoOlder(sorted[1..][i], sorted[1..][j]);
      InsertIsStable(h, sorted[1..], time);
      assert ([sorted[0]] + Insert(h, sorted[1..], NoOlder))[1..] == Insert(h, sorted[1..], NoOlder);
      assert ([h] + sorted)[1..] == sorted && ([h] + sorted[1..])[1..] == sorted[1..];
    }
  }

  /** Hosts updated at the same time keep the order of the listing. */
  lemma {:induction false} ByRecencyIsStable(hosts: seq<Host>, time: int)
    ensures Where(ByRecency(hosts), UpdatedAt(time)) == Where(hosts, UpdatedAt(time))
  {
    if hosts != [] {
      ByRecencyIsRecent(hosts[1..]);
      ByRecencyIsStable(hosts[1..], time);
      InsertIsStable(hosts[0], ByRecency(hosts[1..]), time);
      assert ([hosts[0]] + ByRecency(hosts[1..]))[1..] == ByRecency(hosts[1..]);
    }
  }
}
