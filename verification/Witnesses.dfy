/** Definitions the planner accepts, each showing at a concrete input what the code lets happen. */
module Witnesses {
  import opened Basics
  import opened Addresses
  import opened Ranges
  import opened ClusterModel
  import opened Placement
  import opened Allocation
  import opened Planner
  import opened Resolved
  import opened Clashes
  import opened NodeEdits
  import DeleteCluster
  import DeleteResumes
  import DeleteShims
  import Hosts
  import Numbers
  import Preflight
  import Resume
  import Routes
  import Runner
  import SharedHosts
  import Text
  import Units
  import UnitsHold
  import Written

  // ---- one group or two

  function FirstGroup(): NodeGroup { NodeGroup(ControlPlane, 1, None, 2, "4G", false, None) }

  function Workers(count: nat, name: Option<string>): NodeGroup {
    NodeGroup(Worker, count, name, 2, "4G", false, None)
  }

  lemma OneGroup()
    ensures var gs := [FirstGroup()];
            && Order(gs) == [0] && Slots(gs) == [SlotOf(FirstGroup())]
            && RoleCount(Slots(gs), ControlPlane) == 1 && NameProblem(gs).None?
  {
    var gs := [FirstGroup()];
    assert gs[..0] == [];
    assert [SlotOf(FirstGroup())][..0] == [];
  }

  lemma TwoGroups(count: nat, name: Option<string>)
    requires name.Some? ==> count == 1
    ensures var gs := [FirstGroup(), Workers(count, name)];
            && Order(gs) == [0] + Repeat(1, count)
            && Slots(gs) == [SlotOf(FirstGroup())] + Repeat(SlotOf(Workers(count, name)), count)
            && RoleCount(Slots(gs), ControlPlane) == 1 && NameProblem(gs).None?
  {
    var gs := [FirstGroup(), Workers(count, name)];
    assert gs[..1] == [FirstGroup()];
    OneGroup();
    assert [FirstGroup()][..0] == [];
    assert GroupNames([FirstGroup()]) == [];
    NoControlPlanes([SlotOf(FirstGroup())], SlotOf(Workers(count, name)), count);
  }

  lemma {:induction false} NoControlPlanes(slots: seq<Slot>, s: Slot, count: nat)
    requires s.role == Worker
    ensures RoleCount(slots + Repeat(s, count), ControlPlane) == RoleCount(slots, ControlPlane)
  {
    var all := slots + Repeat(s, count);
    if count == 0 {
      assert all == slots;
    } else {
      assert all[..|all| - 1] == slots + Repeat(s, count - 1);
      NoControlPlanes(slots, s, count - 1);
    }
  }

  // ---- on one host

  function Small(groups: seq<NodeGroup>): UserCluster { UserCluster("c", false, None, groups, None) }

  /** The same with 172.22.0.230 as its floating address. */
  function Floating(groups: seq<NodeGroup>): UserCluster {
    Small(groups).(network := Some(UserNetwork(None, Some(NODE_NETS + 230), None, None, None, None, None)))
  }

  lemma SmallAccepted(groups: seq<NodeGroup>, existing: Option<Cluster>)
    requires groups != [] && groups[0] == FirstGroup() && NameProblem(groups).None?
    requires forall g :: g in groups ==> Pin(g).None?
    requires RoleCount(Slots(groups), ControlPlane) == 1 && |Order(groups)| <= 255
    requires existing.Some? ==> existing.value.spec.network.index == 0 && existing.value.spec.network.routers == One
    ensures Resolve(Small(groups), existing, {}, false, None, None).Ok?
    ensures Resolve(Small(groups), existing, {}, false, None, None).value.spec.network.index == 0
    ensures Resolve(Small(groups), existing, {}, false, None, None).value.spec.network.mesh == Some(NODE_NETS + 200)
    ensures Resolve(Small(groups), existing, {}, false, None, None).value.spec.network.routers == One
  {
    hide NameProblem;
    hide Slots;
    hide RoleCount;
    hide Order;
    hide Nodes;
    hide AddrText;
  }

  lemma FloatingAccepted(existing: Cluster)
    requires existing.spec.network.index == 0 && existing.spec.network.routers == One
    ensures Resolve(Floating([FirstGroup()]), Some(existing), {}, false, None, None).Ok?
    ensures Resolve(Floating([FirstGroup()]), Some(existing), {}, false, None, None).value.spec.network.router == NODE_NETS + 230
  {
    OneGroup();
    hide NameProblem;
    hide Slots;
    hide RoleCount;
    hide Order;
    hide Nodes;
    hide AddrText;
  }

  /** A create on one host resumed with another floating address: accepted, no node moves, and the
      router does. */
  lemma RouterMoved() returns (u1: UserCluster, c1: Cluster, u2: UserCluster, c2: Cluster)
    ensures Resolve(u1, None, {}, false, None, None) == Ok(c1) && Resolve(u2, Some(c1), {}, false, None, None) == Ok(c2)
    ensures u2.name == u1.name && u1.hosts.None? && u2.hosts.None?
    ensures Seats(c2.spec.nodes) == Seats(c1.spec.nodes) && c2.Routers() != c1.Routers()
  {
    hide Resolve;
    hide Seats;
    hide Slots;
    hide Order;
    u1, u2 := Small([FirstGroup()]), Floating([FirstGroup()]);
    OneGroup();
    SmallAccepted([FirstGroup()], None);
    c1 := Resolve(u1, None, {}, false, None, None).value;
    Resume.SingleNetwork(u1, None, {}, false, None, None, c1);
    FloatingAccepted(c1);
    c2 := Resolve(u2, Some(c1), {}, false, None, None).value;
    assert Resume.PlannedNames(u1) == Resume.PlannedNames(u2);
    Resume.HostlessResumeMovesNoNodeIff(u1, None, c1, c1, {}, false, None, None, u2, c2, {}, false, None, None);
    Resume.SingleNetwork(u2, Some(c1), {}, false, None, None, c2);
    assert c1.Routers().value[0].ip == NODE_NETS + 253 && c2.Routers().value[0].ip == NODE_NETS + 230;
  }

  /** Two nodes of one name: a worker given the name the control plane gets. */
  lemma NameClash() returns (u: UserCluster, c: Cluster)
    ensures Resolve(u, None, {}, false, None, None) == Ok(c)
    ensures |c.spec.nodes| == 2 && c.spec.nodes[0].name == c.spec.nodes[1].name
  {
    var name := AutoName("c", ControlPlane, 1);
    var groups := [FirstGroup(), Workers(1, Some(name))];
    TwoGroups(1, Some(name));
    u := Small(groups);
    SmallAccepted(groups, None);
    c := Resolve(u, None, {}, false, None, None).value;
    ResolvedSingle(u, None, {}, false, None, None, c);
    var slots := Slots(groups);
    assert slots[..1] == [slots[0]] && [slots[0]][..0] == [];
    assert RoleCount(slots[..1], ControlPlane) == 1;
  }

  /** A node with the name of the router's container. */
  lemma RouterNameClash() returns (u: UserCluster, c: Cluster)
    ensures Resolve(u, None, {}, false, None, None) == Ok(c) && c.Routers().Some?
    ensures exists n, r :: n in c.spec.nodes && r in c.Routers().value && n.name == r.name
  {
    hide AutoName;
    hide RoleCount;
    hide NameProblem;
    hide Resolve;
    hide Slots;
    var name := "c-router";
    var groups := [FirstGroup(), Workers(1, Some(name))];
    TwoGroups(1, Some(name));
    u := Small(groups);
    SmallAccepted(groups, None);
    c := Resolve(u, None, {}, false, None, None).value;
    ResolvedSingle(u, None, {}, false, None, None, c);
    SingleRouter(c);
    var n, r := c.spec.nodes[1], c.Routers().value[0];
    assert n in c.spec.nodes && n.name == name;
    assert r in c.Routers().value;
  }

  lemma SingleRouter(c: Cluster)
    requires c.name == "c" && c.spec.network.routers == One
    ensures c.Routers().Some? && |c.Routers().value| == 1 && c.Routers().value[0].name == "c-router"
  {
  }

  /** Two hundred nodes: the last one has the mesh address. */
  lemma MeshClash() returns (u: UserCluster, c: Cluster)
    ensures Resolve(u, None, {}, false, None, None) == Ok(c)
    ensures |c.spec.nodes| == 200 && c.spec.network.mesh == Some(c.spec.nodes[199].ip)
  {
    hide AutoName;
    hide Slots;
    var groups := [FirstGroup(), Workers(199, None)];
    TwoGroups(199, None);
    u := Small(groups);
    SmallAccepted(groups, None);
    c := Resolve(u, None, {}, false, None, None).value;
    ResolvedSingle(u, None, {}, false, None, None, c);
    hide Resolve;
    hide Order;
    hide NodeName;
  }

  // ---- on several hosts

  /** 192.168.1.20 and on, in the network 192.168.1.0/24 of every host. */
  const At: Addr := 0xC0A8_0114

  function LanWith(gateway: Addr): LanFacts { LanFacts("eth0", Prefix(0xC0A8_0100, 24), gateway, 0xC0A8_01FE) }

  const Lan := LanWith(0xC0A8_0101)

  function Large(pool: seq<Addr>, routers: RouterCount, hosts: seq<UserHost>): UserCluster {
    UserCluster("c", false, Some(UserNetwork(None, None, None, Some(routers), None, Some(RangesText(pool)), None)),
                [FirstGroup()], Some(hosts))
  }

  function Everywhere(lan: LanFacts): map<string, LanFacts> { map["a" := lan, "b" := lan] }

  const Lans: map<string, LanFacts> := Everywhere(Lan)

  const Remote: seq<UserHost> := [UserHost("a", Some("m"))]

  const Shared: seq<UserHost> := [UserHost("a", Some("m")), UserHost("b", Some("m"))]

  const Local: seq<UserHost> := [UserHost("a", None)]

  ghost predicate Hosted(hosts: seq<UserHost>) { hosts == Remote || hosts == Shared || hosts == Local }

  ghost predicate Fits(pool: seq<Addr>, lan: LanFacts) {
    && Distinct(pool)
    && forall ip :: ip in pool ==> InPrefix(ip, lan.subnet) && ip != lan.subnet.base && ip != Broadcast(lan.subnet) && ip != lan.address
  }

  /** Addresses the pool needs besides one node's. */
  function Need(routers: RouterCount, hosts: seq<UserHost>): nat { Head(hosts == Local, routers) + 7 }

  lemma InLan(pool: seq<Addr>, gateway: Addr)
    requires Distinct(pool) && forall ip :: ip in pool ==> At <= ip <= At + 20
    ensures Fits(pool, LanWith(gateway))
  {
    NetworkSizes();
  }

  lemma NoHostsProblem(pool: seq<Addr>, routers: RouterCount, hosts: seq<UserHost>)
    requires Distinct(pool) && pool != [] && Hosted(hosts)
    ensures HostsProblem(Large(pool, routers, hosts)).None?
  {
    hide Pool;
    hide RangesText;
    RoundTrip(pool);
    ListedOnce(hosts);
    hide Repeated;
    hide Filter;
    hide Hosted;
  }

  lemma ListedOnce(hosts: seq<UserHost>)
    requires Hosted(hosts)
    ensures Repeated(UserHostNames(hosts)).None? && |Filter(hosts, (h: UserHost) => h.ssh.None?)| <= 1
  {
    RepeatedMeans(UserHostNames(hosts));
    hide Repeated;
    var local := (h: UserHost) => h.ssh.None?;
    if hosts == Local {
      FilterSingle(hosts[0], local);
    } else {
      FilterNone(hosts, local);
    }
  }

  lemma NoLanProblem(pool: seq<Addr>, hosts: seq<UserHost>, lan: LanFacts)
    requires Fits(pool, lan) && Hosted(hosts)
    ensures LansKnown(hosts, Everywhere(lan)) && UserHostNames(hosts)[0] == "a"
    ensures LanProblem(pool, UserHostNames(hosts), Everywhere(lan), lan).None?
    ensures OtherLanHost(UserHostNames(hosts)[1..], Everywhere(lan), lan).None?
  {
    hide Size;
  }

  lemma ShimIff(pool: seq<Addr>, routers: RouterCount, hosts: seq<UserHost>)
    requires Hosted(hosts)
    ensures Shim(Large(pool, routers, hosts)) <==> hosts == Local
  {
    hide RangesText;
    assert Local[0].ssh.None?;
    assert hosts == Local ==> hosts[0] in hosts;
  }

  lemma LargePlaced(pool: seq<Addr>, routers: RouterCount, hosts: seq<UserHost>, lan: LanFacts)
    requires Hosted(hosts) && |pool| >= Need(routers, hosts) && LansKnown(hosts, Everywhere(lan))
    ensures PlanPlaced(Large(pool, routers, hosts), 0, Everywhere(lan), pool).Ok?
  {
    hide RangesText;
    hide AddrText;
    hide RoundRobin;
    hide Nodes;
    OneGroup();
    ShimIff(pool, routers, hosts);
  }

  lemma LargeAccepted(pool: seq<Addr>, routers: RouterCount, hosts: seq<UserHost>, lan: LanFacts)
    requires Fits(pool, lan) && Hosted(hosts) && |pool| >= Need(routers, hosts)
    ensures Pool(RangesText(pool)) == Ok(pool)
    ensures Resolve(Large(pool, routers, hosts), None, {}, false, Some(Everywhere(lan)), None).Ok?
  {
    hide Pool;
    hide RangesText;
    hide HostsProblem;
    hide LanProblem;
    hide OtherLanHost;
    hide PlanPlaced;
    hide Slots;
    hide RoleCount;
    RoundTrip(pool);
    OneGroup();
    NoHostsProblem(pool, routers, hosts);
    NoLanProblem(pool, hosts, lan);
    LargePlaced(pool, routers, hosts, lan);
  }

  lemma LargeResolved(pool: seq<Addr>, routers: RouterCount, hosts: seq<UserHost>,
                      lan: LanFacts) returns (u: UserCluster, c: Cluster)
    requires Fits(pool, lan) && Hosted(hosts) && |pool| >= Need(routers, hosts)
    ensures u == Large(pool, routers, hosts) && Resolve(u, None, {}, false, Some(Everywhere(lan)), None) == Ok(c)
    ensures c.name == "c" && c.spec.network.range == Some(RangesText(pool)) && c.spec.network.routers == routers
    ensures c.spec.network.index == 0 && c.spec.network.gateway == lan.gateway
    ensures c.spec.hosts == Some(RecordedHosts(hosts, Everywhere(lan))) && |c.spec.nodes| == 1
    ensures c.spec.nodes[0].ip == pool[Head(hosts == Local, routers)]
    ensures c.spec.nodes[0].podCidr.None?
  {
    hide Resolve;
    hide Pool;
    hide RangesText;
    hide Slots;
    hide Order;
    hide RoundRobin;
    var lans := Everywhere(lan);
    u := Large(pool, routers, hosts);
    LargeAccepted(pool, routers, hosts, lan);
    ShimIff(pool, routers, hosts);
    c := Resolve(u, None, {}, false, Some(lans), None).value;
    ResolvedMulti(u, None, {}, false, Some(lans), None, c);
    ResolvedFitsLan(u, None, {}, false, Some(lans), None, c);
    ResolvedFresh(u, None, {}, false, Some(lans), None, c);
    assert u.hosts.value[0] in u.hosts.value;
    OneGroup();
    var a := Allocate(pool, hosts == Local, routers, 1).value;
    AllocationSlices(pool, hosts == Local, routers, 1, a);
    PlannedIps(u, c, pool, a, lans);
    assert NodeIps(c.spec.nodes)[0] == c.spec.nodes[0].ip;
    assert c.spec.nodes[0] in c.spec.nodes;
  }

  /** The pool .20-.21,.23,.22,.24-.29 with two routers: the node gets router-2's address. */
  lemma RouterClash() returns (u: UserCluster, c: Cluster)
    ensures Resolve(u, None, {}, false, Some(Lans), None) == Ok(c) && Written.Saves(c)
    ensures Clash(c)
  {
    hide Resolve;
    hide RangesText;
    hide Cluster.Routers;
    hide Fits;
    CrookedFits();
    u, c := LargeResolved(Crooked(), Two, Remote, Lan);
    SecondRouter(c, Crooked());
    assert c.spec.nodes[0] in c.spec.nodes && c.Routers().value[1] in c.Routers().value;
  }

  function Crooked(): seq<Addr> {
    [At, At + 1, At + 3, At + 2, At + 4, At + 5, At + 6, At + 7, At + 8, At + 9]
  }

  lemma CrookedFits()
    ensures Fits(Crooked(), Lan)
  {
    hide Fits;
    InLan(Crooked(), 0xC0A8_0101);
  }

  lemma SecondRouter(c: Cluster, pool: seq<Addr>)
    requires |pool| > 1 && c.spec.network.range == Some(RangesText(pool)) && c.spec.network.routers == Two
    requires pool[0] < 0xFFFF_FFF0 && pool[1] == pool[0] + 1
    ensures c.Routers().Some? && |c.Routers().value| == 2 && c.Routers().value[1].ip == pool[0] + 2
  {
    hide RangesText;
    hide RangeStart;
    RangeStartOfPrinted(pool);
  }

  /** The pool .20,.22-.30 with two routers is accepted, and nothing is written. */
  lemma NoRouters() returns (u: UserCluster, c: Cluster)
    ensures Resolve(u, None, {}, false, Some(Lans), None) == Ok(c) && c.Routers().None? && !Written.Saves(c)
  {
    hide Resolve;
    hide RangesText;
    hide RangeStart;
    hide Fits;
    var pool := [At, At + 2, At + 3, At + 4, At + 5, At + 6, At + 7, At + 8, At + 9, At + 10];
    InLan(pool, 0xC0A8_0101);
    u, c := LargeResolved(pool, Two, Remote, Lan);
    RangeStartOfPrinted(pool);
  }

  function Straight(): seq<Addr> {
    [At, At + 1, At + 2, At + 3, At + 4, At + 5, At + 6, At + 7]
  }

  /** The LAN gateway is .21, the second address of the range: the node gets it. */
  lemma GatewayTaken() returns (u: UserCluster, c: Cluster)
    ensures Resolve(u, None, {}, false, Some(Everywhere(LanWith(At + 1))), None) == Ok(c) && Written.Saves(c)
    ensures Taken(c, c.spec.network.gateway)
  {
    hide Resolve;
    hide RangesText;
    hide Fits;
    InLan(Straight(), At + 1);
    u, c := LargeResolved(Straight(), One, Remote, LanWith(At + 1));
    assert c.spec.nodes[0] in c.spec.nodes;
  }

  // ---- hosts that are one machine

  /** The texts of the files entries can share, as the templates have them. */
  function Says(): Units.Template {
    (c: Cluster, m: string, p: Units.Path) =>
      if p == SharedHosts.TargetFileOf(c) then Text.Join(SharedHosts.Wants(c, m), ' ')
      else if p == SharedHosts.NetworkFileOf(c) && Units.Me(c, m).Some? then
        Units.Me(c, m).value.iface + Units.Me(c, m).value.iface
      else ""
  }

  lemma SaysAsWritten(c: Cluster)
    ensures SharedHosts.AsWritten(Says(), c)
  {
    hide SharedHosts.Wants;
    hide Units.Me;
    hide Text.Join;
    var t, n, p := SharedHosts.TargetFileOf(c), SharedHosts.NetworkFileOf(c), SharedHosts.PolicyFileOf(c);
    forall m
      ensures Says()(c, m, t) == "" + Text.Join(SharedHosts.Wants(c, m), ' ') + ""
    {
    }
    assert SharedHosts.TargetAround(Says(), c, "", "");
    forall m | Units.Me(c, m).Some?
      ensures Says()(c, m, n) == "" + Units.Me(c, m).value.iface + "" + Units.Me(c, m).value.iface + ""
    {
      assert n != t;
    }
    assert SharedHosts.NetworkAround(Says(), c, "", "", "");
  }

  /** Two host entries with one ssh target: planning accepts and writes them, preflight refuses them
      whatever the machine is called, and a create that skips preflight has units that are never done. */
  lemma SharedMachine() returns (u: UserCluster, c: Cluster)
    ensures Resolve(u, None, {}, false, Some(Lans), None) == Ok(c) && Written.Saves(c) && !Hosts.HostsApart(c)
    ensures forall names :: !Preflight.HostnamesPass(c, names)
    ensures SharedHosts.AsWritten(Says(), c) && forall d :: !Units.Done(Says(), c, d)
  {
    hide Resolve;
    hide RangesText;
    hide Fits;
    InLan(Straight(), 0xC0A8_0101);
    u, c := LargeResolved(Straight(), One, Shared, Lan);
    ResolvedConsistent(u, None, {}, false, Some(Lans), None, c);
    SharedNames(u, c);
    SharedHere(c);
    SaysAsWritten(c);
    hide Units.Done;
    hide UnitsHold.AllNames;
    hide SharedHosts.SharedAreIdle;
    hide SharedHosts.AsWritten;
    SharedHosts.SharedDoneIff(Says(), c);
  }

  lemma SharedHere(c: Cluster)
    requires c.spec.hosts == Some(RecordedHosts(Shared, Lans)) && HostsConsistent(c.spec) && |c.spec.nodes| == 1
    requires c.Routers().Some?
    ensures !Hosts.HostsApart(c) && !SharedHosts.SharedAreIdle(c)
    ensures forall h :: h in c.spec.hosts.value ==> h.ssh != Some("")
    ensures forall names :: !Preflight.HostnamesPass(c, names)
  {
    hide Cluster.Routers;
    var hosts := c.spec.hosts.value;
    assert |hosts| == 2 && hosts[0] == Host("a", Some("m"), "eth0") && hosts[1] == Host("b", Some("m"), "eth0");
    assert hosts[0] in hosts && hosts[1] in hosts;
    var n := c.spec.nodes[0];
    assert n in c.spec.nodes;
    assert Names(hosts) == ["a", "b"];
    assert n.host in {Some("a"), Some("b")};
    assert !SharedHosts.Idle(c, "a") || !SharedHosts.Idle(c, "b");
    forall names
      ensures !Preflight.HostnamesPass(c, names)
    {
      Preflight.PassMeans(c, names);
      assert Preflight.Echoes(c, names, 0, 1);
    }
  }

  lemma SharedNames(u: UserCluster, c: Cluster)
    requires u == Large(Straight(), One, Shared) && Resolve(u, None, {}, false, Some(Lans), None) == Ok(c)
    requires |c.spec.nodes| == 1 && c.name == "c" && c.spec.network.routers == One
    ensures Distinct(UnitsHold.AllNames(c)) && SharedHosts.NamesPlain(c) && c.Routers().Some?
  {
    hide Resolve;
    hide RangesText;
    hide Pool;
    hide Allocate;
    hide RoundRobin;
    hide Nodes;
    hide Slots;
    hide Order;
    ResolvedMulti(u, None, {}, false, Some(Lans), None, c);
    var a := Allocate(Pool(u.network.value.range.value).value, Shim(u), WantRouters(u), |Slots(u.nodes)|).value;
    OnlyNames(c, a.nodes, Some(RoundRobin(Slots(u.nodes), UserHostNames(u.hosts.value))));
  }

  /** The names of a cluster of one unnamed node and one router. */
  lemma OnlyNames(c: Cluster, ips: seq<Addr>, hosts: Option<seq<string>>)
    requires c.name == "c" && c.spec.network.routers == One && |c.spec.nodes| == 1
    requires |ips| == |Order([FirstGroup()])| && (hosts.Some? ==> |hosts.value| == |ips|)
    requires c.spec.nodes == Nodes("c", [FirstGroup()], ips, hosts)
    ensures Distinct(UnitsHold.AllNames(c)) && SharedHosts.NamesPlain(c) && c.Routers().Some?
  {
    FirstName(c, ips, hosts);
    hide Nodes;
    OneRouterName(c);
    hide Cluster.Routers;
    var names := UnitsHold.AllNames(c);
    var name := c.spec.nodes[0].name;
    assert NodeNames(c.spec.nodes) == [name];
    assert names == [name, "c-router"];
    assert |name| > 8;
  }

  lemma OneRouterName(c: Cluster)
    requires c.name == "c" && c.spec.network.routers == One
    ensures c.Routers().Some? && Map(Hosts.RoutersOf(c), (r: Router) => r.name) == ["c-router"]
  {
    SingleRouter(c);
  }

  lemma FirstName(c: Cluster, ips: seq<Addr>, hosts: Option<seq<string>>)
    requires |c.spec.nodes| == 1
    requires |ips| == |Order([FirstGroup()])| && (hosts.Some? ==> |hosts.value| == |ips|)
    requires c.spec.nodes == Nodes("c", [FirstGroup()], ips, hosts)
    ensures |c.spec.nodes[0].name| > 8 && ' ' !in c.spec.nodes[0].name
  {
    hide Order;
    hide NodeName;
    OneGroup();
    assert c.spec.nodes[0].name == NodeName("c", [FirstGroup()], 0);
    hide Nodes;
    AutoNameSays();
  }

  lemma AutoNameSays()
    ensures |Order([FirstGroup()])| == 1
    ensures var name := NodeName("c", [FirstGroup()], 0); |name| > 8 && ' ' !in name
  {
    OneGroup();
    hide Slots;
    hide RoleCount;
    hide Numbers.Decimal;
    var k := RoleCount(Slots([FirstGroup()])[..1], ControlPlane);
    Numbers.DecimalDigits(k);
    assert NodeName("c", [FirstGroup()], 0) == AutoName("c", ControlPlane, k);
    assert NameBase("c", ControlPlane) == "c-control-plane-";
  }

  /** A remote host that gives the operator's hostname: preflight lets it pass. */
  lemma PosingHost() returns (u: UserCluster, c: Cluster, names: Preflight.Hostnames)
    ensures Resolve(u, None, {}, false, Some(Lans), None) == Ok(c) && Written.Saves(c)
    ensures Preflight.HostnamesPass(c, names) && Preflight.Posing(c, names)
  {
    hide Resolve;
    hide RangesText;
    hide Fits;
    InLan(Straight(), 0xC0A8_0101);
    u, c := LargeResolved(Straight(), One, Remote, Lan);
    ResolvedConsistent(u, None, {}, false, Some(Lans), None, c);
    names := (h: Hosts.HostId) => "x";
    Preflight.PassMeans(c, names);
    assert Hosts.NodeHosts(c)[0].1 == "m";
  }

  // ---- a range inside the pod subnet

  /** 10.244.1.16 and on, inside the pod subnet of index 0. */
  const Inner: Addr := 0x0AF4_0110

  const InnerLan := LanFacts("eth0", Prefix(0x0AF4_0100, 24), 0x0AF4_0101, 0x0AF4_01FE)

  /** A LAN range inside the pod subnet: accepted and saved, and pod addresses in it go out of the shim. */
  lemma PodsToShim() returns (u: UserCluster, c: Cluster, s: Routes.Route)
    ensures Resolve(u, None, {}, false, Some(Everywhere(InnerLan)), None) == Ok(c) && Written.Saves(c)
    ensures c.spec.nodes != [] && (forall n :: n in c.spec.nodes ==> n.podCidr.None?)
    ensures InPrefix(Inner, c.spec.network.pods) && s.OnLink? && s in Routes.HostRoutes(c) && InPrefix(Inner, s.dest)
    ensures !Routes.Takes(Routes.HostRoutes(c), Inner, Routes.Route(c.spec.network.pods, c.spec.nodes[0].ip))
  {
    hide Resolve;
    hide Written.Saves;
    hide InPrefix;
    hide Routes.ShimRoutes;
    hide Routes.HostRoutes;
    hide Routes.Takes;
    u, c := InnerCluster();
    s := InnerRoute(c);
    Routes.ShimRoutesOnLink(c);
    ShimWins(c, s);
  }

  lemma InnerCluster() returns (u: UserCluster, c: Cluster)
    ensures Resolve(u, None, {}, false, Some(Everywhere(InnerLan)), None) == Ok(c) && Written.Saves(c)
    ensures c.spec.nodes != [] && (forall n :: n in c.spec.nodes ==> n.podCidr.None?)
    ensures u.hosts == Some(Local) && c.MultiHost()
    ensures c.spec.network.pods == Prefix(POD_NETS, 21) && InPrefix(Inner, c.spec.network.pods)
    ensures forall a: int :: InRoutes(c, a) <==> Inner <= a < Inner + 16
  {
    hide Resolve;
    hide RangesText;
    hide Size;
    hide Fits;
    hide InRoutes;
    InnerFits();
    u, c := LargeResolved(Interval(Inner, 16), One, Local, InnerLan);
    SubnetsByIndex(u, None, {}, false, Some(Everywhere(InnerLan)), None, c);
    NetworkSizes();
    InnerRoutes(u, c);
    assert forall n :: n in c.spec.nodes ==> n == c.spec.nodes[0];
  }

  lemma ShimWins(c: Cluster, s: Routes.Route)
    requires c.spec.nodes != [] && c.spec.network.pods == Prefix(POD_NETS, 21)
    requires s in Routes.ShimRoutes(c) && s.OnLink? && InPrefix(Inner, s.dest) && s.dest.len > 21
    ensures s in Routes.HostRoutes(c)
    ensures !Routes.Takes(Routes.HostRoutes(c), Inner, Routes.Route(c.spec.network.pods, c.spec.nodes[0].ip))
  {
    hide Routes.ShimRoutes;
    hide Routes.PlainRoutes;
    hide Size;
  }

  lemma InnerRoutes(u: UserCluster, c: Cluster)
    requires Resolve(u, None, {}, false, Some(Everywhere(InnerLan)), None) == Ok(c)
    requires c.spec.network.range == Some(RangesText(Interval(Inner, 16)))
    requires c.spec.hosts == Some(RecordedHosts(Local, Everywhere(InnerLan)))
    ensures forall a: int :: InRoutes(c, a) <==> Inner <= a < Inner + 16
  {
    hide Resolve;
    hide RangesText;
    hide Pool;
    hide Routes.ShimRoutes;
    var pool := Interval(Inner, 16);
    RoundTrip(pool);
    assert pool[0] == Inner;
    assert Routes.Shimmed(c) by {
      assert c.spec.hosts.value[0] in c.spec.hosts.value;
    }
    ReachedNothing(c);
    forall a: int
      ensures InRoutes(c, a) <==> Inner <= a < Inner + 16
    {
      Routes.ShimRoutesAre(u, None, {}, false, Some(Everywhere(InnerLan)), None, c, [], c, a);
      assert Inner <= a < Inner + 16 ==> pool[a - Inner] as int == a;
    }
  }

  ghost predicate InRoutes(c: Cluster, a: int) { exists s :: s in Routes.ShimRoutes(c) && InPrefix(a, s.dest) }

  /** A route to sixteen addresses is longer than one to the pod subnet. */
  lemma InnerRoute(c: Cluster) returns (s: Routes.Route)
    requires forall a: int :: InRoutes(c, a) <==> Inner <= a < Inner + 16
    ensures s in Routes.ShimRoutes(c) && InPrefix(Inner, s.dest) && s.dest.len > 21
  {
    hide Size;
    hide Routes.ShimRoutes;
    assert InRoutes(c, Inner);
    s :| s in Routes.ShimRoutes(c) && InPrefix(Inner, s.dest);
    NetworkSizes();
    assert InPrefix(s.dest.base, s.dest) && InPrefix(Broadcast(s.dest), s.dest);
    assert InRoutes(c, s.dest.base) && InRoutes(c, Broadcast(s.dest));
    if s.dest.len < 21 {
      Routes.SizesDiffer(s.dest.len, 21);
    }
  }

  lemma InnerFits()
    ensures Fits(Interval(Inner, 16), InnerLan)
  {
    NetworkSizes();
  }

  // ---- hosts lost

  /** A create on a host, resumed with the definition minus its hosts: accepted, and the node is no
      longer on the host it was being created on. */
  lemma HostsLost() returns (u1: UserCluster, c1: Cluster, u2: UserCluster, c2: Cluster)
    ensures Resolve(u1, None, {}, false, Some(Lans), None) == Ok(c1) && c1.MultiHost() && |c1.spec.nodes| == 1
    ensures Resolve(u2, Some(c1), {}, false, None, None) == Ok(c2) && !c2.MultiHost() && |c2.spec.nodes| == 1
    ensures u2.name == u1.name && u2.nodes == u1.nodes
    ensures c1.spec.nodes[0].host == Some("a") && c2.spec.nodes[0].host.None?
    ensures c2.spec.nodes[0].ip != c1.spec.nodes[0].ip
  {
    hide Resolve;
    hide RangesText;
    hide Slots;
    hide Fits;
    InLan(Straight(), 0xC0A8_0101);
    u1, c1 := LargeResolved(Straight(), One, Remote, Lan);
    ResolvedConsistent(u1, None, {}, false, Some(Lans), None, c1);
    OnlyHost(c1);
    u2 := Small([FirstGroup()]);
    c2 := Hostless(c1);
  }

  lemma OnlyHost(c: Cluster)
    requires HostsConsistent(c.spec) && |c.spec.nodes| == 1
    requires c.spec.hosts == Some(RecordedHosts(Remote, Lans))
    ensures c.spec.nodes[0].host == Some("a")
  {
    assert c.spec.nodes[0] in c.spec.nodes;
    assert Names(c.spec.hosts.value) == ["a"];
  }

  lemma Hostless(existing: Cluster) returns (c: Cluster)
    requires existing.spec.network.index == 0 && existing.spec.network.routers == One
    ensures Resolve(Small([FirstGroup()]), Some(existing), {}, false, None, None) == Ok(c) && !c.MultiHost()
    ensures |c.spec.nodes| == 1 && c.spec.nodes[0].host.None? && c.spec.nodes[0].ip == NODE_NETS + 1
  {
    hide Resolve;
    hide Slots;
    var u := Small([FirstGroup()]);
    OneGroup();
    SmallAccepted([FirstGroup()], Some(existing));
    c := Resolve(u, Some(existing), {}, false, None, None).value;
    ResolvedSingle(u, Some(existing), {}, false, None, None, c);
  }

  // ---- a shim left behind

  /** The operator alone, with the pod route and the shim up. */
  function ShimUp(c: Cluster): DeleteCluster.World {
    DeleteCluster.World(
      map[Hosts.OPERATOR := DeleteCluster.CLEAN.(state := Some(DeleteCluster.StateDir(Some(DeleteCluster.Yaml(c, [])))),
                                                 routes := {c.spec.network.pods},
                                                 shim := true)],
      false,
      c.name,
      None)
  }

  /** A delete cut after the pod route and before the shim; the rerun finishes, everything else is gone,
      and the shim is still up. */
  lemma ShimLeft() returns (u: UserCluster, c: Cluster, budget: nat, last: nat)
    ensures Resolve(u, None, {}, false, Some(Everywhere(InnerLan)), None) == Ok(c) && Written.Saves(c)
    ensures DeleteShims.NextCommand(ShimUp(c), budget) == Some(DeleteCluster.DelShim(Hosts.OPERATOR))
    ensures var (after, outcome) := DeleteCluster.Attempt(DeleteCluster.Attempt(ShimUp(c), budget).0, last);
            outcome in {Some(Runner.Finished), None} && DeleteResumes.Gone(after, c) && DeleteCluster.At(after, Hosts.OPERATOR).shim
  {
    hide Resolve;
    hide DeleteCluster.Attempt;
    hide DeleteShims.NextCommand;
    hide DeleteResumes.Gone;
    hide InRoutes;
    hide Cluster.Routers;
    hide HostsConsistent;
    hide Hosts.RemotesOf;
    u, c := InnerCluster();
    ReachedNothing(c);
    Written.EveryWrittenFile(u, None, {}, false, Some(Everywhere(InnerLan)), None, c, [], c);
    ShimIsUp(c);
    hide ShimUp;
    budget, last := DeleteShims.ShimCanStay(c, Hosts.OPERATOR, ShimUp(c), []);
  }

  lemma ShimIsUp(c: Cluster)
    requires c.spec.nodes != []
    ensures DeleteCluster.OperatorYaml(ShimUp(c)) == Some(DeleteCluster.Yaml(c, []))
    ensures DeleteCluster.At(ShimUp(c), Hosts.OPERATOR).shim && !DeleteShims.RoutesOff(c, ShimUp(c), Hosts.OPERATOR)
    ensures Hosts.OPERATOR in DeleteCluster.Targets(Some(DeleteCluster.Yaml(c, [])))
  {
    DeleteResumes.OperatorIsTarget(Some(DeleteCluster.Yaml(c, [])));
    assert c.spec.network.pods in DeleteCluster.Subnets(Some(DeleteCluster.Yaml(c, [])));
  }
}
