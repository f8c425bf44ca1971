/** Which definitions planning accepts, rule by rule, and what it fills in (create/plan.py). */
module Accepts {
  import opened Basics
  import Numbers
  import Text
  import opened Addresses
  import opened Ranges
  import opened ClusterModel
  import opened Placement
  import opened Allocation
  import opened Planner
  import opened Resolved

  // ---- validate

  function NodesIn(groups: seq<NodeGroup>, role: Role): nat {
    if groups == [] then 0
    else
      var g := groups[|groups| - 1];
      NodesIn(groups[..|groups| - 1], role) + if g.role == role then g.count else 0
  }

  function AllNodes(groups: seq<NodeGroup>): nat { NodesIn(groups, ControlPlane) + NodesIn(groups, Worker) }

  lemma {:induction false} RoleCountRepeat(slots: seq<Slot>, s: Slot, n: nat, role: Role)
    ensures RoleCount(slots + Repeat(s, n), role) == RoleCount(slots, role) + if s.role == role then n else 0
    decreases n
  {
    if n == 0 {
      assert slots + Repeat(s, 0) == slots;
    } else {
      var all := slots + Repeat(s, n);
      assert all[..|all| - 1] == slots + Repeat(s, n - 1);
      RoleCountRepeat(slots, s, n - 1, role);
    }
  }

  lemma {:induction false} NodesInIs(groups: seq<NodeGroup>, role: Role)
    ensures RoleCount(Slots(groups), role) == NodesIn(groups, role)
  {
    if groups != [] {
      var n := |groups| - 1;
      NodesInIs(groups[..n], role);
      RoleCountRepeat(Slots(groups[..n]), SlotOf(groups[n]), groups[n].count, role);
    }
  }

  lemma {:induction false} AllNodesIs(groups: seq<NodeGroup>)
    ensures |Slots(groups)| == AllNodes(groups) == |Order(groups)|
  {
    OrderSlots(groups);
    if groups != [] {
      AllNodesIs(groups[..|groups| - 1]);
    }
  }

  /** An entry with a name is one node, and no two have the same. */
  ghost predicate NamesGood(groups: seq<NodeGroup>) {
    && (forall i :: 0 <= i < |groups| && groups[i].name.Some? ==> groups[i].count == 1)
    && forall i, j :: 0 <= i < j < |groups| && groups[i].name.Some? ==> groups[i].name != groups[j].name
  }

  lemma {:induction false} GroupNamesMean(groups: seq<NodeGroup>, name: string)
    ensures name in GroupNames(groups) <==> exists i :: 0 <= i < |groups| && groups[i].name == Some(name)
  {
    if groups != [] {
      var n := |groups| - 1;
      GroupNamesMean(groups[..n], name);
      if i :| 0 <= i < |groups| && groups[i].name == Some(name) {
        assert i < n ==> groups[..n][i].name == Some(name);
      }
    }
  }

  lemma {:induction false} NameProblemIff(groups: seq<NodeGroup>)
    ensures NameProblem(groups).None? <==> NamesGood(groups)
  {
    if groups != [] {
      var n := |groups| - 1;
      var before := groups[..n];
      NameProblemIff(before);
      assert forall i :: 0 <= i < n ==> before[i] == groups[i];
      if groups[n].name.Some? {
        GroupNamesMean(before, groups[n].name.value);
      }
    }
  }

  predicate Pinned(g: NodeGroup) { g.host.Some? && g.host.value != "auto" }

  /** What a definition on one host may not say. */
  ghost predicate SingleGood(u: UserCluster) {
    && (u.network.Some? ==> u.network.value.range.None?)
    && (forall g :: g in u.nodes ==> !Pinned(g))
    && (u.network.Some? && u.network.value.routerHosts.Some? ==> u.network.value.routerHosts.value == [])
  }

  function Routers(u: UserCluster): nat {
    if u.network.Some? && u.network.value.routers == Some(Two) then 2 else 1
  }

  predicate HasHost(u: UserCluster, name: string)
    requires u.hosts.Some?
  {
    exists h :: h in u.hosts.value && h.name == name
  }

  /** What a definition on several hosts must and may not say. */
  ghost predicate MultiGood(u: UserCluster)
    requires u.hosts.Some?
  {
    && u.network.Some? && u.network.value.range.Some? && Pool(u.network.value.range.value).Ok?
    && !u.gvisor && u.network.value.nodes.None? && u.network.value.router.None?
    && (forall i, j :: 0 <= i < j < |u.hosts.value| ==>
          u.hosts.value[i].name != u.hosts.value[j].name && (u.hosts.value[i].ssh.Some? || u.hosts.value[j].ssh.Some?))
    && (forall g :: g in u.nodes && Pinned(g) ==> HasHost(u, g.host.value))
    && (u.network.value.routerHosts.Some? ==>
          && |u.network.value.routerHosts.value| == Routers(u)
          && forall r :: r in u.network.value.routerHosts.value ==> HasHost(u, r))
  }

  /** The rules a definition must follow by itself. */
  ghost predicate Good(u: UserCluster) {
    && u.nodes != [] && u.nodes[0].role == ControlPlane
    && NamesGood(u.nodes)
    && NodesIn(u.nodes, ControlPlane) in {1, 3, 5}
    && if u.hosts.None? then SingleGood(u) else MultiGood(u)
  }

  lemma {:induction false} OneLocal(hosts: seq<UserHost>)
    ensures |Filter(hosts, (h: UserHost) => h.ssh.None?)| <= 1 <==>
            forall i, j :: 0 <= i < j < |hosts| ==> hosts[i].ssh.Some? || hosts[j].ssh.Some?
  {
    var local := (h: UserHost) => h.ssh.None?;
    if |Filter(hosts, local)| <= 1 {
      AtMostOneLocal(hosts);
    } else {
      var n := |hosts| - 1;
      OneLocal(hosts[..n]);
      if forall i, j :: 0 <= i < j < |hosts| ==> hosts[i].ssh.Some? || hosts[j].ssh.Some? {
        assert forall i :: 0 <= i < n ==> hosts[..n][i] == hosts[i];
        if hosts[n].ssh.None? {
          FilterNone(hosts[..n], local);
        }
      }
    }
  }

  lemma HostNamesAre(u: UserCluster, name: string)
    requires u.hosts.Some?
    ensures name in UserHostNames(u.hosts.value) <==> HasHost(u, name)
  {
    if HasHost(u, name) {
      var h :| h in u.hosts.value && h.name == name;
      MapIn(u.hosts.value, (x: UserHost) => x.name, h);
    }
    if name in UserHostNames(u.hosts.value) {
      var i :| 0 <= i < |u.hosts.value| && UserHostNames(u.hosts.value)[i] == name;
      assert u.hosts.value[i] in u.hosts.value;
    }
  }

  lemma HostsProblemIff(u: UserCluster)
    ensures HostsProblem(u).None? <==> if u.hosts.None? then SingleGood(u) else MultiGood(u)
  {
    hide Pool;
    hide MultiGood;
    if u.hosts.Some? {
      ManyHostsIff(u);
    }
  }

  lemma DistinctHosts(hosts: seq<UserHost>)
    ensures Repeated(UserHostNames(hosts)).None? <==> forall i, j :: 0 <= i < j < |hosts| ==> hosts[i].name != hosts[j].name
  {
    var names := UserHostNames(hosts);
    RepeatedMeans(names);
    hide Repeated;
    assert forall i :: 0 <= i < |hosts| ==> names[i] == hosts[i].name;
  }

  lemma ManyHostsIff(u: UserCluster)
    requires u.hosts.Some?
    ensures HostsProblem(u).None? <==> MultiGood(u)
  {
    hide Pool;
    hide Repeated;
    hide HasHost;
    hide UserHostNames;
    var hosts := u.hosts.value;
    DistinctHosts(hosts);
    OneLocal(hosts);
    hide Filter;
    forall name
      ensures name in UserHostNames(hosts) <==> HasHost(u, name)
    {
      HostNamesAre(u, name);
    }
  }

  lemma ProblemIff(u: UserCluster)
    ensures Problem(u).None? <==> Good(u)
  {
    hide NameProblem;
    hide NamesGood;
    hide HostsProblem;
    hide SingleGood;
    hide MultiGood;
    hide Slots;
    hide RoleCount;
    NameProblemIff(u.nodes);
    HostsProblemIff(u);
    NodesInIs(u.nodes, ControlPlane);
    hide NodesIn;
    assert forall n: nat :: n in {1, 3, 5} <==> n % 2 == 1 && n <= 5;
  }

  // ---- the index

  /** The recorded index; else the one of the node subnet asked for, 172.22.N.0/24; else the smallest
      that no other cluster uses. */
  predicate IndexIs(u: UserCluster, existing: Option<Cluster>, used: set<int>, index: nat) {
    if existing.Some? then index == existing.value.spec.network.index
    else if u.network.Some? && u.network.value.nodes.Some? then
      index <= 255 && u.network.value.nodes.value == Prefix(0xAC16_0000 + index * 256, 24)
    else index !in used && forall k :: 0 <= k < index ==> k in used
  }

  lemma PickIndexIff(u: UserCluster, existing: Option<Cluster>, used: set<int>, index: nat)
    ensures PickIndex(u, existing, used) == Ok(index) <==> IndexIs(u, existing, used, index)
  {
    if existing.None? && u.network.Some? && u.network.value.nodes.Some? {
      var want := u.network.value.nodes.value;
      if IndexIs(u, existing, used, index) {
        assert want.base == NODE_NETS + index * 256;
      }
    } else if existing.None? {
      var least := LeastUnused(used, 0);
      assert forall k :: 0 <= k < least ==> k in used;
    }
  }

  // ---- one host

  function Wish<T>(u: UserCluster, field: UserNetwork -> Option<T>): Option<T> {
    if u.network.Some? then field(u.network.value) else None
  }

  /** A floating address of the definition's own is .220 to .253 of the node subnet, and not .251 or
      .252 next to two routers; a virtual address is a host address of the index's own subnet and only
      for bgp. */
  ghost predicate WishesFit(wantRouter: Option<Addr>, ha: Option<Mode>, vip: Option<Addr>, routers: Option<RouterCount>, index: nat) {
    && index <= 31
    && (wantRouter.Some? ==>
          var last := wantRouter.value - (0xAC16_0000 + index * 256);
          220 <= last <= 253 && (routers == Some(Two) ==> last != 251 && last != 252))
    && (vip.Some? ==> ha == Some(Bgp) && 1 <= vip.value - (0xAC17_0000 + index * 256) <= 254)
  }

  lemma NetworkIff(index: nat, wantRouter: Option<Addr>, ha: Option<Mode>, vip: Option<Addr>, routers: Option<RouterCount>)
    ensures NetworkByIndex(index, wantRouter, ha, vip, routers).Ok? <==> WishesFit(wantRouter, ha, vip, routers, index)
  {
    hide AddrText;
    if index <= 31 && wantRouter.Some? {
      var last := wantRouter.value - (NODE_NETS + index * 256);
      assert 0 <= last <= 255 ==> wantRouter.value % 256 == last;
    }
  }

  ghost predicate SingleFits(u: UserCluster, index: nat) {
    && WishesFit(Wish(u, (n: UserNetwork) => n.router), Wish(u, (n: UserNetwork) => n.ha), Wish(u, (n: UserNetwork) => n.vip),
                 Wish(u, (n: UserNetwork) => n.routers), index)
    && AllNodes(u.nodes) <= 255
  }

  lemma PlanSingleIff(u: UserCluster, index: nat)
    ensures PlanSingle(u, index).Ok? <==> SingleFits(u, index)
  {
    hide NetworkByIndex;
    hide Order;
    hide AllNodes;
    hide Nodes;
    AllNodesIs(u.nodes);
    var n := u.network;
    NetworkIff(index,
               if n.Some? then n.value.router else None,
               if n.Some? then n.value.ha else None,
               if n.Some? then n.value.vip else None,
               if n.Some? then n.value.routers else None);
  }

  // ---- several hosts

  /** The hosts share one LAN; the range is inside it and clear of its network and broadcast addresses
      and of the hosts' own; it has an address for everything; the virtual address fits. */
  ghost predicate MultiFits(u: UserCluster, index: nat, lans: map<string, LanFacts>)
    requires u.hosts.Some? && MultiGood(u)
  {
    var pool := Pool(u.network.value.range.value).value;
    var shim := if exists h :: h in u.hosts.value && h.ssh.None? then 1 else 0;
    && u.hosts.value != [] && LansKnown(u.hosts.value, lans)
    && var lan := lans[u.hosts.value[0].name];
       && (forall h :: h in u.hosts.value ==>
             lans[h.name].subnet == lan.subnet && lans[h.name].gateway == lan.gateway && lans[h.name].address !in pool)
       && (forall ip :: ip in pool ==> InPrefix(ip, lan.subnet) && ip != lan.subnet.base && ip != Broadcast(lan.subnet))
       && |pool| >= 1 + (if Routers(u) == 2 then 2 else 0) + shim + AllNodes(u.nodes) + 1 + 5
       && WishesFit(None, u.network.value.ha, u.network.value.vip, None, index)
  }

  lemma OneLanIff(hosts: seq<UserHost>, lans: map<string, LanFacts>)
    requires hosts != [] && LansKnown(hosts, lans)
    ensures var names := UserHostNames(hosts);
            OtherLanHost(names[1..], lans, lans[names[0]]).None? <==>
            forall h :: h in hosts ==> lans[h.name].subnet == lans[hosts[0].name].subnet && lans[h.name].gateway == lans[hosts[0].name].gateway
  {
    var names := UserHostNames(hosts);
    var other := OtherLanHost(names[1..], lans, lans[names[0]]);
    if other.None? {
      OneLan(hosts, lans);
    } else {
      var i :| 0 <= i < |names[1..]| && names[1..][i] == other.value;
      assert hosts[i + 1] in hosts && hosts[i + 1].name == other.value;
    }
  }

  lemma LanIff(hosts: seq<UserHost>, pool: seq<Addr>, lans: map<string, LanFacts>, lan: LanFacts)
    requires LansKnown(hosts, lans)
    ensures LanProblem(pool, UserHostNames(hosts), lans, lan).None? <==>
            && (forall ip :: ip in pool ==> InPrefix(ip, lan.subnet) && ip != lan.subnet.base && ip != Broadcast(lan.subnet))
            && forall h :: h in hosts ==> lans[h.name].address !in pool
  {
    hide InPrefix;
    hide Broadcast;
    var names := UserHostNames(hosts);
    if LanProblem(pool, names, lans, lan).None? {
      ClearOfLan(hosts, pool, lans, lan);
    }
    var own := First(names, (n: string) => n in lans && lans[n].address in pool);
    if own.Some? {
      var i :| 0 <= i < |names| && names[i] == own.value;
      assert hosts[i] in hosts;
    }
  }

  lemma PlacedIff(u: UserCluster, index: nat, lans: map<string, LanFacts>, pool: seq<Addr>)
    requires u.hosts.Some? && u.network.Some? && u.hosts.value != [] && LansKnown(u.hosts.value, lans)
    ensures var shim := if exists h :: h in u.hosts.value && h.ssh.None? then 1 else 0;
            PlanPlaced(u, index, lans, pool).Ok? <==>
            && |pool| >= 1 + (if Routers(u) == 2 then 2 else 0) + shim + AllNodes(u.nodes) + 1 + 5
            && WishesFit(None, u.network.value.ha, u.network.value.vip, None, index)
  {
    hide NetworkByIndex;
    hide AllNodes;
    hide Slots;
    hide Order;
    hide Nodes;
    hide RangesText;
    hide RoundRobin;
    AllNodesIs(u.nodes);
    NetworkIff(index, None, u.network.value.ha, u.network.value.vip, Some(WantRouters(u)));
  }

  lemma PlanMultiIff(u: UserCluster, index: nat, lans: map<string, LanFacts>)
    requires u.hosts.Some? && MultiGood(u)
    ensures PlanMulti(u, index, Some(lans)).Ok? <==> MultiFits(u, index, lans)
  {
    hide Pool;
    hide PlanPlaced;
    hide OtherLanHost;
    hide LanProblem;
    hide WishesFit;
    hide AllNodes;
    hide InPrefix;
    hide Broadcast;
    if u.hosts.value != [] && LansKnown(u.hosts.value, lans) {
      var pool := Pool(u.network.value.range.value).value;
      OneLanIff(u.hosts.value, lans);
      LanIff(u.hosts.value, pool, lans, lans[u.hosts.value[0].name]);
      PlacedIff(u, index, lans, pool);
    }
  }

  // ---- resuming

  function ShimCount(u: UserCluster): nat
    requires u.hosts.Some?
  {
    if exists h :: h in u.hosts.value && h.ssh.None? then 1 else 0
  }

  /** How many addresses precede the first node's. */
  function HeadOf(u: UserCluster): nat
    requires u.hosts.Some?
  {
    1 + (if Routers(u) == 2 then 2 else 0) + ShimCount(u)
  }

  /** router-1 on the first host, router-2 on the second, unless the definition names their hosts. */
  ghost predicate RouterHostsAre(u: UserCluster, hosts: Option<seq<string>>)
    requires u.hosts.Some? && u.network.Some? && u.hosts.value != []
  {
    hosts.Some?
    && if u.network.value.routerHosts.Some? then hosts == u.network.value.routerHosts
       else
         && |hosts.value| == Routers(u)
         && hosts.value[0] == u.hosts.value[0].name
         && (|hosts.value| == 2 ==> hosts.value[1] == if |u.hosts.value| == 1 then u.hosts.value[0].name else u.hosts.value[1].name)
  }

  lemma RouterHostsPlaced(u: UserCluster)
    requires u.hosts.Some? && u.network.Some? && u.hosts.value != []
    ensures forall hosts :: RouterHostsAre(u, hosts) <==>
              hosts == Some(PlaceRouters(u.network.value.routerHosts, UserHostNames(u.hosts.value), WantRouters(u)))
  {
    var names := UserHostNames(u.hosts.value);
    var placed := PlaceRouters(u.network.value.routerHosts, names, WantRouters(u));
    if u.network.value.routerHosts.None? {
      assert 0 % |names| == 0;
      assert 1 % |names| == if |names| == 1 then 0 else 1;
      forall hosts | RouterHostsAre(u, hosts)
        ensures hosts.value == placed
      {
      }
    }
  }

  /** The hosts of a spec are those of the definition, entry by entry. */
  ghost predicate SameHosts(was: seq<Host>, hosts: seq<UserHost>, lans: map<string, LanFacts>) {
    && LansKnown(hosts, lans) && |was| == |hosts|
    && forall i :: 0 <= i < |hosts| ==>
         was[i].name == hosts[i].name && was[i].ssh == hosts[i].ssh && was[i].iface == lans[was[i].name].iface
  }

  /** The nodes are those of the definition, each at its place in the range and on its host. */
  ghost predicate SameSeats(u: UserCluster, was: seq<Node>, pool: seq<Addr>)
    requires u.hosts.Some? && u.hosts.value != [] && HeadOf(u) + |Order(u.nodes)| <= |pool| && |Order(u.nodes)| == |Slots(u.nodes)|
  {
    && |was| == |Order(u.nodes)|
    && forall p :: 0 <= p < |was| ==>
         var n := was[p];
         && n.name == NodeName(u.name, u.nodes, p) && n.ip == pool[HeadOf(u) + p]
         && n.host == Some(HostAt(Slots(u.nodes), UserHostNames(u.hosts.value), p))
  }

  /** The interrupted create had these hosts on these interfaces, these names, addresses and hosts for
      the nodes, these hosts for the routers, and this range. */
  ghost predicate Resumes(u: UserCluster, was: Spec, lans: map<string, LanFacts>)
    requires u.hosts.Some? && u.hosts.value != [] && MultiGood(u) && LansKnown(u.hosts.value, lans)
  {
    var pool := Pool(u.network.value.range.value).value;
    && was.hosts.Some? && SameHosts(was.hosts.value, u.hosts.value, lans)
    && HeadOf(u) + |Order(u.nodes)| <= |pool| && |Order(u.nodes)| == |Slots(u.nodes)|
    && SameSeats(u, was.nodes, pool)
    && RouterHostsAre(u, was.network.routerHosts)
    && was.network.range == Some(RangesText(pool))
  }

  lemma {:induction false} HostsResume(was: seq<Host>, hosts: seq<UserHost>, lans: map<string, LanFacts>)
    requires LansKnown(hosts, lans) && forall i, j :: 0 <= i < j < |hosts| ==> hosts[i].name != hosts[j].name
    ensures var planned := RecordedHosts(hosts, lans);
            var moved := First(planned, (h: Host) =>
              var prior := First(was, (x: Host) => x.name == h.name);
              prior.Some? && prior.value.iface != h.iface);
            (moved.None? && Map(was, (h: Host) => (h.name, h.ssh)) == Map(planned, (h: Host) => (h.name, h.ssh))) <==>
            SameHosts(was, hosts, lans)
  {
    var planned := RecordedHosts(hosts, lans);
    var other := (h: Host) =>
      var prior := First(was, (x: Host) => x.name == h.name);
      prior.Some? && prior.value.iface != h.iface;
    KeysMatch(was, hosts, lans);
    if SameKeys(was, hosts) {
      forall i | 0 <= i < |was|
        ensures other(planned[i]) <==> was[i].iface != planned[i].iface
      {
        SameName(was, hosts, i);
      }
      assert (exists h :: h in planned && other(h)) <==> exists i :: 0 <= i < |planned| && other(planned[i]);
    }
  }

  ghost predicate SameKeys(was: seq<Host>, hosts: seq<UserHost>) {
    |was| == |hosts| && forall i :: 0 <= i < |hosts| ==> was[i].name == hosts[i].name && was[i].ssh == hosts[i].ssh
  }

  lemma KeysMatch(was: seq<Host>, hosts: seq<UserHost>, lans: map<string, LanFacts>)
    requires LansKnown(hosts, lans)
    ensures Map(was, (h: Host) => (h.name, h.ssh)) == Map(RecordedHosts(hosts, lans), (h: Host) => (h.name, h.ssh)) <==>
            SameKeys(was, hosts)
  {
    var planned := RecordedHosts(hosts, lans);
    var a, b := Map(was, (h: Host) => (h.name, h.ssh)), Map(planned, (h: Host) => (h.name, h.ssh));
    if a == b {
      assert |a| == |was| && |b| == |hosts|;
      forall i | 0 <= i < |hosts|
        ensures was[i].name == hosts[i].name && was[i].ssh == hosts[i].ssh
      {
        assert a[i] == b[i];
      }
    }
    if SameKeys(was, hosts) {
      assert a == b;
    }
  }

  lemma {:induction false} SameName(was: seq<Host>, hosts: seq<UserHost>, i: nat)
    requires |was| == |hosts| && i < |was| && was[i].name == hosts[i].name
    requires forall j, k :: 0 <= j < k < |hosts| ==> hosts[j].name != hosts[k].name
    ensures (forall j :: 0 <= j < |was| ==> was[j].name == hosts[j].name) ==>
              First(was, (x: Host) => x.name == was[i].name) == Some(was[i])
  {
    if forall j :: 0 <= j < |was| ==> was[j].name == hosts[j].name {
      FirstIsLeast(was, (x: Host) => x.name == was[i].name, i);
    }
  }

  lemma NodesResume(u: UserCluster, was: seq<Node>, pool: seq<Addr>, ips: seq<Addr>)
    requires u.hosts.Some? && u.hosts.value != [] && HeadOf(u) + |Slots(u.nodes)| <= |pool|
    requires ips == pool[HeadOf(u)..HeadOf(u) + |Slots(u.nodes)|] && |ips| == |Order(u.nodes)| == |Slots(u.nodes)|
    ensures var names := UserHostNames(u.hosts.value);
            Seats(was) == Seats(Nodes(u.name, u.nodes, ips, Some(RoundRobin(Slots(u.nodes), names)))) <==> SameSeats(u, was, pool)
  {
    hide Slots;
    hide Order;
    hide NodeName;
    hide HostAt;
    var names := UserHostNames(u.hosts.value);
    var nodes := Nodes(u.name, u.nodes, ips, Some(RoundRobin(Slots(u.nodes), names)));
    forall p | 0 <= p < |nodes|
      ensures nodes[p].name == NodeName(u.name, u.nodes, p) && nodes[p].ip == pool[HeadOf(u) + p]
      ensures nodes[p].host == Some(HostAt(Slots(u.nodes), names, p))
    {
      RoundRobinAt(Slots(u.nodes), names, p);
    }
    assert |Seats(was)| == |was| && |Seats(nodes)| == |nodes|;
    assert forall p :: 0 <= p < |was| ==> Seats(was)[p] == (was[p].name, was[p].ip, was[p].host);
    assert forall p :: 0 <= p < |nodes| ==> Seats(nodes)[p] == (nodes[p].name, nodes[p].ip, nodes[p].host);
    hide Nodes;
    hide Seats;
    hide RoundRobin;
  }

  /** The plan a resume is compared with. */
  ghost predicate Compared(u: UserCluster, plan: Plan, lans: map<string, LanFacts>)
    requires u.hosts.Some? && u.hosts.value != [] && MultiGood(u) && LansKnown(u.hosts.value, lans)
  {
    var pool, names := Pool(u.network.value.range.value).value, UserHostNames(u.hosts.value);
    && |Order(u.nodes)| == |Slots(u.nodes)| <= |pool| - HeadOf(u)
    && plan.hosts == Some(RecordedHosts(u.hosts.value, lans))
    && plan.nodes == Nodes(u.name, u.nodes, pool[HeadOf(u)..HeadOf(u) + |Slots(u.nodes)|], Some(RoundRobin(Slots(u.nodes), names)))
    && plan.network.routerHosts == Some(PlaceRouters(u.network.value.routerHosts, names, WantRouters(u)))
    && plan.network.range == Some(RangesText(pool))
  }

  lemma PlanIsCompared(u: UserCluster, index: nat, lans: map<string, LanFacts>)
    requires u.hosts.Some? && u.hosts.value != [] && MultiGood(u) && LansKnown(u.hosts.value, lans)
    requires PlanMulti(u, index, Some(lans)).Ok?
    ensures Compared(u, PlanMulti(u, index, Some(lans)).value, lans)
  {
    hide Pool;
    hide RangesText;
    hide OtherLanHost;
    hide LanProblem;
    hide PlanPlaced;
    hide Slots;
    hide Order;
    hide Nodes;
    hide RoundRobin;
    hide PlaceRouters;
    var pool := Pool(u.network.value.range.value).value;
    var plan := PlanPlaced(u, index, lans, pool).value;
    var c := Cluster(u.name, Spec(plan.network, plan.nodes, plan.hosts), None);
    PlanPlacedIs(u, index, lans, pool, c);
  }

  lemma ResumeIff(u: UserCluster, was: Spec, plan: Plan, lans: map<string, LanFacts>)
    requires u.hosts.Some? && u.hosts.value != [] && MultiGood(u) && LansKnown(u.hosts.value, lans)
    requires Compared(u, plan, lans)
    ensures ResumeProblem(was, plan.hosts.value, plan.nodes, plan.network).None? <==> Resumes(u, was, lans)
  {
    hide Pool;
    hide RangesText;
    hide Slots;
    hide Order;
    hide Nodes;
    hide Seats;
    hide RoundRobin;
    hide PlaceRouters;
    hide RouterHostsAre;
    hide NodeName;
    hide HostAt;
    hide HeadOf;
    hide HasHost;
    hide SameHosts;
    hide SameSeats;
    var pool := Pool(u.network.value.range.value).value;
    NodesResume(u, was.nodes, pool, pool[HeadOf(u)..HeadOf(u) + |Slots(u.nodes)|]);
    RouterHostsPlaced(u);
    if was.hosts.Some? {
      HostsResume(was.hosts.value, u.hosts.value, lans);
    }
    hide RecordedHosts;
  }

  // ---- the whole of it

  ghost predicate Accepted(u: UserCluster, existing: Option<Cluster>, used: set<int>, allowOverlap: bool,
                           lans: Option<map<string, LanFacts>>, index: nat) {
    && Good(u) && IndexIs(u, existing, used, index)
    && (existing.None? ==> index !in used || allowOverlap)
    && (existing.Some? ==> Routing(existing.value.spec.network.routers) == Routers(u))
    && if u.hosts.None? then SingleFits(u, index)
       else lans.Some? && MultiFits(u, index, lans.value) && (existing.Some? ==> Resumes(u, existing.value.spec, lans.value))
  }

  /** Planning accepts exactly what follows the rules, has a free index (or may overlap), keeps the
      number of routers, fits its subnet or its LAN, and on several hosts agrees with the create it
      resumes. */
  lemma AcceptedIff(u: UserCluster, existing: Option<Cluster>, used: set<int>, allowOverlap: bool,
                    lans: Option<map<string, LanFacts>>, operator: Option<string>)
    ensures Resolve(u, existing, used, allowOverlap, lans, operator).Ok? <==>
            exists index :: Accepted(u, existing, used, allowOverlap, lans, index)
  {
    hide Good;
    hide MultiGood;
    hide IndexIs;
    hide SingleFits;
    hide MultiFits;
    hide Resumes;
    hide Problem;
    hide PickIndex;
    hide PlanSingle;
    hide PlanMulti;
    hide ResumeProblem;
    ProblemIff(u);
    forall index: nat
      ensures PickIndex(u, existing, used) == Ok(index) <==> IndexIs(u, existing, used, index)
    {
      PickIndexIff(u, existing, used, index);
    }
    if Good(u) && PickIndex(u, existing, used).Ok? {
      var index := PickIndex(u, existing, used).value;
      PlanSingleIff(u, index);
      if u.hosts.Some? {
        MultiAccepted(u, existing, lans, index);
      }
      assert Accepted(u, existing, used, allowOverlap, lans, index) <==> Resolve(u, existing, used, allowOverlap, lans, operator).Ok?;
    }
  }

  lemma MultiAccepted(u: UserCluster, existing: Option<Cluster>, lans: Option<map<string, LanFacts>>, index: nat)
    requires u.hosts.Some? && Good(u)
    ensures MultiGood(u)
    ensures PlanMulti(u, index, lans).Ok? <==> lans.Some? && MultiFits(u, index, lans.value)
    ensures PlanMulti(u, index, lans).Ok? ==>
              var plan := PlanMulti(u, index, lans).value;
              && plan.hosts.Some?
              && (existing.Some? ==>
                    (ResumeProblem(existing.value.spec, plan.hosts.value, plan.nodes, plan.network).None? <==> Resumes(u, existing.value.spec, lans.value)))
  {
    hide Pool;
    hide Resumes;
    hide ResumeProblem;
    hide PlanPlaced;
    hide LanProblem;
    hide OtherLanHost;
    hide NamesGood;
    if lans.Some? {
      PlanMultiIff(u, index, lans.value);
      if PlanMulti(u, index, lans).Ok? {
        PlanIsCompared(u, index, lans.value);
        if existing.Some? {
          ResumeIff(u, existing.value.spec, PlanMulti(u, index, lans).value, lans.value);
        }
      }
    }
  }

  // ---- what it fills in

  /** One run of addresses prints as its two ends. */
  lemma OneRun(first: Addr, n: nat)
    requires n > 1 && first + n <= 0x1_0000_0000
    ensures Pool(AddrText(first) + ['-'] + AddrText(first + n - 1)) == Ok(Interval(first, n))
  {
    hide Pool;
    hide AddrText;
    hide RangesText;
    hide Distinct;
    var run: Run := Stretch(first, n);
    OneRunText(run);
    IntervalDistinct(first, n);
    hide Interval;
    RoundTrip(Interval(first, n));
  }

  lemma OneRunText(run: Run)
    ensures RangesText(Interval(run.first, run.count)) == SegmentText(run)
  {
    hide SegmentText;
    hide Runs;
    MaximalRunsUnique([run]);
    OneRunCovers(run);
    hide Covered;
    hide Interval;
    JoinOne(SegmentText(run));
    hide Text.Join;
    assert Map([run], SegmentText) == [SegmentText(run)];
  }

  lemma JoinOne(text: string)
    ensures Text.Join([text], ',') == text
  {
  }

  lemma OneRunCovers(run: Run)
    ensures Covered([run]) == Interval(run.first, run.count)
  {
    assert [run][..0] == [];
    assert [] + Members(run) == Members(run);
  }

  lemma IntervalDistinct(first: Addr, n: nat)
    requires n >= 1 && first + n <= 0x1_0000_0000
    ensures Interval(first, n) != [] && Distinct(Interval(first, n))
  {
  }

  /** The network of a cluster with index i: pods 10.244.(8i).0/21, services 10.98.i.0/24, and for bgp
      the virtual address wished for, else 172.23.i.1. */
  ghost predicate IndexNetwork(u: UserCluster, net: Network) {
    var ha := Wish(u, (n: UserNetwork) => n.ha);
    var vip := Wish(u, (n: UserNetwork) => n.vip);
    && net.index <= 31
    && net.pods == Prefix(0x0AF4_0000 + net.index * 2048, 21) && net.services == Prefix(0x0A62_0000 + net.index * 256, 24)
    && net.ha == (if ha.Some? then ha.value else Proxy)
    && Routing(net.routers) == Routers(u)
    && net.vip == (if net.ha == Proxy then None else if vip.Some? then vip else Some(0xAC17_0000 + net.index * 256 + 1))
  }

  /** On one host also nodes 172.22.i.0/24 with the gateway at .254, the floating address at .253 or as
      wished, the mesh address at .200 and LoadBalancer addresses .201 to .219. */
  ghost predicate SingleNetwork(u: UserCluster, net: Network) {
    var base := 0xAC16_0000 + net.index * 256;
    var router := Wish(u, (n: UserNetwork) => n.router);
    && base + 255 <= 0xFFFF_FFFF
    && net.nodes == Prefix(base, 24) && net.gateway == base + 254
    && net.router == (if router.Some? then router.value else base + 253)
    && net.mesh == Some(base + 200) && Pool(net.lbRange) == Ok(Interval(base + 201, 19))
    && net.range.None? && net.routerHosts.None? && net.shim.None?
  }

  lemma NetworkFields(index: nat, wantRouter: Option<Addr>, ha: Option<Mode>, vip: Option<Addr>, routers: Option<RouterCount>)
    requires NetworkByIndex(index, wantRouter, ha, vip, routers).Ok?
    ensures var net := NetworkByIndex(index, wantRouter, ha, vip, routers).value;
            var base := 0xAC16_0000 + index * 256;
            && net.index == index <= 31
            && net.pods == Prefix(0x0AF4_0000 + index * 2048, 21) && net.services == Prefix(0x0A62_0000 + index * 256, 24)
            && net.ha == (if ha.Some? then ha.value else Proxy) && net.routers == (if routers.Some? then routers.value else One)
            && net.vip == (if net.ha == Proxy then None else if vip.Some? then vip else Some(0xAC17_0000 + index * 256 + 1))
            && net.nodes == Prefix(base, 24) && net.gateway == base + 254
            && net.router == (if wantRouter.Some? then wantRouter.value else base + 253)
            && net.mesh == Some(base + 200) && Pool(net.lbRange) == Ok(Interval(base + 201, 19))
            && net.range.None? && net.routerHosts.None? && net.shim.None?
  {
    hide AddrText;
    hide Pool;
    hide Interval;
    OneRun(NODE_NETS + index * 256 + 201, 19);
  }

  lemma PlannedNetwork(u: UserCluster, existing: Option<Cluster>, used: set<int>, allowOverlap: bool,
                       lans: Option<map<string, LanFacts>>, operator: Option<string>, c: Cluster)
    requires Resolve(u, existing, used, allowOverlap, lans, operator) == Ok(c)
    ensures IndexIs(u, existing, used, c.spec.network.index)
    ensures IndexNetwork(u, c.spec.network)
    ensures u.hosts.None? ==> SingleNetwork(u, c.spec.network)
    ensures u.hosts.Some? ==> MultiGood(u) && u.hosts.value != [] && RouterHostsAre(u, c.spec.network.routerHosts)
  {
    hide Problem;
    hide Pool;
    hide Interval;
    hide NetworkByIndex;
    hide PlanPlaced;
    hide ExpandSingle;
    hide LanProblem;
    hide OtherLanHost;
    hide ResumeProblem;
    hide PickIndex;
    hide PlaceRouters;
    hide RouterHostsAre;
    hide IndexIs;
    hide HasHost;
    ProblemIff(u);
    hide NamesGood;
    hide NodesIn;
    var index := PickIndex(u, existing, used).value;
    PickIndexIff(u, existing, used, index);
    if u.hosts.None? {
      var n := u.network;
      NetworkFields(index,
                    if n.Some? then n.value.router else None,
                    if n.Some? then n.value.ha else None,
                    if n.Some? then n.value.vip else None,
                    if n.Some? then n.value.routers else None);
      assert PlanSingle(u, index) == Ok(Plan(c.spec.network, c.spec.nodes, c.spec.hosts));
    } else {
      assert PlanMulti(u, index, lans) == Ok(Plan(c.spec.network, c.spec.nodes, c.spec.hosts));
      PlacedNetwork(u, index, lans.value, Pool(u.network.value.range.value).value);
      RouterHostsPlaced(u);
    }
  }

  lemma PlacedNetwork(u: UserCluster, index: nat, lans: map<string, LanFacts>, pool: seq<Addr>)
    requires u.hosts.Some? && u.network.Some? && u.hosts.value != [] && LansKnown(u.hosts.value, lans)
    requires PlanPlaced(u, index, lans, pool).Ok?
    ensures var net := PlanPlaced(u, index, lans, pool).value.network;
            && net.index == index <= 31 && IndexNetwork(u, net)
            && net.routerHosts == Some(PlaceRouters(u.network.value.routerHosts, UserHostNames(u.hosts.value), WantRouters(u)))
  {
    hide NetworkByIndex;
    hide Pool;
    hide Slots;
    hide Order;
    hide Nodes;
    hide Allocate;
    hide RangesText;
    hide RoundRobin;
    hide PlaceRouters;
    hide Interval;
    NetworkFields(index, None, u.network.value.ha, u.network.value.vip, Some(WantRouters(u)));
  }

  /** The groups' nodes one after the other: group i's are at the positions after those of the groups
      before it. */
  lemma {:induction false} OrderMeans(groups: seq<NodeGroup>, i: nat, k: nat)
    requires i < |groups| && k < groups[i].count
    ensures AllNodes(groups[..i]) + k < |Order(groups)| == AllNodes(groups)
    ensures Order(groups)[AllNodes(groups[..i]) + k] == i
  {
    hide AllNodes;
    var n := |groups| - 1;
    var before := groups[..n];
    AllNodesIs(groups);
    AllNodesIs(before);
    if i < n {
      OrderMeans(before, i, k);
      assert before[..i] == groups[..i];
    }
  }

  /** Every node is its group's: role, size, whether it joins, its given name; a node without one is
      numbered within its role, and none has a CIDR yet. */
  lemma PlannedNodes(u: UserCluster, existing: Option<Cluster>, used: set<int>, allowOverlap: bool,
                     lans: Option<map<string, LanFacts>>, operator: Option<string>, c: Cluster, i: nat, k: nat)
    requires Resolve(u, existing, used, allowOverlap, lans, operator) == Ok(c)
    requires i < |u.nodes| && k < u.nodes[i].count
    ensures |c.spec.nodes| == AllNodes(u.nodes) && AllNodes(u.nodes[..i]) + k < |c.spec.nodes|
    ensures var n, g := c.spec.nodes[AllNodes(u.nodes[..i]) + k], u.nodes[i];
            && n.role == g.role && n.cpu == g.cpu && n.memory == g.memory && n.join == g.join && n.podCidr.None?
            && n.name == (if g.name.Some? then g.name.value
                          else u.name + (if g.role == ControlPlane then "-control-plane-" else "-worker-")
                               + Numbers.Decimal(NodesIn(u.nodes[..i], g.role) + k + 1))
  {
    hide Resolve;
    hide Order;
    hide AllNodes;
    hide Slots;
    hide Pool;
    hide NodesIn;
    OrderMeans(u.nodes, i, k);
    var p := AllNodes(u.nodes[..i]) + k;
    SlotsBefore(u.nodes, i, k);
    if u.hosts.None? {
      ResolvedSingle(u, existing, used, allowOverlap, lans, operator, c);
    } else {
      ResolvedMulti(u, existing, used, allowOverlap, lans, operator, c);
    }
    AllNodesIs(u.nodes);
    hide RoleCount;
  }

  /** How many nodes of its role there are up to the k-th of group i. */
  lemma {:induction false} SlotsBefore(groups: seq<NodeGroup>, i: nat, k: nat)
    requires i < |groups| && k < groups[i].count
    ensures AllNodes(groups[..i]) + k < |Slots(groups)|
    ensures RoleCount(Slots(groups)[..AllNodes(groups[..i]) + k + 1], groups[i].role) == NodesIn(groups[..i], groups[i].role) + k + 1
  {
    hide RoleCount;
    hide AllNodes;
    var n := |groups| - 1;
    var before, at := Slots(groups[..n]), AllNodes(groups[..i]) + k;
    AllNodesIs(groups[..i]);
    AllNodesIs(groups);
    AllNodesIs(groups[..n]);
    SlotsLast(groups);
    hide Slots;
    hide Order;
    if i < n {
      SlotsBefore(groups[..n], i, k);
      assert groups[..n][..i] == groups[..i];
      assert Slots(groups)[..at + 1] == before[..at + 1];
    } else {
      NodesInIs(groups[..n], groups[i].role);
      RoleCountRepeat(before, SlotOf(groups[n]), k + 1, groups[i].role);
      assert Slots(groups)[..at + 1] == before + Repeat(SlotOf(groups[n]), k + 1);
    }
  }

  lemma SlotsLast(groups: seq<NodeGroup>)
    requires groups != []
    ensures var n := |groups| - 1; Slots(groups) == Slots(groups[..n]) + Repeat(SlotOf(groups[n]), groups[n].count)
  {
  }

  /** The recorded hosts are the definition's, with the interface each one reported. */
  lemma PlannedHosts(u: UserCluster, existing: Option<Cluster>, used: set<int>, allowOverlap: bool,
                     lans: Option<map<string, LanFacts>>, operator: Option<string>, c: Cluster)
    requires Resolve(u, existing, used, allowOverlap, lans, operator) == Ok(c)
    ensures c.spec.hosts.Some? <==> u.hosts.Some?
    ensures u.hosts.Some? ==> lans.Some? && SameHosts(c.spec.hosts.value, u.hosts.value, lans.value)
  {
    hide Resolve;
    if u.hosts.None? {
      ResolvedSingle(u, existing, used, allowOverlap, lans, operator, c);
    } else {
      ResolvedMulti(u, existing, used, allowOverlap, lans, operator, c);
    }
  }

  // ---- the routers

  /** A router's host, if the cluster has hosts. */
  ghost predicate RouterOn(net: Network, i: nat, host: Option<string>) {
    if net.routerHosts.Some? && i < |net.routerHosts.value| then host == Some(net.routerHosts.value[i]) else host.None?
  }

  /** One router holds the floating address itself. Two have the two addresses after `before`, and
      router-1 goes first. */
  ghost predicate RoutersAre(c: Cluster, rs: seq<Router>, before: int) {
    var net := c.spec.network;
    if net.routers == One then
      && |rs| == 1
      && rs[0].name == c.name + "-router" && rs[0].dir == "router" && rs[0].ip == net.router && rs[0].priority.None?
      && RouterOn(net, 0, rs[0].host)
    else
      && |rs| == 2
      && rs[0].name == c.name + "-router-1" && rs[0].dir == "router-1" && rs[0].ip == before + 1 && rs[0].priority == Some(200)
      && rs[1].name == c.name + "-router-2" && rs[1].dir == "router-2" && rs[1].ip == before + 2 && rs[1].priority == Some(100)
      && RouterOn(net, 0, rs[0].host) && RouterOn(net, 1, rs[1].host)
  }

  /** On one host the two routers are .251 and .252 of the node subnet, on several hosts they come after
      the range's first address. */
  lemma PlannedRouters(u: UserCluster, existing: Option<Cluster>, used: set<int>, allowOverlap: bool,
                       lans: Option<map<string, LanFacts>>, operator: Option<string>, c: Cluster)
    requires Resolve(u, existing, used, allowOverlap, lans, operator) == Ok(c) && c.Routers().Some?
    ensures u.hosts.None? ==> RoutersAre(c, c.Routers().value, 0xAC16_0000 + c.spec.network.index * 256 + 250)
    ensures u.hosts.Some? ==> MultiGood(u) && Pool(u.network.value.range.value).value != [] &&
                              RoutersAre(c, c.Routers().value, Pool(u.network.value.range.value).value[0])
  {
    hide Resolve;
    hide Pool;
    hide MultiGood;
    hide RangesText;
    hide RangeStart;
    hide RoutersAre;
    hide Cluster.Routers;
    hide RouterHostsAre;
    hide MultiPlan;
    PlannedNetwork(u, existing, used, allowOverlap, lans, operator, c);
    if u.hosts.None? {
      SingleRouters(c);
    } else {
      ResolvedMulti(u, existing, used, allowOverlap, lans, operator, c);
      var pool := Pool(u.network.value.range.value).value;
      PoolIsProper(u.network.value.range.value);
      RangeIs(u, c, pool, lans.value);
      RangedRouters(c, pool);
    }
  }

  lemma RangeIs(u: UserCluster, c: Cluster, pool: seq<Addr>, lans: map<string, LanFacts>)
    requires exists a :: MultiPlan(u, c, pool, a, lans)
    ensures c.spec.network.range == Some(RangesText(pool))
  {
    hide Pool;
    hide RangesText;
    hide Allocate;
    hide Slots;
    hide Order;
    hide Nodes;
    hide RoundRobin;
  }

  lemma SingleRouters(c: Cluster)
    requires c.spec.network.range.None? && c.Routers().Some?
    ensures RoutersAre(c, c.Routers().value, c.spec.network.nodes.base + 250)
  {
  }

  lemma RangedRouters(c: Cluster, pool: seq<Addr>)
    requires pool != [] && c.spec.network.range == Some(RangesText(pool)) && c.Routers().Some?
    ensures RoutersAre(c, c.Routers().value, pool[0])
  {
    hide RangesText;
    hide RangeStart;
    RangeStartOfPrinted(pool);
  }
}
