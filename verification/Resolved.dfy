/** What holds of every cluster.yaml that planning writes, new or resumed. */
module Resolved {
  import opened Basics
  import opened Numbers
  import opened Addresses
  import opened Ranges
  import opened ClusterModel
  import opened Placement
  import opened Allocation
  import opened Planner

  // ---- names

  /** No explicit name is the automatic name of another, unnamed node. */
  ghost predicate NamesClear(cluster: string, groups: seq<NodeGroup>) {
    forall p, q :: 0 <= p < |Order(groups)| && 0 <= q < |Order(groups)|
                   && groups[Order(groups)[p]].name.Some? && groups[Order(groups)[q]].name.None?
                   ==> groups[Order(groups)[p]].name.value != NodeName(cluster, groups, q)
  }

  lemma AutoNamesDiffer(cluster: string, r1: Role, k1: nat, r2: Role, k2: nat)
    requires AutoName(cluster, r1, k1) == AutoName(cluster, r2, k2)
    ensures r1 == r2 && k1 == k2
  {
    var b1, b2 := NameBase(cluster, r1), NameBase(cluster, r2);
    var s := AutoName(cluster, r1, k1);
    assert s[|cluster| + 1] == b1[|cluster| + 1] == b2[|cluster| + 1];
    assert r1 == r2;
    assert s[|b1|..] == Decimal(k1) == Decimal(k2);
    PrintInjective(k1, k2, 10);
  }

  lemma {:induction false} RoleCountMonotone(slots: seq<Slot>, role: Role, p: nat, q: nat)
    requires p <= q <= |slots|
    ensures RoleCount(slots[..p], role) <= RoleCount(slots[..q], role)
  {
    if p < q {
      RoleCountMonotone(slots, role, p, q - 1);
      CountUpTo(slots, q - 1, role);
    }
  }

  lemma UnnamedDiffer(cluster: string, groups: seq<NodeGroup>, p: nat, q: nat)
    requires p < q < |Order(groups)|
    requires groups[Order(groups)[p]].name.None? && groups[Order(groups)[q]].name.None?
    ensures NodeName(cluster, groups, p) != NodeName(cluster, groups, q)
  {
    hide Order;
    hide Slots;
    hide RoleCount;
    hide AutoName;
    OrderSlots(groups);
    var slots := Slots(groups);
    var gp, gq := groups[Order(groups)[p]], groups[Order(groups)[q]];
    if NodeName(cluster, groups, p) == NodeName(cluster, groups, q) {
      AutoNamesDiffer(cluster, gp.role, RoleCount(slots[..p + 1], gp.role), gq.role, RoleCount(slots[..q + 1], gq.role));
      RoleCountMonotone(slots, gq.role, p + 1, q);
      CountUpTo(slots, q, gq.role);
    }
  }

  /** Named groups are single nodes with names of their own. */
  lemma {:induction false} NamedGroups(groups: seq<NodeGroup>)
    requires NameProblem(groups).None?
    ensures Distinct(GroupNames(groups))
    ensures forall g :: g in groups && g.name.Some? ==> g.count == 1 && g.name.value in GroupNames(groups)
    ensures forall i, j :: 0 <= i < j < |groups| && groups[i].name.Some? && groups[j].name.Some? ==> groups[i].name != groups[j].name
  {
    if groups != [] {
      var n := |groups| - 1;
      NamedGroups(groups[..n]);
      Snoc(groups);
      assert groups[n] in groups;
      forall i, j | 0 <= i < j < |groups| && groups[i].name.Some? && groups[j].name.Some?
        ensures groups[i].name != groups[j].name
      {
        assert groups[i] in groups[..n];
      }
    }
  }

  lemma {:induction false} OrderOfSingle(groups: seq<NodeGroup>, p: nat, q: nat)
    requires p < q < |Order(groups)| && Order(groups)[p] == Order(groups)[q]
    ensures groups[Order(groups)[p]].count > 1
  {
    var n := |groups| - 1;
    var before := Order(groups[..n]);
    if q < |before| {
      OrderOfSingle(groups[..n], p, q);
    }
  }

  lemma NamedDiffer(cluster: string, groups: seq<NodeGroup>, p: nat, q: nat)
    requires NameProblem(groups).None?
    requires p < q < |Order(groups)|
    requires groups[Order(groups)[p]].name.Some? && groups[Order(groups)[q]].name.Some?
    ensures NodeName(cluster, groups, p) != NodeName(cluster, groups, q)
  {
    NamedGroups(groups);
    var i, j := Order(groups)[p], Order(groups)[q];
    assert groups[i] in groups && groups[j] in groups;
    if i == j {
      OrderOfSingle(groups, p, q);
    }
  }

  /** An accepted definition gives its nodes distinct names exactly when no explicit name collides
      with an automatic one: the planner itself does not check that. */
  lemma NamesDistinctIffClear(cluster: string, groups: seq<NodeGroup>, ips: seq<Addr>, hosts: Option<seq<string>>)
    requires NameProblem(groups).None?
    requires |ips| == |Order(groups)| && (hosts.Some? ==> |hosts.value| == |ips|)
    ensures Distinct(NodeNames(Nodes(cluster, groups, ips, hosts))) <==> NamesClear(cluster, groups)
  {
    hide Order;
    hide NodeName;
    hide NameProblem;
    var names := NodeNames(Nodes(cluster, groups, ips, hosts));
    assert |names| == |Order(groups)|;
    forall p | 0 <= p < |names|
      ensures names[p] == NodeName(cluster, groups, p)
    {
    }
    if NamesClear(cluster, groups) {
      forall p, q | 0 <= p < q < |names|
        ensures names[p] != names[q]
      {
        var gp, gq := groups[Order(groups)[p]], groups[Order(groups)[q]];
        if gp.name.None? && gq.name.None? {
          UnnamedDiffer(cluster, groups, p, q);
        } else if gp.name.Some? && gq.name.Some? {
          NamedDiffer(cluster, groups, p, q);
        } else if gp.name.Some? {
          NamedName(cluster, groups, p);
        } else {
          NamedName(cluster, groups, q);
        }
      }
    } else {
      var p, q :| 0 <= p < |Order(groups)| && 0 <= q < |Order(groups)|
                  && groups[Order(groups)[p]].name.Some? && groups[Order(groups)[q]].name.None?
                  && groups[Order(groups)[p]].name.value == NodeName(cluster, groups, q);
      NamedName(cluster, groups, p);
      assert names[p] == names[q];
    }
  }

  lemma NamedName(cluster: string, groups: seq<NodeGroup>, p: nat)
    requires p < |Order(groups)| && groups[Order(groups)[p]].name.Some?
    ensures NodeName(cluster, groups, p) == groups[Order(groups)[p]].name.value
  {
  }

  // ---- what an accepted multi-host plan consists of

  predicate Shim(u: UserCluster)
    requires u.hosts.Some?
  {
    exists h :: h in u.hosts.value && h.ssh.None?
  }

  ghost predicate MultiPlan(u: UserCluster, c: Cluster, pool: seq<Addr>, a: Allocation, lans: map<string, LanFacts>) {
    && u.hosts.Some? && u.hosts.value != [] && u.network.Some? && u.network.value.range.Some?
    && LansKnown(u.hosts.value, lans)
    && Pool(u.network.value.range.value) == Ok(pool)
    && Allocate(pool, Shim(u), WantRouters(u), |Slots(u.nodes)|) == Ok(a)
    && AllocatedFrom(c.spec.network, pool, a)
    && c.spec.network.routers == WantRouters(u)
    && c.spec.network.routerHosts == Some(PlaceRouters(u.network.value.routerHosts, UserHostNames(u.hosts.value), WantRouters(u)))
    && |a.nodes| == |Slots(u.nodes)| == |Order(u.nodes)|
    && c.spec.nodes == Nodes(u.name, u.nodes, a.nodes, Some(RoundRobin(Slots(u.nodes), UserHostNames(u.hosts.value))))
    && c.spec.hosts == Some(RecordedHosts(u.hosts.value, lans))
  }

  lemma PlanPlacedIs(u: UserCluster, index: nat, lans: map<string, LanFacts>, pool: seq<Addr>, c: Cluster)
    requires u.hosts.Some? && u.network.Some? && u.network.value.range.Some? && u.hosts.value != []
    requires LansKnown(u.hosts.value, lans)
    requires Pool(u.network.value.range.value) == Ok(pool)
    requires PlanPlaced(u, index, lans, pool) == Ok(Plan(c.spec.network, c.spec.nodes, c.spec.hosts))
    ensures Allocate(pool, Shim(u), WantRouters(u), |Slots(u.nodes)|).Ok?
    ensures MultiPlan(u, c, pool, Allocate(pool, Shim(u), WantRouters(u), |Slots(u.nodes)|).value, lans)
    ensures c.spec.network.index == index <= 31
  {
    hide Slots;
    hide Order;
    hide RoundRobin;
    hide Pool;
    hide RangesText;
    hide AddrText;
    OrderSlots(u.nodes);
  }

  lemma ResolvedMulti(u: UserCluster, existing: Option<Cluster>, used: set<int>, allowOverlap: bool,
                      lans: Option<map<string, LanFacts>>, operator: Option<string>, c: Cluster)
    requires Resolve(u, existing, used, allowOverlap, lans, operator) == Ok(c)
    requires u.hosts.Some?
    ensures lans.Some? && u.network.Some? && u.network.value.range.Some? && Pool(u.network.value.range.value).Ok?
    ensures var pool := Pool(u.network.value.range.value).value;
            && Distinct(pool)
            && Allocate(pool, Shim(u), WantRouters(u), |Slots(u.nodes)|).Ok?
            && MultiPlan(u, c, pool, Allocate(pool, Shim(u), WantRouters(u), |Slots(u.nodes)|).value, lans.value)
    ensures PickIndex(u, existing, used) == Ok(c.spec.network.index) && c.spec.network.index <= 31
    ensures c.name == u.name
  {
    hide Pool;
    hide Slots;
    hide PlanPlaced;
    hide PickIndex;
    hide NameProblem;
    hide ResumeProblem;
    hide MultiPlan;
    hide LanProblem;
    hide OtherLanHost;
    var index := PickIndex(u, existing, used).value;
    var plan := PlanMulti(u, index, lans).value;
    var range := u.network.value.range.value;
    PoolIsProper(range);
    PlanPlacedIs(u, index, lans.value, Pool(range).value, c);
  }

  /** The range fits the one LAN the hosts share: inside the subnet, clear of its network and broadcast
      addresses and of every host's own; subnet and gateway become the cluster's. */
  ghost predicate FitsLan(u: UserCluster, net: Network, pool: seq<Addr>, lans: map<string, LanFacts>)
    requires u.hosts.Some? && LansKnown(u.hosts.value, lans)
  {
    && (forall ip :: ip in pool ==> InPrefix(ip, net.nodes) && ip != net.nodes.base && ip != Broadcast(net.nodes))
    && (forall h :: h in u.hosts.value ==>
          && lans[h.name].address !in pool
          && lans[h.name].subnet == net.nodes && lans[h.name].gateway == net.gateway)
  }

  lemma ResolvedFitsLan(u: UserCluster, existing: Option<Cluster>, used: set<int>, allowOverlap: bool,
                        lans: Option<map<string, LanFacts>>, operator: Option<string>, c: Cluster)
    requires Resolve(u, existing, used, allowOverlap, lans, operator) == Ok(c)
    requires u.hosts.Some?
    ensures lans.Some? && LansKnown(u.hosts.value, lans.value) && u.network.Some? && u.network.value.range.Some?
    ensures Pool(u.network.value.range.value).Ok?
    ensures FitsLan(u, c.spec.network, Pool(u.network.value.range.value).value, lans.value)
  {
    hide Resolve;
    hide Pool;
    hide MultiPlan;
    hide LanProblem;
    hide OtherLanHost;
    ResolvedMulti(u, existing, used, allowOverlap, lans, operator, c);
    LanChecked(u, existing, used, allowOverlap, lans, operator, c);
    var names := UserHostNames(u.hosts.value);
    OneLan(u.hosts.value, lans.value);
    ClearOfLan(u.hosts.value, Pool(u.network.value.range.value).value, lans.value, lans.value[names[0]]);
  }

  lemma LanChecked(u: UserCluster, existing: Option<Cluster>, used: set<int>, allowOverlap: bool,
                   lans: Option<map<string, LanFacts>>, operator: Option<string>, c: Cluster)
    requires Resolve(u, existing, used, allowOverlap, lans, operator) == Ok(c)
    requires u.hosts.Some? && u.network.Some? && u.network.value.range.Some? && Pool(u.network.value.range.value).Ok?
    ensures lans.Some? && LansKnown(u.hosts.value, lans.value) && u.hosts.value != []
    ensures var names, facts := UserHostNames(u.hosts.value), lans.value;
            var first := facts[names[0]];
            && OtherLanHost(names[1..], facts, first).None?
            && LanProblem(Pool(u.network.value.range.value).value, names, facts, first).None?
            && c.spec.network.nodes == first.subnet && c.spec.network.gateway == first.gateway
  {
    hide Pool;
    hide Slots;
    hide PickIndex;
    hide NameProblem;
    hide HostsProblem;
    hide ResumeProblem;
    hide PlanPlaced;
    hide LanProblem;
    hide OtherLanHost;
    var index := PickIndex(u, existing, used).value;
    assert PlanMulti(u, index, lans).Ok?;
    LanOfPlan(u, index, lans.value, Pool(u.network.value.range.value).value, c);
  }

  lemma OneLan(hosts: seq<UserHost>, lans: map<string, LanFacts>)
    requires hosts != [] && LansKnown(hosts, lans)
    requires var names := UserHostNames(hosts); OtherLanHost(names[1..], lans, lans[names[0]]).None?
    ensures forall h :: h in hosts ==>
              lans[h.name].subnet == lans[hosts[0].name].subnet && lans[h.name].gateway == lans[hosts[0].name].gateway
  {
    var names := UserHostNames(hosts);
    forall h | h in hosts
      ensures lans[h.name].subnet == lans[hosts[0].name].subnet && lans[h.name].gateway == lans[hosts[0].name].gateway
    {
      var i :| 0 <= i < |hosts| && hosts[i] == h;
      assert names[i] in names && (i > 0 ==> names[1..][i - 1] in names[1..]);
    }
  }

  lemma ClearOfLan(hosts: seq<UserHost>, pool: seq<Addr>, lans: map<string, LanFacts>, lan: LanFacts)
    requires LansKnown(hosts, lans) && LanProblem(pool, UserHostNames(hosts), lans, lan).None?
    ensures forall ip :: ip in pool ==> InPrefix(ip, lan.subnet) && ip != lan.subnet.base && ip != Broadcast(lan.subnet)
    ensures forall h :: h in hosts ==> lans[h.name].address !in pool
  {
    hide Size;
    forall h | h in hosts
      ensures h.name in UserHostNames(hosts)
    {
      MapIn(hosts, (x: UserHost) => x.name, h);
    }
  }

  lemma LanOfPlan(u: UserCluster, index: nat, lans: map<string, LanFacts>, pool: seq<Addr>, c: Cluster)
    requires u.hosts.Some? && u.network.Some? && u.network.value.range.Some? && u.hosts.value != []
    requires LansKnown(u.hosts.value, lans)
    requires PlanPlaced(u, index, lans, pool) == Ok(Plan(c.spec.network, c.spec.nodes, c.spec.hosts))
    ensures var lan := lans[UserHostNames(u.hosts.value)[0]];
            c.spec.network.nodes == lan.subnet && c.spec.network.gateway == lan.gateway
  {
    hide Slots;
    hide Order;
    hide RoundRobin;
    hide RangesText;
    hide AddrText;
    hide Allocate;
  }

  lemma ResolvedSingle(u: UserCluster, existing: Option<Cluster>, used: set<int>, allowOverlap: bool,
                       lans: Option<map<string, LanFacts>>, operator: Option<string>, c: Cluster)
    requires Resolve(u, existing, used, allowOverlap, lans, operator) == Ok(c)
    requires u.hosts.None?
    ensures c.spec.hosts.None? && c.spec.network.range.None? && c.spec.network.routerHosts.None?
    ensures c.spec.network.index <= 31 && |Order(u.nodes)| <= 255
    ensures c.spec.network.nodes == Prefix(NODE_NETS + c.spec.network.index * 256, 24)
    ensures c.spec.nodes == Nodes(u.name, u.nodes, Upwards(c.spec.network.index, |Order(u.nodes)|), None)
    ensures PickIndex(u, existing, used) == Ok(c.spec.network.index)
    ensures c.name == u.name
  {
    hide Order;
    hide Nodes;
    hide PickIndex;
    hide NameProblem;
    hide HostsProblem;
    hide AddrText;
    hide Slots;
    var index := PickIndex(u, existing, used).value;
    assert PlanSingle(u, index).Ok?;
  }

  /** A new cluster is recorded sized and not ready, with the operator's hostname and no mesh; a resumed
      one keeps its status. */
  lemma PlannedStatus(u: UserCluster, existing: Option<Cluster>, used: set<int>, allowOverlap: bool,
                      lans: Option<map<string, LanFacts>>, operator: Option<string>, c: Cluster)
    requires Resolve(u, existing, used, allowOverlap, lans, operator) == Ok(c)
    ensures existing.Some? ==> c.status == existing.value.status
    ensures existing.None? ==> c.status.Some?
    ensures existing.None? ==> var s := c.status.value; s.sized && !s.ready && s.operator == operator && s.peers == []
  {
    hide Problem;
    hide PickIndex;
    hide PlanSingle;
    hide PlanMulti;
    hide ResumeProblem;
  }

  lemma ResolvedIsValid(u: UserCluster, existing: Option<Cluster>, used: set<int>, allowOverlap: bool,
                        lans: Option<map<string, LanFacts>>, operator: Option<string>)
    requires Resolve(u, existing, used, allowOverlap, lans, operator).Ok?
    ensures NameProblem(u.nodes).None? && HostsProblem(u).None?
    ensures u.nodes != [] && u.nodes[0].role == ControlPlane
    ensures RoleCount(Slots(u.nodes), ControlPlane) % 2 == 1 && RoleCount(Slots(u.nodes), ControlPlane) <= 5
  {
    hide NameProblem;
    hide HostsProblem;
    hide PickIndex;
    hide Slots;
    hide RoleCount;
  }

  // ---- the planned file passes its own validator

  lemma {:induction false} RepeatedMeans(names: seq<string>)
    ensures Repeated(names).None? <==> Distinct(names)
  {
    if names != [] {
      var n := |names| - 1;
      RepeatedMeans(names[..n]);
      Snoc(names);
      if Repeated(names).None? {
        DistinctAppend(names[..n], [names[n]]);
      } else if names[n] in names[..n] {
        var k :| 0 <= k < n && names[..n][k] == names[n];
        assert names[k] == names[n];
      }
    }
  }

  lemma {:induction false} AtMostOneLocal(hosts: seq<UserHost>)
    requires |Filter(hosts, (h: UserHost) => h.ssh.None?)| <= 1
    ensures forall i, j :: 0 <= i < j < |hosts| ==> hosts[i].ssh.Some? || hosts[j].ssh.Some?
  {
    if hosts != [] {
      var n := |hosts| - 1;
      var local := (h: UserHost) => h.ssh.None?;
      AtMostOneLocal(hosts[..n]);
      forall i, j | 0 <= i < j < |hosts|
        ensures hosts[i].ssh.Some? || hosts[j].ssh.Some?
      {
        assert hosts[i] in hosts[..n];
        assert local(hosts[i]) ==> hosts[i] in Filter(hosts[..n], local);
        if j == n && hosts[n].ssh.None? {
          assert Filter(hosts[..n], local) == [];
        }
      }
    }
  }

  lemma PinsListed(groups: seq<NodeGroup>, names: seq<string>, p: nat)
    requires names != []
    requires forall g :: g in groups && Pin(g).Some? ==> Pin(g).value in names
    requires p < |Slots(groups)|
    ensures HostAt(Slots(groups), names, p) in names
  {
    OrderSlots(groups);
    assert groups[Order(groups)[p]] in groups;
  }

  ghost predicate PlacementListed(u: UserCluster) {
    && u.hosts.Some? && u.network.Some?
    && Distinct(UserHostNames(u.hosts.value))
    && (forall i, j :: 0 <= i < j < |u.hosts.value| ==> u.hosts.value[i].ssh.Some? || u.hosts.value[j].ssh.Some?)
    && (forall g :: g in u.nodes && Pin(g).Some? ==> Pin(g).value in UserHostNames(u.hosts.value))
    && (u.network.value.routerHosts.Some? ==>
          && |u.network.value.routerHosts.value| == Routing(WantRouters(u))
          && forall r :: r in u.network.value.routerHosts.value ==> r in UserHostNames(u.hosts.value))
  }

  lemma AcceptedPlacementListed(u: UserCluster)
    requires HostsProblem(u).None? && u.hosts.Some?
    ensures PlacementListed(u)
  {
    hide Pool;
    var hosts := u.hosts.value;
    RepeatedMeans(UserHostNames(hosts));
    AtMostOneLocal(hosts);
  }

  /** Every cluster.yaml planning writes satisfies the file's own consistency rules. */
  lemma ResolvedConsistent(u: UserCluster, existing: Option<Cluster>, used: set<int>, allowOverlap: bool,
                           lans: Option<map<string, LanFacts>>, operator: Option<string>, c: Cluster)
    requires Resolve(u, existing, used, allowOverlap, lans, operator) == Ok(c)
    ensures HostsConsistent(c.spec)
  {
    hide Resolve;
    hide HostsProblem;
    hide Slots;
    hide Order;
    hide Pool;
    hide Allocate;
    ResolvedIsValid(u, existing, used, allowOverlap, lans, operator);
    if u.hosts.None? {
      ResolvedSingle(u, existing, used, allowOverlap, lans, operator, c);
    } else {
      ResolvedMulti(u, existing, used, allowOverlap, lans, operator, c);
      AcceptedPlacementListed(u);
      MultiConsistent(u, c, lans.value);
    }
  }

  lemma MultiConsistent(u: UserCluster, c: Cluster, lans: map<string, LanFacts>)
    requires PlacementListed(u)
    requires exists pool, a :: MultiPlan(u, c, pool, a, lans)
    ensures HostsConsistent(c.spec)
    ensures c.HostNames() == UserHostNames(u.hosts.value)
  {
    hide Slots;
    hide Order;
    hide Pool;
    hide Allocate;
    hide RoundRobin;
    var pool, a :| MultiPlan(u, c, pool, a, lans);
    var names := UserHostNames(u.hosts.value);
    assert Names(c.spec.hosts.value) == names;
    RoutersOnHosts(names, WantRouters(u));
    forall n | n in c.spec.nodes
      ensures n.host.Some? && n.host.value in names
    {
      var p :| 0 <= p < |c.spec.nodes| && c.spec.nodes[p] == n;
      RoundRobinAt(Slots(u.nodes), names, p);
      PinsListed(u.nodes, names, p);
    }
  }

  /** The subnets that belong to an index. */
  predicate ByIndex(net: Network) {
    && net.index <= 31
    && net.pods == Prefix(POD_NETS + net.index * 8 * 256, 21)
    && net.services == Prefix(SERVICE_NETS + net.index * 256, 24)
    && (net.vip.Some? ==> VIP_NETS + net.index * 256 < net.vip.value < VIP_NETS + net.index * 256 + 255)
  }

  lemma NetworkOfIndex(index: nat, wantRouter: Option<Addr>, ha: Option<Mode>, vip: Option<Addr>, routers: Option<RouterCount>)
    requires NetworkByIndex(index, wantRouter, ha, vip, routers).Ok?
    ensures var net := NetworkByIndex(index, wantRouter, ha, vip, routers).value;
            ByIndex(net) && net.nodes == Prefix(NODE_NETS + net.index * 256, 24)
  {
    hide AddrText;
  }

  lemma PlacedOfIndex(u: UserCluster, index: nat, lans: map<string, LanFacts>, pool: seq<Addr>)
    requires u.hosts.Some? && u.network.Some? && u.hosts.value != [] && LansKnown(u.hosts.value, lans)
    requires PlanPlaced(u, index, lans, pool).Ok?
    ensures ByIndex(PlanPlaced(u, index, lans, pool).value.network) && PlanPlaced(u, index, lans, pool).value.hosts.Some?
  {
    hide NetworkByIndex;
    hide Slots;
    hide Order;
    hide Nodes;
    hide Allocate;
    hide RangesText;
    hide RoundRobin;
    NetworkOfIndex(index, None, u.network.value.ha, u.network.value.vip, Some(WantRouters(u)));
  }

  lemma SubnetsByIndex(u: UserCluster, existing: Option<Cluster>, used: set<int>, allowOverlap: bool,
                       lans: Option<map<string, LanFacts>>, operator: Option<string>, c: Cluster)
    requires Resolve(u, existing, used, allowOverlap, lans, operator) == Ok(c)
    ensures ByIndex(c.spec.network)
    ensures c.spec.hosts.None? ==> c.spec.network.nodes == Prefix(NODE_NETS + c.spec.network.index * 256, 24)
    ensures c.spec.hosts.None? <==> u.hosts.None?
  {
    hide NameProblem;
    hide Slots;
    hide RoleCount;
    hide Pool;
    hide PlanPlaced;
    hide LanProblem;
    hide OtherLanHost;
    hide ResumeProblem;
    hide PickIndex;
    hide NetworkByIndex;
    hide ExpandSingle;
    hide ByIndex;
    var index := PickIndex(u, existing, used).value;
    if u.hosts.None? {
      var n := u.network;
      NetworkOfIndex(index,
                     if n.Some? then n.value.router else None,
                     if n.Some? then n.value.ha else None,
                     if n.Some? then n.value.vip else None,
                     if n.Some? then n.value.routers else None);
      assert PlanSingle(u, index) == Ok(Plan(c.spec.network, c.spec.nodes, c.spec.hosts));
    } else {
      assert PlanMulti(u, index, lans) == Ok(Plan(c.spec.network, c.spec.nodes, c.spec.hosts));
      PlacedOfIndex(u, index, lans.value, Pool(u.network.value.range.value).value);
    }
  }

  // ---- recorded CIDRs

  lemma FreshNodes(cluster: string, groups: seq<NodeGroup>, ips: seq<Addr>, hosts: Option<seq<string>>)
    requires |ips| == |Order(groups)| && (hosts.Some? ==> |hosts.value| == |ips|)
    ensures forall n :: n in Nodes(cluster, groups, ips, hosts) ==> n.podCidr.None?
  {
  }

  /** Planning records no pod CIDR, whatever it resumes. */
  lemma ResolvedFresh(u: UserCluster, existing: Option<Cluster>, used: set<int>, allowOverlap: bool,
                      lans: Option<map<string, LanFacts>>, operator: Option<string>, c: Cluster)
    requires Resolve(u, existing, used, allowOverlap, lans, operator) == Ok(c)
    ensures forall n :: n in c.spec.nodes ==> n.podCidr.None?
  {
    hide Resolve;
    hide Nodes;
    if u.hosts.Some? {
      ResolvedMulti(u, existing, used, allowOverlap, lans, operator, c);
    } else {
      ResolvedSingle(u, existing, used, allowOverlap, lans, operator, c);
    }
    forall ips, hosts: Option<seq<string>> | |ips| == |Order(u.nodes)| && (hosts.Some? ==> |hosts.value| == |ips|)
      ensures forall n :: n in Nodes(u.name, u.nodes, ips, hosts) ==> n.podCidr.None?
    {
      FreshNodes(u.name, u.nodes, ips, hosts);
    }
  }
}
