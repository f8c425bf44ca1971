/** Which host each node runs on (create/plan.py: place, place_routers, majority_host). */
module Placement {
  import opened Basics
  import opened Numbers
  import opened ClusterModel

  /** One expanded node as far as placement goes: its role and the host it is pinned to, if any. */
  datatype Slot = Slot(role: Role, pin: Option<string>)

  function Pin(g: NodeGroup): Option<string> {
    if g.host.Some? && g.host.value != "auto" then g.host else None
  }

  function SlotOf(g: NodeGroup): Slot { Slot(g.role, Pin(g)) }

  /** The nodes in cluster.yaml order, each as the index of its group. */
  function Order(groups: seq<NodeGroup>): (order: seq<nat>)
    ensures forall p :: 0 <= p < |order| ==> order[p] < |groups|
  {
    if groups == [] then []
    else Order(groups[..|groups| - 1]) + Repeat(|groups| - 1, groups[|groups| - 1].count)
  }

  function Repeat<T>(x: T, n: nat): (r: seq<T>)
    ensures |r| == n && forall i :: 0 <= i < n ==> r[i] == x
  {
    seq(n, _ => x)
  }

  function Slots(groups: seq<NodeGroup>): seq<Slot> {
    if groups == [] then []
    else Slots(groups[..|groups| - 1]) + Repeat(SlotOf(groups[|groups| - 1]), groups[|groups| - 1].count)
  }

  lemma {:induction false} OrderSlots(groups: seq<NodeGroup>)
    ensures |Order(groups)| == |Slots(groups)|
    ensures forall p :: 0 <= p < |Order(groups)| ==> SlotOf(groups[Order(groups)[p]]) == Slots(groups)[p]
  {
    if groups != [] {
      var n := |groups| - 1;
      OrderSlots(groups[..n]);
      var order := Order(groups[..n]);
      forall p | 0 <= p < |Order(groups)|
        ensures SlotOf(groups[Order(groups)[p]]) == Slots(groups)[p]
      {
        if p < |order| {
          assert groups[order[p]] == groups[..n][order[p]];
        }
      }
    }
  }

  // ---- the promise

  function RoleCount(slots: seq<Slot>, role: Role): nat {
    if slots == [] then 0
    else RoleCount(slots[..|slots| - 1], role) + if slots[|slots| - 1].role == role then 1 else 0
  }

  /** Nodes of a role that take a turn. */
  function Turns(slots: seq<Slot>, role: Role): nat {
    if slots == [] then 0
    else
      var s := slots[|slots| - 1];
      Turns(slots[..|slots| - 1], role) + if s.role == role && s.pin.None? then 1 else 0
  }

  /** The turn of node p: control planes first, then workers, each in cluster.yaml order. */
  function Turn(slots: seq<Slot>, p: nat): nat
    requires p < |slots|
  {
    (if slots[p].role == ControlPlane then 0 else Turns(slots, ControlPlane)) + Turns(slots[..p], slots[p].role)
  }

  function HostAt(slots: seq<Slot>, hosts: seq<string>, p: nat): string
    requires p < |slots| && hosts != []
  {
    if slots[p].pin.Some? then slots[p].pin.value else hosts[Turn(slots, p) % |hosts|]
  }

  /** Round-robin by role: a pinned node stays put and takes no turn, the j-th of the others (control
      planes first) goes to host j modulo the number of hosts. */
  function RoundRobin(slots: seq<Slot>, hosts: seq<string>): (placed: seq<string>)
    requires hosts != []
    ensures |placed| == |slots|
  {
    seq(|slots|, p requires 0 <= p < |slots| => HostAt(slots, hosts, p))
  }

  // ---- the two passes and the reshuffle

  /** The hosts dealt to one role's nodes, in order, the first turn being `turn`. */
  function Dealt(slots: seq<Slot>, role: Role, hosts: seq<string>, turn: nat): (r: seq<string>)
    requires hosts != []
    ensures |r| == RoleCount(slots, role)
  {
    if slots == [] then []
    else
      var before, s := slots[..|slots| - 1], slots[|slots| - 1];
      var r := Dealt(before, role, hosts, turn);
      if s.role != role then r
      else r + [if s.pin.Some? then s.pin.value else hosts[(turn + Turns(before, role)) % |hosts|]]
  }

  lemma DealtSnoc(slots: seq<Slot>, s: Slot, role: Role, hosts: seq<string>, turn: nat)
    requires hosts != []
    ensures Dealt(slots + [s], role, hosts, turn) == Dealt(slots, role, hosts, turn) +
            if s.role != role then [] else [if s.pin.Some? then s.pin.value else hosts[(turn + Turns(slots, role)) % |hosts|]]
    ensures Turns(slots + [s], role) == Turns(slots, role) + if s.role == role && s.pin.None? then 1 else 0
    ensures RoleCount(slots + [s], role) == RoleCount(slots, role) + if s.role == role then 1 else 0
  {
    assert (slots + [s])[..|slots|] == slots;
  }

  lemma {:induction false} DealtSkips(slots: seq<Slot>, s: Slot, n: nat, role: Role, hosts: seq<string>, turn: nat)
    requires hosts != [] && s.role != role
    ensures Dealt(slots + Repeat(s, n), role, hosts, turn) == Dealt(slots, role, hosts, turn)
    ensures Turns(slots + Repeat(s, n), role) == Turns(slots, role)
    ensures RoleCount(slots + Repeat(s, n), role) == RoleCount(slots, role)
  {
    if n == 0 {
      assert slots + Repeat(s, 0) == slots;
    } else {
      DealtSkips(slots, s, n - 1, role, hosts, turn);
      RepeatSnoc(slots, s, n - 1);
      DealtSnoc(slots + Repeat(s, n - 1), s, role, hosts, turn);
    }
  }

  lemma RepeatSnoc<T>(xs: seq<T>, x: T, n: nat)
    ensures xs + Repeat(x, n) + [x] == xs + Repeat(x, n + 1)
    ensures xs + Repeat(x, 0) == xs
  {
  }

  lemma SlotsStep(groups: seq<NodeGroup>, k: nat)
    requires k < |groups|
    ensures Slots(groups[..k + 1]) == Slots(groups[..k]) + Repeat(SlotOf(groups[k]), groups[k].count)
  {
    assert groups[..k + 1][..k] == groups[..k];
  }

  method DealGroup(g: NodeGroup, hosts: seq<string>, out0: seq<string>,
          turn0: nat, ghost before: seq<Slot>, ghost start: nat)
    returns (out: seq<string>, turn: nat)
    requires hosts != []
    requires out0 == Dealt(before, g.role, hosts, start)
    requires turn0 == start + Turns(before, g.role)
    ensures out == Dealt(before + Repeat(SlotOf(g), g.count), g.role, hosts, start)
    ensures turn == start + Turns(before + Repeat(SlotOf(g), g.count), g.role)
  {
    hide Dealt;
    hide Turns;
    ghost var s := SlotOf(g);
    out, turn := out0, turn0;
    RepeatSnoc(before, s, 0);
    for i := 0 to g.count
      invariant out == Dealt(before + Repeat(s, i), g.role, hosts, start)
      invariant turn == start + Turns(before + Repeat(s, i), g.role)
    {
      RepeatSnoc(before, s, i);
      DealtSnoc(before + Repeat(s, i), s, g.role, hosts, start);
      if g.host.Some? && g.host.value != "auto" {
        out := out + [g.host.value];
      } else {
        out := out + [hosts[turn % |hosts|]];
        turn := turn + 1;
      }
    }
  }

  /** One pass over the groups for one role, taking turns from `start`. */
  method DealRole(groups: seq<NodeGroup>, hosts: seq<string>, role: Role, start: nat)
    returns (out: seq<string>, turn: nat)
    requires hosts != []
    ensures out == Dealt(Slots(groups), role, hosts, start)
    ensures turn == start + Turns(Slots(groups), role)
  {
    hide Dealt;
    hide Turns;
    out, turn := [], start;
    NothingDealt(role, hosts, start);
    for k := 0 to |groups|
      invariant out == Dealt(Slots(groups[..k]), role, hosts, start)
      invariant turn == start + Turns(Slots(groups[..k]), role)
    {
      var g := groups[k];
      ghost var before, s := Slots(groups[..k]), SlotOf(g);
      SlotsStep(groups, k);
      if g.role != role {
        DealtSkips(before, s, g.count, role, hosts, start);
        continue;
      }
      out, turn := DealGroup(g, hosts, out, turn, before, start);
    }
    assert groups[..|groups|] == groups;
  }

  lemma NothingDealt(role: Role, hosts: seq<string>, turn: nat)
    requires hosts != []
    ensures Dealt([], role, hosts, turn) == [] && Turns([], role) == 0 && RoleCount([], role) == 0
    ensures Slots([]) == []
  {
  }

  /** Takes back from the dealt list, from position `at` on, as many hosts as the role has nodes. */
  method CollectRole(groups: seq<NodeGroup>, role: Role, out: seq<string>, at: nat)
    returns (mine: seq<string>, next: nat)
    requires at + RoleCount(Slots(groups), role) <= |out|
    ensures next == at + RoleCount(Slots(groups), role)
    ensures mine == out[at..next]
  {
    hide RoleCount;
    mine, next := [], at;
    NothingDealt(role, ["h"], 0);
    for k := 0 to |groups|
      invariant next == at + RoleCount(Slots(groups[..k]), role)
      invariant next <= |out| && mine == out[at..next]
    {
      var g := groups[k];
      ghost var before, s := Slots(groups[..k]), SlotOf(g);
      SlotsStep(groups, k);
      RoleCountGrows(groups, k + 1, role);
      if g.role == role {
        RoleCountRepeat(before, s, g.count, role);
        for i := 0 to g.count
          invariant next == at + RoleCount(before, role) + i
          invariant next <= |out| && mine == out[at..next]
        {
          mine := mine + [out[next]];
          next := next + 1;
        }
      } else {
        DealtSkips(before, s, g.count, role, ["h"], 0);
      }
    }
    assert groups[..|groups|] == groups;
  }

  lemma {:induction false} RoleCountRepeat(slots: seq<Slot>, s: Slot, n: nat, role: Role)
    requires s.role == role
    ensures RoleCount(slots + Repeat(s, n), role) == RoleCount(slots, role) + n
  {
    RepeatSnoc(slots, s, 0);
    if n > 0 {
      RoleCountRepeat(slots, s, n - 1, role);
      RepeatSnoc(slots, s, n - 1);
      DealtSnoc(slots + Repeat(s, n - 1), s, role, ["h"], 0);
    }
  }

  lemma {:induction false} RoleCountGrows(groups: seq<NodeGroup>, k: nat, role: Role)
    requires k <= |groups|
    ensures RoleCount(Slots(groups[..k]), role) <= RoleCount(Slots(groups), role)
    decreases |groups| - k
  {
    if k < |groups| {
      SlotsStep(groups, k);
      RoleCountGrows(groups, k + 1, role);
      var s := SlotOf(groups[k]);
      if s.role == role {
        RoleCountRepeat(Slots(groups[..k]), s, groups[k].count, role);
      } else {
        DealtSkips(Slots(groups[..k]), s, groups[k].count, role, ["h"], 0);
      }
    } else {
      assert groups[..k] == groups;
    }
  }

  /** In a role's dealt list, the entry of node p is the one for its position within the role. */
  lemma {:induction false} DealtAt(slots: seq<Slot>, role: Role, hosts: seq<string>, turn: nat, p: nat)
    requires hosts != [] && p < |slots| && slots[p].role == role
    ensures RoleCount(slots[..p], role) < RoleCount(slots, role)
    ensures Dealt(slots, role, hosts, turn)[RoleCount(slots[..p], role)] ==
            if slots[p].pin.Some? then slots[p].pin.value else hosts[(turn + Turns(slots[..p], role)) % |hosts|]
  {
    var n := |slots| - 1;
    if p < n {
      assert slots[..n][..p] == slots[..p];
      DealtAt(slots[..n], role, hosts, turn, p);
    }
  }

  /** place: both passes, the split back by role and the walk in cluster.yaml order end in the
      round-robin placement. */
  method Place(groups: seq<NodeGroup>, hosts: seq<string>) returns (result: seq<string>)
    requires hosts != []
    ensures result == RoundRobin(Slots(groups), hosts)
  {
    hide Dealt;
    hide Turns;
    hide RoleCount;
    hide Slots;
    hide Order;
    ghost var slots := Slots(groups);
    var cps, turn := DealRole(groups, hosts, ControlPlane, 0);
    var wks, _ := DealRole(groups, hosts, Worker, turn);
    DealtLengths(slots, hosts, turn);
    var out := cps + wks;
    // each position of the definition takes the next host of its role
    var order := Order(groups);
    OrderSlots(groups);
    var byCp, at := CollectRole(groups, ControlPlane, out, 0);
    var byWk, _ := CollectRole(groups, Worker, out, at);
    assert byCp == cps && byWk == wks;
    result := [];
    var takenCp, takenWk := 0, 0;
    NothingDealt(ControlPlane, hosts, 0);
    NothingDealt(Worker, hosts, 0);
    assert slots[..0] == [];
    for p := 0 to |order|
      invariant |result| == p
      invariant takenCp == RoleCount(slots[..p], ControlPlane) && takenWk == RoleCount(slots[..p], Worker)
      invariant forall q :: 0 <= q < p ==> result[q] == HostAt(slots, hosts, q)
    {
      PlaceStep(slots, hosts, p, turn);
      if groups[order[p]].role == ControlPlane {
        result := result + [byCp[takenCp]];
        takenCp := takenCp + 1;
      } else {
        result := result + [byWk[takenWk]];
        takenWk := takenWk + 1;
      }
    }
  }

  lemma DealtLengths(slots: seq<Slot>, hosts: seq<string>, turn: nat)
    requires hosts != []
    ensures |Dealt(slots, ControlPlane, hosts, 0)| == RoleCount(slots, ControlPlane)
    ensures |Dealt(slots, Worker, hosts, turn)| == RoleCount(slots, Worker)
  {
  }

  lemma PlaceStep(slots: seq<Slot>, hosts: seq<string>, p: nat, turn: nat)
    requires hosts != [] && p < |slots| && turn == Turns(slots, ControlPlane)
    ensures var role := slots[p].role;
            var k := RoleCount(slots[..p], role);
            var dealt := Dealt(slots, role, hosts, if role == ControlPlane then 0 else turn);
            && k < |dealt| && dealt[k] == HostAt(slots, hosts, p)
            && RoleCount(slots[..p + 1], role) == k + 1
    ensures forall other: Role :: other != slots[p].role ==> RoleCount(slots[..p + 1], other) == RoleCount(slots[..p], other)
  {
    hide Dealt;
    var role := slots[p].role;
    DealtLengths(slots, hosts, turn);
    DealtAt(slots, role, hosts, if role == ControlPlane then 0 else turn, p);
    assert slots[..p + 1][..p] == slots[..p];
  }

  // ---- how even it is

  /** Unpinned nodes placed on host h. */
  function Load(slots: seq<Slot>, placed: seq<string>, h: string): nat
    requires |placed| == |slots|
  {
    if slots == [] then 0
    else
      var n := |slots| - 1;
      Load(slots[..n], placed[..n], h) + if slots[n].pin.None? && placed[n] == h then 1 else 0
  }

  /** Turns start .. start+m-1 that fall on host h. */
  function Hits(hosts: seq<string>, start: nat, m: nat, h: string): nat
    requires hosts != []
  {
    if m == 0 then 0
    else Hits(hosts, start, m - 1, h) + if hosts[(start + m - 1) % |hosts|] == h then 1 else 0
  }

  lemma {:induction false} HitsAppend(hosts: seq<string>, a: nat, b: nat, h: string)
    requires hosts != []
    ensures Hits(hosts, 0, a, h) + Hits(hosts, a, b, h) == Hits(hosts, 0, a + b, h)
  {
    if b > 0 {
      HitsAppend(hosts, a, b - 1, h);
    }
  }

  lemma DivModStep(m: nat, n: nat)
    requires n > 0
    ensures if m % n + 1 < n then (m + 1) / n == m / n && (m + 1) % n == m % n + 1
            else (m + 1) / n == m / n + 1 && (m + 1) % n == 0
  {
    var q, r := m / n, m % n;
    assert m == q * n + r;
    if r + 1 < n {
      Quotient(m + 1, n, q, r + 1);
    } else {
      assert m + 1 == (q + 1) * n;
      Quotient(m + 1, n, q + 1, 0);
    }
  }

  /** m turns from the first host hit host k once per full round, and once more if the last,
      incomplete round reaches it. */
  lemma {:induction false} HitsOfHost(hosts: seq<string>, m: nat, k: nat)
    requires Distinct(hosts) && k < |hosts|
    ensures Hits(hosts, 0, m, hosts[k]) == m / |hosts| + if k < m % |hosts| then 1 else 0
  {
    var n := |hosts|;
    if m == 0 {
      Quotient(0, n, 0, 0);
    } else {
      HitsOfHost(hosts, m - 1, k);
      DivModStep(m - 1, n);
      assert hosts[(m - 1) % n] == hosts[k] <==> (m - 1) % n == k;
    }
  }

  /** The turns of the first p nodes that fall on host h. */
  function Share(slots: seq<Slot>, hosts: seq<string>, p: nat, h: string): nat
    requires hosts != [] && p <= |slots|
  {
    Hits(hosts, 0, Turns(slots[..p], ControlPlane), h) +
    Hits(hosts, Turns(slots, ControlPlane), Turns(slots[..p], Worker), h)
  }

  lemma {:induction false} LoadOfPrefix(slots: seq<Slot>, hosts: seq<string>, p: nat, h: string)
    requires hosts != [] && p <= |slots|
    ensures Load(slots[..p], RoundRobin(slots, hosts)[..p], h) == Share(slots, hosts, p, h)
  {
    hide RoundRobin;
    hide HostAt;
    if p > 0 {
      hide Share;
      var placed, q := RoundRobin(slots, hosts), p - 1;
      LoadOfPrefix(slots, hosts, q, h);
      NextLoad(slots, placed, q, h);
      hide Load;
      RoundRobinAt(slots, hosts, q);
      NextShare(slots, hosts, q, h);
    }
  }

  lemma NextShare(slots: seq<Slot>, hosts: seq<string>, q: nat, h: string)
    requires hosts != [] && q < |slots|
    ensures Share(slots, hosts, q + 1, h) ==
            Share(slots, hosts, q, h) + if slots[q].pin.None? && HostAt(slots, hosts, q) == h then 1 else 0
  {
    hide HostAt;
    hide Turns;
    hide Hits;
    NextTurn(slots, q, ControlPlane);
    NextTurn(slots, q, Worker);
    if slots[q].pin.None? {
      NextHit(slots, hosts, q, h);
    }
  }

  lemma NextLoad(slots: seq<Slot>, placed: seq<string>, q: nat, h: string)
    requires |placed| == |slots| && q < |slots|
    ensures Load(slots[..q + 1], placed[..q + 1], h) ==
            Load(slots[..q], placed[..q], h) + if slots[q].pin.None? && placed[q] == h then 1 else 0
  {
    assert slots[..q + 1][..q] == slots[..q];
    assert placed[..q + 1][..q] == placed[..q];
  }

  lemma NextTurn(slots: seq<Slot>, q: nat, role: Role)
    requires q < |slots|
    ensures Turns(slots[..q + 1], role) == Turns(slots[..q], role) + if slots[q].role == role && slots[q].pin.None? then 1 else 0
  {
    assert slots[..q + 1][..q] == slots[..q];
  }

  /** The turn an unpinned node takes is the next one of its role. */
  lemma NextHit(slots: seq<Slot>, hosts: seq<string>, q: nat, h: string)
    requires hosts != [] && q < |slots| && slots[q].pin.None?
    ensures var start := if slots[q].role == ControlPlane then 0 else Turns(slots, ControlPlane);
            var m := Turns(slots[..q], slots[q].role);
            Hits(hosts, start, m + 1, h) == Hits(hosts, start, m, h) + if HostAt(slots, hosts, q) == h then 1 else 0
  {
    hide Turns;
  }

  lemma RoundRobinAt(slots: seq<Slot>, hosts: seq<string>, p: nat)
    requires hosts != [] && p < |slots|
    ensures RoundRobin(slots, hosts)[p] == HostAt(slots, hosts, p)
  {
  }

  /** The round-robin placement puts on host k exactly its share of the unpinned nodes, so any two
      hosts differ by at most one. */
  lemma PlacementIsEven(slots: seq<Slot>, hosts: seq<string>, k: nat, l: nat)
    requires hosts != [] && Distinct(hosts) && k < |hosts| && l < |hosts|
    ensures var m := Turns(slots, ControlPlane) + Turns(slots, Worker);
            Load(slots, RoundRobin(slots, hosts), hosts[k]) == m / |hosts| + if k < m % |hosts| then 1 else 0
    ensures Load(slots, RoundRobin(slots, hosts), hosts[k]) <= Load(slots, RoundRobin(slots, hosts), hosts[l]) + 1
  {
    var c, w := Turns(slots, ControlPlane), Turns(slots, Worker);
    var placed := RoundRobin(slots, hosts);
    assert slots[..|slots|] == slots && placed[..|slots|] == placed;
    forall i | i == k || i == l
      ensures Load(slots, placed, hosts[i]) == (c + w) / |hosts| + if i < (c + w) % |hosts| then 1 else 0
    {
      LoadOfPrefix(slots, hosts, |slots|, hosts[i]);
      HitsAppend(hosts, c, w, hosts[i]);
      HitsOfHost(hosts, c + w, i);
    }
  }

  // ---- routers

  function PlaceRouters(want: Option<seq<string>>, hosts: seq<string>, routers: RouterCount): seq<string>
    requires hosts != []
  {
    match want
    case Some(hs) => hs
    case None => seq(Routing(routers), i requires 0 <= i => hosts[i % |hosts|])
  }

  lemma RoutersOnHosts(hosts: seq<string>, routers: RouterCount)
    requires hosts != []
    ensures |PlaceRouters(None, hosts, routers)| == Routing(routers)
    ensures forall h :: h in PlaceRouters(None, hosts, routers) ==> h in hosts
  {
  }

  // ---- etcd quorum

  function Count(hosts: seq<string>, h: string): nat {
    if hosts == [] then 0
    else Count(hosts[..|hosts| - 1], h) + if hosts[|hosts| - 1] == h then 1 else 0
  }

  ghost predicate Majority(cps: seq<string>, h: string) { Count(cps, h) * 2 > |cps| }

  lemma {:induction false} CountBound(cps: seq<string>, a: string, b: string)
    requires a != b
    ensures Count(cps, a) + Count(cps, b) <= |cps|
    ensures (forall h :: h in cps ==> h == a || h == b) ==> Count(cps, a) + Count(cps, b) == |cps|
    ensures a !in cps ==> Count(cps, a) == 0
  {
    if cps != [] {
      var before := cps[..|cps| - 1];
      assert forall h :: h in before ==> h in cps;
      CountBound(before, a, b);
      assert cps[|cps| - 1] in cps;
    }
  }

  /** majority_host: whatever order the set of hosts is walked in, the answer is the only host that
      holds more than half of the control planes, if there is one. */
  method MajorityHost(cps: seq<string>) returns (r: Option<string>)
    ensures r.Some? <==> exists h :: Majority(cps, h)
    ensures forall h :: Majority(cps, h) <==> r == Some(h)
  {
    var todo := Set(cps);
    while todo != {}
      invariant forall h :: h in cps && h !in todo ==> !Majority(cps, h)
      decreases todo
    {
      var h :| h in todo;
      if Count(cps, h) * 2 > |cps| {
        forall other | other != h
          ensures !Majority(cps, other)
        {
          CountBound(cps, h, other);
        }
        assert Majority(cps, h);
        return Some(h);
      }
      todo := todo - {h};
    }
    forall h
      ensures !Majority(cps, h)
    {
      if h !in cps {
        CountBound(cps, h, h + "x");
      }
    }
    return None;
  }

  /** Where the control planes of an all-unpinned definition end up. */
  ghost predicate Rotated(cps: seq<string>, hosts: seq<string>) {
    hosts != [] && forall j :: 0 <= j < |cps| ==> cps[j] == hosts[j % |hosts|]
  }

  lemma {:induction false} CountRotated(cps: seq<string>, hosts: seq<string>, m: nat, h: string)
    requires Rotated(cps, hosts) && m <= |cps|
    ensures Count(cps[..m], h) == Hits(hosts, 0, m, h)
  {
    if m > 0 {
      CountRotated(cps, hosts, m - 1, h);
      assert cps[..m][..m - 1] == cps[..m - 1];
    }
  }

  /** The control planes of a definition in cluster.yaml order, by host. */
  function ControlPlaneHosts(slots: seq<Slot>, placed: seq<string>): seq<string>
    requires |placed| == |slots|
  {
    if slots == [] then []
    else
      var n := |slots| - 1;
      ControlPlaneHosts(slots[..n], placed[..n]) + if slots[n].role == ControlPlane then [placed[n]] else []
  }

  lemma {:induction false} UnpinnedControlPlanesRotate(slots: seq<Slot>, hosts: seq<string>, p: nat)
    requires hosts != [] && p <= |slots|
    requires forall s :: s in slots && s.role == ControlPlane ==> s.pin.None?
    ensures var placed := RoundRobin(slots, hosts);
            && Rotated(ControlPlaneHosts(slots[..p], placed[..p]), hosts)
            && |ControlPlaneHosts(slots[..p], placed[..p])| == Turns(slots[..p], ControlPlane)
  {
    if p > 0 {
      UnpinnedControlPlanesRotate(slots, hosts, p - 1);
      var placed := RoundRobin(slots, hosts);
      assert slots[..p][..p - 1] == slots[..p - 1];
      assert placed[..p][..p - 1] == placed[..p - 1];
      assert slots[p - 1] in slots;
      assert placed[p - 1] == HostAt(slots, hosts, p - 1);
    }
  }

  /** Three or more unpinned control planes on three or more hosts: no host can take the quorum. */
  lemma SpreadHasNoMajority(slots: seq<Slot>, hosts: seq<string>, h: string)
    requires Distinct(hosts) && |hosts| >= 3
    requires forall s :: s in slots && s.role == ControlPlane ==> s.pin.None?
    requires Turns(slots, ControlPlane) >= 3
    ensures !Majority(ControlPlaneHosts(slots, RoundRobin(slots, hosts)), h)
  {
    var placed := RoundRobin(slots, hosts);
    assert slots[..|slots|] == slots && placed[..|slots|] == placed;
    UnpinnedControlPlanesRotate(slots, hosts, |slots|);
    var cps := ControlPlaneHosts(slots, placed);
    var m, n := |cps|, |hosts|;
    assert cps[..m] == cps;
    CountRotated(cps, hosts, m, h);
    if h in hosts {
      var k :| 0 <= k < n && hosts[k] == h;
      HitsOfHost(hosts, m, k);
      ShareBelowHalf(m, n, k);
    } else {
      NoHits(hosts, m, h);
    }
  }

  lemma ShareBelowHalf(m: nat, n: nat, k: nat)
    requires n >= 3 && m >= 3
    ensures 2 * (m / n + if k < m % n then 1 else 0) <= m
  {
    var q := m / n;
    assert q * n + m % n == m;
    assert q * n >= 3 * q by {
      assert q * (n - 3) >= 0;
    }
  }

  lemma {:induction false} NoHits(hosts: seq<string>, m: nat, h: string)
    requires hosts != [] && h !in hosts
    ensures Hits(hosts, 0, m, h) == 0
  {
    if m > 0 {
      NoHits(hosts, m - 1, h);
      assert hosts[(m - 1) % |hosts|] in hosts;
    }
  }

  /** An odd number of control planes on at most two hosts always leaves one with the majority. */
  lemma TwoHostsHaveMajority(cps: seq<string>, a: string, b: string)
    requires |cps| % 2 == 1 && forall h :: h in cps ==> h == a || h == b
    ensures Majority(cps, a) || Majority(cps, b)
  {
    if a == b {
      var other := a + "x";
      assert |other| == |a| + 1;
      CountBound(cps, a, other);
      CountBound(cps, other, a);
    } else {
      CountBound(cps, a, b);
    }
  }
}
