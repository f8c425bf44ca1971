/** Subnet indices over the life of an operator: any sequence of creates, resumes and deletes of
    clusters (create/plan.py, verbs.py), none of them forced with --allow-overlap. */
module Indices {
  import opened Basics
  import opened Addresses
  import opened ClusterModel
  import opened Planner
  import opened Resolved

  /** The state directories: cluster.yaml by cluster name. */
  type Clusters = map<string, Cluster>

  function Used(st: Clusters): set<int> { set name | name in st :: st[name].spec.network.index }

  datatype Event =
    /** A create, which resumes an interrupted one of the same name. `elsewhere` are the indices
        found on the other hosts of the cluster. */
    | Create(u: UserCluster, elsewhere: set<int>, lans: Option<map<string, LanFacts>>, operator: Option<string>)
    /** The last phase of a create is done. */
    | Finish(name: string)
    | Delete(name: string)

  function Existing(st: Clusters, name: string): Option<Cluster> {
    if name in st then Some(st[name]) else None
  }

  function Step(st: Clusters, e: Event): Clusters {
    match e
    case Create(u, elsewhere, lans, operator) =>
      var existing := Existing(st, u.name);
      if existing.Some? && (existing.value.status.None? || existing.value.status.value.ready) then st
      else
        var r := Resolve(u, existing, Used(st) + elsewhere, false, lans, operator);
        if r.Ok? then st[u.name := r.value] else st
    case Finish(name) =>
      if name in st && st[name].status.Some? then
        st[name := st[name].(status := Some(st[name].status.value.(ready := true)))]
      else st
    case Delete(name) => st - {name}
  }

  function Run(st: Clusters, events: seq<Event>): Clusters {
    if events == [] then st else Step(Run(st, events[..|events| - 1]), events[|events| - 1])
  }

  /** A cluster's subnets are those of its index, the node subnet too when it is on one host. */
  predicate InPlace(c: Cluster) {
    ByIndex(c.spec.network) && (c.spec.hosts.None? ==> c.spec.network.nodes == Prefix(NODE_NETS + c.spec.network.index * 256, 24))
  }

  ghost predicate Sound(st: Clusters) {
    && (forall name :: name in st ==> InPlace(st[name]))
    && (forall a, b :: a in st && b in st && a != b ==> st[a].spec.network.index != st[b].spec.network.index)
  }

  lemma PlannedByIndex(u: UserCluster, existing: Option<Cluster>, used: set<int>,
                       lans: Option<map<string, LanFacts>>, operator: Option<string>, c: Cluster)
    requires Resolve(u, existing, used, false, lans, operator) == Ok(c)
    ensures InPlace(c)
    ensures if existing.Some? then c.spec.network.index == existing.value.spec.network.index
            else c.spec.network.index !in used
  {
    hide Problem;
    hide PlanMulti;
    hide PlanSingle;
    hide ResumeProblem;
    NetworkSizes();
    SubnetsByIndex(u, existing, used, false, lans, operator, c);
    if u.hosts.None? {
      ResolvedSingle(u, existing, used, false, lans, operator, c);
    } else {
      ResolvedMulti(u, existing, used, false, lans, operator, c);
    }
  }

  lemma StepKeepsSound(st: Clusters, e: Event)
    requires Sound(st)
    ensures Sound(Step(st, e))
  {
    hide Resolve;
    hide InPlace;
    match e
    case Create(u, elsewhere, lans, operator) =>
      var existing, used := Existing(st, u.name), Used(st) + elsewhere;
      var r := Resolve(u, existing, used, false, lans, operator);
      if r.Ok? {
        PlannedByIndex(u, existing, used, lans, operator, r.value);
        forall name | name in st
          ensures st[name].spec.network.index in used
        {
          assert st[name].spec.network.index in Used(st);
        }
      }
    case Finish(name) =>
      if name in st {
        StatusDoesNotMatter(st[name]);
      }
    case Delete(_) =>
  }

  lemma StatusDoesNotMatter(c: Cluster)
    ensures forall s: Option<Status> :: InPlace(c.(status := s)) == InPlace(c)
  {
  }

  lemma {:induction false} RunKeepsSound(events: seq<Event>)
    ensures Sound(Run(map[], events))
  {
    if events != [] {
      RunKeepsSound(events[..|events| - 1]);
      StepKeepsSound(Run(map[], events[..|events| - 1]), events[|events| - 1]);
    }
  }

  /** After any run, two live clusters share no pod, service or VIP address (and no node address, on
      one host), and every pod subnet lies in 10.244.0.0/16. */
  lemma LiveClustersAreApart(events: seq<Event>, a: string, b: string)
    requires a in Run(map[], events) && b in Run(map[], events) && a != b
    ensures var x, y := Run(map[], events)[a].spec, Run(map[], events)[b].spec;
            && x.network.index != y.network.index && x.network.index <= 31
            && Apart(x.network.pods, y.network.pods)
            && Apart(x.network.services, y.network.services)
            && (x.network.vip.Some? ==> x.network.vip != y.network.vip)
            && (x.hosts.None? && y.hosts.None? ==> Apart(x.network.nodes, y.network.nodes))
            && Inside(x.network.pods, Prefix(POD_NETS, 16))
  {
    RunKeepsSound(events);
    NetworkSizes();
    var x, y := Run(map[], events)[a], Run(map[], events)[b];
    assert InPlace(x) && InPlace(y);
    hide Size;
    hide Run;
  }

  // ---- what one event changes

  /** No create resumes it: it has finished, or an older version wrote it without a status. */
  predicate Settled(c: Cluster) { c.status.None? || c.status.value.ready }

  /** Every event is about one cluster. A create that is accepted writes what was planned, anew or in
      place of the interrupted one. A finished create is marked so and nothing else of it changes; a
      delete frees its index. */
  lemma EventMeans(st: Clusters, e: Event)
    ensures var name := if e.Create? then e.u.name else e.name;
            forall n :: n != name ==> (n in Step(st, e) <==> n in st) && (n in st ==> Step(st, e)[n] == st[n])
    ensures e.Finish? && e.name in st && st[e.name].status.Some? ==>
              && e.name in Step(st, e) && Settled(Step(st, e)[e.name])
              && Step(st, e)[e.name].(status := st[e.name].status) == st[e.name]
    ensures e.Create? && (e.u.name in st ==> !Settled(st[e.u.name])) ==>
              forall c :: Resolve(e.u, Existing(st, e.u.name), Used(st) + e.elsewhere, false, e.lans, e.operator) == Ok(c) ==>
                e.u.name in Step(st, e) && Step(st, e)[e.u.name] == c
    ensures e.Delete? ==> e.name !in Step(st, e)
    ensures e.Delete? && Sound(st) && e.name in st ==> Used(Step(st, e)) == Used(st) - {st[e.name].spec.network.index}
  {
    hide Resolve;
    if e.Delete? && Sound(st) && e.name in st {
      var after, index := Step(st, e), st[e.name].spec.network.index;
      assert index !in Used(after);
      forall i | i in Used(st) && i != index
        ensures i in Used(after)
      {
        var n :| n in st && st[n].spec.network.index == i;
        assert n in after;
      }
    }
  }

  predicate Spares(e: Event, name: string) { e.Delete? ==> e.name != name }

  /** A cluster whose create has finished, or that has no status, stays as it is, whatever is created, until it is deleted. */
  lemma {:induction false} FinishedStays(st: Clusters, events: seq<Event>, name: string)
    requires name in st && Settled(st[name]) && forall e :: e in events ==> Spares(e, name)
    ensures name in Run(st, events) && Run(st, events)[name] == st[name]
  {
    if events != [] {
      hide Step;
      hide Spares;
      hide Settled;
      var n := |events| - 1;
      assert events[n] in events && forall e :: e in events[..n] ==> e in events;
      FinishedStays(st, events[..n], name);
      FinishedStep(Run(st, events[..n]), events[n], name);
    }
  }

  lemma FinishedStep(st: Clusters, e: Event, name: string)
    requires name in st && Settled(st[name]) && Spares(e, name)
    ensures name in Step(st, e) && Step(st, e)[name] == st[name]
  {
    hide Resolve;
  }
}
