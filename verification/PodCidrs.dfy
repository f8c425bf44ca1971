/** Recording the pod CIDRs Kubernetes reports (create/cni.py: with_pod_cidrs, host_routes). */
module PodCidrs {
  import opened Basics
  import opened Addresses
  import opened ClusterModel

  /** What a registered node reports: nothing yet, text that is no network, or a network. */
  datatype Report = Empty | Unreadable | Net(cidr: Prefix)

  type Reports = map<string, Report>

  datatype CidrError = BadCidr(node: string) | OutsidePods(node: string) | NoCidrYet(node: string)

  /** a.subnet_of(b). */
  predicate SubnetOf(a: Prefix, b: Prefix) {
    b.base <= a.base && a.base + Size(a.len) <= b.base + Size(b.len)
  }

  function Recorded(n: Node, pods: Prefix, reports: Reports): Result<Node, CidrError> {
    if n.name !in reports || reports[n.name].Empty? then Ok(n)
    else
      match reports[n.name]
      case Unreadable => Err(BadCidr(n.name))
      case Net(cidr) =>
        if !SubnetOf(cidr, pods) || cidr == pods then Err(OutsidePods(n.name))
        else Ok(n.(podCidr := Some(cidr)))
      case Empty => Ok(n)
  }

  function RecordedAll(nodes: seq<Node>, pods: Prefix, reports: Reports): (r: Result<seq<Node>, CidrError>)
    ensures r.Ok? ==> |r.value| == |nodes|
  {
    if nodes == [] then Ok([])
    else
      var k := |nodes| - 1;
      var before :- RecordedAll(nodes[..k], pods, reports);
      var n :- Recorded(nodes[k], pods, reports);
      Ok(before + [n])
  }

  /** with_pod_cidrs: the first report that is unreadable or no proper part of the pod subnet fails all. */
  function WithPodCidrs(c: Cluster, reports: Reports): Result<Cluster, CidrError> {
    var nodes :- RecordedAll(c.spec.nodes, c.spec.network.pods, reports);
    Ok(c.(spec := c.spec.(nodes := nodes)))
  }

  lemma {:induction false} RecordedAt(nodes: seq<Node>, pods: Prefix, reports: Reports, k: nat)
    requires k < |nodes| && RecordedAll(nodes, pods, reports).Ok?
    ensures Recorded(nodes[k], pods, reports) == Ok(RecordedAll(nodes, pods, reports).value[k])
  {
    if k < |nodes| - 1 {
      RecordedAt(nodes[..|nodes| - 1], pods, reports, k);
    }
  }

  lemma {:induction false} RecordingStops(nodes: seq<Node>, pods: Prefix, reports: Reports, k: nat)
    requires k <= |nodes| && RecordedAll(nodes[..k], pods, reports).Err?
    ensures RecordedAll(nodes, pods, reports) == RecordedAll(nodes[..k], pods, reports)
  {
    if k < |nodes| {
      assert nodes[..|nodes| - 1][..k] == nodes[..k];
      RecordingStops(nodes[..|nodes| - 1], pods, reports, k);
    } else {
      assert nodes[..k] == nodes;
    }
  }

  /** The recording pass over the nodes. */
  method RecordPodCidrs(c: Cluster, reports: Reports) returns (r: Result<Cluster, CidrError>)
    ensures r == WithPodCidrs(c, reports)
  {
    var pods := c.spec.network.pods;
    var nodes: seq<Node> := [];
    for k := 0 to |c.spec.nodes|
      invariant RecordedAll(c.spec.nodes[..k], pods, reports) == Ok(nodes)
    {
      assert c.spec.nodes[..k + 1][..k] == c.spec.nodes[..k];
      var n := c.spec.nodes[k];
      if n.name !in reports || reports[n.name].Empty? {
        nodes := nodes + [n];
        continue;
      }
      if reports[n.name].Unreadable? {
        RecordingStops(c.spec.nodes, pods, reports, k + 1);
        return Err(BadCidr(n.name));
      }
      var cidr := reports[n.name].cidr;
      if !SubnetOf(cidr, pods) || cidr == pods {
        RecordingStops(c.spec.nodes, pods, reports, k + 1);
        return Err(OutsidePods(n.name));
      }
      nodes := nodes + [n.(podCidr := Some(cidr))];
    }
    assert c.spec.nodes[..|c.spec.nodes|] == c.spec.nodes;
    return Ok(c.(spec := c.spec.(nodes := nodes)));
  }
}
