# A verified model of tkctl's planning, meshing, deleting and rendering

tkctl plans a Kubernetes cluster (addresses, names, hosts, subnets), drives hosts to that plan through
phases that may be interrupted and run again, links clusters into a Cluster Mesh, and takes clusters
and nodes away again. This project models the decisions under that I/O and proves what they promise.
`dafny verify dfyconfig.toml` checks all of it.

## The parts

- **Planner and node verbs**: `Addresses`, `Ranges`, `Allocation`, `Placement`, `Planner`, `Resolved`,
  `Accepts`, `Resume`, `Indices`, `PodCidrs`, `NodeEdits`, `NodeVerbs`, `Reachable`, `Reserved`, `Clashes`, `Preflight`, `Written`
  over the entities of `ClusterModel`. Addresses are bounded integers with their strict dotted-decimal text; ranges
  are parsed and printed character by character. `Accepts` says rule by rule which definitions are accepted and
  what planning fills in, `NodeVerbs` field by field what each verb does. `Reachable` holds the one invariant over every
  cluster.yaml the verbs can produce, whether the create was new or resumed another; `Written` says what
  such a file then meets without being asked (routers that can be derived, hosts, container names).
  `Preflight` holds the two checks of preflight that later theorems lean on: hostnames and silence on
  the range. `Witnesses` gives a concrete accepted definition for every failure listed below that begins
  with one, `WitnessRuns` a concrete run for those that begin with commands.
- **Cluster Mesh record**: `Mesh` (the class that rewrites records one by one), `MeshGraph` (the record
  as a graph: components, connect and its crash points), `MeshLeaving` (disconnect, and the mesh phase
  of a delete), `ForgetPeer` (the secret patch, over RFC 6901 paths).
- **Resumable phases**: `Runner` (done, run, done again, cut after any number of commands,
  `--phase` and `--skip-phases` included), `DeleteCluster` with `DeleteShrinks`, `DeleteResumes`,
  `DeletePhases`, `DeleteSafety`, `DeleteOrder`, `DeleteShims` and `DeleteRuns`, and
  `DeleteNode` with `DeleteNodeAchieves`, `DeleteNodeResumes`, `DeleteNodeOrder` and `DeleteNodeRuns`. A run gets a budget
  of commands; a crash, a failing command and an unreachable host are all a budget that ran out. The
  `*Runs` modules hold the run functions as loops over a mutable state and show that each issues
  exactly its phase's commands, so that every crash state is covered.
- **~/.kube/config**: `Kubeconfig`, a class over the document's three lists and current context.
- **Rendered hosts**: `Hosts` (which machine a name stands for), `Units` and `UnitsHold` (which host
  gets which file and link, for every possible template text), `RenderedFiles` (the same path by path),
  `SharedHosts` (host entries that lead to
  one machine), `NodeFs` (cpumap, cpulist and links), `RangeRoutes` (a range as networks), `Routes`
  (longest-prefix routing of pod addresses, recording CIDRs).
- **Vocabulary**: `Basics`, `Numbers`, `Text`, `Sorting`.

A method that changes state is proved against a function of the state before it, and the lemmas in the
table are about those functions.

## What the proofs show about the code

- `Cluster.routers` and `allocate` agree on the two router addresses exactly when the first three pool
  addresses are consecutive; `range_start` cannot be read at all when the first segment is a lone
  address followed by others. Printing the placement derives the routers before cluster.yaml is saved,
  so such a definition is accepted and then not written: a create on several hosts with two routers
  saves its file exactly when the second address of the pool follows the first.
- With a range written out of order, such as `.20-.21,.23,.22,.24-.29`, planning gives a node the address
  of the second router: exactly when the second address after the first is among those dealt to the
  nodes. Some sequence of verbs does exactly when it is anywhere in the node region.
- An accepted definition gives distinct node names exactly when no explicit name equals an automatic
  one, and a single-host cluster keeps its nodes below the LoadBalancer addresses exactly up to 199.
  Container names are distinct exactly when, besides, no explicit name is that of a router container.
- Planning does not look for the LAN's gateway in the range. A node gets its address exactly when it is
  among the addresses dealt, and can get it later exactly when it is in the node region. A fresh whole
  create asks the LAN first, so nothing that answers there is ever a node's address.
- Planning accepts two host entries with one ssh target. Preflight refuses them whatever the machine is
  called, so every file a whole create writes has hosts that are different machines, and `units.run`
  makes `units.done` true for it from every state. A create that skips preflight writes them; `units.done`
  can then hold exactly when such entries run nothing and leave by one interface.
- Preflight's hostname check compares a remote entry with the operator only when the operator is itself
  a host entry named before it. It gives every machine a hostname of its own exactly when no remote entry
  has the operator's; one that has is let through otherwise.
- The subnet index is never above 31: building the network raises first.
- Resuming with a definition without hosts is not compared with what is being created. It moves no node
  exactly when the create was on one host too and both definitions expand to the same names in the same
  order, and nothing at all exactly when, besides, both come to one floating address. No resume, with
  hosts or without, keeps a recorded pod CIDR.
- `members` finds every recorded peer of what it finds, for all name lists, exactly when the recorded
  graph is a union of full meshes; `connect` keeps a record symmetric exactly when no member has a
  recorded peer outside. Connecting a, b and c, disconnecting a and b and connecting d and a leaves b
  listing c, and c not listing b.
- A `disconnect` cut between its two writes is refused in the same order and completed in the other
  order. A delete of a running cluster cut between those writes leaves the peer listing it; a delete of
  a stopped cluster whose peers can be reached never does, however often it is cut.
- `delete cluster --phase P` can be run at any time, and cut, without harm for every phase but `state`.
  `--phase state` takes the record away; the cluster can be resumed afterwards exactly when the cut left
  the record there or all phases before it were done.
- While no router container runs, a node deletion is cut or refused but never finishes: its units phase
  cannot be done.
- A delete cut after cluster.yaml has gone and before the kubeconfig phase leaves the kubeconfig entry,
  and no other cut does.
- A delete cut between a host's last route and its shim leaves the shim, and no rerun removes it: the
  routes phase asks for routes only. No other cut does, but a host without a cluster route to begin with
  keeps its shim through every delete.
- A node deletion cut among the copies of the new cluster.yaml leaves the remaining copies listing the
  node: the rerun is refused because the operator's file no longer does.
- With host entries that are different machines every unit is rendered on exactly one, but for a host
  entry literally called `operator` on another machine while the operator runs no node: its units are
  rendered on both, and the routes unit on neither.
- A pod address goes where it should exactly when no route of the shim to the cluster's own range is as
  long as the one there; outside the pool none holds it. A range inside the pod subnet is accepted, and
  its addresses go out of the shim.
- A full path given as `--phase` runs that leaf alone exactly when no other leaf ends in it, which only a
  root's name can fail.
- After `host-routes` has run it is done exactly when no node that reports an empty CIDR has one on
  record.

## Model

| member | source | states |
|---|---|---|
| Addresses.AddrTextParses | src/tk8s/create/plan.py:127-130 | the dotted-decimal text of every address parses back to it and splits into its four octets |
| Addresses.ParseAddrExactly | src/tk8s/create/plan.py:127-130 | a text denotes an address exactly when it is that address's printed form: no other spelling is accepted |
| Ranges.PoolDenotes | src/tk8s/create/plan.py:119-143 | the parser accepts exactly the texts that denote a pool (every segment an ordered A-B, no address twice) and returns that pool |
| Ranges.ParseRange | src/tk8s/create/plan.py:119-143 | the parsing loops compute that, and an error means the text denotes no pool |
| Ranges.RunsAreMaximal | src/tk8s/create/plan.py:146-156 | the printed segments cover the addresses in order and no two neighbouring segments could be one |
| Ranges.MaximalRunsUnique | src/tk8s/create/plan.py:146-156 | there is only one such cut of an address list |
| Ranges.PrintRanges | src/tk8s/create/plan.py:146-156 | the one-pass loop with its final sentinel prints those segments |
| Ranges.RoundTrip | src/tk8s/create/plan.py:119-156 | printing then parsing gives the list back if and only if it is non-empty and without duplicates |
| Ranges.SameTextSamePool | src/tk8s/create/plan.py:450-451 | two accepted range texts are printed alike exactly when they denote the same pool |
| Ranges.LastOctetMeansFullEnd | src/tk8s/create/plan.py:128-137 | A-d with a bare last octet parses as A-B with B's other octets copied from A, errors included |
| ClusterModel.CheckHosts | src/tk8s/model.py:170-198 | the validator accepts a spec exactly when hosts, range and placement go together, names are distinct, at most one host is local and every placement is listed |
| Allocation.AllocationPartitionsPool | src/tk8s/create/plan.py:168-205 | the pool is, in order and without remainder, router, router containers, shim, node region (allocated nodes first), mesh address and LoadBalancer tail; the recorded tail text reads back |
| Allocation.RegionAvoidsReserved | src/tk8s/create/plan.py:199-205 | the node region contains no address before or after it |
| Allocation.FirstRun | src/tk8s/create/plan.py:146-156 | the first printed segment is a lone address exactly when the second address does not follow the first |
| Allocation.RangeStartOfPrinted | src/tk8s/model.py:252-257 | range_start of a recorded range is the pool's first address, and fails exactly when the first segment is a lone address followed by others |
| Allocation.RoutersAgree | src/tk8s/model.py:270-297 | the derived router containers have the addresses allocate reserves if and only if the first three pool addresses are consecutive |
| Placement.DealRole | src/tk8s/create/plan.py:213-222 | the dealing pass over one role yields that role's hosts and the turn to carry on from |
| Placement.CollectRole | src/tk8s/create/plan.py:225-230 | the split by role takes back exactly the hosts dealt to that role |
| Placement.Place | src/tk8s/create/plan.py:208-237 | the two passes, the split and the final reshuffle end in the round-robin placement: pins kept, the j-th unpinned node (control planes first) on hosts[j mod n] |
| Placement.PlacementIsEven | src/tk8s/create/plan.py:208-237 | host k gets exactly its share of the unpinned nodes, so any two hosts differ by at most one |
| Placement.MajorityHost | src/tk8s/create/plan.py:247-252 | whatever order the set is walked in, the answer is the unique host with more than half of the control planes, or none |
| Placement.SpreadHasNoMajority | src/tk8s/create/plan.py:208-252 | three or more unpinned control planes on three or more hosts leave no host with a majority |
| Placement.TwoHostsHaveMajority | src/tk8s/create/plan.py:247-252 | an odd number of control planes on at most two hosts always leaves one host with a majority |
| Planner.SearchIndex | src/tk8s/create/plan.py:280-283 | the search ends with the least unused index |
| Planner.ExpandNodes | src/tk8s/create/plan.py:337-370 | the counting loop yields the node list given by name, address and host of each expanded position |
| Resolved.NamesDistinctIffClear | src/tk8s/create/plan.py:349-370 | node names are distinct if and only if no explicit name equals an automatic one of the same definition |
| Resolved.ResolvedMulti | src/tk8s/create/plan.py:438-479 | a planned multi-host cluster is the allocation and placement of its definition put together |
| Resolved.ResolvedFitsLan | src/tk8s/create/plan.py:442-468 | every host is on the one LAN that becomes the cluster's, and the range lies inside it, clear of its network and broadcast addresses and of every host's own |
| Resolved.ResolvedSingle | src/tk8s/create/plan.py:428-437 | a planned single-host cluster has the index's /24 and addresses .1 upwards |
| Resolved.ResolvedConsistent | src/tk8s/model.py:170-198 | every cluster.yaml planning writes satisfies the file's own validator |
| Resolved.PlannedStatus | src/tk8s/create/plan.py:488-497 | a new cluster is recorded sized, not ready, with the operator's hostname and no mesh peers; a resumed one keeps its status |
| Accepts.AcceptedIff | src/tk8s/create/plan.py:38-116 | planning accepts a definition if and only if it follows every rule, written out one by one, its index is free (or overlap is allowed), the number of routers is kept, it fits its subnet or its hosts' LAN, and on several hosts it agrees with the create it resumes |
| Accepts.ProblemIff | src/tk8s/create/plan.py:38-116 | the definition's own rules: nodes, names, an odd number of control planes up to five, and what one host and several hosts may say |
| Accepts.PickIndexIff | src/tk8s/create/plan.py:266-283 | the index is the recorded one, else that of the 172.22.N.0/24 asked for, else the smallest unused |
| Accepts.NetworkIff | src/tk8s/create/plan.py:300-319 | a floating address of one's own is .220 to .253 and not a router's, a virtual one is a host address of the index's subnet and only for bgp, the index is at most 31 |
| Accepts.PlanMultiIff | src/tk8s/create/plan.py:438-479 | several hosts share one LAN, the range lies in it clear of its network and broadcast addresses and of the hosts' own, and has an address for everything |
| Accepts.ResumeIff | src/tk8s/create/plan.py:500-532 | a resume is let through exactly when hosts, interfaces, node names, addresses and hosts, router hosts and range are, one by one, those of the interrupted create |
| Accepts.PlannedNetwork | src/tk8s/create/plan.py:286-334 | every field of the planned network, with the literal subnets of the index, defaults and wishes, and router-1 and -2 on the first and second host unless they are named |
| Accepts.PlannedNodes | src/tk8s/create/plan.py:337-370 | node by node: role, size and joining of its group, its given name or the number within its role, no CIDR |
| Accepts.PlannedHosts | src/tk8s/create/plan.py:480 | the recorded hosts are the definition's in order, with the interface each one reported |
| Accepts.PlannedRouters | src/tk8s/model.py:270-297 | names, directories, addresses, priorities and hosts of the routers of a planned cluster: .251 and .252 on one host, the two addresses after the range's first on several, router-1 before router-2 |
| Resume.ResumeMovesNothing | src/tk8s/create/plan.py:500-532 | an accepted multi-host resume keeps every name, address, host and interface, the routers, shim, mesh address and LoadBalancer range |
| Resume.HostlessResumeMovesNoNodeIff | src/tk8s/create/plan.py:400-497 | a resume with a definition without hosts moves no node if and only if the create was on one host too and both definitions expand to the same names in the same order |
| Resume.HostlessResumeMovesNothingIff | src/tk8s/create/plan.py:286-334 | it leaves nodes, routers, floating, mesh and shim addresses and the LoadBalancer range where they were if and only if, besides, both definitions come to the same floating address |
| Witnesses.RouterMoved | src/tk8s/create/plan.py:428-437 | a create on one host, resumed with another floating address, keeps its node and moves its router |
| Resume.ResumeKeepsCidrsIff | src/tk8s/create/plan.py:400-497 | a resume, with hosts or without, keeps the recorded pod CIDRs if and only if there are none |
| Witnesses.HostsLost | src/tk8s/create/plan.py:428-437 | a create on a host, resumed with its definition minus the hosts, is accepted and moves its node off the host |
| Resolved.SubnetsByIndex | src/tk8s/create/plan.py:286-334 | pod, service, VIP and single-host node subnets are those of the index, which is at most 31 |
| Indices.RunKeepsSound | src/tk8s/create/plan.py:412-417 | over any sequence of creates, finished creates and deletes, live clusters have distinct indices and the subnets of their index |
| Indices.LiveClustersAreApart | src/tk8s/create/plan.py:286-334 | any two live clusters share no pod, service, VIP or (single-host) node address, and pod subnets lie inside 10.244.0.0/16 |
| Indices.EventMeans | src/tk8s/verbs.py:58-114 | an event changes its own cluster alone; an accepted create writes its plan, its end only marks it ready, a delete frees its index |
| Indices.FinishedStays | src/tk8s/verbs.py:59-67 | a finished cluster, or one without a status, is planned anew by no create and stays as it is until it is deleted |
| PodCidrs.RecordPodCidrs | src/tk8s/create/cni.py:275-292 | the recording loop keeps, records or refuses each node's CIDR in order, refusing anything but a proper part of the pod subnet |
| NodeEdits.NextNameIsNew | src/tk8s/node/common.py:19-25 | the next name is taken by no node, and its number exceeds every number in use for the role |
| NodeEdits.NextIpIsFree | src/tk8s/node/common.py:28-50 | the next address is free and lies in the node region (offset 1 to 199 on one host) |
| NodeEdits.LeastLoaded | src/tk8s/node/common.py:53-56 | the chosen host has the fewest nodes and is the first such in cluster.yaml order |
| NodeEdits.AddKeeps | src/tk8s/node/common.py:73-96 | an accepted add keeps the invariant of cluster.yaml |
| NodeEdits.RemoveKeeps | src/tk8s/node/common.py:99-113 | an accepted delete keeps it, the first control plane included |
| NodeEdits.ApplyKeeps | src/tk8s/node/common.py:19-118 | every verb, accepted or refused, keeps names and addresses distinct and in the region, hosts listed, at most five control planes, and the rest of the file as it was |
| NodeVerbs.JoinMeans | src/tk8s/node/common.py:116-118 | join sets the mark of the nodes of that name and changes no other field and no other node |
| NodeVerbs.AddMeans | src/tk8s/node/common.py:73-96 | an accepted add leaves all earlier nodes equal and appends one that has not joined, with the cpu and memory asked for or those of the first node of its role, and no CIDR |
| NodeVerbs.AddAcceptedIff | src/tk8s/node/common.py:59-91 | an add is accepted if and only if there are not five control planes already, an address is left, and the host asked for is one of the cluster's |
| NodeVerbs.AddressLeftIff | src/tk8s/node/common.py:28-50 | an address is left exactly when the node region has one no node has, or on one host the highest offset is below 199 |
| NodeVerbs.NextNameIs | src/tk8s/node/common.py:19-25 | the exact next name: the role's stem and one more than the highest number in use |
| NodeVerbs.NextIpIs | src/tk8s/node/common.py:28-50 | the exact next address: the first free one of the region, on one host one after the highest |
| NodeVerbs.RemoveMeans | src/tk8s/node/common.py:99-113 | an accepted delete leaves exactly the other nodes, equal and in order; it is refused for the first control plane and for a name that is not there |
| NodeVerbs.CidrsMean | src/tk8s/create/cni.py:275-292 | recording sets the CIDR of every node that reports one, keeps every other field and node, and is refused exactly when a report is no proper part of the pod subnet |
| NodeVerbs.SinceMeans | src/tk8s/node/common.py:73-118 | since when a name has been listed without a break |
| NodeVerbs.ReachedJoined | src/tk8s/node/common.py:73-118 | over every sequence of verbs a node has joined if and only if it had before under that name and was not removed since, or a join of its name came after it was added |
| NodeVerbs.SameSince | src/tk8s/node/common.py:73-118 | and every node keeps name, role, address, host, cpu and memory from the file or add it comes from |
| NodeEdits.ReachedKeeps | src/tk8s/node/common.py:19-118 | so does every finite sequence of verbs |
| NodeEdits.AutoAddKeepsSpread | src/tk8s/node/common.py:53-70 | an add that names no host never widens the gap between fullest and emptiest host beyond one |
| NodeEdits.AutoAddsKeepSpread | src/tk8s/node/common.py:53-70 | neither does any number of them |
| Reachable.PlannedInvariant | src/tk8s/create/plan.py:337-370 | a planned cluster, of a new create or a resumed one, satisfies the verbs' invariant if and only if no explicit name equals an automatic one and, on one host, it has at most 199 nodes |
| Witnesses.NameClash | src/tk8s/create/plan.py:349-357 | an accepted definition whose worker has the name its control plane gets |
| Witnesses.MeshClash | src/tk8s/create/plan.py:359-367 | an accepted definition of two hundred nodes, the last of which has the mesh address |
| Reachable.UpwardsInRegion | src/tk8s/create/plan.py:359-367 | on one host the addresses stay below the reserved ones exactly up to 199 nodes |
| Reachable.EveryReachableFile | src/tk8s/node/common.py:19-118 | every cluster.yaml reachable by any sequence of verbs from a clear create, new or resumed, satisfies the invariant, with the original first control plane and network |
| Reachable.UnpinnedClusterStaysEven | src/tk8s/node/common.py:53-70 | created without pins and grown without --host, hosts never differ by more than one node |
| Reserved.NodesAvoidReserved | src/tk8s/create/plan.py:168-205 | on every cluster.yaml reachable from a clear create, new or resumed, no node has the floating, shim or mesh address, one of the LoadBalancer pool or, on one host, the gateway |
| Reserved.SingleAvoids | src/tk8s/create/plan.py:286-334 | on one host none has a router container's address either |
| Clashes.PlannedClashIff | src/tk8s/model.py:270-297 | on several hosts with two routers planning gives a node a router's address if and only if the second address after the pool's first is among those dealt to the nodes |
| Clashes.ReachableClashIff | src/tk8s/node/common.py:28-50 | some sequence of verbs gives a node a router's address if and only if that address is anywhere in the node region |
| Clashes.PlannedTakenIff | src/tk8s/create/plan.py:168-196 | on several hosts planning gives a node an address if and only if it is among those dealt from the pool |
| Clashes.ReachableTakenIff | src/tk8s/node/common.py:28-50 | some sequence of verbs gives a node an address if and only if it is in the node region |
| Clashes.GatewayTakenIff | src/tk8s/create/plan.py:442-468 | the gateway recorded is that of the LAN; a node has its address after planning if and only if it is among those dealt, and after some sequence of verbs if and only if it is in the node region |
| Clashes.AnsweringNeverTaken | src/tk8s/create/preflight.py:228-246 | what answers on the LAN before a fresh whole create is never a node's address, whatever verbs follow |
| Witnesses.GatewayTaken | src/tk8s/create/plan.py:442-468 | an accepted and saved definition whose node has the LAN gateway's address |
| Witnesses.RouterClash | src/tk8s/model.py:288-297 | an accepted and saved definition whose node has router-2's address |
| Written.SavesIff | src/tk8s/create/plan.py:575-600 | an accepted definition is written if and only if it is for one host, has one router, or its pool's second address follows the first; what is written has routers |
| Witnesses.NoRouters | src/tk8s/create/plan.py:575-600 | an accepted definition of which nothing is written |
| Written.EveryWrittenFile | src/tk8s/model.py:270-297 | every file reached from a written one has derivable routers, passes its validator and can be deleted, and its hosts are different machines exactly when no two entries of the definition have one ssh target |
| Preflight.CheckHostnames | src/tk8s/create/preflight.py:167-179 | one pass with the hostnames seen so far refuses an entry that gives an earlier one's, but for the exemption of the operator |
| Preflight.PassMeans | src/tk8s/create/preflight.py:167-179 | it passes if and only if no host entry but the operator's own gives the hostname of an earlier entry |
| Preflight.PassIffOwnHostnames | src/tk8s/create/preflight.py:168-169 | it passes and no remote entry gives the operator's hostname if and only if every machine has a hostname of its own and entries are different machines |
| Preflight.PassedHostsApart | src/tk8s/create/preflight.py:167-179 | entries that pass have different ssh targets, whatever the machines are called |
| Preflight.AnswersStopFreshOnly | src/tk8s/create/preflight.py:228-246 | an answer for an address of the range stops a fresh create, and not one whose own nodes already run |
| Witnesses.PosingHost | src/tk8s/create/preflight.py:173-174 | an accepted definition with a remote host that gives the operator's hostname and passes |
| Written.WholeCreateRenders | src/tk8s/create/__init__.py:6-15 | for every file reached from one a whole create wrote, units.run makes units.done true from every state, for every template text |
| Written.EveryCreatedIsSized | src/tk8s/create/plan.py:488-497 | every file reached from a create without an existing record is sized |
| Written.CreatedNodesAreSized | src/tk8s/create/units.py:149-156 | so after units.run each of its nodes has its nine files and exactly the cpu entries cpu0 to cpu(k-1) |
| Written.SkippedPreflightRenders | src/tk8s/create/units.py:369-392 | for files of a create without preflight, with the templates' texts and distinct names: if entries on one machine run nothing and leave by one interface run always makes done true, and otherwise no state is done |
| Written.ContainerNamesDistinctIff | src/tk8s/create/plan.py:349-370 | all container names of a planned cluster are distinct if and only if no explicit node name equals an automatic one or a router's |
| Written.EveryContainerNameDistinct | src/tk8s/node/common.py:19-118 | and they stay distinct through every sequence of verbs |
| Witnesses.RouterNameClash | src/tk8s/model.py:270-297 | an accepted definition with a node named like the router container |
| Mesh.Operator.Members | src/tk8s/mesh/ops.py:26-48 | the worklist loop terminates and returns the discovered clusters sorted, or the first cluster or peer that cannot be loaded |
| Mesh.Operator.FindPeers | src/tk8s/mesh/ops.py:37-47 | one cluster's peers are found and appended to the worklist, and every appended one is found |
| Mesh.MembersFails | src/tk8s/mesh/ops.py:31-47 | when it fails, the cluster it names was asked for and does not exist, or the peer it names is recorded by one asked for and does not exist |
| Mesh.Operator.RecordPeers | src/tk8s/mesh/ops.py:106-110 | one record becomes the sorted peer list and no other changes |
| Mesh.Operator.Connect | src/tk8s/mesh/ops.py:113-168 | interrupted after any number of records it leaves exactly that prefix of them written, and a refused connect writes nothing |
| Mesh.Operator.Disconnect | src/tk8s/mesh/ops.py:227-260 | it is refused unless the first cluster lists the second, and writes the first's record, then the second's, stopping where it is cut |
| Mesh.Operator.Leave | src/tk8s/delete.py:68-92 | the mesh phase of a delete writes, peer by peer, the records the running and reachable states call for, in that order |
| MeshGraph.ComponentOfClique | src/tk8s/mesh/ops.py:26-48 | in a union of full meshes a cluster is connected to another exactly when it is it or lists it |
| MeshGraph.MembersAreComponents | src/tk8s/mesh/ops.py:26-48 | on a union of full meshes members is the sorted union of the named clusters' components |
| MeshGraph.ClosedForAllNamesIffCliques | src/tk8s/mesh/ops.py:31-47 | members is closed under recorded peers for every list of names if and only if the symmetric record is a union of full meshes |
| MeshGraph.ConnectRecords | src/tk8s/mesh/ops.py:158-161 | after a connect every member lists exactly the other members and other records are untouched |
| MeshGraph.ConnectKeepsCliques | src/tk8s/mesh/ops.py:113-168 | a connect of whole components leaves a union of full meshes |
| MeshGraph.ConnectSymmetricIffClosed | src/tk8s/mesh/ops.py:158-161 | a connect keeps a symmetric record symmetric if and only if its members have no recorded peer outside |
| WitnessRuns.MeshBroken | src/tk8s/mesh/ops.py:26-48 | connect a b c, disconnect a b, connect d a: b lists c and c does not list b |
| MeshGraph.RerunConnect | src/tk8s/mesh/ops.py:26-48 | from any half-written record the rerun finds the same members and ends in the same records |
| MeshGraph.ConnectResumes | src/tk8s/mesh/ops.py:113-168 | so it does after any number of runs cut anywhere, and the result is a union of full meshes |
| MeshLeaving.PartedMeans | src/tk8s/mesh/ops.py:255-259 | a completed disconnect removes exactly the two entries naming each other |
| Mesh.WriteOneMeans | src/tk8s/delete.py:68-92 | each drop takes one entry from one record, which is written sorted |
| MeshLeaving.DisconnectKeeps | src/tk8s/mesh/ops.py:227-260 | it keeps the record symmetric, and a union of full meshes exactly when the pair was a mesh of its own |
| MeshLeaving.HalfDisconnect | src/tk8s/mesh/ops.py:256-259 | cut between the writes one side still lists the other, and naming them the other way round completes the disconnect |
| MeshLeaving.LeaveMeans | src/tk8s/delete.py:68-92 | afterwards the deleted cluster lists nobody, reachable peers have forgotten it, everything else is untouched |
| MeshLeaving.LeaveResumes | src/tk8s/delete.py:76-89 | cut anywhere and rerun it ends as an uncut phase, but for the peer whose own write was next while the cluster was running |
| MeshLeaving.LeavesResume | src/tk8s/delete.py:68-92 | after any number of cut mesh phases, each with its own answers, and a whole one: the leaver lists nobody, only entries about it have changed, and a peer still lists it exactly when no attempt told it; one that was listed was then dropped while unreachable or right before a cut of a running leaver |
| ForgetPeer.EscapeRoundTrip | src/tk8s/mesh/ops.py:202-205 | the decoding of section 4 of RFC 6901 undoes the escape for every string |
| ForgetPeer.RemovesInSequence | src/tk8s/mesh/ops.py:202-205 | applied in sequence the removes never miss a key |
| ForgetPeer.PatchRemovesExactlyOwned | src/tk8s/mesh/ops.py:200-205 | the patch never misses a key and leaves exactly the keys that are neither the peer's name nor begin with it and a dot, values unchanged |
| ForgetPeer.OwnersDiffer | src/tk8s/mesh/ops.py:200 | no key is owned by two peers with dot-free names |
| ForgetPeer.OtherPeersKeep | src/tk8s/mesh/ops.py:192-224 | every other peer's keys survive with their values |
| Kubeconfig.Doc.Merge | src/tk8s/kubeconfig.py:74-103 | the in-place list edits are refused exactly when somebody else's entry is in the way, and then change nothing; otherwise they produce the merged document |
| Kubeconfig.RefusedIff | src/tk8s/kubeconfig.py:79-94 | a merge is refused exactly when the first cluster entry of the name is at another server than the incoming one, or there is none and a context or user has its names; which of the three is said |
| Kubeconfig.MergedOne | src/tk8s/kubeconfig.py:95-101 | in a merged section the new entry stands where the first of its name stood, else at the end; all before it is untouched, and after it only entries of that name are missing |
| Kubeconfig.Doc.ReplaceIn | src/tk8s/kubeconfig.py:94-101 | one section: the new entry takes the first slot of its name, later ones of that name go, or it is appended |
| Kubeconfig.Doc.Drop | src/tk8s/kubeconfig.py:57-63 | the entries of the name go from all three sections, and the current context if it was theirs |
| Kubeconfig.Doc.Rename | src/tk8s/kubeconfig.py:39-54 | renaming succeeds exactly on one entry in each section, and changes nothing otherwise |
| Kubeconfig.RenameNames | src/tk8s/kubeconfig.py:39-54 | rename works on exactly one entry per section; the file it makes is this cluster's at this server, keeps the certificate and credentials and has the context literally; renaming again changes nothing |
| Kubeconfig.MergeKeepsForeign | src/tk8s/kubeconfig.py:94-101 | entries of other names keep content and order |
| Kubeconfig.MergeLeavesOne | src/tk8s/kubeconfig.py:94-101 | exactly one entry of the name is left, the new one |
| Kubeconfig.MergeIdempotent | src/tk8s/kubeconfig.py:74-103 | a second merge is not refused and changes nothing |
| Kubeconfig.RemoveUndoesMerge | src/tk8s/kubeconfig.py:106-119 | removing a freshly merged cluster restores the entries with no current context, or empties the file that had none |
| Kubeconfig.RemoveEstablishesGone | src/tk8s/kubeconfig.py:106-119 | after a remove the cluster is not found any more, whatever duplicates there were, and another current context stays |
| Kubeconfig.AnySequence | src/tk8s/kubeconfig.py:57-119 | over any sequence of merges and removes: entries of other names, and a cluster of one of the names that is somebody else's (at a server no event used, or only a context or user) with what goes with it, keep content and order; every live cluster has one entry each |
| Runner.PathsApart | src/tk8s/phases.py:127-133 | in a phase tree of any depth no leaf's path lies at or below another's |
| Runner.PathPicksOne | src/tk8s/phases.py:164-177 | over the runner's whole list of trees a full path given as --phase runs that leaf and no other if and only if no other leaf ends in it, which a path with a slash never fails |
| Runner.SkipsMeans | src/tk8s/phases.py:145 | --skip-phases leaves out a leaf named by its path and every leaf of a tree named by its root, and no other |
| Runner.ToRunMeans | src/tk8s/phases.py:143-147 | the others are run in order |
| Runner.Process.RunAll | src/tk8s/phases.py:143-177 | the runner's loop over the selected leaves drops the skipped ones, skips what is done, runs the rest, asks again, and stops where it is cut or not done; an unknown phase runs nothing |
| Runner.RunStays | src/tk8s/phases.py:143-162 | phases that respect what each counts on can be cut anywhere, never end not done, and finish past the last |
| Runner.RunIsSafe | src/tk8s/phases.py:143-162 | with an invariant and earlier phases staying done, a finished run has every phase done |
| Runner.CutBeforeIsNext | src/tk8s/phases.py:143-162 | a run is cut before a command exactly when one command more would have run that one |
| Runner.EnoughCommands | src/tk8s/phases.py:143-162 | some budget lets such a run finish |
| Hosts.MachinesDistinct | src/tk8s/phases.py:63-70 | entries have different names, and are different machines when their ssh targets differ |
| Hosts.PlacedWhere | src/tk8s/model.py:259-268 | a container runs where the first node of its name is placed, without one where the first router of it is |
| DeleteShrinks.DoneLasts | src/tk8s/delete.py:165-341 | once a phase is done, later commands keep it done |
| DeleteShrinks.PhaseAchieves | src/tk8s/delete.py:165-387 | every phase that runs to its end is done, from any world |
| DeleteShrinks.PlanClass | src/tk8s/delete.py:165-387 | a phase issues only commands of its own kind, and all but the mesh phase only take away |
| DeleteResumes.StatePrefix | src/tk8s/delete.py:22-46 | until every other host's state directory is gone the operator's is untouched |
| DeleteResumes.MeshCopied | src/tk8s/delete.py:68-92 | once the mesh phase has run, the operator's cluster.yaml and every other host's copy say that there is no peer left |
| DeleteResumes.OneAttempt | src/tk8s/delete.py:22-46 | one attempt, cut anywhere, leaves a world the next one can resume |
| DeleteResumes.DeleteResumes | src/tk8s/delete.py:22-396 | after any number of cut attempts cluster.yaml still lists every host or everything else is gone; the attempt that ends leaves nothing on any target host, and the kubeconfig entry exactly when one was cut between cluster.yaml and it |
| WitnessRuns.KubeEntryLeft | src/tk8s/delete.py:334-387 | a delete cut between the state directory and the kubeconfig entry, after which no rerun finds anything and the entry stays |
| DeleteResumes.DeleteFinishes | src/tk8s/phases.py:143-162 | an attempt with enough commands does end |
| DeleteResumes.GoneFromEveryHost | src/tk8s/delete.py:165-341 | gone means: on the operator and every listed host no active target or network service, unit directory, target, routes unit, network, cluster route or state directory |
| DeleteResumes.GoneContainers | src/tk8s/delete.py:235-261 | and no node or router container or node volume on the machine that ran it |
| DeleteShims.RoutesPhaseShim | src/tk8s/delete.py:307-317 | run to its end on several hosts, the routes phase takes the shim from exactly the targets that still had a cluster route |
| DeleteShims.ShimStays | src/tk8s/delete.py:307-317 | after any number of cut attempts a machine that had the shim has it exactly when its routes were off before the first, are not off yet, or an attempt was cut right before the shim's turn |
| DeleteShims.FinishedShim | src/tk8s/delete.py:307-317 | so a finished delete leaves the shim of a host that had routes exactly when an attempt was cut between its last route and its shim |
| DeleteShims.ShimCanStay | src/tk8s/delete.py:307-317 | from every state with cluster.yaml, the shim and a route there is such a cut, after which a rerun finishes and the shim stays |
| DeleteShims.NextCommandIs | src/tk8s/phases.py:143-162 | the command an attempt is cut before is the one that one command more would have run |
| DeleteShims.SingleHostShim | src/tk8s/delete.py:315-317 | on one host no delete, cut or not, changes a shim |
| Witnesses.ShimLeft | src/tk8s/delete.py:307-317 | an accepted cluster on its operator with the pod route and the shim up: the cut, the finished rerun, and the shim still there |
| DeleteOrder.DeleteInOrder | src/tk8s/delete.py:390-400 | at no moment of any cut and rerun delete has a machine lost anything but cluster.yaml's content while its target or network unit was up, or a node's volume while its container was there |
| DeleteOrder.TargetStopsFirst | src/tk8s/delete.py:171-176 | and no network unit was stopped while the target was up |
| DeleteCluster.PhaseNames | src/tk8s/delete.py:390-396 | the nine phases in their order |
| DeletePhases.PhasePicked | src/tk8s/phases.py:165-177 | whatever --phase is given to a delete picks all nine phases, exactly one, or none |
| DeletePhases.MixedDeletesResume | src/tk8s/verbs.py:203-230 | after any mix of full deletes and single phases other than state, each cut anywhere, the record still lists every host or everything else is gone, and a full delete still leaves nothing |
| DeletePhases.StateAlone | src/tk8s/verbs.py:203-230 | delete --phase state leaves the cluster resumable if and only if the record is still there or every phase before it was done |
| DeleteSafety.DeleteTouchesOnlyItsOwn | src/tk8s/delete.py:107-172 | however cut and rerun, no container, volume or route of anything else is touched |
| DeleteSafety.NothingIsOrphaned | src/tk8s/delete.py:107-134 | deleting without cluster.yaml, at no moment does a container or node volume outlive the unit file that names it |
| DeleteSafety.BlindNames | src/tk8s/delete.py:107-134 | without cluster.yaml the nodes and routers are read off the operator's *.container files, the three router names apart from the rest |
| DeleteSafety.BlindDeleteLeaves | src/tk8s/delete.py:107-134 | such a delete, cut any number of times and finished, leaves no container of that list and no volume of its nodes |
| DeleteSafety.RefusedIff | src/tk8s/delete.py:49-60 | a delete is refused exactly when no machine it looks at has a state directory, units, target file or podman network, and then does nothing |
| DeleteRuns.Fleet.RemoveContainers | src/tk8s/delete.py:140-145 | the loop issues exactly the removals of the containers that exist, each on its host |
| DeleteRuns.Fleet.RemoveVolumes | src/tk8s/delete.py:148-154 | the same for one node's volumes |
| DeleteRuns.Fleet.RemoveNodeVolumes | src/tk8s/delete.py:259-261 | and for every node |
| DeleteRuns.Fleet.StopRun | src/tk8s/delete.py:171-176 | the target goes before the network unit |
| DeleteRuns.Fleet.UnitsRun | src/tk8s/delete.py:217-222 | the unit directory goes file by file, then target and routes unit |
| DeleteRuns.Fleet.RoutesRun | src/tk8s/delete.py:311-317 | each route that is present goes, then the shim of a multi-host cluster |
| DeleteRuns.Fleet.StateRun | src/tk8s/delete.py:334-336 | the state directory goes, cluster.yaml possibly first |
| DeleteRuns.Fleet.RunEach | src/tk8s/delete.py:36-44 | a host-side phase visits every target, skipping the done ones when there are several |
| DeleteRuns.Fleet.SaveCluster | src/tk8s/phases.py:89-95 | the operator's cluster.yaml is written before every copy |
| DeleteRuns.Fleet.MeshRun | src/tk8s/delete.py:76-89 | each recorded peer leaves the record in turn, saved each time |
| DeleteRuns.Fleet.RunPhase | src/tk8s/delete.py:390-396 | every phase's run function issues exactly its plan |
| Units.RenderFiles | src/tk8s/create/units.py:61-210 | the render loops fill exactly the host's files in write order |
| Units.Store.WriteHost | src/tk8s/create/units.py:384-388 | one host's files, then its links |
| Units.Store.RemoveStale | src/tk8s/create/units.py:389-392 | the stale links of one host entry |
| Units.Store.Run | src/tk8s/create/units.py:382-392 | all writes on all hosts, then all stale links, in order |
| UnitsHold.RunMeans | src/tk8s/create/units.py:382-392 | on every host of the cluster each path holds what the host's entry wants, nothing if it is a stale link of the host's nodes, and what it held before otherwise |
| UnitsHold.RunElsewhere | src/tk8s/create/units.py:382-392 | machines without an entry are untouched |
| UnitsHold.RunEstablishesDone | src/tk8s/create/units.py:369-392 | run makes done true from any prior state, for any template text |
| UnitsHold.DoneIffUnchanged | src/tk8s/create/units.py:369-392 | done says exactly that run would change nothing; of nodes that are not sized it lets pass the cpu entries a run would remove |
| SharedHosts.DoneIffAgree | src/tk8s/create/units.py:369-392 | whatever entries share a machine and whatever templates say, run makes done true from every state if entries agree on the files they both render there, and no state is done if they do not |
| SharedHosts.OneHome | src/tk8s/create/units.py:61-210 | two entries both render only the network, the audit policy, the target and the routes unit |
| SharedHosts.AgreeIffIdle | src/tk8s/create/units.py:182-192 | with the templates' texts, entries on one machine agree if and only if they have one interface and neither has a node or router |
| Witnesses.SharedMachine | src/tk8s/create/plan.py:79-116 | two host entries on one machine: accepted and saved by planning, refused by preflight under every hostname, and never done when preflight is skipped |
| UnitsHold.StaleLinksMeans | src/tk8s/create/units.py:317-330 | the stale links are exactly the cpu[0-9]+ entries of the host's nodes that no node of the host wants |
| UnitsHold.RenderedOnce | src/tk8s/create/units.py:277-289 | each node's and router's unit is rendered on the machine it is placed on and no other, and additionally on the operator exactly when its host entry is called operator, is another machine, and no entry is local |
| UnitsHold.EveryHostGets | src/tk8s/create/units.py:61-210 | every host gets the target, the node hosts a network, and the operator alone the routes unit; no host gets one when another machine is called operator and no entry is local |
| UnitsHold.NodeFilesPlaced | src/tk8s/create/units.py:149-156 | the files a node mounts are rendered exactly on its own host, and only for sized clusters |
| RenderedFiles.NodeDirectory | src/tk8s/create/nodefs.py:76-98 | on a sized cluster, below a node's directory on its own machine, exactly its nine paths, written out, are rendered and its cpu entries linked; on an unsized one nothing |
| RenderedFiles.NodeDirectoryElsewhere | src/tk8s/create/units.py:149-156 | on every other machine nothing is written there |
| RenderedFiles.RouterDirectory | src/tk8s/create/units.py:106-136 | a router's directory gets exactly its boot file and its two scripts on its own machine |
| RenderedFiles.RouterDirectoryElsewhere | src/tk8s/create/units.py:106-136 | and nothing elsewhere |
| RenderedFiles.PolicyFile | src/tk8s/create/units.py:143-147 | the audit policy goes to every host of a cluster on several hosts, and nothing else goes below logs |
| RenderedFiles.NothingElse | src/tk8s/create/units.py:61-210 | no other path of a host is ever written: only the network, one unit per container, the target, the routes unit and these directories |
| UnitsHold.CpuEntriesExact | src/tk8s/create/nodefs.py:95-98 | after the run a sized node's cpu entries are exactly cpu0 to cpu(k-1), each the link to the real one, leading-zero names gone |
| UnitsHold.RunTouchesOnlyItsOwn | src/tk8s/create/units.py:382-392 | whatever is neither rendered nor stale stays |
| NodeFs.CpuMap | src/tk8s/create/nodefs.py:64-73 | the shifting loop terminates and prints the mask's words from the top |
| NodeFs.CpuMapShape | src/tk8s/create/nodefs.py:64-73 | there are ceil(cpus/32) words and every one after the first is ffffffff |
| NodeFs.CpuMapReadsBack | src/tk8s/create/nodefs.py:64-73 | read back in base 2^32 the text is 2^cpus - 1 |
| NodeFs.MaskBits | src/tk8s/create/nodefs.py:66 | bit i of the mask is set exactly for i below the cpu count |
| NodeFs.CpuListReadsBack | src/tk8s/create/nodefs.py:84 | the cpulist text denotes cpus 0 to cpus - 1 |
| NodeFs.SameCpus | src/tk8s/create/nodefs.py:64-98 | cpumap, cpulist and links name the same cpus |
| DeleteNodeAchieves.PlanOwn | src/tk8s/node/delete.py:42-177 | before the entry a deletion stops, removes and deletes only the node's own unit, container, volumes, directory and route on its own machine, and otherwise only writes what is rendered without it, drops stale cpu links and reloads routers |
| DeleteNodeAchieves.EarlyStays | src/tk8s/node/delete.py:38-125 | drained, stopped, removed stays so under every later command |
| DeleteNodeAchieves.EarlyAchieves | src/tk8s/node/delete.py:42-125 | each of the first four phases is done when it has run |
| DeleteNodeAchieves.TrimmedIs | src/tk8s/node/delete.py:128-132 | the trimmed cluster is the cluster without that node, still valid, with the same routers and hosts |
| DeleteNodeAchieves.NotItsFiles | src/tk8s/node/delete.py:151-169 | nothing rendered without the node is its unit or below its directory, so removing those undoes no rendering |
| DeleteNodeAchieves.UnitsAchieved | src/tk8s/node/delete.py:140-169 | after the units phase the unit and directory are gone, units.done holds for the trimmed cluster and running routers forward to its control planes |
| DeleteNodeResumes.RouteGoesFirst | src/tk8s/node/delete.py:154-163 | within the units phase the pod route is gone from the first command on |
| DeleteNodeResumes.ResetBeforeObject | src/tk8s/node/delete.py:42-60 | after any number of cut attempts, on any cluster, a Node object that has gone went after kubeadm reset, and that was run after the drain |
| DeleteNodeOrder.NodeGoesInOrder | src/tk8s/node/delete.py:38-177 | at every moment of any cut and rerun deletion: the unit stopped only after the Node object went, the container removed only with the unit down, the volumes only with the container gone, the unit file only after all of that |
| DeleteNodeResumes.NodeDeleteResumes | src/tk8s/node/delete.py:38-196 | after any number of cut attempts, routers running or not, cluster.yaml still lists the node or everything of it is gone; only its own things are touched; the attempt that ends leaves it gone and every copy current |
| DeleteNodeResumes.OthersKept | src/tk8s/node/delete.py:140-169 | through all cuts: every path not rendered without the node, not stale and not its own keeps its content, every other unit file stays, every other route stays, and other machines' units, containers and volumes are untouched |
| DeleteNodeResumes.GoneMeans | src/tk8s/node/delete.py:38-185 | gone: no Node object, active unit, container, volume, unit file, directory or pod route, every other file as rendered without it, and a running router, each forwarding to exactly the other control planes |
| DeleteNodeResumes.NodeDeleteFinishesIff | src/tk8s/node/delete.py:134-169 | some number of commands lets an attempt finish, or be refused because the entry is gone, if and only if the entry is gone or a router of the cluster runs |
| DeleteNodeResumes.CopiesLeftBehind | src/tk8s/node/delete.py:184-185 | a cut after m copies leaves the others listing the node through every rerun |
| DeleteNodeRuns.Operator.VolumesRun | src/tk8s/delete.py:148-154 | the loop removes exactly the node's volumes that exist |
| DeleteNodeRuns.Operator.UnitsRun | src/tk8s/node/delete.py:151-169 | route, rendering, unit and directory, routers, in that order |
| DeleteNodeRuns.Operator.EntryRun | src/tk8s/node/delete.py:184-185 | cluster.yaml without the node on the operator, then on the other hosts |
| DeleteNodeRuns.Operator.RunPhase | src/tk8s/node/delete.py:190-196 | every phase's run function issues exactly its plan |
| Routes.PodsReachTheirNode | src/tk8s/create/units.py:213-222 | longest-prefix matching sends every address of a node's CIDR to that node, the first control plane through the pod subnet, whatever else the table holds that does not compete |
| Routes.OtherPodsReachTheFirst | src/tk8s/create/units.py:193-209 | a pod address of no recorded node goes to the first control plane |
| Routes.UnitRoutesQualify | src/tk8s/create/units.py:193-272 | in the table of the operator's own routes unit, on every file reached from planning, nothing competes for pod addresses if and only if no route to the range does |
| RangeRoutes.CollectPrefixes | src/tk8s/create/units.py:37-44 | the loop turns each printed segment into networks |
| RangeRoutes.PrefixesCover | src/tk8s/create/units.py:37-44 | the networks of a printed range hold exactly its addresses and are aligned |
| Routes.ShimRoutesAre | src/tk8s/create/units.py:246-272 | the shim's routes hold exactly the pool, on a cluster with a local host, and nothing otherwise |
| Routes.EveryPodReachesItsNode | src/tk8s/create/units.py:193-272 | that table sends an address of a recorded CIDR to its node if and only if the shim's routes that hold it are shorter; outside the pool always |
| Routes.EveryOtherPodReachesTheFirst | src/tk8s/create/units.py:193-272 | and every other pod address to the first control plane, under the same condition |
| Routes.EveryServiceReachesTheFirst | src/tk8s/create/units.py:193-209 | under the same condition service addresses go to the first control plane, and the virtual address to the router with the floating one |
| Witnesses.PodsToShim | src/tk8s/create/units.py:246-272 | an accepted and saved definition whose range lies in the pod subnet: a pod address goes out of the shim |
| Routes.PartIsLonger | src/tk8s/create/cni.py:289-290 | an accepted CIDR has a longer prefix than the pod subnet |
| Routes.OnlyAcceptedCidrs | src/tk8s/create/cni.py:275-292 | no sequence of verbs records a CIDR that is not a proper part of the pod subnet |
| Routes.EveryFileIsAccepted | src/tk8s/create/cni.py:275-292 | so every cluster.yaml from planning on holds accepted CIDRs only |
| Routes.DeleteKnowsEveryRoute | src/tk8s/delete.py:289-299 | a delete lists exactly the pod and service subnets and every node route's destination |
| Routes.Operator.Run | src/tk8s/create/cni.py:305-313 | a refused run changes nothing; an accepted one saves the recorded cluster, every copy included, and rewrites the routes unit from it |
| Routes.Operator.Save | src/tk8s/phases.py:89-95 | the file is written on the operator, then on every other host |
| Routes.Operator.WriteRoutes | src/tk8s/create/units.py:234-243 | the routes unit is rewritten on every host that has one |
| Routes.HostRoutesEstablished | src/tk8s/create/cni.py:295-316 | after a run the routes unit is current, and the phase is done if and only if no node reporting an empty CIDR has one recorded |
| Routes.HostRoutesDoneIff | src/tk8s/create/cni.py:295-302 | the phase counts as done exactly when a run would record nothing new, the routes unit is current wherever there is one, and no node reporting an empty CIDR has one recorded |
| Routes.HostRoutesRefusedIff | src/tk8s/create/cni.py:305-313 | the phase is refused exactly when a joining node has no CIDR yet (the first such is named) or a report is no proper part of the pod subnet; else it records what was reported |

## Left out

- YAML and pydantic: files are typed values; a cluster.yaml that cannot be read counts as absent, as `delete cluster` treats it.
- Template text, cloud, VyOS and FRR configuration text: a template is an arbitrary function of cluster, host name and path.
- Fields that are only copied (Kubernetes version, CNI, datapath), the memory format checks and lower-casing, and the refusal of gvisor with netkit.
- kubectl, kubeadm, cilium, podman and ssh themselves: their answers are inputs, and a command either takes effect or cuts the run; commands run with check=False are modelled the same way.
- `status.completed`, dry runs, and the node deletion's single phases (`delete node --phase P`).
- Two spellings of one ssh target (with and without a user or port) count as two machines.
- LAN facts, what answers the ARP probe and which states `state_of` reports: parameters.
- Host directories named `cpuN` in a fake NUMA node (only files and links are entries), file modes, sudo and atomic replacement.
- `summarize_address_range` is the standard library's; it is modelled as cutting off the largest aligned network again and again.
- The `config.bak` written beside ~/.kube/config and refusals of files that are no kubeconfig.
- Deleting a cluster: `rm -rf` of a unit directory is one command per file and of a state directory two commands; other files below a state directory are not listed.
- Deleting a node: the removal of the node's directory is one command, and the drain, the reset and waiting for routers have no effect but that they were done.
- Runner.Process.RunAll: dry runs and the record of completed phases are not part of the loop.
- DeleteRuns.Fleet.MeshRun: the peers' own records and the patch of their secrets are not part of this state; `Mesh.Operator.Leave`, `MeshLeaving` and `ForgetPeer` cover them.
- Resume.ResumeMovesNothing: `ha` and `vip` are not kept, as a resume may change them.
- Written.SavesIff: every LAN's broadcast address is an address, which `lan_facts` grants by building a network.
- Written.SkippedPreflightRenders: names hold no spaces, as their patterns grant.
- Written.EveryWrittenFile: ssh targets are not empty, as `parse_ssh` grants.
- Routes.HostRoutesEstablished: a reported CIDR is compared as a network, not as text, so a spelling Kubernetes never uses is not modelled.
- Mesh.Operator.Connect: readiness checks and probes are one input; a probe that fails after the recording leaves the same records.
- MeshLeaving.LeavesResume: the record of a cluster never lists the cluster itself.
- Describe and get output, confirmation prompts, preflight but for hostnames and the address probe, image downloads, VRRP, BGP and BFD.
