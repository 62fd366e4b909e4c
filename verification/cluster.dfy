/**
 The cluster snapshot that the GPU report is computed from: nodes with their
 allocatable resources and pods with their containers' requests and limits,
 as returned by the node and pod list calls.
 */
module Cluster {
  import opened Quantities

  /** A container's resource requirements. */
  datatype Container = Container(requests: ResourceList, limits: ResourceList)

  /** A node and the resources it can grant to pods. */
  datatype Node = Node(name: string, allocatable: ResourceList)

  /** A pod, the node it is bound to (empty when unscheduled) and its containers, in order. */
  datatype Pod = Pod(name: string, nodeName: string, containers: seq<Container>)

  /** GPUs a node can allocate; zero when it advertises none. */
  function NodeGpuAllocatable(n: Node): int
  {
    Value(n.allocatable, GpuResource)
  }

  /** GPUs one container requests; zero when it requests none. */
  function ContainerGpuRequest(c: Container): int
  {
    Value(c.requests, GpuResource)
  }

  /** GPUs one container is limited to; zero when it sets no limit. */
  function ContainerGpuLimit(c: Container): int
  {
    Value(c.limits, GpuResource)
  }

  /** GPUs a pod requests, over all its containers. */
  function PodGpuRequests(p: Pod): int
  {
    Sum(p.containers, ContainerGpuRequest)
  }

  /** GPU limit of a pod, over all its containers. */
  function PodGpuLimits(p: Pod): int
  {
    Sum(p.containers, ContainerGpuLimit)
  }

  /** The pods bound to node `name`, in snapshot order: what the pod list
      call with field selector `spec.nodeName=<name>` returns. */
  function PodsOnNode(pods: seq<Pod>, name: string): (r: seq<Pod>)
    ensures |r| <= |pods|
    ensures forall p :: p in r <==> p in pods && p.nodeName == name
    ensures forall q :: multiset(r)[q] == (if q.nodeName == name then multiset(pods)[q] else 0)
  {
    if |pods| == 0 then []
    else
      var init, p := PodsOnNode(pods[..|pods| - 1], name), pods[|pods| - 1];
      assert pods == pods[..|pods| - 1] + [p];
      if p.nodeName == name then init + [p] else init
  }

  /** The names of the listed nodes. */
  function NodeNames(nodes: seq<Node>): set<string>
  {
    set n | n in nodes :: n.name
  }

  /** No two listed nodes share a name, as node names are unique in a cluster. */
  predicate DistinctNames(nodes: seq<Node>)
  {
    forall i, j :: 0 <= i < j < |nodes| ==> nodes[i].name != nodes[j].name
  }

  /** The pods bound to one of the nodes named in `names`, in snapshot order. */
  function PodsOnAnyOf(pods: seq<Pod>, names: set<string>): (r: seq<Pod>)
    ensures |r| <= |pods|
    ensures forall p :: p in r <==> p in pods && p.nodeName in names
    ensures forall q :: multiset(r)[q] == (if q.nodeName in names then multiset(pods)[q] else 0)
  {
    if |pods| == 0 then []
    else
      var init, p := PodsOnAnyOf(pods[..|pods| - 1], names), pods[|pods| - 1];
      assert pods == pods[..|pods| - 1] + [p];
      if p.nodeName in names then init + [p] else init
  }

  /** Selecting by node distributes over concatenation of pod lists, so the
      per-node lists keep snapshot order. */
  lemma {:induction false} PodsOnNodeAppend(a: seq<Pod>, b: seq<Pod>, name: string)
    ensures PodsOnNode(a + b, name) == PodsOnNode(a, name) + PodsOnNode(b, name)
    decreases |b|
  {
    if |b| == 0 {
      assert a + b == a;
    } else {
      var b', p := b[..|b| - 1], b[|b| - 1];
      assert b == b' + [p];
      assert (a + b)[..|a + b| - 1] == a + b';
      PodsOnNodeAppend(a, b', name);
    }
  }

  /** A container that names no GPU contributes nothing to its pod's GPU
      request and limit, wherever it sits among the pod's containers. */
  lemma MissingGpuKeyContributesZero(name: string, nodeName: string, front: seq<Container>, c: Container, back: seq<Container>)
    requires GpuResource !in c.requests && GpuResource !in c.limits
    ensures PodGpuRequests(Pod(name, nodeName, front + [c] + back)) == PodGpuRequests(Pod(name, nodeName, front + back))
    ensures PodGpuLimits(Pod(name, nodeName, front + [c] + back)) == PodGpuLimits(Pod(name, nodeName, front + back))
  {
    SumAppend(front + [c], back, ContainerGpuRequest);
    SumAppend(front + [c], back, ContainerGpuLimit);
    SumSnoc(front, c, ContainerGpuRequest);
    SumSnoc(front, c, ContainerGpuLimit);
    SumAppend(front, back, ContainerGpuRequest);
    SumAppend(front, back, ContainerGpuLimit);
  }
}
