/**
 The GPU capacity report.

 The node report has one row per node: the node's allocatable GPUs and the
 GPUs requested and limited by the pods bound to it. A TOTAL row sums these
 over all rows. The pod report has one row per pod, with the GPUs requested
 and limited across its containers. Only pods that both request and limit
 at least one GPU are displayed.

 The functions below are the reference definitions. The methods follow the
 loops of the plugin's Go functions and are proved to compute the same rows.
 */
module GpuInfo {
  import opened Quantities
  import opened Cluster

  /** One row of the node report. */
  datatype NodeGpuInfo = NodeGpuInfo(nodeName: string, gpuAllocatable: int, gpuRequests: int, gpuLimits: int)

  /** One row of the pod report. */
  datatype PodGpuInfo = PodGpuInfo(podName: string, gpuRequests: int, gpuLimits: int)

  /** The name of the row that sums the node report. */
  const TotalName: string := "TOTAL"

  function RowAllocatable(info: NodeGpuInfo): int { info.gpuAllocatable }
  function RowRequests(info: NodeGpuInfo): int { info.gpuRequests }
  function RowLimits(info: NodeGpuInfo): int { info.gpuLimits }
  function PodRowRequests(info: PodGpuInfo): int { info.gpuRequests }
  function PodRowLimits(info: PodGpuInfo): int { info.gpuLimits }

  // ---------------------------------------------------------------------------
  // Node report
  // ---------------------------------------------------------------------------

  /** The row for node `n`: its allocatable GPUs and the sums over the pods bound to it. */
  function NodeRow(n: Node, pods: seq<Pod>): NodeGpuInfo
  {
    var onNode := PodsOnNode(pods, n.name);
    NodeGpuInfo(n.name, NodeGpuAllocatable(n), Sum(onNode, PodGpuRequests), Sum(onNode, PodGpuLimits))
  }

  /** The node report: one row per node, in node order. */
  function NodeReport(nodes: seq<Node>, pods: seq<Pod>): (r: seq<NodeGpuInfo>)
    ensures |r| == |nodes|
    ensures forall i {:trigger r[i]} :: 0 <= i < |nodes| ==> r[i] == NodeRow(nodes[i], pods)
  {
    if |nodes| == 0 then []
    else NodeReport(nodes[..|nodes| - 1], pods) + [NodeRow(nodes[|nodes| - 1], pods)]
  }

  /** Builds the node report as the plugin's `GetNodeGpuInfo` does: for each
      node, list the pods bound to it and add up every container's GPU
      request and limit. */
  method GetNodeGpuInfo(nodes: seq<Node>, pods: seq<Pod>) returns (nodeInfo: seq<NodeGpuInfo>)
    ensures |nodeInfo| == |nodes|
    ensures forall i :: 0 <= i < |nodes| ==>
      && nodeInfo[i].nodeName == nodes[i].name
      && nodeInfo[i].gpuAllocatable == (if GpuResource in nodes[i].allocatable then nodes[i].allocatable[GpuResource] else 0)
      && nodeInfo[i].gpuRequests == Sum(PodsOnNode(pods, nodes[i].name), PodGpuRequests)
      && nodeInfo[i].gpuLimits == Sum(PodsOnNode(pods, nodes[i].name), PodGpuLimits)
    ensures nodeInfo == NodeReport(nodes, pods)
  {
    nodeInfo := [];
    for i := 0 to |nodes|
      invariant nodeInfo == NodeReport(nodes[..i], pods)
    {
      var node := nodes[i];
      var nodePods := PodsOnNode(pods, node.name);
      var requests, limits := 0, 0;
      for j := 0 to |nodePods|
        invariant requests == Sum(nodePods[..j], PodGpuRequests)
        invariant limits == Sum(nodePods[..j], PodGpuLimits)
      {
        var containers := nodePods[j].containers;
        for k := 0 to |containers|
          invariant requests == Sum(nodePods[..j], PodGpuRequests) + Sum(containers[..k], ContainerGpuRequest)
          invariant limits == Sum(nodePods[..j], PodGpuLimits) + Sum(containers[..k], ContainerGpuLimit)
        {
          SumPrefixStep(containers, k, ContainerGpuRequest);
          SumPrefixStep(containers, k, ContainerGpuLimit);
          requests := requests + Value(containers[k].requests, GpuResource);
          limits := limits + Value(containers[k].limits, GpuResource);
        }
        assert containers[..|containers|] == containers;
        SumPrefixStep(nodePods, j, PodGpuRequests);
        SumPrefixStep(nodePods, j, PodGpuLimits);
      }
      assert nodePods[..|nodePods|] == nodePods;
      nodeInfo := nodeInfo + [NodeGpuInfo(node.name, Value(node.allocatable, GpuResource), requests, limits)];
      assert nodes[..i + 1][..i] == nodes[..i];
    }
    assert nodes[..|nodes|] == nodes;
  }

  // ---------------------------------------------------------------------------
  // Totals
  // ---------------------------------------------------------------------------

  /** The TOTAL row: allocatable, requested and limited GPUs summed over all rows. */
  function Totals(rows: seq<NodeGpuInfo>): NodeGpuInfo
  {
    NodeGpuInfo(TotalName, Sum(rows, RowAllocatable), Sum(rows, RowRequests), Sum(rows, RowLimits))
  }

  /** Field-wise sum of two TOTAL rows. */
  function AddTotals(a: NodeGpuInfo, b: NodeGpuInfo): NodeGpuInfo
  {
    NodeGpuInfo(TotalName, a.gpuAllocatable + b.gpuAllocatable, a.gpuRequests + b.gpuRequests, a.gpuLimits + b.gpuLimits)
  }

  /** Accumulates the TOTAL row as the plugin's `PrintNodeGpuInfo` does while
      it prints the node rows. */
  method NodeGpuTotals(nodeInfo: seq<NodeGpuInfo>) returns (total: NodeGpuInfo)
    ensures total.nodeName == TotalName
    ensures total.gpuAllocatable == Sum(nodeInfo, RowAllocatable)
    ensures total.gpuRequests == Sum(nodeInfo, RowRequests)
    ensures total.gpuLimits == Sum(nodeInfo, RowLimits)
    ensures total == Totals(nodeInfo)
  {
    var allocatable, requests, limits := 0, 0, 0;
    for i := 0 to |nodeInfo|
      invariant allocatable == Sum(nodeInfo[..i], RowAllocatable)
      invariant requests == Sum(nodeInfo[..i], RowRequests)
      invariant limits == Sum(nodeInfo[..i], RowLimits)
    {
      SumPrefixStep(nodeInfo, i, RowAllocatable);
      SumPrefixStep(nodeInfo, i, RowRequests);
      SumPrefixStep(nodeInfo, i, RowLimits);
      allocatable := allocatable + nodeInfo[i].gpuAllocatable;
      requests := requests + nodeInfo[i].gpuRequests;
      limits := limits + nodeInfo[i].gpuLimits;
    }
    assert nodeInfo[..|nodeInfo|] == nodeInfo;
    total := NodeGpuInfo(TotalName, allocatable, requests, limits);
  }

  // ---------------------------------------------------------------------------
  // Pod report
  // ---------------------------------------------------------------------------

  /** The row for pod `p`: its GPU request and limit across all its containers. */
  function PodRow(p: Pod): PodGpuInfo
  {
    PodGpuInfo(p.name, PodGpuRequests(p), PodGpuLimits(p))
  }

  /** The pod report: one row per pod, in pod order, whatever node it is bound to. */
  function PodReport(pods: seq<Pod>): (r: seq<PodGpuInfo>)
    ensures |r| == |pods|
    ensures forall i {:trigger r[i]} :: 0 <= i < |pods| ==> r[i] == PodRow(pods[i])
  {
    if |pods| == 0 then []
    else PodReport(pods[..|pods| - 1]) + [PodRow(pods[|pods| - 1])]
  }

  /** Builds the pod report as the plugin's `GetPodGpuInfo` does: for each pod,
      add up every container's GPU request and limit. */
  method GetPodGpuInfo(pods: seq<Pod>) returns (podInfo: seq<PodGpuInfo>)
    ensures |podInfo| == |pods|
    ensures forall i :: 0 <= i < |pods| ==>
      && podInfo[i].podName == pods[i].name
      && podInfo[i].gpuRequests == Sum(pods[i].containers, ContainerGpuRequest)
      && podInfo[i].gpuLimits == Sum(pods[i].containers, ContainerGpuLimit)
    ensures podInfo == PodReport(pods)
  {
    podInfo := [];
    for i := 0 to |pods|
      invariant podInfo == PodReport(pods[..i])
    {
      var pod := pods[i];
      var requests, limits := 0, 0;
      for k := 0 to |pod.containers|
        invariant requests == Sum(pod.containers[..k], ContainerGpuRequest)
        invariant limits == Sum(pod.containers[..k], ContainerGpuLimit)
      {
        SumPrefixStep(pod.containers, k, ContainerGpuRequest);
        SumPrefixStep(pod.containers, k, ContainerGpuLimit);
        requests := requests + Value(pod.containers[k].requests, GpuResource);
        limits := limits + Value(pod.containers[k].limits, GpuResource);
      }
      assert pod.containers[..|pod.containers|] == pod.containers;
      podInfo := podInfo + [PodGpuInfo(pod.name, requests, limits)];
      assert pods[..i + 1][..i] == pods[..i];
    }
    assert pods[..|pods|] == pods;
  }

  // ---------------------------------------------------------------------------
  // Pod display filter
  // ---------------------------------------------------------------------------

  /** A pod row is displayed only when it both requests and limits some GPU. */
  predicate Shown(info: PodGpuInfo)
  {
    info.gpuRequests > 0 && info.gpuLimits > 0
  }

  /** The displayed pod rows: exactly the shown rows, in report order. */
  function Visible(rows: seq<PodGpuInfo>): (r: seq<PodGpuInfo>)
    ensures |r| <= |rows|
    ensures forall k :: 0 <= k < |r| ==> Shown(r[k])
    ensures forall x :: x in r <==> x in rows && Shown(x)
  {
    if |rows| == 0 then []
    else
      var init, x := Visible(rows[..|rows| - 1]), rows[|rows| - 1];
      assert rows == rows[..|rows| - 1] + [x];
      if Shown(x) then init + [x] else init
  }

  /** Filtering one more row appends it exactly when it is shown. */
  lemma VisibleSnoc(rows: seq<PodGpuInfo>, x: PodGpuInfo)
    ensures Visible(rows + [x]) == if Shown(x) then Visible(rows) + [x] else Visible(rows)
  {
    assert (rows + [x])[..|rows|] == rows;
  }

  /** The filter drops no copy of a shown row: each shown row is displayed as
      often as it occurs in the report, and a hidden row not at all. */
  lemma {:induction false} VisibleCounts(rows: seq<PodGpuInfo>)
    ensures forall x :: multiset(Visible(rows))[x] == (if Shown(x) then multiset(rows)[x] else 0)
    decreases |rows|
  {
    if |rows| > 0 {
      var init, y := rows[..|rows| - 1], rows[|rows| - 1];
      assert rows == init + [y];
      VisibleSnoc(init, y);
      VisibleCounts(init);
    }
  }

  /** Filtering one more row of a prefix appends it exactly when it is shown. */
  lemma VisiblePrefixStep(rows: seq<PodGpuInfo>, i: int)
    requires 0 <= i < |rows|
    ensures Visible(rows[..i + 1]) == if Shown(rows[i]) then Visible(rows[..i]) + [rows[i]] else Visible(rows[..i])
  {
    assert rows[..i + 1][..i] == rows[..i];
  }

  /** Selects the rows that the plugin's `PrintPodGpuInfo` prints, each kept
      row as often as it occurs in the report. */
  method PrintedPodRows(podInfo: seq<PodGpuInfo>) returns (printed: seq<PodGpuInfo>)
    ensures forall k :: 0 <= k < |printed| ==> printed[k].gpuRequests > 0 && printed[k].gpuLimits > 0
    ensures forall x :: x in printed <==> x in podInfo && x.gpuRequests > 0 && x.gpuLimits > 0
    ensures forall x :: multiset(printed)[x] == (if x.gpuRequests > 0 && x.gpuLimits > 0 then multiset(podInfo)[x] else 0)
    ensures printed == Visible(podInfo)
  {
    printed := [];
    for i := 0 to |podInfo|
      invariant printed == Visible(podInfo[..i])
    {
      VisiblePrefixStep(podInfo, i);
      var info := podInfo[i];
      if info.gpuRequests > 0 && info.gpuLimits > 0 {
        printed := printed + [info];
      }
    }
    assert podInfo[..|podInfo|] == podInfo;
    VisibleCounts(podInfo);
  }
}
