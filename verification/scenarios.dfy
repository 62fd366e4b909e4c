/**
 Worked examples of the GPU capacity report on small snapshots.
 */
module Scenarios {
  import opened Quantities
  import opened Cluster
  import opened GpuInfo
  import opened GpuInfoProperties

  /** Node A advertises two GPUs, node B none; pod p1 on A has one container
      requesting and limited to one GPU. */
  lemma SingleGpuPodOnTwoNodes()
    ensures var nodes := [Node("A", map[GpuResource := 2]), Node("B", map[GpuResource := 0])];
            var pods := [Pod("p1", "A", [Container(map[GpuResource := 1], map[GpuResource := 1])])];
            && NodeReport(nodes, pods) == [NodeGpuInfo("A", 2, 1, 1), NodeGpuInfo("B", 0, 0, 0)]
            && Totals(NodeReport(nodes, pods)) == NodeGpuInfo(TotalName, 2, 1, 1)
  {
    var c := Container(map[GpuResource := 1], map[GpuResource := 1]);
    var p1 := Pod("p1", "A", [c]);
    var a, b := Node("A", map[GpuResource := 2]), Node("B", map[GpuResource := 0]);
    assert ContainerGpuRequest(c) == 1 && ContainerGpuLimit(c) == 1;
    OneContainerPod(p1);
    assert "A" != "B" by { assert "A"[0] != "B"[0]; }
    OnePodRow(a, p1);
    OnePodRow(b, p1);
    assert NodeRow(a, [p1]) == NodeGpuInfo("A", 2, 1, 1);
    assert NodeRow(b, [p1]) == NodeGpuInfo("B", 0, 0, 0);
    var rows := NodeReport([a, b], [p1]);
    assert rows == [NodeRow(a, [p1]), NodeRow(b, [p1])];
    TotalsOfTwo(rows[0], rows[1]);
  }

  /** A pod with a single container requests and is limited to what that container is. */
  lemma OneContainerPod(p: Pod)
    requires |p.containers| == 1
    ensures PodGpuRequests(p) == ContainerGpuRequest(p.containers[0])
    ensures PodGpuLimits(p) == ContainerGpuLimit(p.containers[0])
  {
    assert p.containers == [] + [p.containers[0]];
    SumSnoc([], p.containers[0], ContainerGpuRequest);
    SumSnoc([], p.containers[0], ContainerGpuLimit);
  }

  /** With a single pod in the snapshot, a node's row counts that pod exactly
      when the pod is bound to it. */
  lemma OnePodRow(n: Node, p: Pod)
    ensures NodeRow(n, [p]).nodeName == n.name
    ensures NodeRow(n, [p]).gpuAllocatable == NodeGpuAllocatable(n)
    ensures NodeRow(n, [p]).gpuRequests == (if p.nodeName == n.name then PodGpuRequests(p) else 0)
    ensures NodeRow(n, [p]).gpuLimits == (if p.nodeName == n.name then PodGpuLimits(p) else 0)
  {
    assert [p][..0] == [];
    SumSnoc([], p, PodGpuRequests);
    SumSnoc([], p, PodGpuLimits);
  }

  /** The TOTAL row of two rows adds their fields. */
  lemma TotalsOfTwo(x: NodeGpuInfo, y: NodeGpuInfo)
    ensures Totals([x, y]) == NodeGpuInfo(TotalName, x.gpuAllocatable + y.gpuAllocatable, x.gpuRequests + y.gpuRequests, x.gpuLimits + y.gpuLimits)
  {
    TotalsSplit([x], [y]);
    assert [x] + [y] == [x, y];
    assert [x][..0] == [];
    assert [y][..0] == [];
  }

  /** Two containers requesting one and two GPUs give a pod row requesting three. */
  lemma TwoContainerPod()
    ensures var p := Pod("p", "A", [Container(map[GpuResource := 1], map[GpuResource := 1]), Container(map[GpuResource := 2], map[])]);
            PodReport([p]) == [PodGpuInfo("p", 3, 1)]
  {
    var c1 := Container(map[GpuResource := 1], map[GpuResource := 1]);
    var c2 := Container(map[GpuResource := 2], map[]);
    assert [c1, c2] == [c1] + [c2];
    SumSnoc([], c1, ContainerGpuRequest);
    SumSnoc([c1], c2, ContainerGpuRequest);
    SumSnoc([], c1, ContainerGpuLimit);
    SumSnoc([c1], c2, ContainerGpuLimit);
  }

  /** A pod bound to an unlisted node adds nothing to the node rows but still
      has its own row in the pod report. */
  lemma PodOnUnlistedNode()
    ensures var nodes := [Node("A", map[GpuResource := 2])];
            var p2 := Pod("p2", "C", [Container(map[GpuResource := 1], map[GpuResource := 1])]);
            && NodeReport(nodes, [p2]) == NodeReport(nodes, [])
            && |PodReport([p2])| == 1 && PodReport([p2])[0].podName == "p2"
  {
  }
}
