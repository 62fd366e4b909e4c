# GPU capacity aggregation of kubectl-gpu-capacity

This project models the aggregation at the heart of the `kubectl-gpu-capacity`
plugin (`pkg/gpu/info.go`) and proves properties of it. The plugin lists a
cluster's nodes and pods and reports GPU (`nvidia.com/gpu`) capacity and use
in two ways:

- **Node report** (`GetNodeGpuInfo`, `PrintNodeGpuInfo`). There is one
  `NodeGpuInfo` row per node, in node order. Each row holds the node's
  allocatable GPUs and the GPU requests and limits summed over every container
  of every pod bound to that node. A `TOTAL` row sums the three columns.
- **Pod report** (`GetPodGpuInfo`, `PrintPodGpuInfo`). There is one
  `PodGpuInfo` row per pod, in pod order, with its GPU request and limit summed
  over its containers. Only rows whose request and limit are both positive are
  printed.

The list calls are replaced by an in-memory snapshot. The snapshot is a
sequence of `Node`s and a sequence of `Pod`s, each pod with its `Container`s.
The per-node pod list (field selector `spec.nodeName=<node>`) becomes
`PodsOnNode`, which filters the pod sequence by node name. A resource list is
a `map<string, int>`. A missing entry reads as zero, just as a Go lookup of an
absent `resource.Quantity` yields the zero quantity, whose `Value()` is 0.

Files and modules:

- `quantities.dfy`, module `Quantities`: resource lists, the zero-default
  lookup `Value`, the front-to-back `Sum`, and lemmas about sums (additivity,
  pointwise equality, zeros) and about taking one element out of a permutation.
- `cluster.dfy`, module `Cluster`: the snapshot entities, per-container and
  per-pod GPU sums, and the per-node pod selection.
- `gpu_info.dfy`, module `GpuInfo`: the row types and reference definitions of
  both reports, the TOTAL row and the display filter. It also holds methods
  that follow the program's loops and are proved to compute the reference
  rows.
- `properties.dfy`, module `GpuInfoProperties`: lemmas about rows, totals,
  agreement between the two reports, and the display filter.
- `scenarios.dfy`, module `Scenarios`: small worked snapshots.

As written, `pkg/gpu/info.go` does not compile. `PrintNodeGpuInfo` reads
`info.nodeName`, `info.gpuRequests` and similar fields, but the struct declares
`NodeName`, `GpuRequests` and so on. `GetPodGpuInfo` builds `PodInfo` values
with `podName`/`gpuRequest` fields instead of `PodGpuInfo` with
`PodName`/`GpuRequests`. The model follows the evident intent: the row shapes
`NodeGpuInfo` and `PodGpuInfo` declared at lines 16-28.

A pod row is printed only when its GPU request and limit are both positive
(`pkg/gpu/info.go:131`). A row with a positive request and a zero limit is not
printed. The model's `Shown` is that test.

## Model

| member | source | states |
|---|---|---|
| Cluster.PodsOnNode | pkg/gpu/info.go:41-46 | The per-node pod list contains exactly the snapshot pods whose node name equals the node's name, each as many times as it occurs in the snapshot, and no pod bound elsewhere. |
| Cluster.PodsOnNodeAppend | pkg/gpu/info.go:41-46 | Selecting by node distributes over concatenation, so each per-node list keeps snapshot order. |
| Cluster.MissingGpuKeyContributesZero | pkg/gpu/info.go:58-64 | Inserting a container that has no GPU entry, anywhere in a pod's container list, leaves the pod's GPU request and limit sums unchanged. |
| GpuInfo.NodeReport | pkg/gpu/info.go:39-68 | The node report has one row per input node, in input order, and row i is node i's row. |
| GpuInfo.GetNodeGpuInfo | pkg/gpu/info.go:39-70 | The loop builds one row per node, in order. Each row has the node's name and its `nvidia.com/gpu` allocatable value, or 0 when the entry is absent. Its requests and limits are the sums over the pods bound to that node of their containers' GPU requests and limits. The result equals `NodeReport`. |
| GpuInfo.NodeGpuTotals | pkg/gpu/info.go:78-95 | The accumulated TOTAL row is named `TOTAL`. Its allocatable, requests and limits are the sums of those fields over all node rows. |
| GpuInfo.PodReport | pkg/gpu/info.go:109-122 | The pod report has one row per input pod, in input order, and row i is pod i's row, whatever node the pod is on. |
| GpuInfo.GetPodGpuInfo | pkg/gpu/info.go:109-122 | The loop builds one row per pod, in order, with the pod's name and its containers' summed GPU requests and limits. The result equals `PodReport`. |
| GpuInfo.Visible | pkg/gpu/info.go:130-137 | The displayed rows are exactly the report rows with request > 0 and limit > 0, and there are no more of them than report rows. |
| GpuInfo.VisibleCounts | pkg/gpu/info.go:130-137 | Each shown row is displayed as many times as it occurs in the report, and a hidden row never, so the filter drops no duplicate. |
| GpuInfo.PrintedPodRows | pkg/gpu/info.go:130-137 | The print loop emits a row iff its request and limit are both positive, each such row as many times as it occurs in the report. It agrees with `Visible`. |
| GpuInfoProperties.NodeWithoutPodsIsZero | pkg/gpu/info.go:56-58 | A node that no pod is bound to still gets its own row, with 0 GPUs requested and limited. |
| GpuInfoProperties.NodeReportAppend | pkg/gpu/info.go:39-68 | The report of two node lists joined is the two reports joined, so rows depend only on their own node. |
| GpuInfoProperties.OrphanPodIgnored | pkg/gpu/info.go:41-46 | Adding a pod bound to an unlisted node, anywhere in the snapshot, changes no node row. |
| GpuInfoProperties.TotalsSplit | pkg/gpu/info.go:78-91 | Splitting the node rows anywhere and adding the two partial TOTAL rows gives the TOTAL row of all rows. |
| GpuInfoProperties.TotalsInsert | pkg/gpu/info.go:78-91 | A node inserted anywhere in the node list adds exactly its own row's fields to the TOTAL row. |
| GpuInfoProperties.TotalsPermutation | pkg/gpu/info.go:78-95 | Listing the same nodes in any other order gives the same TOTAL row. |
| GpuInfoProperties.NodeReportTotalsAppend | pkg/gpu/info.go:78-95 | Aggregating a node list and the nodes listed after it separately and adding the two TOTAL rows equals the TOTAL row of the joined list. |
| GpuInfoProperties.NodeReportTotalsSplit | pkg/gpu/info.go:78-95 | For any division of the nodes into two groups, in any order, aggregating each group and adding the two TOTAL rows equals the TOTAL row of all the nodes. |
| GpuInfoProperties.TotalAllocatableIsNodeSum | pkg/gpu/info.go:51-54 | The TOTAL allocatable equals the sum over nodes of their `nvidia.com/gpu` allocatable, with absent entries counting 0. |
| GpuInfoProperties.NodeRequestsAreListedPodRequests | pkg/gpu/info.go:56-64 | With distinct node names, the GPU requests summed over the node rows equal the sum of the GPU requests of the pods bound to a listed node. |
| GpuInfoProperties.NodeLimitsAreListedPodLimits | pkg/gpu/info.go:56-64 | With distinct node names, the GPU limits summed over the node rows equal the sum of the GPU limits of the pods bound to a listed node. |
| GpuInfoProperties.PodReportSums | pkg/gpu/info.go:109-122 | Summed over the pod report, the rows' requests and limits equal the pods' container sums. |
| GpuInfoProperties.RequestsAgree | pkg/gpu/info.go:58-64 | With distinct node names, the GPU requests summed over the node report equal the requests summed over the pod report (lines 113-118), restricted to pods bound to a listed node. |
| GpuInfoProperties.LimitsAgree | pkg/gpu/info.go:58-64 | With distinct node names, the GPU limits summed over the node report equal the limits summed over the pod report (lines 113-118), restricted to pods bound to a listed node. |
| GpuInfoProperties.TotalsMatchPodReport | pkg/gpu/info.go:88-95 | With distinct node names, the TOTAL row's requests and limits equal the pod report's sums over pods bound to listed nodes. |
| GpuInfoProperties.VisibleAppend | pkg/gpu/info.go:130-137 | The display filter distributes over concatenation of rows. |
| GpuInfoProperties.VisibleKeepsOrder | pkg/gpu/info.go:130-137 | Of two displayed rows, the one earlier in the report is printed earlier. |
| GpuInfoProperties.DisplayedRowsComeFromPods | pkg/gpu/info.go:109-137 | Every displayed row is the unmodified row of some snapshot pod. Every pod whose GPU request and limit are both positive is displayed. |
| Scenarios.SingleGpuPodOnTwoNodes | pkg/gpu/info.go:39-95 | Nodes A (2 GPUs) and B (0), and pod p1 on A requesting and limited to 1 GPU, give rows A 2/1/1 and B 0/0/0 and a TOTAL of 2/1/1. |
| Scenarios.OnePodRow | pkg/gpu/info.go:56-64 | With one pod in the snapshot, a node's requests and limits are that pod's exactly when it is bound to the node, and 0 otherwise. |
| Scenarios.TwoContainerPod | pkg/gpu/info.go:113-118 | A pod whose two containers request 1 and 2 GPUs has a pod row requesting 3. |
| Scenarios.PodOnUnlistedNode | pkg/gpu/info.go:41-46 | A pod bound to an unlisted node leaves the node rows as if it were absent, yet keeps its own pod row. |

## Left out

- The client-go list calls, `context.TODO()`, `metav1.ListOptions` and the propagation of list errors (lines 31-37, 41-49, 101-107). These are network I/O. The already-fetched snapshot is an input instead, so the error returns have no counterpart.
- The tabwriter setup, header strings, `%d/%d` formatting, the blank separator line and `Flush`. These are output rendering. The model keeps only the values of the printed rows and of the TOTAL row.
- `resource.Quantity` and its `Value()` rounding. This is a foreign library, so quantities are whole numbers.
- GetNodeGpuInfo, GetPodGpuInfo, NodeGpuTotals: the `int64` fields and accumulators are modelled as unbounded integers, so `int64` wrap-around on overflow is not modelled.
- Only the regular containers of a pod (`pod.Spec.Containers`) are summed, as in the source. Init containers and pod overhead are not part of this model.
- The command layer in `cmd/cmd.go`, `cmd/exec.go` and `cmd/main.go` is not part of this model. It covers cobra wiring, kubeconfig and namespace loading, client construction, the `--pods` flag choosing between the two reports, and the exit on error.
- Determinism is not stated separately. The reports are pure functions of the snapshot, so equal snapshots give equal reports by construction.
