/**
 Properties of the GPU capacity report: how rows relate to the snapshot,
 how the TOTAL row splits, how the node and pod reports agree, and what the
 pod display filter keeps.
 */
module GpuInfoProperties {
  import opened Quantities
  import opened Cluster
  import opened GpuInfo

  // ---------------------------------------------------------------------------
  // Node rows
  // ---------------------------------------------------------------------------

  /** A node that no pod is bound to still gets a row, with zero GPUs requested and limited. */
  lemma NodeWithoutPodsIsZero(nodes: seq<Node>, pods: seq<Pod>, i: int)
    requires 0 <= i < |nodes|
    requires forall p :: p in pods ==> p.nodeName != nodes[i].name
    ensures |NodeReport(nodes, pods)| == |nodes|
    ensures NodeReport(nodes, pods)[i].nodeName == nodes[i].name
    ensures NodeReport(nodes, pods)[i].gpuRequests == 0
    ensures NodeReport(nodes, pods)[i].gpuLimits == 0
  {
  }

  /** The report builds node by node: the report for two node lists joined
      is the two reports joined. */
  lemma NodeReportAppend(a: seq<Node>, b: seq<Node>, pods: seq<Pod>)
    ensures NodeReport(a + b, pods) == NodeReport(a, pods) + NodeReport(b, pods)
  {
  }

  /** A pod bound to a node that is not listed, such as one that disappeared
      between the two list calls, changes no node row. */
  lemma OrphanPodIgnored(nodes: seq<Node>, front: seq<Pod>, p: Pod, back: seq<Pod>)
    requires p.nodeName !in NodeNames(nodes)
    ensures NodeReport(nodes, front + [p] + back) == NodeReport(nodes, front + back)
  {
    var r, r' := NodeReport(nodes, front + [p] + back), NodeReport(nodes, front + back);
    forall i | 0 <= i < |nodes|
      ensures r[i] == r'[i]
    {
      var name := nodes[i].name;
      assert nodes[i] in nodes;
      PodsOnNodeAppend(front + [p], back, name);
      PodsOnNodeAppend(front, [p], name);
      PodsOnNodeAppend(front, back, name);
      assert PodsOnNode([p], name) == [];
    }
  }

  // ---------------------------------------------------------------------------
  // TOTAL row
  // ---------------------------------------------------------------------------

  /** Splitting the rows anywhere and adding the two partial totals gives the total. */
  lemma TotalsSplit(a: seq<NodeGpuInfo>, b: seq<NodeGpuInfo>)
    ensures Totals(a + b) == AddTotals(Totals(a), Totals(b))
    ensures Totals(a + b).nodeName == TotalName
  {
    var t, ta, tb := Totals(a + b), Totals(a), Totals(b);
    assert t.gpuAllocatable == ta.gpuAllocatable + tb.gpuAllocatable by {
      SumAppend(a, b, RowAllocatable);
    }
    assert t.gpuRequests == ta.gpuRequests + tb.gpuRequests by {
      SumAppend(a, b, RowRequests);
    }
    assert t.gpuLimits == ta.gpuLimits + tb.gpuLimits by {
      SumAppend(a, b, RowLimits);
    }
  }

  /** A row inserted anywhere adds its fields to the TOTAL row. */
  lemma TotalsInsertRow(front: seq<NodeGpuInfo>, row: NodeGpuInfo, back: seq<NodeGpuInfo>)
    ensures Totals(front + [row] + back) == AddTotals(Totals(front + back), Totals([row]))
  {
    TotalsSplit(front + [row], back);
    TotalsSplit(front, [row]);
    TotalsSplit(front, back);
  }

  /** A node inserted anywhere in the list adds its own row to the TOTAL row. */
  lemma TotalsInsert(front: seq<Node>, x: Node, back: seq<Node>, pods: seq<Pod>)
    ensures Totals(NodeReport(front + [x] + back, pods)) == AddTotals(Totals(NodeReport(front + back, pods)), Totals([NodeRow(x, pods)]))
  {
    var rf, rb, row := NodeReport(front, pods), NodeReport(back, pods), NodeRow(x, pods);
    assert NodeReport(front + [x] + back, pods) == rf + [row] + rb by {
      NodeReportAppend(front + [x], back, pods);
      NodeReportAppend(front, [x], pods);
    }
    assert NodeReport(front + back, pods) == rf + rb by {
      NodeReportAppend(front, back, pods);
    }
    TotalsInsertRow(rf, row, rb);
  }

  /** The TOTAL row does not depend on the order in which the nodes are listed. */
  lemma {:induction false} TotalsPermutation(nodes: seq<Node>, others: seq<Node>, pods: seq<Pod>)
    requires multiset(nodes) == multiset(others)
    ensures Totals(NodeReport(nodes, pods)) == Totals(NodeReport(others, pods))
    decreases |nodes|
  {
    if |nodes| == 0 {
      assert |others| == |multiset(others)|;
    } else {
      var k := TakeOut(nodes, others);
      var init, x := nodes[..|nodes| - 1], nodes[|nodes| - 1];
      var front, back := others[..k], others[k + 1..];
      var extra := Totals([NodeRow(x, pods)]);
      calc {
        Totals(NodeReport(nodes, pods));
        { assert nodes == init + [x] + []; TotalsInsert(init, x, [], pods); assert init + [] == init; }
        AddTotals(Totals(NodeReport(init, pods)), extra);
        { TotalsPermutation(init, front + back, pods); }
        AddTotals(Totals(NodeReport(front + back, pods)), extra);
        { TotalsInsert(front, x, back, pods); }
        Totals(NodeReport(others, pods));
      }
    }
  }

  /** Aggregating a node list and the nodes listed after it separately, and
      adding the two TOTAL rows, equals aggregating the joined list. */
  lemma NodeReportTotalsAppend(a: seq<Node>, b: seq<Node>, pods: seq<Pod>)
    ensures Totals(NodeReport(a + b, pods)) == AddTotals(Totals(NodeReport(a, pods)), Totals(NodeReport(b, pods)))
  {
    NodeReportAppend(a, b, pods);
    TotalsSplit(NodeReport(a, pods), NodeReport(b, pods));
  }

  /** Aggregating two groups of nodes separately and adding their totals
      equals aggregating all the nodes together, however the nodes are split
      between the groups. */
  lemma NodeReportTotalsSplit(nodes: seq<Node>, a: seq<Node>, b: seq<Node>, pods: seq<Pod>)
    requires multiset(nodes) == multiset(a + b)
    ensures Totals(NodeReport(nodes, pods)) == AddTotals(Totals(NodeReport(a, pods)), Totals(NodeReport(b, pods)))
  {
    TotalsPermutation(nodes, a + b, pods);
    NodeReportTotalsAppend(a, b, pods);
  }

  /** The TOTAL allocatable is the sum of the nodes' allocatable GPUs, absent entries counting zero. */
  lemma TotalAllocatableIsNodeSum(nodes: seq<Node>, pods: seq<Pod>)
    ensures Totals(NodeReport(nodes, pods)).gpuAllocatable == Sum(nodes, NodeGpuAllocatable)
  {
  }

  // ---------------------------------------------------------------------------
  // Agreement between the node report and the pod report
  // ---------------------------------------------------------------------------

  /** Summing a pod measure over the pods bound to one more, new, node name
      adds that node's pods to the sum. */
  lemma {:induction false} PodsOnAnyOfSplit(pods: seq<Pod>, names: set<string>, x: string, f: Pod -> int)
    requires x !in names
    ensures Sum(PodsOnAnyOf(pods, names + {x}), f) == Sum(PodsOnAnyOf(pods, names), f) + Sum(PodsOnNode(pods, x), f)
    decreases |pods|
  {
    if |pods| > 0 {
      var init, p := pods[..|pods| - 1], pods[|pods| - 1];
      PodsOnAnyOfSplit(init, names, x, f);
      if p.nodeName == x {
        SumSnoc(PodsOnAnyOf(init, names + {x}), p, f);
        SumSnoc(PodsOnNode(init, x), p, f);
      } else if p.nodeName in names {
        SumSnoc(PodsOnAnyOf(init, names + {x}), p, f);
        SumSnoc(PodsOnAnyOf(init, names), p, f);
      }
    }
  }

  /** The names of a node list with one more node at the end. */
  lemma NodeNamesSnoc(nodes: seq<Node>)
    requires |nodes| > 0
    ensures NodeNames(nodes) == NodeNames(nodes[..|nodes| - 1]) + {nodes[|nodes| - 1].name}
  {
  }

  /** With distinct node names, the last node's name is not among the others. */
  lemma LastNameIsNew(nodes: seq<Node>)
    requires |nodes| > 0 && DistinctNames(nodes)
    ensures nodes[|nodes| - 1].name !in NodeNames(nodes[..|nodes| - 1])
    ensures DistinctNames(nodes[..|nodes| - 1])
  {
  }

  /** With no node names to match, no pod is selected. */
  lemma NoNamesNoPods(pods: seq<Pod>)
    ensures PodsOnAnyOf(pods, {}) == []
  {
  }

  /** Summed over the pod report, a pod measure is the same sum over the pods. */
  lemma PodReportSums(ps: seq<Pod>)
    ensures Sum(PodReport(ps), PodRowRequests) == Sum(ps, PodGpuRequests)
    ensures Sum(PodReport(ps), PodRowLimits) == Sum(ps, PodGpuLimits)
  {
    SumPointwise(PodReport(ps), PodRowRequests, ps, PodGpuRequests);
    SumPointwise(PodReport(ps), PodRowLimits, ps, PodGpuLimits);
  }

  /** The GPUs requested summed over the node report equal the GPUs requested
      by the pods bound to a listed node. */
  lemma {:induction false} NodeRequestsAreListedPodRequests(nodes: seq<Node>, pods: seq<Pod>)
    requires DistinctNames(nodes)
    ensures Sum(NodeReport(nodes, pods), RowRequests) == Sum(PodsOnAnyOf(pods, NodeNames(nodes)), PodGpuRequests)
    decreases |nodes|
  {
    if |nodes| == 0 {
      assert NodeNames(nodes) == {};
      NoNamesNoPods(pods);
    } else {
      var init, n := nodes[..|nodes| - 1], nodes[|nodes| - 1];
      LastNameIsNew(nodes);
      NodeNamesSnoc(nodes);
      NodeRequestsAreListedPodRequests(init, pods);
      SumSnoc(NodeReport(init, pods), NodeRow(n, pods), RowRequests);
      PodsOnAnyOfSplit(pods, NodeNames(init), n.name, PodGpuRequests);
    }
  }

  /** The GPU limits summed over the node report equal the GPU limits of the
      pods bound to a listed node. */
  lemma {:induction false} NodeLimitsAreListedPodLimits(nodes: seq<Node>, pods: seq<Pod>)
    requires DistinctNames(nodes)
    ensures Sum(NodeReport(nodes, pods), RowLimits) == Sum(PodsOnAnyOf(pods, NodeNames(nodes)), PodGpuLimits)
    decreases |nodes|
  {
    if |nodes| == 0 {
      assert NodeNames(nodes) == {};
      NoNamesNoPods(pods);
    } else {
      var init, n := nodes[..|nodes| - 1], nodes[|nodes| - 1];
      LastNameIsNew(nodes);
      NodeNamesSnoc(nodes);
      NodeLimitsAreListedPodLimits(init, pods);
      SumSnoc(NodeReport(init, pods), NodeRow(n, pods), RowLimits);
      PodsOnAnyOfSplit(pods, NodeNames(init), n.name, PodGpuLimits);
    }
  }

  /** The GPUs requested summed over the node report equal the GPUs requested
      by the pods bound to a listed node, summed over the pod report. */
  lemma RequestsAgree(nodes: seq<Node>, pods: seq<Pod>)
    requires DistinctNames(nodes)
    ensures Sum(NodeReport(nodes, pods), RowRequests) == Sum(PodReport(PodsOnAnyOf(pods, NodeNames(nodes))), PodRowRequests)
  {
    NodeRequestsAreListedPodRequests(nodes, pods);
    PodReportSums(PodsOnAnyOf(pods, NodeNames(nodes)));
  }

  /** The GPU limits summed over the node report equal the GPU limits of the
      pods bound to a listed node, summed over the pod report. */
  lemma LimitsAgree(nodes: seq<Node>, pods: seq<Pod>)
    requires DistinctNames(nodes)
    ensures Sum(NodeReport(nodes, pods), RowLimits) == Sum(PodReport(PodsOnAnyOf(pods, NodeNames(nodes))), PodRowLimits)
  {
    NodeLimitsAreListedPodLimits(nodes, pods);
    PodReportSums(PodsOnAnyOf(pods, NodeNames(nodes)));
  }

  /** The TOTAL row's requests and limits are what the pod report gives for
      the pods bound to listed nodes. */
  lemma TotalsMatchPodReport(nodes: seq<Node>, pods: seq<Pod>)
    requires DistinctNames(nodes)
    ensures Totals(NodeReport(nodes, pods)).gpuRequests == Sum(PodReport(PodsOnAnyOf(pods, NodeNames(nodes))), PodRowRequests)
    ensures Totals(NodeReport(nodes, pods)).gpuLimits == Sum(PodReport(PodsOnAnyOf(pods, NodeNames(nodes))), PodRowLimits)
  {
    RequestsAgree(nodes, pods);
    LimitsAgree(nodes, pods);
  }

  // ---------------------------------------------------------------------------
  // Pod display filter
  // ---------------------------------------------------------------------------

  /** Filtering distributes over concatenation of rows. */
  lemma {:induction false} VisibleAppend(a: seq<PodGpuInfo>, b: seq<PodGpuInfo>)
    ensures Visible(a + b) == Visible(a) + Visible(b)
    decreases |b|
  {
    if |b| == 0 {
      assert a + b == a;
    } else {
      var b', x := b[..|b| - 1], b[|b| - 1];
      assert b == b' + [x];
      assert (a + b)[..|a + b| - 1] == a + b';
      VisibleAppend(a, b');
    }
  }

  /** The filter keeps the relative order of the rows it displays: of two
      displayed rows, the earlier one in the report is printed first. */
  lemma VisibleKeepsOrder(rows: seq<PodGpuInfo>, i: int, j: int)
    requires 0 <= i < j < |rows|
    requires Shown(rows[i]) && Shown(rows[j])
    ensures exists k, l :: 0 <= k < l < |Visible(rows)| && Visible(rows)[k] == rows[i] && Visible(rows)[l] == rows[j]
  {
    var front, upto := rows[..j], rows[..j + 1];
    assert rows == upto + rows[j + 1..];
    VisibleAppend(upto, rows[j + 1..]);
    VisiblePrefixStep(rows, j);
    assert rows[i] in Visible(front) by {
      assert rows[i] == front[i];
    }
    var vf := Visible(front);
    var k :| 0 <= k < |vf| && vf[k] == rows[i];
    assert Visible(rows)[k] == rows[i];
    assert Visible(rows)[|vf|] == rows[j];
  }

  /** A displayed pod row is the unmodified report row of some pod, and every
      pod that requests and limits GPUs appears. */
  lemma DisplayedRowsComeFromPods(pods: seq<Pod>)
    ensures forall x :: x in Visible(PodReport(pods)) ==> exists i :: 0 <= i < |pods| && x == PodRow(pods[i])
    ensures forall i :: 0 <= i < |pods| && PodGpuRequests(pods[i]) > 0 && PodGpuLimits(pods[i]) > 0 ==> PodRow(pods[i]) in Visible(PodReport(pods))
  {
    var rows := PodReport(pods);
    forall x | x in Visible(rows)
      ensures exists i :: 0 <= i < |pods| && x == PodRow(pods[i])
    {
      assert x in rows;
      var i :| 0 <= i < |rows| && rows[i] == x;
    }
    forall i | 0 <= i < |pods| && PodGpuRequests(pods[i]) > 0 && PodGpuLimits(pods[i]) > 0
      ensures PodRow(pods[i]) in Visible(rows)
    {
      assert rows[i] == PodRow(pods[i]);
      assert rows[i] in rows;
    }
  }
}
