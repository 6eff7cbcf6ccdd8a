/** Cluster nodes and the placement decision: internal/resource. */
module Resources {
  import opened Wrappers
  import opened Jobs

  datatype Resource = CPU | Memory | GPU

  function Amount(req: Requirements, r: Resource): int {
    match r case CPU => req.cpuCores case Memory => req.memoryMB case GPU => req.gpus
  }

  predicate Asks(req: Requirements) {
    req.cpuCores >= 0 && req.memoryMB >= 0 && req.gpus >= 0
  }

  function Plus(a: Requirements, b: Requirements): Requirements {
    Requirements(a.cpuCores + b.cpuCores, a.memoryMB + b.memoryMB, a.gpus + b.gpus)
  }

  function Minus(a: Requirements, b: Requirements): Requirements {
    Requirements(a.cpuCores - b.cpuCores, a.memoryMB - b.memoryMB, a.gpus - b.gpus)
  }

  /** What a node holds at one moment. */
  datatype Capacity = Capacity(name: string, total: Requirements, used: Requirements)

  predicate Fits(c: Capacity, req: Requirements) {
    && c.total.cpuCores - c.used.cpuCores >= req.cpuCores
    && c.total.memoryMB - c.used.memoryMB >= req.memoryMB
    && c.total.gpus - c.used.gpus >= req.gpus
  }

  function Slack(c: Capacity, req: Requirements): int {
    c.total.cpuCores - c.used.cpuCores - req.cpuCores
  }

  /** The node that leaves the fewest CPU cores free, the first of these. */
  ghost predicate IsBestFit(nodes: seq<Capacity>, req: Requirements, k: nat) {
    && k < |nodes| && Fits(nodes[k], req)
    && forall j | 0 <= j < |nodes| && Fits(nodes[j], req) ::
         Slack(nodes[k], req) < Slack(nodes[j], req) || (Slack(nodes[k], req) == Slack(nodes[j], req) && k <= j)
  }

  lemma BestFitIsUnique(nodes: seq<Capacity>, req: Requirements, k: nat, j: nat)
    requires IsBestFit(nodes, req, k) && IsBestFit(nodes, req, j)
    ensures k == j
  {
  }

  /** The best fit among the first `n` nodes. */
  function BestAmong(nodes: seq<Capacity>, req: Requirements, n: nat): (best: Option<nat>)
    requires n <= |nodes|
    ensures best.Some? ==> IsBestFit(nodes[..n], req, best.value)
    ensures best.None? ==> forall j | 0 <= j < n :: !Fits(nodes[j], req)
  {
    if n == 0 then None
    else
      var best := BestAmong(nodes, req, n - 1);
      if Fits(nodes[n - 1], req) && (best.None? || Slack(nodes[n - 1], req) < Slack(nodes[best.value], req))
      then Some(n - 1)
      else best
  }

  function FindFit(nodes: seq<Capacity>, req: Requirements): (best: Option<nat>)
    ensures best.Some? ==> IsBestFit(nodes, req, best.value)
    ensures best.None? ==> forall j | 0 <= j < |nodes| :: !Fits(nodes[j], req)
  {
    assert nodes[..|nodes|] == nodes;
    BestAmong(nodes, req, |nodes|)
  }

  class Node {
    const name: string
    const totalCPU: int
    const totalMemMB: int
    const totalGPUs: int
    var usedCPU: int
    var usedMemMB: int
    var usedGPUs: int

    ghost function View(): Capacity
      reads this
    {
      Capacity(name, Requirements(totalCPU, totalMemMB, totalGPUs), Requirements(usedCPU, usedMemMB, usedGPUs))
    }

    constructor (name: string, cpu: int, memMB: int, gpus: int)
      ensures View() == Capacity(name, Requirements(cpu, memMB, gpus), Requirements(0, 0, 0))
    {
      this.name, totalCPU, totalMemMB, totalGPUs := name, cpu, memMB, gpus;
      usedCPU, usedMemMB, usedGPUs := 0, 0, 0;
    }

    predicate HasRoom(req: Requirements)
      reads this
      ensures HasRoom(req) == Fits(View(), req)
    {
      totalCPU - usedCPU >= req.cpuCores && totalMemMB - usedMemMB >= req.memoryMB && totalGPUs - usedGPUs >= req.gpus
    }

    method Reserve(req: Requirements)
      modifies this
      ensures View() == old(View()).(used := Plus(old(View()).used, req))
    {
      usedCPU := usedCPU + req.cpuCores;
      usedMemMB := usedMemMB + req.memoryMB;
      usedGPUs := usedGPUs + req.gpus;
    }

    method Release(req: Requirements)
      modifies this
      ensures View() == old(View()).(used := Minus(old(View()).used, req))
    {
      usedCPU := usedCPU - req.cpuCores;
      usedMemMB := usedMemMB - req.memoryMB;
      usedGPUs := usedGPUs - req.gpus;
    }
  }

  ghost function Views(nodes: seq<Node>): (r: seq<Capacity>)
    reads nodes
    ensures |r| == |nodes| && forall i | 0 <= i < |nodes| :: r[i] == nodes[i].View()
  {
    seq(|nodes|, i requires 0 <= i < |nodes| reads nodes => nodes[i].View())
  }

  /** The pool's search, which also gives the position of the node it found. */
  method FindNode(nodes: seq<Node>, req: Requirements) returns (best: Node?, ghost at: Option<nat>)
    ensures at == FindFit(Views(nodes), req)
    ensures best == if at.Some? then nodes[at.value] else null
    ensures best != null ==>
              && best in nodes && best.HasRoom(req)
              && forall n <- nodes :: n.HasRoom(req) ==> best.totalCPU - best.usedCPU <= n.totalCPU - n.usedCPU
    ensures best == null ==> forall n <- nodes :: !n.HasRoom(req)
  {
    best, at := null, None;
    var bestSlack := -1;
    for k := 0 to |nodes|
      invariant at == BestAmong(Views(nodes), req, k)
      invariant best == if at.Some? then nodes[at.value] else null
      invariant at.Some? ==> bestSlack == Slack(Views(nodes)[at.value], req)
    {
      var n := nodes[k];
      if n.HasRoom(req) {
        var slack := n.totalCPU - n.usedCPU - req.cpuCores;
        if best == null || slack < bestSlack {
          best, bestSlack, at := n, slack, Some(k);
        }
      }
    }
  }
}
