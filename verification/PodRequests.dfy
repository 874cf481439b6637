/** The effective requests of a pod and what is free on a node. */
module PodRequests {
  import opened Sequences
  import opened Kube

  // ---------------------------------------------------------------- a pod starting

  /** One init container, in one resource dimension. */
  datatype Step = Step(amount: nat, sidecar: bool)

  /** How much is running, and the most that has run at once. */
  datatype Load = Load(running: nat, peak: nat)

  function Max(a: nat, b: nat): nat {
    if a >= b then a else b
  }

  function Total(xs: seq<nat>, n: nat): nat
    requires n <= |xs|
  {
    if n == 0 then 0 else Total(xs, n - 1) + xs[n - 1]
  }

  /** Init containers start one after the other; a sidecar stays, any other one exits before the
      next starts. */
  function AfterInit(steps: seq<Step>, n: nat): Load
    requires n <= |steps|
  {
    if n == 0 then Load(0, 0)
    else
      var before := AfterInit(steps, n - 1);
      var during := before.running + steps[n - 1].amount;
      Load(if steps[n - 1].sidecar then during else before.running, Max(before.peak, during))
  }

  /** Then every app container runs, next to the sidecars. */
  function PeakOfStart(steps: seq<Step>, apps: seq<nat>): nat {
    var init := AfterInit(steps, |steps|);
    Max(init.peak, init.running + Total(apps, |apps|))
  }

  function CpuSteps(pod: Pod): (s: seq<Step>)
    ensures |s| == |pod.initContainers|
  {
    seq(|pod.initContainers|, i requires 0 <= i < |pod.initContainers| =>
      Step(pod.initContainers[i].requests.cpu, pod.initContainers[i].sidecar))
  }

  function MemorySteps(pod: Pod): (s: seq<Step>)
    ensures |s| == |pod.initContainers|
  {
    seq(|pod.initContainers|, i requires 0 <= i < |pod.initContainers| =>
      Step(pod.initContainers[i].requests.memory, pod.initContainers[i].sidecar))
  }

  function AppCpu(pod: Pod): (s: seq<nat>)
    ensures |s| == |pod.containers|
  {
    seq(|pod.containers|, i requires 0 <= i < |pod.containers| => pod.containers[i].cpu)
  }

  function AppMemory(pod: Pod): (s: seq<nat>)
    ensures |s| == |pod.containers|
  {
    seq(|pod.containers|, i requires 0 <= i < |pod.containers| => pod.containers[i].memory)
  }

  /** The peak of the simulated start, in each dimension by itself. */
  function EffectiveRequests(pod: Pod): Requests {
    Requests(PeakOfStart(CpuSteps(pod), AppCpu(pod)), PeakOfStart(MemorySteps(pod), AppMemory(pod)))
  }

  /** The app containers alone. */
  function AppRequests(pod: Pod): Requests {
    Requests(Total(AppCpu(pod), |pod.containers|), Total(AppMemory(pod), |pod.containers|))
  }

  // ---------------------------------------------------------------- the single pass

  /** Largest regular init container together with the sidecars declared before it. */
  function InitFloor(steps: seq<Step>, n: nat): nat
    requires n <= |steps|
  {
    if n == 0 then 0
    else if steps[n - 1].sidecar then InitFloor(steps, n - 1)
    else Max(InitFloor(steps, n - 1), AfterInit(steps, n - 1).running + steps[n - 1].amount)
  }

  /** The peak of the init phase is the floor or the sidecars themselves. */
  lemma {:induction false} InitPeak(steps: seq<Step>, n: nat)
    requires n <= |steps|
    ensures AfterInit(steps, n).peak == Max(InitFloor(steps, n), AfterInit(steps, n).running)
  {
    if n > 0 { InitPeak(steps, n - 1); }
  }

  method ComputePodRequests(pod: Pod) returns (r: Requests)
    ensures r == EffectiveRequests(pod)
  {
    ghost var cs, ms := CpuSteps(pod), MemorySteps(pod);
    var sidecarCpu, sidecarMem, initCpu, initMem := 0, 0, 0, 0;
    for i := 0 to |pod.initContainers|
      invariant sidecarCpu == AfterInit(cs, i).running && sidecarMem == AfterInit(ms, i).running
      invariant initCpu == InitFloor(cs, i) && initMem == InitFloor(ms, i)
    {
      var c := pod.initContainers[i];
      if c.sidecar {
        sidecarCpu, sidecarMem := sidecarCpu + c.requests.cpu, sidecarMem + c.requests.memory;
      } else {
        var stepCpu, stepMem := c.requests.cpu + sidecarCpu, c.requests.memory + sidecarMem;
        if stepCpu > initCpu { initCpu := stepCpu; }
        if stepMem > initMem { initMem := stepMem; }
      }
    }
    var cpu, mem := 0, 0;
    for i := 0 to |pod.containers|
      invariant cpu == Total(AppCpu(pod), i) && mem == Total(AppMemory(pod), i)
    {
      cpu, mem := cpu + pod.containers[i].cpu, mem + pod.containers[i].memory;
    }
    InitPeak(cs, |cs|);
    InitPeak(ms, |ms|);
    cpu, mem := cpu + sidecarCpu, mem + sidecarMem;
    if initCpu > cpu { cpu := initCpu; }
    if initMem > mem { mem := initMem; }
    r := Requests(cpu, mem);
  }

  // ---------------------------------------------------------------- what the requests mean

  /** What the sidecars among the first n init containers request together. */
  function Sidecars(steps: seq<Step>, n: nat): nat
    requires n <= |steps|
  {
    if n == 0 then 0 else Sidecars(steps, n - 1) + if steps[n - 1].sidecar then steps[n - 1].amount else 0
  }

  /** What runs at one moment of the start: an init container next to the sidecars before it, or all app
      containers next to all sidecars. */
  ghost predicate RunsAtOnce(steps: seq<Step>, apps: seq<nat>, amount: nat) {
    || amount == Sidecars(steps, |steps|) + Total(apps, |apps|)
    || exists i :: 0 <= i < |steps| && amount == Sidecars(steps, i) + steps[i].amount
  }

  lemma {:induction false} InitMoments(steps: seq<Step>, n: nat)
    requires n <= |steps|
    ensures AfterInit(steps, n).running == Sidecars(steps, n)
    ensures forall i :: 0 <= i < n ==> Sidecars(steps, i) + steps[i].amount <= AfterInit(steps, n).peak
    ensures n > 0 ==> exists i :: 0 <= i < n && Sidecars(steps, i) + steps[i].amount == AfterInit(steps, n).peak
  {
    if n > 0 {
      InitMoments(steps, n - 1);
      if n == 1 { assert Sidecars(steps, 0) + steps[0].amount == AfterInit(steps, 1).peak; }
    }
  }

  /** What is reserved is the most that runs at once at any moment of the start. */
  lemma {:induction false} PeakIsLargest(steps: seq<Step>, apps: seq<nat>)
    ensures RunsAtOnce(steps, apps, PeakOfStart(steps, apps))
    ensures forall amount: nat :: RunsAtOnce(steps, apps, amount) ==> amount <= PeakOfStart(steps, apps)
  {
    InitMoments(steps, |steps|);
    hide Sidecars, AfterInit;
  }

  function Crossed(r: Requests): Requests {
    Requests(r.memory, r.cpu)
  }

  /** The pod with CPU and memory exchanged in every container. */
  function WithCrossed(pod: Pod): Pod {
    pod.(containers := seq(|pod.containers|, i requires 0 <= i < |pod.containers| => Crossed(pod.containers[i])),
         initContainers := seq(|pod.initContainers|, i requires 0 <= i < |pod.initContainers| =>
                             InitContainer(Crossed(pod.initContainers[i].requests), pod.initContainers[i].sidecar)))
  }

  lemma NothingRuns(steps: seq<Step>, apps: seq<nat>)
    requires (forall i :: 0 <= i < |steps| ==> steps[i].amount == 0) && (forall i :: 0 <= i < |apps| ==> apps[i] == 0)
    ensures PeakOfStart(steps, apps) == 0
  {
    NoSidecars(steps, |steps|);
    NoTotal(apps, |apps|);
  }

  lemma {:induction false} NoSidecars(steps: seq<Step>, n: nat)
    requires n <= |steps| && forall i :: 0 <= i < |steps| ==> steps[i].amount == 0
    ensures AfterInit(steps, n) == Load(0, 0)
  {
    if n > 0 { NoSidecars(steps, n - 1); }
  }

  lemma {:induction false} NoTotal(apps: seq<nat>, n: nat)
    requires n <= |apps| && forall i :: 0 <= i < |apps| ==> apps[i] == 0
    ensures Total(apps, n) == 0
  {
    if n > 0 { NoTotal(apps, n - 1); }
  }

  /** CPU and memory are treated alike and apart: exchanging them everywhere exchanges the result, and a
      pod that requests no memory anywhere is reserved none. */
  lemma {:induction false} DimensionsAreApart(pod: Pod)
    ensures EffectiveRequests(WithCrossed(pod)) == Crossed(EffectiveRequests(pod))
    ensures (forall c :: c in pod.containers ==> c.memory == 0)
         && (forall c :: c in pod.initContainers ==> c.requests.memory == 0)
        ==> EffectiveRequests(pod).memory == 0
  {
    var e := WithCrossed(pod);
    assert CpuSteps(e) == MemorySteps(pod) && MemorySteps(e) == CpuSteps(pod);
    assert AppCpu(e) == AppMemory(pod) && AppMemory(e) == AppCpu(pod);
    if (forall c :: c in pod.containers ==> c.memory == 0)
       && (forall c :: c in pod.initContainers ==> c.requests.memory == 0)
    {
      NothingRuns(MemorySteps(pod), AppMemory(pod));
    }
  }

  /** The pre-sidecar accounting never exceeds the effective requests. */
  lemma {:induction false} AppRequestsAtMostEffective(pod: Pod)
    ensures AppRequests(pod).cpu <= EffectiveRequests(pod).cpu
    ensures AppRequests(pod).memory <= EffectiveRequests(pod).memory
  {
  }

  // ---------------------------------------------------------------- free resources

  function Unfinished(pods: seq<Pod>, n: nat): Requests
    requires n <= |pods|
  {
    if n == 0 then Requests(0, 0)
    else
      var before, r := Unfinished(pods, n - 1), EffectiveRequests(pods[n - 1]);
      if pods[n - 1].Finished() then before else Requests(before.cpu + r.cpu, before.memory + r.memory)
  }

  /** Allocatable minus what the unfinished pods of the node request. */
  function Free(cluster: Cluster, node: Node): Resources {
    var resident := PodsOn(cluster.pods, node.name);
    node.allocatable.Minus(Unfinished(resident, |resident|))
  }

  method NodeFreeResources(cluster: Cluster, node: Node) returns (free: Resources)
    ensures free == Free(cluster, node)
    ensures free.cpu <= node.allocatable.cpu && free.memory <= node.allocatable.memory
  {
    free := node.allocatable;
    var pods := PodsOn(cluster.pods, node.name);
    for i := 0 to |pods|
      invariant free == node.allocatable.Minus(Unfinished(pods, i))
    {
      if pods[i].Finished() { continue; }
      var r := ComputePodRequests(pods[i]);
      free := free.Minus(r);
    }
  }

  lemma {:induction false} PodsOnAppended(pods: seq<Pod>, p: Pod, name: string)
    ensures PodsOn(pods + [p], name) == PodsOn(pods, name) + if p.nodeName == name then [p] else []
  {
    if pods != [] {
      PodsOnAppended(pods[1..], p, name);
      assert (pods + [p])[1..] == pods[1..] + [p];
    }
  }

  lemma {:induction false} UnfinishedOfExtension(pods: seq<Pod>, p: Pod, n: nat)
    requires n <= |pods|
    ensures Unfinished(pods + [p], n) == Unfinished(pods, n)
  {
    hide EffectiveRequests;
    if n > 0 { UnfinishedOfExtension(pods, p, n - 1); }
  }

  /** The pods on a node are those bound to it, in list order. */
  lemma {:induction false} PodsOnAreFiltered(pods: seq<Pod>, name: string, p: Pod -> bool, f: Pod -> Pod)
    requires forall q :: p(q) <==> q.nodeName == name
    requires forall q :: f(q) == q
    ensures IsFiltered(PodsOn(pods, name), pods, p, f)
  {
    if pods == [] {
      FilteredEmpty(p, f);
    } else {
      var n := |pods| - 1;
      PodsOnAreFiltered(pods[..n], name, p, f);
      PodsOnAppended(pods[..n], pods[n], name);
      hide IsFiltered, PodsOn;
      assert pods == pods[..n] + [pods[n]];
      FilteredLast(PodsOn(pods, name), PodsOn(pods[..n], name), pods, p, f);
    }
  }

  lemma {:induction false} WithoutSystemPodsAppended(pods: seq<Pod>, p: Pod)
    ensures WithoutSystemPods(pods + [p]) == WithoutSystemPods(pods) + if IsSystemPod(p) then [] else [p]
  {
    hide IsSystemPod;
    if pods != [] {
      WithoutSystemPodsAppended(pods[1..], p);
      assert (pods + [p])[1..] == pods[1..] + [p];
    }
  }

  /** Left out are the pods of a namespace that starts with kube-, and the kube-proxy. */
  lemma {:induction false} SystemPodsAreFiltered(pods: seq<Pod>, p: Pod -> bool, f: Pod -> Pod)
    requires forall q :: p(q) <==> !("kube-" <= q.namespace)
                                   && ("k8s-app" in q.labels ==> q.labels["k8s-app"] != "kube-proxy")
    requires forall q :: f(q) == q
    ensures IsFiltered(WithoutSystemPods(pods), pods, p, f)
  {
    if pods == [] {
      FilteredEmpty(p, f);
    } else {
      var n := |pods| - 1;
      SystemPodsAreFiltered(pods[..n], p, f);
      WithoutSystemPodsAppended(pods[..n], pods[n]);
      hide IsFiltered, WithoutSystemPods;
      assert pods == pods[..n] + [pods[n]];
      FilteredLast(WithoutSystemPods(pods), WithoutSystemPods(pods[..n]), pods, p, f);
    }
  }

  /** An empty node is all free; one more pod takes its effective requests from the node it is bound to,
      and from no other, unless it is finished. */
  lemma {:induction false} OnePodLess(nodes: seq<Node>, pods: seq<Pod>, p: Pod, node: Node)
    ensures Free(Cluster(nodes, []), node) == node.allocatable
    ensures Free(Cluster(nodes, pods + [p]), node)
         == if p.nodeName == node.name && p.phase != Succeeded && p.phase != Failed
            then Free(Cluster(nodes, pods), node).Minus(EffectiveRequests(p))
            else Free(Cluster(nodes, pods), node)
  {
    hide EffectiveRequests;
    PodsOnAppended(pods, p, node.name);
    var resident := PodsOn(pods, node.name);
    UnfinishedOfExtension(resident, p, |resident|);
    assert PodsOn([], node.name) == [] && resident + [] == resident;
    if p.nodeName == node.name {
      assert PodsOn(pods + [p], node.name) == resident + [p] && (resident + [p])[|resident|] == p;
    }
  }
}
