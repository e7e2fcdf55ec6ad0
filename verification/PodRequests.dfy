/** Which containers of a pod get whole CPUs, and what they request together. */
module PodRequests {
  import opened Topology

  /** Whole CPUs of a container whose CPU request equals its limit, else 0. */
  function GuaranteedCPUs(container: Container): int {
    var request := Get(container.requests, CPU);
    if request != Get(container.limits, CPU) || Value(request) * 1000 != MilliValue(request) then 0
    else Value(request)
  }

  /**
   * Exactly when the request equals the limit and is, up to the rounding to thousandths, a positive whole
   * number n of CPUs, the container is guaranteed n.
   */
  lemma WhenCPUsAreGuaranteed(container: Container, n: int)
    requires n > 0
    ensures var request := Get(container.requests, CPU);
      GuaranteedCPUs(container) == n
      <==> request == Get(container.limits, CPU) && n * 1_000_000_000 - 1_000_000 < request <= n * 1_000_000_000
  {
    RoundingIsAwayFromZero(Get(container.requests, CPU));
  }

  /** Container c of the pod gets whole CPUs. */
  predicate IsTarget(pod: Pod, c: nat) {
    pod.cpuPolicy != NonePolicy && c < |pod.containers| && GuaranteedCPUs(pod.containers[c]) > 0
  }

  /** idx lists, in order, exactly the containers whose CPUs can be allocated. */
  ghost predicate TargetIndices(pod: Pod, idx: seq<nat>) {
    && (forall i, j :: 0 <= i < j < |idx| ==> idx[i] < idx[j])
    && (forall i :: 0 <= i < |idx| ==> IsTarget(pod, idx[i]))
    && forall c: nat :: IsTarget(pod, c) ==> c in idx
  }

  method GetPodTargetContainerIndices(pod: Pod) returns (idx: seq<nat>)
    ensures TargetIndices(pod, idx)
    ensures pod.cpuPolicy == NonePolicy ==> idx == []
    ensures pod.cpuPolicy != NonePolicy ==>
      forall c: nat :: c in idx <==> c < |pod.containers| && GuaranteedCPUs(pod.containers[c]) > 0
  {
    idx := [];
    if pod.cpuPolicy == NonePolicy {
      return;
    }
    for i := 0 to |pod.containers|
      invariant forall k :: 0 <= k < |idx| ==> idx[k] < i && IsTarget(pod, idx[k])
      invariant forall k, l :: 0 <= k < l < |idx| ==> idx[k] < idx[l]
      invariant forall c: nat :: c < i && IsTarget(pod, c) ==> c in idx
    {
      if GuaranteedCPUs(pod.containers[i]) > 0 {
        idx := idx + [i];
      }
    }
  }

  /** The requests of a container that are among the specified resource names. */
  function Specified(requests: ResourceList, names: set<string>): ResourceList {
    map k | k in requests && k in names :: requests[k]
  }

  function RequestOf(containers: seq<Container>, indices: seq<nat>, names: set<string>): (r: Resource)
    requires forall i :: 0 <= i < |indices| ==> indices[i] < |containers|
    ensures WellFormed(r)
  {
    if indices == [] then ZERO
    else
      var last := indices[|indices| - 1];
      AddList(RequestOf(containers, indices[..|indices| - 1], names), Specified(containers[last].requests, names))
  }

  method ComputeContainerSpecifiedResourceRequest(pod: Pod, indices: seq<nat>, names: set<string>)
    returns (result: Resource)
    requires forall i :: 0 <= i < |indices| ==> indices[i] < |pod.containers|
    ensures result == RequestOf(pod.containers, indices, names)
  {
    result := ZERO;
    for i := 0 to |indices|
      invariant result == RequestOf(pod.containers, indices[..i], names)
    {
      assert indices[..i + 1][..i] == indices[..i];
      result := AddList(result, Specified(pod.containers[indices[i]].requests, names));
    }
    assert indices[..|indices|] == indices;
  }

  /** The sum over the listed containers of what they request of one resource. */
  function RequestedOf(containers: seq<Container>, indices: seq<nat>, name: string): int
    requires forall i :: 0 <= i < |indices| ==> indices[i] < |containers|
  {
    if indices == [] then 0
    else
      Counted(name, Get(containers[indices[0]].requests, name)) + RequestedOf(containers, indices[1..], name)
  }

  lemma {:induction false} RequestedNext(containers: seq<Container>, indices: seq<nat>, name: string)
    requires indices != [] && forall i :: 0 <= i < |indices| ==> indices[i] < |containers|
    ensures RequestedOf(containers, indices, name)
      == RequestedOf(containers, indices[..|indices| - 1], name)
         + Counted(name, Get(containers[indices[|indices| - 1]].requests, name))
  {
    if |indices| > 1 {
      RequestedNext(containers, indices[1..], name);
      assert indices[1..][..|indices| - 2] == indices[..|indices| - 1][1..];
    }
  }

  /** For every resource: the request is the sum over the target containers if the resource is aware, else nothing. */
  lemma {:induction false} RequestIsSum(containers: seq<Container>, indices: seq<nat>, names: set<string>, name: string)
    requires forall i :: 0 <= i < |indices| ==> indices[i] < |containers|
    ensures AmountOf(RequestOf(containers, indices, names), name)
      == if name in names then RequestedOf(containers, indices, name) else 0
  {
    if indices != [] {
      var init, last := indices[..|indices| - 1], indices[|indices| - 1];
      RequestIsSum(containers, init, names, name);
      AddListAdds(RequestOf(containers, init, names), Specified(containers[last].requests, names), name);
      RequestedNext(containers, indices, name);
    }
  }

  /** The CPUs the listed containers are guaranteed together. */
  function GuaranteedTotal(containers: seq<Container>, indices: seq<nat>): int
    requires forall i :: 0 <= i < |indices| ==> indices[i] < |containers|
  {
    if indices == [] then 0
    else
      GuaranteedTotal(containers, indices[..|indices| - 1]) + GuaranteedCPUs(containers[indices[|indices| - 1]])
  }

  lemma {:induction false} RequestIsGuaranteed(containers: seq<Container>, indices: seq<nat>, names: set<string>)
    requires CPU in names
    requires forall i :: 0 <= i < |indices| ==> indices[i] < |containers| && GuaranteedCPUs(containers[indices[i]]) > 0
    ensures RequestOf(containers, indices, names).milliCPU == 1000 * GuaranteedTotal(containers, indices)
    ensures GuaranteedTotal(containers, indices) >= |indices|
  {
    if indices != [] {
      var init, last := indices[..|indices| - 1], indices[|indices| - 1];
      RequestIsGuaranteed(containers, init, names);
      assert Get(Specified(containers[last].requests, names), CPU) == Get(containers[last].requests, CPU);
    }
  }

  /** With CPU among the aware resources, every pod asks for whole cores, one or more per target container. */
  lemma RequestsAreWholeCores(pod: Pod, idx: seq<nat>, names: set<string>)
    requires CPU in names && TargetIndices(pod, idx)
    ensures RequestOf(pod.containers, idx, names).milliCPU % 1000 == 0
    ensures RequestOf(pod.containers, idx, names).milliCPU >= 1000 * |idx|
  {
    RequestIsGuaranteed(pod.containers, idx, names);
    ThousandTimes(GuaranteedTotal(pod.containers, idx));
  }

  lemma ThousandTimes(n: int)
    ensures (1000 * n) % 1000 == 0
  {
  }

  /** With CPU as the only aware resource, a request has nothing but CPU. */
  lemma {:induction false} RequestsAreCpuOnly(containers: seq<Container>, indices: seq<nat>)
    requires forall i :: 0 <= i < |indices| ==> indices[i] < |containers|
    ensures var r := RequestOf(containers, indices, {CPU});
      r.memory == 0 && r.ephemeralStorage == 0 && r.scalars == map[]
  {
    if indices != [] {
      RequestsAreCpuOnly(containers, indices[..|indices| - 1]);
    }
  }
}
