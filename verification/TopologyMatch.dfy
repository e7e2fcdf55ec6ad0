/** The extension points of the topology plugin, over the state of one scheduling cycle and the assumed cache. */
module TopologyMatching {
  import opened Options
  import opened Framework
  import opened Topology
  import opened PodRequests
  import opened Allocator
  import opened AssumedCache
  import opened NodeWrappers
  import opened Assignment

  /** The topology object of a node: its zones and the two manager policies the plugin looks at. */
  datatype NodeTopology = NodeTopology(zones: seq<Zone>, staticCPUManager: bool, singleNUMANode: bool)

  datatype NodeInfo = NodeInfo(node: Option<string>, pods: seq<Pod>)

  datatype Status = Success | Unschedulable(reason: Reason) | Error(cause: Cause)
  datatype Reason = NUMAResourceNotEnough | FailedToGetNRT
  datatype Cause = NodeNotFound | EmptyResult | CannotAssume(err: CacheError)

  /** The awareness of the pod, if it states one, overrides that of the node. */
  function Awareness(pod: Option<bool>, nrt: NodeTopology): bool {
    if pod.Some? then pod.value else nrt.singleNUMANode
  }

  class StateData {
    const aware: Option<bool>
    const targetContainerIndices: seq<nat>
    const targetContainerResource: PodRequest
    var podTopologyByNode: map<string, NodeWrapper>
    var topologyResult: seq<Zone>

    constructor (aware: Option<bool>, indices: seq<nat>, request: PodRequest)
      ensures this.aware == aware && targetContainerIndices == indices && targetContainerResource == request
      ensures podTopologyByNode == map[] && topologyResult == []
    {
      this.aware := aware;
      targetContainerIndices := indices;
      targetContainerResource := request;
      podTopologyByNode := map[];
      topologyResult := [];
    }
  }

  class TopologyMatch {
    const topologyAwareResources: set<string>
    const cache: PodTopologyCache

    constructor (resources: set<string>, cache: PodTopologyCache)
      ensures topologyAwareResources == resources && this.cache == cache
    {
      topologyAwareResources := resources;
      this.cache := cache;
    }

    method PreFilter(pod: Pod) returns (s: StateData)
      ensures fresh(s) && fresh(s.targetContainerResource)
      ensures s.aware == pod.awareness && s.podTopologyByNode == map[] && s.topologyResult == []
      ensures CPU in topologyAwareResources ==> TargetIndices(pod, s.targetContainerIndices)
      ensures CPU !in topologyAwareResources ==> s.targetContainerIndices == []
      ensures forall i :: 0 <= i < |s.targetContainerIndices| ==> s.targetContainerIndices[i] < |pod.containers|
      ensures s.targetContainerResource.amount
        == RequestOf(pod.containers, s.targetContainerIndices, topologyAwareResources)
    {
      var indices: seq<nat> := [];
      if CPU in topologyAwareResources {
        indices := GetPodTargetContainerIndices(pod);
        assert forall i :: 0 <= i < |indices| ==> IsTarget(pod, indices[i]);
      }
      var resources := ComputeContainerSpecifiedResourceRequest(pod, indices, topologyAwareResources);
      var request := new PodRequest(resources);
      s := new StateData(pod.awareness, indices, request);
    }

    method InitializeNodeWrapper(aware: Option<bool>, node: string, pods: seq<Pod>, nrt: NodeTopology)
      returns (nw: NodeWrapper)
      requires cache.Valid()
      ensures fresh(nw) && fresh(nw.numaNodes) && nw.Valid() && nw.node == node && nw.result == []
      ensures nw.aware == Awareness(aware, nrt)
      ensures nw.aware == (aware == Some(true) || (aware == None && nrt.singleNUMANode))
      ensures nw.Shows(Reconstruct(nrt.zones, pods, cache.Entries()))
    {
      nw := new NodeWrapper(node, nrt.zones, cache);
      for i := 0 to |pods|
        invariant fresh(nw) && fresh(nw.numaNodes) && nw.Valid() && nw.node == node && nw.result == []
        invariant |nw.numaNodes| == |nrt.zones|
        invariant forall k :: 0 <= k < |nrt.zones| ==>
          nw.numaNodes[k].View()
          == ZoneView(nrt.zones[k].name, AllocatableOf(nrt.zones[k]),
                      UsageOf(nrt.zones[k].name, pods[..i], cache.Entries()))
      {
        assert pods[..i + 1][..i] == pods[..i];
        nw.AddPod(pods[i]);
      }
      assert pods[..|pods|] == pods;
      if aware.Some? {
        nw.aware := aware.value;
      } else {
        nw.aware := nrt.singleNUMANode;
      }
    }

    /** The single-zone check where it applies, then the assignment, which consumes the clone of the request. */
    method CheckAndAssign(nw: NodeWrapper, amount: Resource, clone: PodRequest, ghost views: seq<ZoneView>)
      returns (ok: bool)
      requires nw.Valid() && nw.Shows(views) && nw.result == [] && clone.amount == amount
      requires nw.aware || amount.scalars == map[]
      modifies nw`numaNodes, nw`result, nw.numaNodes, clone
      ensures ok <==> !Refused(views, nw.aware, amount)
      ensures ok ==> Accepts(views, nw.aware, amount, nw.result)
    {
      ghost var all := nw.numaNodes;
      if nw.aware {
        ok := FilterNUMANodeResource(amount, nw, views);
        if !ok {
          return;
        }
        assert forall k :: 0 <= k < |nw.numaNodes| ==> nw.numaNodes[k] in all;
        AssignFirstResult(nw, clone, FittingZones(amount, views));
      } else {
        ok := true;
        AssignFirstResult(nw, clone, views);
      }
    }

    /** Filter, once the node is known to be managed: the request is cloned, so the cycle's own copy survives. */
    method FilterManaged(s: StateData, node: string, pods: seq<Pod>, nrt: NodeTopology) returns (status: Status)
      requires cache.Valid()
      requires Awareness(s.aware, nrt) || s.targetContainerResource.amount.scalars == map[]
      modifies s`podTopologyByNode
      ensures var views := Reconstruct(nrt.zones, pods, cache.Entries());
        var aware, request := Awareness(s.aware, nrt), s.targetContainerResource.amount;
        if Refused(views, aware, request) then
          status == Unschedulable(NUMAResourceNotEnough) && s.podTopologyByNode == old(s.podTopologyByNode)
        else
          && status == Success
          && s.podTopologyByNode.Keys == old(s.podTopologyByNode).Keys + {node}
          && (forall n :: n in old(s.podTopologyByNode) && n != node ==>
                s.podTopologyByNode[n] == old(s.podTopologyByNode)[n])
          && fresh(s.podTopologyByNode[node])
          && Accepts(views, aware, request, s.podTopologyByNode[node].result)
    {
      var nw := InitializeNodeWrapper(s.aware, node, pods, nrt);
      var clone := s.targetContainerResource.Clone();
      var ok := CheckAndAssign(nw, s.targetContainerResource.amount, clone,
                               Reconstruct(nrt.zones, pods, cache.Entries()));
      if !ok {
        return Unschedulable(NUMAResourceNotEnough);
      }
      s.podTopologyByNode := s.podTopologyByNode[node := nw];
      return Success;
    }

    method Filter(s: StateData, pod: Pod, nodeInfo: NodeInfo, nrt: Option<NodeTopology>) returns (status: Status)
      requires cache.Valid()
      requires nrt.Some? ==>
        Awareness(s.aware, nrt.value) || s.targetContainerResource.amount.scalars == map[]
      modifies s`podTopologyByNode
      ensures nodeInfo.node.None? ==> status == Error(NodeNotFound)
      ensures nodeInfo.node.Some? && (pod.daemonSet || s.targetContainerIndices == []) ==> status == Success
      ensures
        || nodeInfo.node.None? || pod.daemonSet || s.targetContainerIndices == []
        || nrt.None? || !nrt.value.staticCPUManager || status != Success
        ==> s.podTopologyByNode == old(s.podTopologyByNode)
      ensures nodeInfo.node.Some? && !pod.daemonSet && s.targetContainerIndices != [] ==>
        if nrt.None? then status == Unschedulable(FailedToGetNRT)
        else if !nrt.value.staticCPUManager then status == Success
        else
          var node := nodeInfo.node.value;
          var aware := s.aware == Some(true) || (s.aware == None && nrt.value.singleNUMANode);
          var views := Reconstruct(nrt.value.zones, nodeInfo.pods, cache.Entries());
          var request := s.targetContainerResource.amount;
          if Refused(views, aware, request) then status == Unschedulable(NUMAResourceNotEnough)
          else
            && status == Success && node in s.podTopologyByNode
            && fresh(s.podTopologyByNode[node])
            && Accepts(views, aware, request, s.podTopologyByNode[node].result)
      ensures forall n :: n in old(s.podTopologyByNode) && Some(n) != nodeInfo.node ==>
        n in s.podTopologyByNode && s.podTopologyByNode[n] == old(s.podTopologyByNode)[n]
    {
      if nodeInfo.node.None? {
        return Error(NodeNotFound);
      }
      if pod.daemonSet || |s.targetContainerIndices| == 0 {
        return Success;
      }
      if nrt.None? {
        return Unschedulable(FailedToGetNRT);
      }
      if !nrt.value.staticCPUManager {
        return Success;
      }
      status := FilterManaged(s, nodeInfo.node.value, nodeInfo.pods, nrt.value);
    }

    /** An empty result has no score: the source divides by its length. */
    method Score(s: StateData, node: string) returns (score: nat)
      requires node in s.podTopologyByNode ==> s.podTopologyByNode[node].result != []
      ensures score == if node in s.podTopologyByNode
                       then MAX_NODE_SCORE / |s.podTopologyByNode[node].result| else 0
    {
      if node !in s.podTopologyByNode {
        return 0;
      }
      score := MAX_NODE_SCORE / |s.podTopologyByNode[node].result|;
    }

    method Reserve(s: StateData, pod: Pod, node: string, now: int) returns (status: Status)
      requires cache.Valid()
      modifies s`topologyResult, cache
      ensures cache.Valid()
      ensures node !in s.podTopologyByNode ==>
        status == Success && s.topologyResult == old(s.topologyResult) && cache.Entries() == old(cache.Entries())
      ensures node in s.podTopologyByNode ==>
        var result := s.podTopologyByNode[node].result;
        if result == [] then
          status == Error(EmptyResult) && s.topologyResult == old(s.topologyResult)
          && cache.Entries() == old(cache.Entries())
        else
          && s.topologyResult == result
          && (status == Success <==> pod.uid != "" && pod.uid !in old(cache.Entries()))
          && cache.Entries() == if status == Success
               then old(cache.Entries())[pod.uid := Assumed(result, now + cache.ttl)] else old(cache.Entries())
    {
      if node !in s.podTopologyByNode {
        return Success;
      }
      var nw := s.podTopologyByNode[node];
      if |nw.result| == 0 {
        return Error(EmptyResult);
      }
      s.topologyResult := nw.result;
      var err := cache.AssumePod(pod, s.topologyResult, now);
      if err != NoError {
        return Error(CannotAssume(err));
      }
      return Success;
    }

    method Unreserve(s: StateData, pod: Pod, node: string)
      requires cache.Valid()
      modifies cache
      ensures cache.Valid()
      ensures cache.Entries() == if node in s.podTopologyByNode && pod.uid != ""
                                 then Forgotten(old(cache.Entries()), pod.uid) else old(cache.Entries())
    {
      if node !in s.podTopologyByNode {
        return;
      }
      var _ := cache.ForgetPod(pod);
    }

    /** The pod as the patch leaves it: the reserved result, if any, becomes its annotation. */
    method PreBind(s: StateData, pod: Pod) returns (patched: Pod)
      ensures patched == if s.topologyResult == [] then pod else pod.(result := s.topologyResult)
    {
      if |s.topologyResult| == 0 {
        return pod;
      }
      patched := pod.(result := s.topologyResult);
    }
  }
}
