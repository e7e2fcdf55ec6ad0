/** The mutable view of one node: its zones, the pods added to them, and the result assigned to a pod. */
module NodeWrappers {
  import opened Options
  import opened Sums
  import opened Topology
  import opened Allocator
  import opened AssumedCache
  import opened Sorting

  /** A pod's request; the assignment consumes it. */
  class PodRequest {
    var amount: Resource

    constructor (amount: Resource)
      ensures this.amount == amount
    {
      this.amount := amount;
    }

    method Clone() returns (copy: PodRequest)
      ensures fresh(copy) && copy.amount == amount
    {
      copy := new PodRequest(amount);
    }
  }

  class NumaNode {
    const name: string
    var allocatable: Resource
    var requested: Resource

    constructor (zone: Zone)
      ensures name == zone.name && allocatable == AllocatableOf(zone) && requested == ZERO
      ensures zone.resources.None? ==> allocatable == ZERO
      ensures zone.resources.Some? ==>
        var stated := zone.resources.value.allocatable;
        && allocatable.milliCPU == MilliValue(Get(stated, CPU))
        && allocatable.memory == Value(Get(stated, MEMORY))
        && allocatable.ephemeralStorage == Value(Get(stated, EPHEMERAL_STORAGE))
        && forall k :: !Native(k) ==> Scalar(allocatable.scalars, k) == Value(Get(stated, k))
    {
      name := zone.name;
      allocatable := AllocatableOf(zone);
      requested := ZERO;
    }

    function View(): ZoneView
      reads this
    {
      ZoneView(name, allocatable, requested)
    }

    method AddResource(info: Option<ResourceInfo>)
      modifies this`requested
      ensures requested == AddInfo(old(requested), info)
    {
      if info.None? {
        return;
      }
      requested := AddList(requested, info.value.capacity);
    }
  }

  datatype Ranked = Ranked(node: NumaNode, view: ZoneView)

  method GetPodNUMANodeResult(pod: Pod) returns (zones: seq<Zone>)
    ensures zones == NumaZones(pod.result)
  {
    zones := [];
    for i := 0 to |pod.result|
      invariant zones == NumaZones(pod.result[..i])
    {
      assert pod.result[..i + 1][..i] == pod.result[..i];
      if pod.result[i].zoneType == NodeZone {
        zones := zones + [pod.result[i]];
      }
    }
    assert pod.result[..|pod.result|] == pod.result;
  }

  class NodeWrapper {
    const node: string
    const cache: PodTopologyCache
    var aware: bool
    var numaNodes: seq<NumaNode>
    var result: seq<Zone>

    /** The zones are distinct objects. */
    ghost predicate Valid()
      reads this
    {
      Distinct(numaNodes)
    }

    /** The zones, in their current order and state, read as views. */
    ghost predicate Shows(views: seq<ZoneView>)
      reads this, numaNodes
    {
      |views| == |numaNodes| && forall i :: 0 <= i < |numaNodes| ==> numaNodes[i].View() == views[i]
    }

    /** Like Shows, except that the first n zones are cut to whole cores. */
    ghost predicate ShowsCut(views: seq<ZoneView>, n: nat)
      reads this, numaNodes
    {
      && |views| == |numaNodes|
      && forall i :: 0 <= i < |numaNodes| ==>
           numaNodes[i].View() == if i < n then Floored(views[i]) else views[i]
    }

    constructor (node: string, zones: seq<Zone>, cache: PodTopologyCache)
      ensures Valid() && this.node == node && this.cache == cache && !aware && result == []
      ensures |numaNodes| == |zones| && forall i :: 0 <= i < |zones| ==>
        && fresh(numaNodes[i])
        && numaNodes[i].View() == ZoneView(zones[i].name, AllocatableOf(zones[i]), ZERO)
    {
      this.node := node;
      this.cache := cache;
      this.aware := false;
      this.result := [];
      var nodes: seq<NumaNode> := [];
      for i := 0 to |zones|
        invariant |nodes| == i
        invariant forall k :: 0 <= k < i ==>
          fresh(nodes[k]) && nodes[k].View() == ZoneView(zones[k].name, AllocatableOf(zones[k]), ZERO)
        invariant forall k, l :: 0 <= k < l < i ==> nodes[k] != nodes[l]
      {
        var numaNode := new NumaNode(zones[i]);
        nodes := nodes + [numaNode];
      }
      this.numaNodes := nodes;
    }

    method AddNUMAResources(zones: seq<Zone>)
      requires Valid()
      modifies numaNodes
      ensures forall j :: 0 <= j < |numaNodes| ==>
        && numaNodes[j].allocatable == old(numaNodes[j].allocatable)
        && numaNodes[j].requested == AddZones(old(numaNodes[j].requested), numaNodes[j].name, zones)
    {
      for i := 0 to |zones|
        invariant forall j :: 0 <= j < |numaNodes| ==>
          && numaNodes[j].allocatable == old(numaNodes[j].allocatable)
          && numaNodes[j].requested == AddZones(old(numaNodes[j].requested), numaNodes[j].name, zones[..i])
      {
        assert zones[..i + 1][..i] == zones[..i];
        for k := 0 to |numaNodes|
          invariant forall j :: 0 <= j < |numaNodes| ==>
            && numaNodes[j].allocatable == old(numaNodes[j].allocatable)
            && numaNodes[j].requested
               == AddZones(old(numaNodes[j].requested), numaNodes[j].name, zones[..if j < k then i + 1 else i])
        {
          if numaNodes[k].name == zones[i].name {
            numaNodes[k].AddResource(zones[i].resources);
          }
        }
      }
      assert zones[..|zones|] == zones;
    }

    method AddPod(pod: Pod)
      requires Valid() && cache.Valid()
      modifies numaNodes
      ensures forall j :: 0 <= j < |numaNodes| ==>
        && numaNodes[j].allocatable == old(numaNodes[j].allocatable)
        && numaNodes[j].requested
           == AddZones(old(numaNodes[j].requested), numaNodes[j].name, VisibleZones(pod, cache.Entries()))
      ensures NumaZones(pod.result) != [] ==> forall j :: 0 <= j < |numaNodes| ==>
        numaNodes[j].requested == AddZones(old(numaNodes[j].requested), numaNodes[j].name, NumaZones(pod.result))
      ensures NumaZones(pod.result) == [] && pod.uid != "" && pod.uid in cache.Entries() ==>
        forall j :: 0 <= j < |numaNodes| ==>
          numaNodes[j].requested
          == AddZones(old(numaNodes[j].requested), numaNodes[j].name, cache.Entries()[pod.uid].zones)
      ensures NumaZones(pod.result) == [] && (pod.uid == "" || pod.uid !in cache.Entries()) ==>
        forall j :: 0 <= j < |numaNodes| ==> numaNodes[j].requested == old(numaNodes[j].requested)
    {
      var numaNodeResult := GetPodNUMANodeResult(pod);
      if |numaNodeResult| == 0 {
        var err;
        numaNodeResult, err := cache.GetPodTopology(pod);
        if err != NoError {
          return;
        }
      }
      AddNUMAResources(numaNodeResult);
    }

    /** Leaves the zones in some order of non-increasing free CPU. */
    method SortByFreeCPU(ghost views: seq<ZoneView>) returns (ghost sorted: seq<ZoneView>)
      requires Valid() && Shows(views)
      modifies this`numaNodes
      ensures Valid() && SortOf(sorted, views) && Shows(sorted)
      ensures multiset(numaNodes) == multiset(old(numaNodes))
      ensures forall k :: 0 <= k < |numaNodes| ==> numaNodes[k] in old(numaNodes)
    {
      var ranks := seq(|numaNodes|, i requires 0 <= i < |numaNodes| reads this, numaNodes =>
        Ranked(numaNodes[i], numaNodes[i].View()));
      var order := SortSlice(ranks, (a: Ranked, b: Ranked) => Free(a.view) >= Free(b.view));
      assert MapSeq(ranks, (r: Ranked) => r.view) == views;
      assert MapSeq(ranks, (r: Ranked) => r.node) == numaNodes;
      sorted := MapSeq(order, (r: Ranked) => r.view);
      ReorderedRanks(ranks, order);
      numaNodes := MapSeq(order, (r: Ranked) => r.node);
      assert forall i :: 0 <= i < |order| ==> order[i].view == order[i].node.View();
    }
  }

  lemma ReorderedRanks(ranks: seq<Ranked>, order: seq<Ranked>)
    requires multiset(order) == multiset(ranks)
    ensures forall i :: 0 <= i < |order| ==> order[i] in ranks
    ensures multiset(MapSeq(order, (r: Ranked) => r.view)) == multiset(MapSeq(ranks, (r: Ranked) => r.view))
    ensures multiset(MapSeq(order, (r: Ranked) => r.node)) == multiset(MapSeq(ranks, (r: Ranked) => r.node))
    ensures Distinct(MapSeq(ranks, (r: Ranked) => r.node)) ==> Distinct(MapSeq(order, (r: Ranked) => r.node))
  {
    MapPermutation(ranks, order, (r: Ranked) => r.view);
    MapPermutation(ranks, order, (r: Ranked) => r.node);
    if Distinct(MapSeq(ranks, (r: Ranked) => r.node)) {
      DistinctPermutation(MapSeq(ranks, (r: Ranked) => r.node), MapSeq(order, (r: Ranked) => r.node));
    }
    forall i | 0 <= i < |order| ensures order[i] in ranks { assert order[i] in multiset(order); }
  }
}
