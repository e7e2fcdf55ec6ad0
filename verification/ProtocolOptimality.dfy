/** With CPU as the only aware resource, every split of a timely run is exact and uses the fewest zones. */
module ProtocolOptimality {
  import opened Options
  import opened Greedy
  import opened Topology
  import opened PodRequests
  import opened Allocator
  import opened AllocatorTheorems
  import opened SplitTheorems
  import opened TopologyMatching
  import opened Protocol
  import opened ProtocolSafety

  /** The zone records neither memory nor storage. */
  predicate NothingButCpu(zone: Zone) {
    zone.resources.Some? ==>
      MEMORY !in zone.resources.value.capacity && EPHEMERAL_STORAGE !in zone.resources.value.capacity
  }

  ghost predicate CpuZones(zones: seq<Zone>) {
    forall i :: 0 <= i < |zones| ==> NothingButCpu(zones[i])
  }

  ghost predicate Sized(nrt: NodeTopology) {
    forall i :: 0 <= i < |nrt.zones| ==>
      AllocatableOf(nrt.zones[i]).memory >= 0 && AllocatableOf(nrt.zones[i]).ephemeralStorage >= 0
  }

  ghost predicate CpuPods(pods: seq<Pod>) {
    forall i :: 0 <= i < |pods| ==> CpuZones(NumaZones(pods[i].result))
  }

  /** Nothing in sight records anything but CPU. */
  ghost predicate OnlyCpu(s: State) {
    && (forall k :: k in s.cache ==> CpuZones(s.cache[k].zones))
    && (forall k :: k in s.inFlight ==> CpuZones(s.inFlight[k]) && NumaZones(s.inFlight[k]) == s.inFlight[k])
    && (forall n :: n in s.nodes ==> Sized(s.nodes[n].nrt) && CpuPods(s.nodes[n].pods))
    && (s.cycle.Some? ==>
          && CpuOnly(s.cycle.value.request) && CpuZones(NumaZones(s.cycle.value.pod.result))
          && forall n :: n in s.cycle.value.results ==>
               var result := s.cycle.value.results[n]; CpuZones(result) && NumaZones(result) == result)
  }

  // ---------- what Filter reconstructs ----------

  predicate CpuAlone(r: Resource) { r.memory == 0 && r.ephemeralStorage == 0 }

  lemma {:induction false} AddZonesKeepsCpuAlone(r: Resource, name: string, zones: seq<Zone>)
    requires CpuAlone(r) && CpuZones(zones)
    ensures CpuAlone(AddZones(r, name, zones))
  {
    if zones != [] {
      AddZonesKeepsCpuAlone(r, name, zones[..|zones| - 1]);
      assert NothingButCpu(zones[|zones| - 1]);
    }
  }

  lemma {:induction false} UsageIsCpuAlone(name: string, pods: seq<Pod>, s: State)
    requires OnlyCpu(s) && CpuPods(pods)
    ensures CpuAlone(UsageOf(name, pods, s.cache))
  {
    if pods != [] {
      var last := pods[|pods| - 1];
      UsageIsCpuAlone(name, pods[..|pods| - 1], s);
      assert CpuZones(VisibleZones(last, s.cache));
      AddZonesKeepsCpuAlone(UsageOf(name, pods[..|pods| - 1], s.cache), name, VisibleZones(last, s.cache));
    }
  }

  lemma ViewsAreRoomy(s: State, n: string)
    requires OnlyCpu(s) && n in s.nodes
    ensures Roomy(ViewsOf(s, n))
  {
    var zones, views := s.nodes[n].nrt.zones, ViewsOf(s, n);
    forall i | 0 <= i < |views|
      ensures views[i].requested.memory <= views[i].allocatable.memory
        && views[i].requested.ephemeralStorage <= views[i].allocatable.ephemeralStorage
    {
      UsageIsCpuAlone(zones[i].name, s.nodes[n].pods, s);
      assert Sized(s.nodes[n].nrt);
    }
  }

  /** The zones and the request Filter works with meet what the split theorems ask for. */
  lemma FilterIsReady(c: Config, s: State, n: string, result: seq<Zone>)
    requires Inv(s) && OnlyCpu(s) && Enabled(c, s, Filter(n, result))
    ensures Ready(ViewsOf(s, n), s.cycle.value.request)
  {
    ViewsAreSound(s, n);
    ViewsAreRoomy(s, n);
  }

  lemma ResultZoneIsCpu(name: string, request: Resource)
    requires CpuAlone(request) && request.scalars == map[]
    ensures NothingButCpu(ResultZone(name, request))
  {
  }

  lemma {:induction false} PortionsAreCpu(zones: seq<ZoneView>, amounts: seq<int>)
    requires |amounts| == |zones|
    ensures forall e :: e in Portions(zones, amounts) ==> NothingButCpu(e)
  {
    if zones != [] {
      PortionsAreCpu(zones[1..], amounts[1..]);
      ResultZoneIsCpu(zones[0].name, Resource(amounts[0], 0, 0, map[]));
    }
  }

  lemma SplitIsCpu(views: seq<ZoneView>, request: Resource, result: seq<Zone>)
    requires Ready(views, request) && Accepts(views, false, request, result)
    ensures CpuZones(result)
  {
    var sorted := OrderBehind(views, request, result);
    var portions := Portions(sorted, Amounts(sorted, request));
    PortionsAreCpu(sorted, Amounts(sorted, request));
    forall i | 0 <= i < |result| ensures NothingButCpu(result[i]) {
      assert result[i] in multiset(portions);
    }
  }

  lemma SingleZoneIsCpu(views: seq<ZoneView>, request: Resource, result: seq<Zone>)
    requires CpuOnly(request) && Accepts(views, true, request, result)
    ensures CpuZones(result)
  {
    var best := ChosenZone(views, request, result);
    ResultZoneIsCpu(best.name, request);
  }

  lemma FilteredIsCpu(c: Config, s: State, n: string, result: seq<Zone>)
    requires Inv(s) && OnlyCpu(s) && Enabled(c, s, Filter(n, result))
    ensures CpuZones(result) && NumaZones(result) == result
  {
    var views, request := ViewsOf(s, n), s.cycle.value.request;
    var aware := Awareness(s.cycle.value.pod.awareness, s.nodes[n].nrt);
    AcceptedReadsBack(views, aware, request, result);
    if aware {
      SingleZoneIsCpu(views, request, result);
    } else {
      FilterIsReady(c, s, n, result);
      SplitIsCpu(views, request, result);
    }
  }

  // ---------- runs ----------

  lemma PreFilterKeepsOnlyCpu(c: Config, s: State, pod: Pod, targets: seq<nat>)
    requires c.names == {CPU} && OnlyCpu(s) && Enabled(c, s, PreFilter(pod, targets)) && NumaZones(pod.result) == []
    ensures OnlyCpu(Next(c, s, PreFilter(pod, targets)))
  {
    RequestsAreWholeCores(pod, targets, c.names);
    RequestsAreCpuOnly(pod.containers, targets);
  }

  lemma FilterKeepsOnlyCpu(c: Config, s: State, n: string, result: seq<Zone>)
    requires Inv(s) && OnlyCpu(s) && Enabled(c, s, Filter(n, result))
    ensures OnlyCpu(Next(c, s, Filter(n, result)))
  {
    FilteredIsCpu(c, s, n, result);
  }

  lemma ReserveKeepsOnlyCpu(c: Config, s: State, n: string)
    requires OnlyCpu(s) && Enabled(c, s, Reserve(n))
    ensures OnlyCpu(Next(c, s, Reserve(n)))
  {
    assert CpuPods(s.nodes[n].pods + [s.cycle.value.pod]);
  }

  lemma PlaceKeepsOnlyCpu(c: Config, s: State, n: string)
    requires OnlyCpu(s) && Enabled(c, s, Place(n))
    ensures OnlyCpu(Next(c, s, Place(n)))
  {
    assert CpuPods(s.nodes[n].pods + [s.cycle.value.pod]);
  }

  lemma PreBindKeepsOnlyCpu(c: Config, s: State, n: string, i: nat)
    requires OnlyCpu(s) && Enabled(c, s, PreBind(n, i))
    ensures OnlyCpu(Next(c, s, PreBind(n, i)))
  {
    assert CpuPods(Next(c, s, PreBind(n, i)).nodes[n].pods);
  }

  lemma RemoveKeepsOnlyCpu(c: Config, s: State, n: string, i: nat)
    requires OnlyCpu(s) && Enabled(c, s, Remove(n, i))
    ensures OnlyCpu(Next(c, s, Remove(n, i)))
  {
    assert CpuPods(s.nodes[n].pods[..i] + s.nodes[n].pods[i + 1..]);
  }

  lemma ForgettingKeepsOnlyCpu(s: State, s': State)
    requires OnlyCpu(s) && s'.nodes == s.nodes && (s'.cycle == s.cycle || s'.cycle == None)
    requires Shrinks(s.cache, s'.cache)
    requires forall k :: k in s'.inFlight ==> k in s.inFlight && s'.inFlight[k] == s.inFlight[k]
    ensures OnlyCpu(s')
  {
  }

  lemma EventKeepsOnlyCpu(c: Config, s: State, e: Event)
    requires c.names == {CPU} && Inv(s) && OnlyCpu(s) && Enabled(c, s, e) && Timely(s, e)
    ensures OnlyCpu(Next(c, s, e))
  {
    match e
    case PreFilter(pod, targets) => PreFilterKeepsOnlyCpu(c, s, pod, targets);
    case Filter(n, result) => FilterKeepsOnlyCpu(c, s, n, result);
    case Reserve(n) => ReserveKeepsOnlyCpu(c, s, n);
    case Place(n) => PlaceKeepsOnlyCpu(c, s, n);
    case PreBind(n, i) => PreBindKeepsOnlyCpu(c, s, n, i);
    case Remove(n, i) => RemoveKeepsOnlyCpu(c, s, n, i);
    case _ => ForgettingKeepsOnlyCpu(s, Next(c, s, e));
  }

  lemma {:induction false} RunKeepsOnlyCpu(c: Config, s: State, events: seq<Event>)
    requires c.names == {CPU} && Inv(s) && OnlyCpu(s) && Runs(c, s, events) && TimelyRun(c, s, events)
    ensures Inv(After(c, s, events)) && OnlyCpu(After(c, s, events))
    decreases |events|
  {
    if events != [] {
      EventKeepsInv(c, s, events[0]);
      EventKeepsOnlyCpu(c, s, events[0]);
      RunKeepsOnlyCpu(c, Next(c, s, events[0]), events[1..]);
    }
  }

  /** Nothing that hands out as much CPU uses fewer zones than the result. */
  ghost predicate UsesFewestZones(zones: seq<ZoneView>, result: seq<Zone>) {
    forall plan :: Feasible(plan, zones) && PlanTotal(plan, zones) >= TotalCpu(result) ==> |result| <= |Used(plan)|
  }

  /**
   * Wherever a timely run gets to, a multi-zone Filter hands out all the whole cores it can, over the fewest
   * zones; and if the cores suffice, over the least number of zones that can hold the request.
   */
  lemma TimelySplitsAreOptimal(c: Config, s: State, events: seq<Event>, n: string, result: seq<Zone>)
    requires c.names == {CPU} && Init(s) && OnlyCpu(s) && Runs(c, s, events) && TimelyRun(c, s, events)
    requires Enabled(c, After(c, s, events), Filter(n, result))
    requires var t := After(c, s, events); !Awareness(t.cycle.value.pod.awareness, t.nodes[n].nrt)
    ensures var t := After(c, s, events);
      var zones, request := ViewsOf(t, n), t.cycle.value.request;
      && TotalCpu(result) == Min(request.milliCPU, WholeCores(zones))
      && UsesFewestZones(zones, result)
      && (request.milliCPU <= WholeCores(zones) ==>
            CanHold(zones, request, |result|) && forall m: nat :: CanHold(zones, request, m) ==> |result| <= m)
  {
    InitIsInv(s);
    RunKeepsOnlyCpu(c, s, events);
    var t := After(c, s, events);
    var zones, request := ViewsOf(t, n), t.cycle.value.request;
    FilterIsReady(c, t, n, result);
    SplitIsExact(zones, request, result);
    forall plan | Feasible(plan, zones) && PlanTotal(plan, zones) >= TotalCpu(result)
      ensures |result| <= |Used(plan)|
    {
      FewestZones(zones, request, result, plan);
    }
    if request.milliCPU <= WholeCores(zones) {
      ResultIsMinimal(zones, request, result);
    }
  }
}
