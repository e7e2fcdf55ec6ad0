/** Reservation as a protocol: scheduling cycles are serial, while binding, cache expiry and pod removal interleave. */
module Protocol {
  import opened Options
  import opened Topology
  import opened PodRequests
  import opened Allocator
  import opened AssumedCache
  import opened TopologyMatching

  /** The aware resources and the lifetime of an assumed entry. */
  datatype Config = Config(names: set<string>, ttl: int)

  datatype Node = Node(nrt: NodeTopology, pods: seq<Pod>)

  /** The cycle that is open: its pod, target containers and request, and the results Filter has recorded so far. */
  datatype Cycle = Cycle(pod: Pod, targets: seq<nat>, request: Resource, results: map<string, seq<Zone>>)

  /** inFlight holds the topology results of the binding cycles that have not annotated their pod yet. */
  datatype State = State(
    nodes: map<string, Node>,
    cache: map<string, Assumed>,
    cycle: Option<Cycle>,
    inFlight: map<string, seq<Zone>>,
    now: int)

  datatype Event =
    | PreFilter(pod: Pod, targets: seq<nat>)
    | Filter(node: string, result: seq<Zone>)
    | Reserve(node: string)
    | Place(node: string)  // Reserve on a node that Filter recorded nothing for
    | Abandon  // the cycle ends without a node
    | PreBind(node: string, at: nat)
    | Unreserve(uid: string)
    | Remove(node: string, at: nat)  // deletion, or the scheduler forgetting a pod that failed to bind
    | Tick(to: int)
    | Cleanup

  ghost predicate Listed(s: State, uid: string) {
    exists n, i :: n in s.nodes && 0 <= i < |s.nodes[n].pods| && s.nodes[n].pods[i].uid == uid
  }

  function PodAt(s: State, n: string, i: nat): Pod
    requires n in s.nodes && i < |s.nodes[n].pods|
  {
    s.nodes[n].pods[i]
  }

  function ViewsOf(s: State, n: string): seq<ZoneView>
    requires n in s.nodes
  {
    Reconstruct(s.nodes[n].nrt.zones, s.nodes[n].pods, s.cache)
  }

  /** The event can happen. Filter reads the node as Filter does; a refused node leaves no trace and is no event. */
  ghost predicate Enabled(c: Config, s: State, e: Event) {
    match e
    case PreFilter(pod, targets) => s.cycle.None? && TargetIndices(pod, targets) && !Listed(s, pod.uid)
    case Filter(n, result) =>
      && s.cycle.Some? && n in s.nodes && s.nodes[n].nrt.staticCPUManager
      && !s.cycle.value.pod.daemonSet && s.cycle.value.targets != []
      && var aware := Awareness(s.cycle.value.pod.awareness, s.nodes[n].nrt);
         && (aware || s.cycle.value.request.scalars == map[])
         && Accepts(ViewsOf(s, n), aware, s.cycle.value.request, result)
    case Reserve(n) =>
      && s.cycle.Some? && n in s.nodes && n in s.cycle.value.results && s.cycle.value.results[n] != []
      && s.cycle.value.pod.uid != "" && s.cycle.value.pod.uid !in s.cache
    case Place(n) =>
      s.cycle.Some? && n in s.nodes && n !in s.cycle.value.results
    case Abandon => s.cycle.Some?
    case PreBind(n, i) => n in s.nodes && i < |s.nodes[n].pods| && PodAt(s, n, i).uid in s.inFlight
    case Unreserve(_) => true
    case Remove(n, i) => n in s.nodes && i < |s.nodes[n].pods|
    case Tick(to) => s.now <= to
    case Cleanup => true
  }

  function WithPods(s: State, n: string, pods: seq<Pod>): State
    requires n in s.nodes
  {
    s.(nodes := s.nodes[n := s.nodes[n].(pods := pods)])
  }

  ghost function Next(c: Config, s: State, e: Event): State
    requires Enabled(c, s, e)
  {
    match e
    case PreFilter(pod, targets) =>
      s.(cycle := Some(Cycle(pod, targets, RequestOf(pod.containers, targets, c.names), map[])))
    case Filter(n, result) =>
      s.(cycle := Some(s.cycle.value.(results := s.cycle.value.results[n := result])))
    case Reserve(n) =>
      var pod, result := s.cycle.value.pod, s.cycle.value.results[n];
      WithPods(s, n, s.nodes[n].pods + [pod])
        .(cache := s.cache[pod.uid := Assumed(result, s.now + c.ttl)],
          inFlight := s.inFlight[pod.uid := result], cycle := None)
    case Place(n) => WithPods(s, n, s.nodes[n].pods + [s.cycle.value.pod]).(cycle := None)
    case Abandon => s.(cycle := None)
    case PreBind(n, i) =>
      var pod := PodAt(s, n, i);
      WithPods(s, n, s.nodes[n].pods[i := pod.(result := s.inFlight[pod.uid])])
        .(inFlight := s.inFlight - {pod.uid})
    case Unreserve(uid) => s.(cache := Forgotten(s.cache, uid), inFlight := s.inFlight - {uid})
    case Remove(n, i) => WithPods(s, n, s.nodes[n].pods[..i] + s.nodes[n].pods[i + 1..])
    case Tick(to) => s.(now := to)
    case Cleanup => s.(cache := Unexpired(s.cache, s.now))
  }

  /** The pod's binding cycle runs and its result is not in an annotation yet. */
  predicate Unannotated(s: State, pod: Pod) {
    pod.uid in s.inFlight && NumaZones(pod.result) == []
  }

  /** Each binding cycle that still runs finds its entry alive at the time now. */
  ghost predicate BindsInTime(s: State, now: int) {
    forall n, i :: n in s.nodes && 0 <= i < |s.nodes[n].pods| ==>
      var pod := s.nodes[n].pods[i];
      Unannotated(s, pod) && pod.uid in s.cache ==> now <= s.cache[pod.uid].deadline
  }

  /**
   * What the scheduler sees to: an earlier attempt has been given up when a pod enters a cycle again. Its
   * annotation may still be there.
   */
  ghost predicate Released(s: State, e: Event) {
    e.PreFilter? ==>
      e.pod.uid !in s.cache && e.pod.uid !in s.inFlight && WholeZones(NumaZones(e.pod.result))
  }

  /** What the plugin relies on besides: no annotation of an earlier attempt, and binding before the entry expires. */
  ghost predicate Timely(s: State, e: Event) {
    match e
    case PreFilter(pod, _) => NumaZones(pod.result) == [] && pod.uid !in s.cache && pod.uid !in s.inFlight
    case Cleanup => BindsInTime(s, s.now)
    case _ => true
  }

  /** The events happen one after the other from s. */
  ghost predicate Runs(c: Config, s: State, events: seq<Event>)
    decreases |events|
  {
    events == [] || (Enabled(c, s, events[0]) && Runs(c, Next(c, s, events[0]), events[1..]))
  }

  /** Every event of the run respects what the plugin relies on. */
  ghost predicate TimelyRun(c: Config, s: State, events: seq<Event>)
    requires Runs(c, s, events)
    decreases |events|
  {
    events == [] || (Timely(s, events[0]) && TimelyRun(c, Next(c, s, events[0]), events[1..]))
  }

  /** Every pod of the run enters its cycle released. */
  ghost predicate ReleasedRun(c: Config, s: State, events: seq<Event>)
    requires Runs(c, s, events)
    decreases |events|
  {
    events == [] || (Released(s, events[0]) && ReleasedRun(c, Next(c, s, events[0]), events[1..]))
  }

  ghost function After(c: Config, s: State, events: seq<Event>): State
    requires Runs(c, s, events)
    decreases |events|
  {
    if events == [] then s else After(c, Next(c, s, events[0]), events[1..])
  }

  // ---------- safety ----------

  /** The CPU a zone states as allocatable. */
  function AllocatableCpu(zone: Zone): int {
    if zone.resources.None? then 0 else MilliValue(Get(zone.resources.value.allocatable, CPU))
  }

  /** What the pods of a node and a further result charge to a zone is at most what the zone has. */
  ghost predicate ZoneHasRoom(zone: Zone, pods: seq<Pod>, cache: map<string, Assumed>, extra: seq<Zone>) {
    Charged(pods, cache, zone.name) + CpuOn(extra, zone.name) <= AllocatableCpu(zone)
  }

  ghost predicate HasRoom(node: Node, cache: map<string, Assumed>, extra: seq<Zone>) {
    forall i :: 0 <= i < |node.nrt.zones| ==> ZoneHasRoom(node.nrt.zones[i], node.pods, cache, extra)
  }

  /** zones charges every zone name a whole, non-negative number of cores. */
  ghost predicate WholeZones(zones: seq<Zone>) {
    forall name :: 0 <= CpuOn(zones, name) && CpuOn(zones, name) % 1000 == 0
  }

  /** A result as Reserve accepts it. */
  ghost predicate ProperResult(result: seq<Zone>) {
    WholeZones(result) && NumaZones(result) == result
  }

  /** No zone of any node is charged more whole cores than it has. */
  ghost predicate NoOvercommit(s: State) {
    forall n, i :: n in s.nodes && 0 <= i < |s.nodes[n].nrt.zones| ==>
      var zone := s.nodes[n].nrt.zones[i];
      var charged := Charged(s.nodes[n].pods, s.cache, zone.name);
      0 <= charged <= AllocatableCpu(zone) && charged % 1000 == 0
  }
}
