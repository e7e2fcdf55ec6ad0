/** Exactly when zones stay within bounds and Filter sees true usage: every run, with retries and late cleanups. */
module ProtocolExact {
  import opened Options
  import opened Topology
  import opened PodRequests
  import opened AllocatorTheorems
  import opened AssumedCache
  import opened TopologyMatching
  import opened Protocol
  import opened ProtocolSafety

  // ---------- what every run keeps ----------

  /** What a pod without annotation shows comes from its own running binding cycle. */
  ghost predicate Mirrors(s: State, pod: Pod) {
    && (NumaZones(pod.result) == [] && pod.uid != "" && pod.uid in s.cache ==>
          pod.uid in s.inFlight && s.cache[pod.uid].zones == s.inFlight[pod.uid])
    && (Unannotated(s, pod) ==> pod.uid != "")
  }

  ghost predicate PodTracked(s: State, pod: Pod) {
    WholeZones(NumaZones(pod.result)) && Mirrors(s, pod)
  }

  /** The i-th pod of node n has this UID. */
  ghost predicate Holder(s: State, n: string, i: nat, uid: string) {
    n in s.nodes && i < |s.nodes[n].pods| && s.nodes[n].pods[i].uid == uid
  }

  /** A running binding cycle is that of one listed pod at most. */
  ghost predicate OneHolder(s: State) {
    forall uid, n, i: nat, m, j: nat :: uid in s.inFlight && Holder(s, n, i, uid) && Holder(s, m, j, uid) ==>
      n == m && i == j
  }

  ghost predicate PodsTracked(s: State) {
    forall n, i :: n in s.nodes && 0 <= i < |s.nodes[n].pods| ==> PodTracked(s, s.nodes[n].pods[i])
  }

  ghost predicate CycleTracked(s: State, cycle: Cycle) {
    && WholeAmount(cycle.request.milliCPU) && WellFormed(cycle.request)
    && WholeZones(NumaZones(cycle.pod.result)) && !Listed(s, cycle.pod.uid)
    && cycle.pod.uid !in s.cache && cycle.pod.uid !in s.inFlight
    && forall n :: n in cycle.results ==> ProperResult(cycle.results[n])
  }

  /** Bookkeeping that holds in every state a run of released pods reaches, over-committed or not. */
  ghost predicate Tracked(s: State) {
    && StoresOk(s) && PodsTracked(s) && OneHolder(s)
    && (s.cycle.Some? ==> CycleTracked(s, s.cycle.value))
  }

  lemma InitIsTracked(s: State)
    requires Init(s)
    ensures Tracked(s) && NoOvercommit(s)
  {
    InitIsInv(s);
    InvIsSafe(s);
  }

  lemma TrackedPodsAreWhole(s: State, n: string)
    requires Tracked(s) && n in s.nodes
    ensures WholePods(s.nodes[n].pods, s.cache)
  {
    NoZonesChargeNothing();
    forall i | 0 <= i < |s.nodes[n].pods| ensures WholeZones(VisibleZones(s.nodes[n].pods[i], s.cache)) {
      assert PodTracked(s, s.nodes[n].pods[i]);
    }
  }

  lemma TrackedChargesAreWhole(s: State, n: string, name: string)
    requires Tracked(s) && n in s.nodes
    ensures WholeAmount(Charged(s.nodes[n].pods, s.cache, name))
  {
    TrackedPodsAreWhole(s, n);
    ChargedIsWhole(s.nodes[n].pods, s.cache, name);
  }

  /** Any result Filter records is proper, even on a node that is over-committed. */
  lemma FilteredIsProper(c: Config, s: State, n: string, result: seq<Zone>)
    requires Tracked(s) && Enabled(c, s, Filter(n, result))
    ensures ProperResult(result)
  {
    var views, cycle := ViewsOf(s, n), s.cycle.value;
    var aware := Awareness(cycle.pod.awareness, s.nodes[n].nrt);
    forall i | 0 <= i < |views| ensures views[i].requested.milliCPU % 1000 == 0 {
      UsageIsSum(views[i].name, s.nodes[n].pods, s.cache);
      TrackedChargesAreWhole(s, n, views[i].name);
    }
    AcceptedReadsBack(views, aware, cycle.request, result);
    forall name ensures WholeAmount(CpuOn(result, name)) {
      AcceptedIsWhole(views, aware, cycle.request, result, name);
    }
  }

  // ---------- one event at a time ----------

  /** Nothing is added to the nodes, and entries only go, a pod's cache entry with or before its binding cycle. */
  lemma ForgettingKeepsTracked(s: State, s': State)
    requires Tracked(s) && s'.nodes == s.nodes && s'.cycle == s.cycle && Shrinks(s.cache, s'.cache)
    requires forall k :: k in s'.inFlight ==> k in s.inFlight && s'.inFlight[k] == s.inFlight[k]
    requires forall k :: k in s'.cache && k in s.inFlight ==> k in s'.inFlight
    ensures Tracked(s')
  {
    SameListing(s, s');
    forall n, i | n in s'.nodes && 0 <= i < |s'.nodes[n].pods| ensures PodTracked(s', s'.nodes[n].pods[i]) {
      assert PodTracked(s, s.nodes[n].pods[i]);
    }
    SameHolders(s, s');
  }

  lemma SameHolders(s: State, s': State)
    requires OneHolder(s) && s'.nodes == s.nodes && forall k :: k in s'.inFlight ==> k in s.inFlight
    ensures OneHolder(s')
  {
    forall uid, n, i: nat, m, j: nat | uid in s'.inFlight && Holder(s', n, i, uid) && Holder(s', m, j, uid)
      ensures n == m && i == j
    {
      assert Holder(s, n, i, uid) && Holder(s, m, j, uid);
    }
  }

  lemma PreFilterKeepsTracked(c: Config, s: State, pod: Pod, targets: seq<nat>)
    requires CPU in c.names && Tracked(s)
    requires Enabled(c, s, PreFilter(pod, targets)) && Released(s, PreFilter(pod, targets))
    ensures Tracked(Next(c, s, PreFilter(pod, targets)))
  {
    var s' := Next(c, s, PreFilter(pod, targets));
    RequestsAreWholeCores(pod, targets, c.names);
    SameListing(s, s');
    SameHolders(s, s');
    SamePods(s, s');
  }

  lemma SamePods(s: State, s': State)
    requires PodsTracked(s) && s'.nodes == s.nodes && s'.cache == s.cache && s'.inFlight == s.inFlight
    ensures PodsTracked(s')
  {
    forall n, i | n in s'.nodes && 0 <= i < |s'.nodes[n].pods| ensures PodTracked(s', s'.nodes[n].pods[i]) {
      assert PodTracked(s, s.nodes[n].pods[i]);
    }
  }

  lemma FilterKeepsTracked(c: Config, s: State, n: string, result: seq<Zone>)
    requires Tracked(s) && Enabled(c, s, Filter(n, result))
    ensures Tracked(Next(c, s, Filter(n, result)))
  {
    var s' := Next(c, s, Filter(n, result));
    FilteredIsProper(c, s, n, result);
    SameListing(s, s');
    SameHolders(s, s');
    SamePods(s, s');
  }

  /** s' has the pod of the cycle as the last one on node n. */
  ghost predicate Appended(s: State, s': State, n: string, pod: Pod) {
    && n in s.nodes && n in s'.nodes && s'.nodes == s.nodes[n := s'.nodes[n]]
    && s'.nodes[n].nrt == s.nodes[n].nrt && s'.nodes[n].pods == s.nodes[n].pods + [pod]
  }

  lemma OldHolder(s: State, s': State, n: string, pod: Pod, m: string, j: nat, uid: string)
    requires Appended(s, s', n, pod) && Holder(s', m, j, uid)
    ensures (m == n && j == |s.nodes[n].pods| && uid == pod.uid) || Holder(s, m, j, uid)
  {
  }

  lemma AppendKeepsOneHolder(s: State, s': State, n: string, pod: Pod)
    requires OneHolder(s) && Appended(s, s', n, pod) && !Listed(s, pod.uid)
    requires forall k :: k in s'.inFlight ==> k in s.inFlight || k == pod.uid
    ensures OneHolder(s')
  {
    forall uid, l, i: nat, m, j: nat | uid in s'.inFlight && Holder(s', l, i, uid) && Holder(s', m, j, uid)
      ensures l == m && i == j
    {
      OldHolder(s, s', n, pod, l, i, uid);
      OldHolder(s, s', n, pod, m, j, uid);
      NoHolder(s, pod.uid, l, i);
      NoHolder(s, pod.uid, m, j);
    }
  }

  lemma NoHolder(s: State, uid: string, n: string, i: nat)
    requires !Listed(s, uid)
    ensures !Holder(s, n, i, uid)
  {
  }

  lemma ReserveKeepsTracked(c: Config, s: State, n: string)
    requires Tracked(s) && Enabled(c, s, Reserve(n))
    ensures Tracked(Next(c, s, Reserve(n)))
  {
    var s' := Next(c, s, Reserve(n));
    var pod := s.cycle.value.pod;
    AppendKeepsOneHolder(s, s', n, pod);
    forall m, j | m in s'.nodes && 0 <= j < |s'.nodes[m].pods| ensures PodTracked(s', s'.nodes[m].pods[j]) {
      if m != n || j < |s.nodes[n].pods| {
        NoHolder(s, pod.uid, m, j);
        assert PodTracked(s, s.nodes[m].pods[j]);
      }
    }
  }

  lemma PlaceKeepsTracked(c: Config, s: State, n: string)
    requires Tracked(s) && Enabled(c, s, Place(n))
    ensures Tracked(Next(c, s, Place(n)))
  {
    var s' := Next(c, s, Place(n));
    AppendKeepsOneHolder(s, s', n, s.cycle.value.pod);
    forall m, j | m in s'.nodes && 0 <= j < |s'.nodes[m].pods| ensures PodTracked(s', s'.nodes[m].pods[j]) {
      if m != n || j < |s.nodes[n].pods| {
        assert PodTracked(s, s.nodes[m].pods[j]);
      }
    }
  }

  lemma PreBindHolders(c: Config, s: State, n: string, i: nat)
    requires OneHolder(s) && Enabled(c, s, PreBind(n, i))
    ensures var s' := Next(c, s, PreBind(n, i));
      && OneHolder(s')
      && (forall m, j: nat, uid :: Holder(s', m, j, uid) <==> Holder(s, m, j, uid))
      && (forall uid :: Listed(s', uid) ==> Listed(s, uid))
  {
    var s' := Next(c, s, PreBind(n, i));
    forall m, j: nat, uid ensures Holder(s', m, j, uid) <==> Holder(s, m, j, uid) {}
    forall uid | Listed(s', uid) ensures Listed(s, uid) {
      var m, j :| m in s'.nodes && 0 <= j < |s'.nodes[m].pods| && s'.nodes[m].pods[j].uid == uid;
      assert Holder(s', m, j, uid) && Holder(s, m, j, uid);
    }
  }

  lemma PreBindKeepsTracked(c: Config, s: State, n: string, i: nat)
    requires Tracked(s) && Enabled(c, s, PreBind(n, i))
    ensures Tracked(Next(c, s, PreBind(n, i)))
  {
    var s' := Next(c, s, PreBind(n, i));
    var uid := PodAt(s, n, i).uid;
    PreBindHolders(c, s, n, i);
    forall m, j | m in s'.nodes && 0 <= j < |s'.nodes[m].pods| ensures PodTracked(s', s'.nodes[m].pods[j]) {
      if m != n || j != i {
        assert s'.nodes[m].pods[j] == s.nodes[m].pods[j];
        assert Holder(s, n, i, uid) && (s.nodes[m].pods[j].uid == uid ==> Holder(s, m, j, uid));
        assert PodTracked(s, s.nodes[m].pods[j]);
      } else {
        assert ProperResult(s.inFlight[uid]) && s.inFlight[uid] != [];
      }
    }
  }

  /** Where the k-th pod of a node was before its i-th one left. */
  function Before(k: nat, i: nat): nat { if k < i then k else k + 1 }

  lemma RemovedHolder(c: Config, s: State, n: string, i: nat, m: string, k: nat, uid: string)
    requires Enabled(c, s, Remove(n, i)) && Holder(Next(c, s, Remove(n, i)), m, k, uid)
    ensures Holder(s, m, if m == n then Before(k, i) else k, uid)
  {
  }

  lemma RemoveHolders(c: Config, s: State, n: string, i: nat)
    requires OneHolder(s) && Enabled(c, s, Remove(n, i))
    ensures var s' := Next(c, s, Remove(n, i)); OneHolder(s') && forall uid :: Listed(s', uid) ==> Listed(s, uid)
  {
    var s' := Next(c, s, Remove(n, i));
    forall uid, l, k: nat, m, j: nat | uid in s'.inFlight && Holder(s', l, k, uid) && Holder(s', m, j, uid)
      ensures l == m && k == j
    {
      RemovedHolder(c, s, n, i, l, k, uid);
      RemovedHolder(c, s, n, i, m, j, uid);
    }
    forall uid | Listed(s', uid) ensures Listed(s, uid) {
      var m, j :| m in s'.nodes && 0 <= j < |s'.nodes[m].pods| && s'.nodes[m].pods[j].uid == uid;
      assert Holder(s', m, j, uid);
      RemovedHolder(c, s, n, i, m, j, uid);
      assert s.nodes[m].pods[if m == n then Before(j, i) else j].uid == uid;
    }
  }

  lemma RemoveKeepsTracked(c: Config, s: State, n: string, i: nat)
    requires Tracked(s) && Enabled(c, s, Remove(n, i))
    ensures Tracked(Next(c, s, Remove(n, i)))
  {
    var s' := Next(c, s, Remove(n, i));
    RemoveHolders(c, s, n, i);
    forall m, k | m in s'.nodes && 0 <= k < |s'.nodes[m].pods| ensures PodTracked(s', s'.nodes[m].pods[k]) {
      var j := if m == n then Before(k, i) else k;
      assert s'.nodes[m].pods[k] == s.nodes[m].pods[j];
      assert PodTracked(s, s.nodes[m].pods[j]);
    }
  }

  lemma EventKeepsTracked(c: Config, s: State, e: Event)
    requires CPU in c.names && Tracked(s) && Enabled(c, s, e) && Released(s, e)
    ensures Tracked(Next(c, s, e))
  {
    var s' := Next(c, s, e);
    match e
    case PreFilter(pod, targets) => PreFilterKeepsTracked(c, s, pod, targets);
    case Filter(n, result) => FilterKeepsTracked(c, s, n, result);
    case Reserve(n) => ReserveKeepsTracked(c, s, n);
    case Place(n) => PlaceKeepsTracked(c, s, n);
    case Abandon =>
      SameHolders(s, s');
      SamePods(s, s');
    case PreBind(n, i) => PreBindKeepsTracked(c, s, n, i);
    case Unreserve(uid) => ForgettingKeepsTracked(s, s');
    case Remove(n, i) => RemoveKeepsTracked(c, s, n, i);
    case Tick(to) => ForgettingKeepsTracked(s, s');
    case Cleanup => ForgettingKeepsTracked(s, s');
  }

  // ---------- when an event keeps zones within bounds ----------

  /** What a reserved pod will show: its own annotation if it has one, else the result. */
  function Shown(pod: Pod, result: seq<Zone>): seq<Zone> {
    if NumaZones(pod.result) != [] then NumaZones(pod.result) else result
  }

  function Without(node: Node, i: nat): Node
    requires i < |node.pods|
  {
    node.(pods := node.pods[..i] + node.pods[i + 1..])
  }

  /** The node has room for what the event is about to make visible on it. */
  ghost predicate Fitting(c: Config, s: State, e: Event)
    requires Enabled(c, s, e)
  {
    match e
    case Reserve(n) => HasRoom(s.nodes[n], s.cache, Shown(s.cycle.value.pod, s.cycle.value.results[n]))
    case Place(n) => HasRoom(s.nodes[n], s.cache, NumaZones(s.cycle.value.pod.result))
    case PreBind(n, i) => HasRoom(Without(s.nodes[n], i), s.cache, s.inFlight[PodAt(s, n, i).uid])
    case _ => true
  }

  ghost predicate AllHaveRoom(s: State) {
    forall n :: n in s.nodes ==> HasRoom(s.nodes[n], s.cache, [])
  }

  lemma RoomIsSafety(s: State)
    requires Tracked(s)
    ensures NoOvercommit(s) <==> AllHaveRoom(s)
  {
    forall n, i | n in s.nodes && 0 <= i < |s.nodes[n].nrt.zones|
      ensures var zone := s.nodes[n].nrt.zones[i];
        && WholeAmount(Charged(s.nodes[n].pods, s.cache, zone.name))
        && (ZoneHasRoom(zone, s.nodes[n].pods, s.cache, [])
            <==> Charged(s.nodes[n].pods, s.cache, zone.name) <= AllocatableCpu(zone))
    {
      TrackedChargesAreWhole(s, n, s.nodes[n].nrt.zones[i].name);
      assert CpuOn([], s.nodes[n].nrt.zones[i].name) == 0;
    }
    if NoOvercommit(s) {
      forall n | n in s.nodes ensures HasRoom(s.nodes[n], s.cache, []) {
        forall i | 0 <= i < |s.nodes[n].nrt.zones|
          ensures ZoneHasRoom(s.nodes[n].nrt.zones[i], s.nodes[n].pods, s.cache, []) {}
      }
    }
    if AllHaveRoom(s) {
      forall n, i | n in s.nodes && 0 <= i < |s.nodes[n].nrt.zones|
        ensures Charged(s.nodes[n].pods, s.cache, s.nodes[n].nrt.zones[i].name)
          <= AllocatableCpu(s.nodes[n].nrt.zones[i])
      {
        assert HasRoom(s.nodes[n], s.cache, []);
        assert ZoneHasRoom(s.nodes[n].nrt.zones[i], s.nodes[n].pods, s.cache, []);
      }
    }
  }

  /** Charging extra zones, or charging them as a pod, takes the same room. */
  lemma SameRoom(node: Node, cache: map<string, Assumed>, extra: seq<Zone>, node': Node, cache': map<string, Assumed>)
    requires node'.nrt == node.nrt
    requires forall name :: Charged(node'.pods, cache', name) == Charged(node.pods, cache, name) + CpuOn(extra, name)
    ensures HasRoom(node', cache', []) <==> HasRoom(node, cache, extra)
  {
    forall i | 0 <= i < |node.nrt.zones|
      ensures ZoneHasRoom(node'.nrt.zones[i], node'.pods, cache', [])
        <==> ZoneHasRoom(node.nrt.zones[i], node.pods, cache, extra)
    {
      assert CpuOn([], node.nrt.zones[i].name) == 0;
    }
    if HasRoom(node', cache', []) {
      forall i | 0 <= i < |node.nrt.zones| ensures ZoneHasRoom(node.nrt.zones[i], node.pods, cache, extra) {
        assert ZoneHasRoom(node'.nrt.zones[i], node'.pods, cache', []);
      }
    }
    if HasRoom(node, cache, extra) {
      forall i | 0 <= i < |node'.nrt.zones| ensures ZoneHasRoom(node'.nrt.zones[i], node'.pods, cache', []) {
        assert ZoneHasRoom(node.nrt.zones[i], node.pods, cache, extra);
      }
    }
  }

  /** On the chosen node the pod adds what it shows, its annotation before the result; other nodes see no change. */
  lemma ReserveCharges(c: Config, s: State, n: string, m: string, name: string)
    requires Tracked(s) && Enabled(c, s, Reserve(n)) && m in s.nodes
    ensures var s' := Next(c, s, Reserve(n));
      Charged(s'.nodes[m].pods, s'.cache, name) == Charged(s.nodes[m].pods, s.cache, name)
        + if m == n then CpuOn(Shown(s.cycle.value.pod, s.cycle.value.results[n]), name) else 0
  {
    var s', pod := Next(c, s, Reserve(n)), s.cycle.value.pod;
    forall i | 0 <= i < |s.nodes[m].pods| ensures s.nodes[m].pods[i].uid != pod.uid { NoHolder(s, pod.uid, m, i); }
    UnlistedChangesNothing(s.nodes[m].pods, s.cache, pod.uid, s'.cache[pod.uid], name);
    if m == n {
      ChargedAppend(s.nodes[n].pods, pod, s'.cache, name);
    }
  }

  ghost predicate SameCpu(a: seq<Zone>, b: seq<Zone>) {
    forall name :: CpuOn(a, name) == CpuOn(b, name)
  }

  /** Reserve charges the node with the result exactly when no annotation of an earlier attempt says otherwise. */
  lemma WhenReserveChargesTheResult(c: Config, s: State, n: string)
    requires Tracked(s) && Enabled(c, s, Reserve(n))
    ensures var s', pod, result := Next(c, s, Reserve(n)), s.cycle.value.pod, s.cycle.value.results[n];
      (forall name :: Charged(s'.nodes[n].pods, s'.cache, name)
                      == Charged(s.nodes[n].pods, s.cache, name) + CpuOn(result, name))
      <==> NumaZones(pod.result) == [] || SameCpu(NumaZones(pod.result), result)
  {
    var s', pod, result := Next(c, s, Reserve(n)), s.cycle.value.pod, s.cycle.value.results[n];
    forall name
      ensures Charged(s'.nodes[n].pods, s'.cache, name)
        == Charged(s.nodes[n].pods, s.cache, name) + CpuOn(Shown(pod, result), name)
    {
      ReserveCharges(c, s, n, n, name);
    }
    if forall name :: Charged(s'.nodes[n].pods, s'.cache, name)
                      == Charged(s.nodes[n].pods, s.cache, name) + CpuOn(result, name) {
      forall name ensures CpuOn(Shown(pod, result), name) == CpuOn(result, name) {
        assert Charged(s'.nodes[n].pods, s'.cache, name)
          == Charged(s.nodes[n].pods, s.cache, name) + CpuOn(result, name);
      }
    }
  }

  lemma ReserveRoom(c: Config, s: State, n: string, m: string)
    requires Tracked(s) && Enabled(c, s, Reserve(n)) && m in s.nodes
    ensures var s', extra := Next(c, s, Reserve(n)),
                             if m == n then Shown(s.cycle.value.pod, s.cycle.value.results[n]) else [];
      HasRoom(s'.nodes[m], s'.cache, []) <==> HasRoom(s.nodes[m], s.cache, extra)
  {
    var s' := Next(c, s, Reserve(n));
    var extra := if m == n then Shown(s.cycle.value.pod, s.cycle.value.results[n]) else [];
    forall name
      ensures Charged(s'.nodes[m].pods, s'.cache, name) == Charged(s.nodes[m].pods, s.cache, name) + CpuOn(extra, name)
    {
      ReserveCharges(c, s, n, m, name);
      assert CpuOn([], name) == 0;
    }
    SameRoom(s.nodes[m], s.cache, extra, s'.nodes[m], s'.cache);
  }

  /** Reserve keeps every zone within bounds exactly when the node has room for what the pod will show. */
  lemma WhenReserveIsSafe(c: Config, s: State, n: string)
    requires Tracked(s) && NoOvercommit(s) && Enabled(c, s, Reserve(n))
    ensures NoOvercommit(Next(c, s, Reserve(n))) <==> Fitting(c, s, Reserve(n))
  {
    ReserveKeepsTracked(c, s, n);
    RoomIsSafety(s);
    RoomIsSafety(Next(c, s, Reserve(n)));
    forall m | m in s.nodes {
      ReserveRoom(c, s, n, m);
    }
  }

  /** Only node n changes, and there the pods charge what is left of them and extra. */
  lemma OneNodeChanges(s: State, s': State, n: string, left: Node, extra: seq<Zone>)
    requires Tracked(s) && Tracked(s') && NoOvercommit(s) && n in s.nodes && n in s'.nodes
    requires s'.nodes == s.nodes[n := s'.nodes[n]] && s'.cache == s.cache && s'.nodes[n].nrt == left.nrt
    requires forall name ::
      Charged(s'.nodes[n].pods, s.cache, name) == Charged(left.pods, s.cache, name) + CpuOn(extra, name)
    ensures NoOvercommit(s') <==> HasRoom(left, s.cache, extra)
  {
    RoomIsSafety(s);
    RoomIsSafety(s');
    SameRoom(left, s.cache, extra, s'.nodes[n], s.cache);
    forall m | m in s.nodes && m != n ensures HasRoom(s'.nodes[m], s.cache, []) {
      assert HasRoom(s.nodes[m], s.cache, []);
    }
  }

  lemma WhenPlaceIsSafe(c: Config, s: State, n: string)
    requires Tracked(s) && NoOvercommit(s) && Enabled(c, s, Place(n))
    ensures NoOvercommit(Next(c, s, Place(n))) <==> Fitting(c, s, Place(n))
  {
    var s', pod := Next(c, s, Place(n)), s.cycle.value.pod;
    PlaceKeepsTracked(c, s, n);
    forall name ensures Charged(s'.nodes[n].pods, s.cache, name)
      == Charged(s.nodes[n].pods, s.cache, name) + CpuOn(NumaZones(pod.result), name)
    {
      ChargedAppend(s.nodes[n].pods, pod, s.cache, name);
    }
    OneNodeChanges(s, s', n, s.nodes[n], NumaZones(pod.result));
  }

  /** Annotating a pod keeps every zone within bounds exactly when its result fits next to what the others show. */
  lemma WhenPreBindIsSafe(c: Config, s: State, n: string, i: nat)
    requires Tracked(s) && NoOvercommit(s) && Enabled(c, s, PreBind(n, i))
    ensures NoOvercommit(Next(c, s, PreBind(n, i))) <==> Fitting(c, s, PreBind(n, i))
  {
    var s', pod := Next(c, s, PreBind(n, i)), PodAt(s, n, i);
    var result, pods' := s.inFlight[pod.uid], s'.nodes[n].pods;
    PreBindKeepsTracked(c, s, n, i);
    assert ProperResult(result) && result != [];
    assert pods'[..i] + pods'[i + 1..] == Without(s.nodes[n], i).pods;
    forall name ensures Charged(pods', s.cache, name)
      == Charged(Without(s.nodes[n], i).pods, s.cache, name) + CpuOn(result, name)
    {
      ChargedWithout(pods', i, s.cache, name);
    }
    OneNodeChanges(s, s', n, Without(s.nodes[n], i), result);
  }

  lemma LessIsSafe(s: State, s': State)
    requires Tracked(s) && Tracked(s') && NoOvercommit(s) && s'.nodes.Keys == s.nodes.Keys
    requires forall n :: n in s.nodes ==> s'.nodes[n].nrt == s.nodes[n].nrt
    requires forall n, name :: n in s.nodes ==>
      Charged(s'.nodes[n].pods, s'.cache, name) <= Charged(s.nodes[n].pods, s.cache, name)
    ensures NoOvercommit(s')
  {
    RoomIsSafety(s);
    RoomIsSafety(s');
    forall n | n in s'.nodes ensures HasRoom(s'.nodes[n], s'.cache, []) {
      assert HasRoom(s.nodes[n], s.cache, []);
      LowerKeepsRoom(s.nodes[n], s'.nodes[n], s.cache, s'.cache, []);
    }
  }

  lemma ForgettingIsSafe(s: State, s': State)
    requires Tracked(s) && Tracked(s') && NoOvercommit(s) && s'.nodes == s.nodes && Shrinks(s.cache, s'.cache)
    ensures NoOvercommit(s')
  {
    forall n, name | n in s.nodes
      ensures Charged(s.nodes[n].pods, s'.cache, name) <= Charged(s.nodes[n].pods, s.cache, name)
    {
      TrackedPodsAreWhole(s, n);
      ShrinkLowersCharge(s.nodes[n].pods, s.cache, s'.cache, name);
    }
    LessIsSafe(s, s');
  }

  lemma RemovingIsSafe(c: Config, s: State, n: string, i: nat)
    requires Tracked(s) && NoOvercommit(s) && Enabled(c, s, Remove(n, i))
    ensures NoOvercommit(Next(c, s, Remove(n, i)))
  {
    var s' := Next(c, s, Remove(n, i));
    RemoveKeepsTracked(c, s, n, i);
    TrackedPodsAreWhole(s, n);
    assert WholeZones(VisibleZones(s.nodes[n].pods[i], s.cache));
    forall m, name | m in s.nodes
      ensures Charged(s'.nodes[m].pods, s.cache, name) <= Charged(s.nodes[m].pods, s.cache, name)
    {
      ChargedWithout(s.nodes[n].pods, i, s.cache, name);
    }
    LessIsSafe(s, s');
  }

  /** From a safe state, an event leads to a safe state exactly when what it makes visible fits. */
  lemma WhenEventIsSafe(c: Config, s: State, e: Event)
    requires CPU in c.names && Tracked(s) && NoOvercommit(s) && Enabled(c, s, e) && Released(s, e)
    ensures NoOvercommit(Next(c, s, e)) <==> Fitting(c, s, e)
  {
    EventKeepsTracked(c, s, e);
    match e
    case Reserve(n) => WhenReserveIsSafe(c, s, n);
    case Place(n) => WhenPlaceIsSafe(c, s, n);
    case PreBind(n, i) => WhenPreBindIsSafe(c, s, n, i);
    case Remove(n, i) => RemovingIsSafe(c, s, n, i);
    case _ => ForgettingIsSafe(s, Next(c, s, e));
  }

  // ---------- whole runs ----------

  ghost predicate SafeThroughout(c: Config, s: State, events: seq<Event>)
    requires Runs(c, s, events)
    decreases |events|
  {
    NoOvercommit(s) && (events == [] || SafeThroughout(c, Next(c, s, events[0]), events[1..]))
  }

  ghost predicate FittingThroughout(c: Config, s: State, events: seq<Event>)
    requires Runs(c, s, events)
    decreases |events|
  {
    events == [] || (Fitting(c, s, events[0]) && FittingThroughout(c, Next(c, s, events[0]), events[1..]))
  }

  lemma {:induction false} WhenRunIsSafeFrom(c: Config, s: State, events: seq<Event>)
    requires CPU in c.names && Tracked(s) && NoOvercommit(s) && Runs(c, s, events) && ReleasedRun(c, s, events)
    ensures SafeThroughout(c, s, events) <==> FittingThroughout(c, s, events)
    decreases |events|
  {
    if events != [] {
      var next := Next(c, s, events[0]);
      EventKeepsTracked(c, s, events[0]);
      WhenEventIsSafe(c, s, events[0]);
      if NoOvercommit(next) {
        WhenRunIsSafeFrom(c, next, events[1..]);
      } else {
        assert !SafeThroughout(c, next, events[1..]);
      }
    }
  }

  /**
   * With leftover annotations and late cleanups allowed: no state of a run over-commits a zone if and only
   * if every Reserve, Place and PreBind of it finds room for the zones it is about to make visible.
   */
  lemma WhenRunIsSafe(c: Config, s: State, events: seq<Event>)
    requires CPU in c.names && Init(s) && Runs(c, s, events) && ReleasedRun(c, s, events)
    ensures SafeThroughout(c, s, events) <==> FittingThroughout(c, s, events)
  {
    InitIsTracked(s);
    WhenRunIsSafeFrom(c, s, events);
  }

  lemma {:induction false} RunKeepsTracked(c: Config, s: State, events: seq<Event>)
    requires CPU in c.names && Tracked(s) && Runs(c, s, events) && ReleasedRun(c, s, events)
    ensures Tracked(After(c, s, events))
    decreases |events|
  {
    if events != [] {
      EventKeepsTracked(c, s, events[0]);
      RunKeepsTracked(c, Next(c, s, events[0]), events[1..]);
    }
  }

  lemma {:induction false} TimelyRunIsSafeThroughout(c: Config, s: State, events: seq<Event>)
    requires CPU in c.names && Inv(s) && Runs(c, s, events) && TimelyRun(c, s, events)
    ensures SafeThroughout(c, s, events) && ReleasedRun(c, s, events)
    decreases |events|
  {
    InvIsSafe(s);
    NoZonesChargeNothing();
    if events != [] {
      EventKeepsInv(c, s, events[0]);
      TimelyRunIsSafeThroughout(c, Next(c, s, events[0]), events[1..]);
    }
  }

  /** The plugin's timing assumptions are a way to make everything fit. */
  lemma TimelyRunsFit(c: Config, s: State, events: seq<Event>)
    requires CPU in c.names && Init(s) && Runs(c, s, events) && TimelyRun(c, s, events)
    ensures ReleasedRun(c, s, events) && FittingThroughout(c, s, events)
  {
    InitIsInv(s);
    TimelyRunIsSafeThroughout(c, s, events);
    WhenRunIsSafe(c, s, events);
  }
}
