/** Where the protocol stops protecting: late binding and leftover annotations, with runs that over-commit. */
module ProtocolLimits {
  import opened Options
  import opened Sums
  import opened Topology
  import opened PodRequests
  import opened Allocator
  import opened AllocatorTheorems
  import opened AssumedCache
  import opened TopologyMatching
  import opened Protocol
  import opened ProtocolSafety
  import opened ProtocolUsage

  // ---------- concrete runs ----------

  const ONE_CORE: ResourceList := map[CPU := NANO]
  const CONFIG := Config({CPU}, 0)
  const REQUEST := Resource(1000, 0, 0, map[])

  function OneCorePod(uid: string, result: seq<Zone>): Pod {
    Pod(uid, false, Unset, Some(true), [Container(ONE_CORE, ONE_CORE)], result)
  }

  function OneCoreZone(name: string): Zone {
    Zone(name, NodeZone, Some(ResourceInfo(map[], ONE_CORE)))
  }

  function OneCoreOf(name: string): seq<Zone> {
    [ResultZone(name, REQUEST)]
  }

  lemma OneCoreCpu(name: string, other: string)
    ensures CpuOn(OneCoreOf(name), other) == if name == other then 1000 else 0
  {
    ResultZoneCpu(name, REQUEST);
    OneZone(ResultZone(name, REQUEST), other);
  }

  lemma OneCoreIsProper(name: string)
    ensures ProperResult(OneCoreOf(name))
  {
    forall other { OneCoreCpu(name, other); }
    AllNuma(OneCoreOf(name));
  }

  lemma OneCoreIsRequested(uid: string, result: seq<Zone>)
    ensures TargetIndices(OneCorePod(uid, result), [0])
    ensures RequestOf(OneCorePod(uid, result).containers, [0], {CPU}) == REQUEST
  {
    var pod := OneCorePod(uid, result);
    assert GuaranteedCPUs(pod.containers[0]) == 1;
    assert Specified(ONE_CORE, {CPU}) == ONE_CORE;
    assert RequestOf(pod.containers, [], {CPU}) == ZERO;
    assert [0][..0] == [];
    OneCoreAdds();
  }

  lemma OneCoreAdds()
    ensures AddList(ZERO, ONE_CORE) == REQUEST && AddList(ZERO, Recorded(REQUEST)) == REQUEST
  {
    assert Recorded(REQUEST) == map[CPU := 1000 * MICRO];
    assert 1000 * MICRO == NANO;
    assert MilliValue(NANO) == 1000;
  }

  lemma OneCoreIsAllocatable(name: string)
    ensures AllocatableOf(OneCoreZone(name)) == REQUEST
  {
    OneCoreAdds();
  }

  lemma Different(a: string, b: string)
    requires |a| == 1 && |b| == 1 && a[0] != b[0]
    ensures a != b
  {
  }

  lemma AcceptsTheOnlyFit(zones: seq<ZoneView>, z: ZoneView)
    requires FittingZones(REQUEST, zones) == [z]
    ensures Accepts(zones, true, REQUEST, OneCoreOf(z.name))
  {
    assert SortOf([z], [z]) && OutcomeOf([z], true, REQUEST, OneCoreOf(z.name));
  }

  /** One node of the given zones with the given pods, between two cycles. */
  function Idle(zones: seq<string>, pods: seq<Pod>, now: int): State {
    State(map["n" := Node(NodeTopology(seq(|zones|, i requires 0 <= i < |zones| => OneCoreZone(zones[i])), true, true),
                          pods)],
          map[], None, map[], now)
  }

  /** The cycle of a pod that asks for one core. */
  function Scheduling(pod: Pod, results: map<string, seq<Zone>>): Option<Cycle> {
    Some(Cycle(pod, [0], REQUEST, results))
  }

  lemma FilterAcceptsIdleZone(s: State, pods: seq<Pod>, pod: Pod)
    requires s.nodes == Idle(["z"], pods, s.now).nodes && s.cache == map[]
    requires s.cycle == Scheduling(pod, map[]) && pod.awareness == Some(true) && !pod.daemonSet
    requires UsageOf("z", pods, map[]) == ZERO
    ensures Enabled(CONFIG, s, Filter("n", OneCoreOf("z")))
  {
    OneCoreIsAllocatable("z");
    var z := ZoneView("z", REQUEST, ZERO);
    assert ViewsOf(s, "n") == [z];
    assert [z][..0] == [] && FittingZones(REQUEST, []) == [];
    assert FittingZones(REQUEST, [z]) == [z];
    AcceptsTheOnlyFit([z], z);
  }

  // ---------- late binding ----------

  /**
   * Pod a takes the only core, its entry expires before its binding cycle annotates it, pod b is given the
   * same core, and both are annotated.
   */
  const LATE_RUN: seq<Event> := [
    PreFilter(OneCorePod("a", []), [0]), Filter("n", OneCoreOf("z")), Reserve("n"), Tick(1),
    PreFilter(OneCorePod("b", []), [0]), Event.Cleanup, Filter("n", OneCoreOf("z")), Reserve("n"),
    PreBind("n", 0), PreBind("n", 1)]

  /** The states of the run until pod a is reserved and pod b enters its cycle. */
  function EarlyState(k: nat): State {
    var r, a, b := OneCoreOf("z"), OneCorePod("a", []), OneCorePod("b", []);
    if k == 0 then Idle(["z"], [], 0)
    else if k == 1 then EarlyState(0).(cycle := Scheduling(a, map[]))
    else if k == 2 then EarlyState(0).(cycle := Scheduling(a, map["n" := r]))
    else if k == 3 then Idle(["z"], [a], 0).(cache := map["a" := Assumed(r, 0)], inFlight := map["a" := r])
    else if k == 4 then EarlyState(3).(now := 1)
    else EarlyState(4).(cycle := Scheduling(b, map[]))
  }

  /** The state of the run after k events. */
  function LateState(k: nat): State {
    var r, a, b := OneCoreOf("z"), OneCorePod("a", []), OneCorePod("b", []);
    if k <= 5 then EarlyState(k)
    else if k == 6 then EarlyState(5).(cache := map[])
    else if k == 7 then EarlyState(5).(cache := map[], cycle := Scheduling(b, map["n" := r]))
    else
      var reserved := Idle(["z"], [a, b], 1).(cache := map["b" := Assumed(r, 1)]);
      if k == 8 then reserved.(inFlight := map["a" := r, "b" := r])
      else if k == 9 then WithPods(reserved, "n", [OneCorePod("a", r), b]).(inFlight := map["b" := r])
      else WithPods(reserved, "n", [OneCorePod("a", r), OneCorePod("b", r)])
  }

  /** Event k leads from the k-th state to the next. */
  ghost predicate LateStep(k: nat)
    requires k < 10
  {
    Enabled(CONFIG, LateState(k), LATE_RUN[k]) && Next(CONFIG, LateState(k), LATE_RUN[k]) == LateState(k + 1)
  }

  lemma LateStartOfA()
    ensures LateStep(0) && Timely(LateState(0), LATE_RUN[0])
  {
    OneCoreIsRequested("a", []);
    assert !Listed(LateState(0), "a");
  }

  lemma LateFilterOfA()
    ensures LateStep(1)
  {
    assert UsageOf("z", [], map[]) == ZERO;
    FilterAcceptsIdleZone(LateState(1), [], OneCorePod("a", []));
  }

  lemma LateReserveOfA()
    ensures LateStep(2) && LateStep(3)
  {
    assert LateState(2).nodes["n"].pods + [OneCorePod("a", [])] == [OneCorePod("a", [])];
  }

  lemma LateStartOfB()
    ensures LateStep(4) && Timely(LateState(4), LATE_RUN[4])
  {
    Different("a", "b");
    OneCoreIsRequested("b", []);
    var s := LateState(4);
    assert s.nodes["n"].pods == [OneCorePod("a", [])];
    assert !Listed(s, "b");
  }

  lemma LateCleanup()
    ensures LateStep(5) && !Timely(LateState(5), LATE_RUN[5])
  {
    var s := LateState(5);
    assert Unexpired(s.cache, 1) == map[];
    assert s.nodes["n"].pods[0] == OneCorePod("a", []) && Unannotated(s, s.nodes["n"].pods[0]);
  }

  lemma LateFilterOfB()
    ensures LateStep(6)
  {
    var a := OneCorePod("a", []);
    assert [a][..0] == [];
    assert UsageOf("z", [a], map[]) == ZERO;
    FilterAcceptsIdleZone(LateState(6), [a], OneCorePod("b", []));
  }

  lemma LateReserveOfB()
    ensures LateStep(7)
  {
    var s, a, b := LateState(7), OneCorePod("a", []), OneCorePod("b", []);
    assert s.nodes["n"].pods + [b] == [a, b];
    assert s.inFlight["b" := OneCoreOf("z")] == LateState(8).inFlight;
  }

  lemma LateBindingOfA()
    ensures LateStep(8)
  {
    var s, b := LateState(8), OneCorePod("b", []);
    Different("a", "b");
    assert s.nodes["n"].pods[0 := OneCorePod("a", OneCoreOf("z"))] == [OneCorePod("a", OneCoreOf("z")), b];
    assert s.inFlight - {"a"} == LateState(9).inFlight;
  }

  lemma LateBindingOfB()
    ensures LateStep(9)
  {
    var s := LateState(9);
    assert s.nodes["n"].pods[1 := OneCorePod("b", OneCoreOf("z"))] == LateState(10).nodes["n"].pods;
    assert s.inFlight - {"b"} == map[];
  }

  lemma LateSteps(k: nat)
    requires k < 10
    ensures LateStep(k) && (k != 5 ==> Timely(LateState(k), LATE_RUN[k])) && Released(LateState(k), LATE_RUN[k])
  {
    NoZonesChargeNothing();
    if k == 0 { LateStartOfA(); }
    else if k == 1 { LateFilterOfA(); }
    else if k <= 3 { LateReserveOfA(); }
    else if k == 4 { LateStartOfB(); }
    else if k == 5 { LateCleanup(); }
    else if k == 6 { LateFilterOfB(); }
    else if k == 7 { LateReserveOfB(); }
    else if k == 8 { LateBindingOfA(); }
    else { LateBindingOfB(); }
  }

  lemma {:induction false} LateRunFrom(k: nat)
    requires k <= 10
    ensures Runs(CONFIG, LateState(k), LATE_RUN[k..]) && After(CONFIG, LateState(k), LATE_RUN[k..]) == LateState(10)
    ensures ReleasedRun(CONFIG, LateState(k), LATE_RUN[k..])
    ensures k > 5 ==> TimelyRun(CONFIG, LateState(k), LATE_RUN[k..])
    decreases 10 - k
  {
    if k < 10 {
      LateSteps(k);
      LateRunFrom(k + 1);
      assert LATE_RUN[k..][0] == LATE_RUN[k] && LATE_RUN[k..][1..] == LATE_RUN[k + 1..];
    }
  }

  lemma {:induction false} EarlyRunFrom(k: nat)
    requires k <= 5
    ensures Runs(CONFIG, LateState(k), LATE_RUN[k..5]) && TimelyRun(CONFIG, LateState(k), LATE_RUN[k..5])
    ensures After(CONFIG, LateState(k), LATE_RUN[k..5]) == LateState(5)
    decreases 5 - k
  {
    if k < 5 {
      LateSteps(k);
      EarlyRunFrom(k + 1);
      assert LATE_RUN[k..5][0] == LATE_RUN[k] && LATE_RUN[k..5][1..] == LATE_RUN[k + 1..5];
    }
  }

  lemma LateStartIsInit()
    ensures Init(LateState(0))
  {
    var node := LateState(0).nodes["n"];
    OneCoreIsAllocatable("z");
    assert node.nrt.zones == [OneCoreZone("z")] && node.pods == [];
    assert CpuOn([], "z") == 0;
    assert ZoneHasRoom(OneCoreZone("z"), [], map[], []);
  }

  lemma LateEndOvercommits()
    ensures !NoOvercommit(LateState(10))
  {
    assert LateState(10).nodes["n"].nrt.zones == [OneCoreZone("z")];
    TwoPodsOnOneCore(LateState(10), OneCoreOf("z"));
  }

  /** Without the timing assumption the plugin over-commits: a run in which only the cleanup is untimely. */
  lemma LateBindingOvercommits()
    ensures Init(LateState(0)) && Runs(CONFIG, LateState(0), LATE_RUN) && ReleasedRun(CONFIG, LateState(0), LATE_RUN)
    ensures Runs(CONFIG, LateState(0), LATE_RUN[..5]) && TimelyRun(CONFIG, LateState(0), LATE_RUN[..5])
    ensures After(CONFIG, LateState(0), LATE_RUN[..5]) == LateState(5)
    ensures LATE_RUN[5] == Event.Cleanup && Enabled(CONFIG, LateState(5), LATE_RUN[5])
    ensures !Timely(LateState(5), LATE_RUN[5])
    ensures var after := Next(CONFIG, LateState(5), LATE_RUN[5]);
      Runs(CONFIG, after, LATE_RUN[6..]) && TimelyRun(CONFIG, after, LATE_RUN[6..])
    ensures !NoOvercommit(After(CONFIG, LateState(0), LATE_RUN))
  {
    LateStartIsInit();
    LateRunFrom(0);
    EarlyRunFrom(0);
    LateCleanup();
    LateRunFrom(6);
    LateEndOvercommits();
    assert LATE_RUN[0..] == LATE_RUN && LATE_RUN[0..5] == LATE_RUN[..5];
  }

  lemma TwoPodsOnOneCore(s: State, r: seq<Zone>)
    requires "n" in s.nodes && s.nodes["n"].nrt.zones == [OneCoreZone("z")] && r == OneCoreOf("z")
    requires s.nodes["n"].pods == [OneCorePod("a", r), OneCorePod("b", r)]
    ensures !NoOvercommit(s)
  {
    OneCoreIsProper("z");
    OneCoreCpu("z", "z");
    OneCoreIsAllocatable("z");
    var f := (p: Pod) => CpuOn(VisibleZones(p, s.cache), "z");
    SumAppend([OneCorePod("a", r)], [OneCorePod("b", r)], f);
    SumOne(OneCorePod("a", r), f);
    SumOne(OneCorePod("b", r), f);
    assert [OneCorePod("a", r)] + [OneCorePod("b", r)] == s.nodes["n"].pods;
    assert Charged(s.nodes["n"].pods, s.cache, s.nodes["n"].nrt.zones[0].name) == 2000;
  }

  // ---------- leftover annotation ----------

  /** Pod b holds zone z; pod a comes back with the annotation of an earlier attempt, which also names z. */
  function StaleStart(): State {
    Idle(["y", "z"], [OneCorePod("b", OneCoreOf("z"))], 1)
  }

  const STALE_RUN: seq<Event> :=
    [PreFilter(OneCorePod("a", OneCoreOf("z")), [0]), Filter("n", OneCoreOf("y")), Reserve("n")]

  function StaleState(k: nat): State {
    var a, b := OneCorePod("a", OneCoreOf("z")), OneCorePod("b", OneCoreOf("z"));
    if k == 0 then StaleStart()
    else if k == 1 then StaleStart().(cycle := Scheduling(a, map[]))
    else if k == 2 then StaleStart().(cycle := Scheduling(a, map["n" := OneCoreOf("y")]))
    else Idle(["y", "z"], [b, a], 1)
      .(cache := map["a" := Assumed(OneCoreOf("y"), 1)], inFlight := map["a" := OneCoreOf("y")])
  }

  lemma OneCoreUsage(name: string, uid: string, held: string, cache: map<string, Assumed>)
    ensures UsageOf(name, [OneCorePod(uid, OneCoreOf(held))], cache) == if name == held then REQUEST else ZERO
  {
    OneCoreIsProper(held);
    OneCoreAdds();
    var pods, zones := [OneCorePod(uid, OneCoreOf(held))], OneCoreOf(held);
    assert pods[..0] == [] && zones[..0] == [];
    assert UsageOf(name, [], cache) == ZERO;
    assert VisibleZones(pods[0], cache) == zones;
    assert AddZones(ZERO, name, []) == ZERO;
    assert AddZones(ZERO, name, zones)
      == if held == name then AddInfo(ZERO, zones[0].resources) else ZERO;
  }

  lemma TwoViews(y: Zone, z: Zone, pods: seq<Pod>, cache: map<string, Assumed>)
    ensures Reconstruct([y, z], pods, cache)
      == [ZoneView(y.name, AllocatableOf(y), UsageOf(y.name, pods, cache)),
          ZoneView(z.name, AllocatableOf(z), UsageOf(z.name, pods, cache))]
  {
  }

  lemma ViewsOfTwoZones(y: string, z: string)
    requires y != z
    ensures Reconstruct([OneCoreZone(y), OneCoreZone(z)], [OneCorePod("b", OneCoreOf(z))], map[])
      == [ZoneView(y, REQUEST, ZERO), ZoneView(z, REQUEST, REQUEST)]
  {
    TwoViews(OneCoreZone(y), OneCoreZone(z), [OneCorePod("b", OneCoreOf(z))], map[]);
    OneCoreUsage(y, "b", z, map[]);
    OneCoreUsage(z, "b", z, map[]);
    OneCoreIsAllocatable(y);
    OneCoreIsAllocatable(z);
  }

  lemma StaleViews(s: State)
    requires s == StaleState(1)
    ensures ViewsOf(s, "n") == [ZoneView("y", REQUEST, ZERO), ZoneView("z", REQUEST, REQUEST)]
  {
    Different("y", "z");
    ViewsOfTwoZones("y", "z");
    assert s.nodes["n"].nrt.zones == [OneCoreZone("y"), OneCoreZone("z")];
  }

  lemma OnlyTheIdleZoneFits(y: ZoneView, z: ZoneView)
    requires y.allocatable == z.allocatable == z.requested == REQUEST && y.requested == ZERO
    ensures FittingZones(REQUEST, [y, z]) == [y]
  {
    assert Fits(REQUEST, y) && !Fits(REQUEST, z);
    assert [y, z][..1] == [y] && [y][..0] == [];
    assert FittingZones(REQUEST, []) == [];
    assert FittingZones(REQUEST, [y]) == [y];
  }

  lemma OnlyZoneYFits(s: State)
    requires s == StaleState(1)
    ensures Enabled(CONFIG, s, Filter("n", OneCoreOf("y")))
  {
    var y, z := ZoneView("y", REQUEST, ZERO), ZoneView("z", REQUEST, REQUEST);
    StaleViews(s);
    OnlyTheIdleZoneFits(y, z);
    AcceptsTheOnlyFit([y, z], y);
  }

  lemma StaleStep(k: nat)
    requires k < 3
    ensures Enabled(CONFIG, StaleState(k), STALE_RUN[k])
    ensures Next(CONFIG, StaleState(k), STALE_RUN[k]) == StaleState(k + 1)
    ensures k > 0 ==> Timely(StaleState(k), STALE_RUN[k])
    ensures Released(StaleState(k), STALE_RUN[k])
  {
    OneCoreIsProper("z");
    var s, a, b := StaleState(k), OneCorePod("a", OneCoreOf("z")), OneCorePod("b", OneCoreOf("z"));
    if k == 0 {
      Different("a", "b");
      OneCoreIsRequested("a", OneCoreOf("z"));
      assert s.nodes["n"].pods == [b];
      assert !Listed(s, "a");
    } else if k == 1 {
      OnlyZoneYFits(s);
    } else {
      assert s.nodes["n"].pods + [a] == [b, a];
    }
  }

  lemma {:induction false} StaleRunFrom(k: nat)
    requires k <= 3
    ensures Runs(CONFIG, StaleState(k), STALE_RUN[k..])
    ensures After(CONFIG, StaleState(k), STALE_RUN[k..]) == StaleState(3)
    ensures ReleasedRun(CONFIG, StaleState(k), STALE_RUN[k..])
    ensures k > 0 ==> TimelyRun(CONFIG, StaleState(k), STALE_RUN[k..])
    decreases 3 - k
  {
    if k < 3 {
      StaleStep(k);
      StaleRunFrom(k + 1);
      assert STALE_RUN[k..][0] == STALE_RUN[k] && STALE_RUN[k..][1..] == STALE_RUN[k + 1..];
    }
  }

  lemma StaleZoneHasRoom(name: string)
    ensures ZoneHasRoom(OneCoreZone(name), [OneCorePod("b", OneCoreOf("z"))], map[], [])
  {
    OneCoreIsProper("z");
    OneCoreCpu("z", name);
    OneCoreIsAllocatable(name);
    SumOne(OneCorePod("b", OneCoreOf("z")), (p: Pod) => CpuOn(VisibleZones(p, map[]), name));
    assert CpuOn([], name) == 0;
  }

  lemma StaleZonesAreOk()
    ensures ZonesOk(StaleState(0).nodes["n"].nrt)
  {
    var nrt := StaleState(0).nodes["n"].nrt;
    OneCoreIsAllocatable("y");
    OneCoreIsAllocatable("z");
    Different("y", "z");
    assert nrt.zones == [OneCoreZone("y"), OneCoreZone("z")];
    var names := MapSeq(nrt.zones, (z: Zone) => z.name);
    assert names[0] == "y" && names[1] == "z";
  }

  lemma StaleNodeHasRoom()
    ensures HasRoom(StaleState(0).nodes["n"], map[], [])
  {
    var node := StaleState(0).nodes["n"];
    StaleZoneHasRoom("y");
    StaleZoneHasRoom("z");
    assert node.nrt.zones == [OneCoreZone("y"), OneCoreZone("z")];
  }

  lemma StaleStartIsInit()
    ensures Init(StaleState(0))
  {
    StaleZonesAreOk();
    StaleNodeHasRoom();
    OneCoreIsProper("z");
    assert StaleState(0).nodes["n"].pods == [OneCorePod("b", OneCoreOf("z"))];
  }

  lemma TwoCoresCharged(s: State)
    requires s == StaleState(3)
    ensures Charged(s.nodes["n"].pods, s.cache, "z") == 2000
  {
    var a, b := OneCorePod("a", OneCoreOf("z")), OneCorePod("b", OneCoreOf("z"));
    OneCoreIsProper("z");
    OneCoreCpu("z", "z");
    var f := (p: Pod) => CpuOn(VisibleZones(p, s.cache), "z");
    SumAppend([b], [a], f);
    SumOne(b, f);
    SumOne(a, f);
    assert [b] + [a] == s.nodes["n"].pods;
  }

  lemma StaleEndOvercommits()
    ensures !NoOvercommit(StaleState(3))
  {
    var s := StaleState(3);
    TwoCoresCharged(s);
    OneCoreIsAllocatable("z");
    assert s.nodes["n"].nrt.zones[1] == OneCoreZone("z");
  }

  /** At the end of the run pod a shows zone z while its binding cycle gives it zone y. */
  lemma StalePodIsMasked()
    ensures Masked(StaleState(3), OneCorePod("a", OneCoreOf("z")))
  {
    OneCoreIsProper("z");
    OneCoreCpu("z", "z");
    OneCoreCpu("y", "z");
    Different("y", "z");
    assert CpuOn(OneCoreOf("z"), "z") != CpuOn(OneCoreOf("y"), "z");
  }

  /** An annotation left by an earlier attempt hides the new result: only the pre-filter is untimely. */
  lemma LeftoverAnnotationOvercommits()
    ensures Init(StaleState(0)) && !Timely(StaleState(0), STALE_RUN[0]) && Runs(CONFIG, StaleState(0), STALE_RUN)
    ensures ReleasedRun(CONFIG, StaleState(0), STALE_RUN)
    ensures TimelyRun(CONFIG, Next(CONFIG, StaleState(0), STALE_RUN[0]), STALE_RUN[1..])
    ensures After(CONFIG, StaleState(0), STALE_RUN) == StaleState(3) && !NoOvercommit(StaleState(3))
    ensures Masked(StaleState(3), PodAt(StaleState(3), "n", 1))
  {
    StaleStartIsInit();
    OneCoreIsProper("z");
    StaleStep(0);
    StaleRunFrom(1);
    StaleRunFrom(0);
    StaleEndOvercommits();
    StalePodIsMasked();
    assert STALE_RUN[0..] == STALE_RUN;
  }
}
