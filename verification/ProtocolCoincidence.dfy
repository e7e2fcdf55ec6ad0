/** Leftover annotations that make up for each other: a run whose sums are true although no pod is seen truly. */
module ProtocolCoincidence {
  import opened Options
  import opened Sums
  import opened Topology
  import opened Allocator
  import opened TopologyMatching
  import opened Protocol
  import opened ProtocolSafety
  import opened ProtocolUsage
  import opened ProtocolLimits

  const TWO_CORES := Resource(2000, 0, 0, map[])

  /** Zone y has two cores and zone z has one. */
  function CrossZones(): seq<Zone> {
    [Zone("y", NodeZone, Some(ResourceInfo(map[], map[CPU := 2 * NANO]))), OneCoreZone("z")]
  }

  function CrossIdle(pods: seq<Pod>): State {
    State(map["n" := Node(NodeTopology(CrossZones(), true, true), pods)], map[], None, map[], 0)
  }

  /** Pod c holds a core of y and leaves; pod a comes back with y and gets z, pod b comes back with z and gets y. */
  const CROSS_RUN: seq<Event> := [
    PreFilter(OneCorePod("a", OneCoreOf("y")), [0]), Filter("n", OneCoreOf("z")), Reserve("n"), Remove("n", 0),
    PreFilter(OneCorePod("b", OneCoreOf("z")), [0]), Filter("n", OneCoreOf("y")), Reserve("n")]

  function CrossState(k: nat): State {
    var y, z := OneCoreOf("y"), OneCoreOf("z");
    var a, b, c := OneCorePod("a", y), OneCorePod("b", z), OneCorePod("c", y);
    if k == 0 then CrossIdle([c])
    else if k == 1 then CrossIdle([c]).(cycle := Scheduling(a, map[]))
    else if k == 2 then CrossIdle([c]).(cycle := Scheduling(a, map["n" := z]))
    else
      var reserved := CrossIdle([c, a]).(cache := map["a" := Assumed(z, 0)], inFlight := map["a" := z]);
      var alone := CrossIdle([a]).(cache := reserved.cache, inFlight := reserved.inFlight);
      if k == 3 then reserved
      else if k == 4 then alone
      else if k == 5 then alone.(cycle := Scheduling(b, map[]))
      else if k == 6 then alone.(cycle := Scheduling(b, map["n" := y]))
      else CrossIdle([a, b]).(cache := map["a" := Assumed(z, 0), "b" := Assumed(y, 0)],
                              inFlight := map["a" := z, "b" := y])
  }

  ghost predicate CrossStep(k: nat)
    requires k < 7
  {
    && Enabled(CONFIG, CrossState(k), CROSS_RUN[k])
    && Next(CONFIG, CrossState(k), CROSS_RUN[k]) == CrossState(k + 1)
    && Released(CrossState(k), CROSS_RUN[k])
  }

  lemma TwoCoresAreAllocatable()
    ensures AllocatableOf(CrossZones()[0]) == TWO_CORES
  {
    assert MilliValue(2 * NANO) == 2000;
  }

  /** Either pod that shows a core of y leaves one free core in each zone. */
  lemma CrossViews(uid: string, cache: map<string, Assumed>)
    ensures Reconstruct(CrossZones(), [OneCorePod(uid, OneCoreOf("y"))], cache)
      == [ZoneView("y", TWO_CORES, REQUEST), ZoneView("z", REQUEST, ZERO)]
  {
    Different("y", "z");
    TwoViews(CrossZones()[0], CrossZones()[1], [OneCorePod(uid, OneCoreOf("y"))], cache);
    OneCoreUsage("y", uid, "y", cache);
    OneCoreUsage("z", uid, "y", cache);
    TwoCoresAreAllocatable();
    OneCoreIsAllocatable("z");
  }

  lemma BothZonesFit(y: ZoneView, z: ZoneView)
    requires Fits(REQUEST, y) && Fits(REQUEST, z) && Free(y) == Free(z)
    ensures Accepts([y, z], true, REQUEST, OneCoreOf(y.name))
    ensures Accepts([y, z], true, REQUEST, OneCoreOf(z.name))
  {
    assert [y, z][..1] == [y] && [y][..0] == [];
    assert FittingZones(REQUEST, []) == [] && FittingZones(REQUEST, [y]) == [y];
    assert FittingZones(REQUEST, [y, z]) == [y, z];
    assert SortOf([y, z], [y, z]) && OutcomeOf([y, z], true, REQUEST, OneCoreOf(y.name));
    assert SortOf([z, y], [y, z]) && OutcomeOf([z, y], true, REQUEST, OneCoreOf(z.name));
  }

  lemma CrossFilter(s: State, uid: string, pod: Pod, name: string)
    requires s.nodes == CrossIdle([OneCorePod(uid, OneCoreOf("y"))]).nodes && s.cycle == Scheduling(pod, map[])
    requires pod.awareness == Some(true) && !pod.daemonSet && (name == "y" || name == "z")
    ensures Enabled(CONFIG, s, Filter("n", OneCoreOf(name)))
  {
    CrossViews(uid, s.cache);
    BothZonesFit(ZoneView("y", TWO_CORES, REQUEST), ZoneView("z", REQUEST, ZERO));
  }

  lemma CrossStartOfA()
    ensures CrossStep(0)
  {
    Different("a", "c");
    OneCoreIsRequested("a", OneCoreOf("y"));
    OneCoreIsProper("y");
    assert !Listed(CrossState(0), "a");
  }

  lemma CrossFilterOfA()
    ensures CrossStep(1)
  {
    CrossFilter(CrossState(1), "c", OneCorePod("a", OneCoreOf("y")), "z");
  }

  lemma CrossReserveOfA()
    ensures CrossStep(2) && CrossStep(3)
  {
    var a, c := OneCorePod("a", OneCoreOf("y")), OneCorePod("c", OneCoreOf("y"));
    assert [c] + [a] == [c, a];
    assert [c, a][..0] + [c, a][1..] == [a];
  }

  lemma CrossStartOfB()
    ensures CrossStep(4)
  {
    Different("a", "b");
    OneCoreIsRequested("b", OneCoreOf("z"));
    OneCoreIsProper("z");
    assert !Listed(CrossState(4), "b");
  }

  lemma CrossFilterOfB()
    ensures CrossStep(5)
  {
    CrossFilter(CrossState(5), "a", OneCorePod("b", OneCoreOf("z")), "y");
  }

  lemma CrossReserveOfB()
    ensures CrossStep(6)
  {
    var s, a, b := CrossState(6), OneCorePod("a", OneCoreOf("y")), OneCorePod("b", OneCoreOf("z"));
    Different("a", "b");
    assert [a] + [b] == [a, b];
    assert s.inFlight["b" := OneCoreOf("y")] == CrossState(7).inFlight;
    assert s.cache["b" := Assumed(OneCoreOf("y"), 0)] == CrossState(7).cache;
  }

  /** The events lead from s to t, and every pod enters its cycle released. */
  ghost predicate Reaches(c: Config, s: State, events: seq<Event>, t: State) {
    Runs(c, s, events) && ReleasedRun(c, s, events) && After(c, s, events) == t
  }

  lemma {:induction false} CrossRunFrom(k: nat)
    requires k <= 7
    ensures Reaches(CONFIG, CrossState(k), CROSS_RUN[k..], CrossState(7))
    decreases 7 - k
  {
    if k < 7 {
      if k == 0 { CrossStartOfA(); }
      else if k == 1 { CrossFilterOfA(); }
      else if k <= 3 { CrossReserveOfA(); }
      else if k == 4 { CrossStartOfB(); }
      else if k == 5 { CrossFilterOfB(); }
      else { CrossReserveOfB(); }
      CrossRunFrom(k + 1);
      assert CROSS_RUN[k..][0] == CROSS_RUN[k] && CROSS_RUN[k..][1..] == CROSS_RUN[k + 1..];
    }
  }

  lemma CrossZonesAreOk()
    ensures ZonesOk(CrossState(0).nodes["n"].nrt)
  {
    Different("y", "z");
    TwoCoresAreAllocatable();
    OneCoreIsAllocatable("z");
    var names := MapSeq(CrossZones(), (z: Zone) => z.name);
    assert names[0] == "y" && names[1] == "z";
  }

  lemma CrossNodeHasRoom()
    ensures HasRoom(CrossState(0).nodes["n"], map[], [])
  {
    var node, c := CrossState(0).nodes["n"], OneCorePod("c", OneCoreOf("y"));
    TwoCoresAreAllocatable();
    OneCoreIsAllocatable("z");
    OneCoreIsProper("y");
    forall i | 0 <= i < 2 ensures ZoneHasRoom(node.nrt.zones[i], node.pods, map[], []) {
      var name := node.nrt.zones[i].name;
      OneCoreCpu("y", name);
      SumOne(c, (p: Pod) => CpuOn(VisibleZones(p, map[]), name));
      assert CpuOn([], name) == 0;
    }
  }

  lemma CrossStartIsInit()
    ensures Init(CrossState(0))
  {
    CrossZonesAreOk();
    CrossNodeHasRoom();
    OneCoreIsProper("y");
  }

  lemma CrossEnds(name: string)
    ensures var s := CrossState(7);
      Charged(s.nodes["n"].pods, s.cache, name) == Committed(s, s.nodes["n"].pods, name)
  {
    var s, a, b := CrossState(7), OneCorePod("a", OneCoreOf("y")), OneCorePod("b", OneCoreOf("z"));
    Different("a", "b");
    OneCoreIsProper("y");
    OneCoreIsProper("z");
    var shown := (p: Pod) => CpuOn(VisibleZones(p, s.cache), name);
    var held := (p: Pod) => CpuOn(CommittedZones(s, p), name);
    SumAppend([a], [b], shown);
    SumAppend([a], [b], held);
    SumOne(a, shown);
    SumOne(b, shown);
    SumOne(a, held);
    SumOne(b, held);
    assert [a] + [b] == s.nodes["n"].pods;
  }

  /** Every sum of node n is true although both of its pods are masked. */
  ghost predicate TrueByCoincidence(s: State, n: string) {
    && n in s.nodes && UsageIsTrue(s, n)
    && |s.nodes[n].pods| == 2 && Masked(s, s.nodes[n].pods[0]) && Masked(s, s.nodes[n].pods[1])
  }

  lemma CrossPodsAreMasked()
    ensures Masked(CrossState(7), OneCorePod("a", OneCoreOf("y")))
    ensures Masked(CrossState(7), OneCorePod("b", OneCoreOf("z")))
  {
    Different("y", "z");
    Different("a", "b");
    OneCoreIsProper("y");
    OneCoreIsProper("z");
    OneCoreCpu("y", "y");
    OneCoreCpu("z", "y");
    assert CpuOn(OneCoreOf("y"), "y") != CpuOn(OneCoreOf("z"), "y");
  }

  lemma CrossEndsTrue()
    ensures TrueByCoincidence(CrossState(7), "n")
  {
    var s := CrossState(7);
    CrossPodsAreMasked();
    forall name ensures Charged(s.nodes["n"].pods, s.cache, name) == Committed(s, s.nodes["n"].pods, name) {
      CrossEnds(name);
    }
  }

  /** A run that ends with both pods masked and yet every sum true: the two leftovers make up for each other. */
  lemma LeftoversCanCancel()
    ensures Init(CrossState(0)) && Reaches(CONFIG, CrossState(0), CROSS_RUN, CrossState(7))
    ensures TrueByCoincidence(CrossState(7), "n")
  {
    CrossStartIsInit();
    CrossRunFrom(0);
    CrossEndsTrue();
    assert CROSS_RUN[0..] == CROSS_RUN;
  }
}
