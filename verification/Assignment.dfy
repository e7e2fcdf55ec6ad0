/** The fit check and the assignment, as they update the request, the zones and the result in place. */
module Assignment {
  import opened Options
  import opened Sums
  import opened Greedy
  import opened Topology
  import opened Allocator
  import opened Sorting
  import opened NodeWrappers

  datatype Insufficient = Insufficient(resource: string, requested: int, used: int, capacity: int)

  /** The zone is short of the resource that e names, by the numbers e gives. */
  ghost predicate Short(request: Resource, z: ZoneView, e: Insufficient) {
    && !IsZero(request)
    && e.requested > e.capacity - e.used
    && (|| e == Insufficient(CPU, request.milliCPU, z.requested.milliCPU, z.allocatable.milliCPU)
        || e == Insufficient(MEMORY, request.memory, z.requested.memory, z.allocatable.memory)
        || e == Insufficient(EPHEMERAL_STORAGE, request.ephemeralStorage, z.requested.ephemeralStorage,
                             z.allocatable.ephemeralStorage)
        || (e.resource in request.scalars && e == ShortScalar(request, z, e.resource)))
  }

  function ShortScalar(request: Resource, z: ZoneView, k: string): Insufficient
    requires k in request.scalars
  {
    Insufficient(k, request.scalars[k], Scalar(z.requested.scalars, k), Scalar(z.allocatable.scalars, k))
  }

  /** Lists every resource the zone is short of, and nothing else. */
  method FitsRequestForNUMANode(request: Resource, numaNode: NumaNode) returns (short: seq<Insufficient>)
    ensures forall e :: e in short <==> Short(request, numaNode.View(), e)
    ensures short == [] <==> Fits(request, numaNode.View())
  {
    short := [];
    var z := numaNode.View();
    if IsZero(request) {
      return;
    }
    if request.milliCPU > Free(z) {
      short := short + [Insufficient(CPU, request.milliCPU, z.requested.milliCPU, z.allocatable.milliCPU)];
    }
    if request.memory > z.allocatable.memory - z.requested.memory {
      short := short + [Insufficient(MEMORY, request.memory, z.requested.memory, z.allocatable.memory)];
    }
    if request.ephemeralStorage > z.allocatable.ephemeralStorage - z.requested.ephemeralStorage {
      short := short + [Insufficient(EPHEMERAL_STORAGE, request.ephemeralStorage, z.requested.ephemeralStorage,
                                     z.allocatable.ephemeralStorage)];
    }
    ghost var native := short;
    var left := request.scalars.Keys;
    while left != {}
      invariant left <= request.scalars.Keys
      invariant forall e :: e in short <==>
        e in native || (e.resource in request.scalars.Keys - left && e == ShortScalar(request, z, e.resource)
                        && e.requested > e.capacity - e.used)
    {
      var k :| k in left;
      var e := ShortScalar(request, z, k);
      if e.requested > e.capacity - e.used {
        short := short + [e];
      }
      left := left - {k};
    }
    NothingShort(request, z, short);
  }

  lemma NothingShort(request: Resource, z: ZoneView, short: seq<Insufficient>)
    requires forall e :: e in short <==> Short(request, z, e)
    ensures short == [] <==> Fits(request, z)
  {
    if short != [] {
      assert short[0] in short;
    } else if !IsZero(request) {
      assert !Short(request, z, Insufficient(CPU, request.milliCPU, z.requested.milliCPU, z.allocatable.milliCPU));
      assert !Short(request, z, Insufficient(MEMORY, request.memory, z.requested.memory, z.allocatable.memory));
      assert !Short(request, z, Insufficient(EPHEMERAL_STORAGE, request.ephemeralStorage,
                                             z.requested.ephemeralStorage, z.allocatable.ephemeralStorage));
      forall k | k in request.scalars ensures !Short(request, z, ShortScalar(request, z, k)) {}
    }
  }

  /** Keeps the zones that fit, or leaves the wrapper alone when there is none. */
  method FilterNUMANodeResource(request: Resource, nw: NodeWrapper, ghost views: seq<ZoneView>) returns (ok: bool)
    requires nw.Valid() && nw.Shows(views)
    modifies nw`numaNodes
    ensures nw.Valid() && nw.Shows(if ok then FittingZones(request, views) else views)
    ensures ok <==> FittingZones(request, views) != []
    ensures forall k :: 0 <= k < |nw.numaNodes| ==> nw.numaNodes[k] in old(nw.numaNodes)
  {
    var fitting: seq<NumaNode> := [];
    ghost var kept: seq<ZoneView> := [];
    for i := 0 to |nw.numaNodes|
      invariant nw.numaNodes == old(nw.numaNodes)
      invariant kept == FittingZones(request, views[..i])
      invariant |fitting| == |kept|
      invariant forall k :: 0 <= k < |fitting| ==> fitting[k].View() == kept[k] && fitting[k] in nw.numaNodes[..i]
      invariant Distinct(fitting)
    {
      assert views[..i + 1][..i] == views[..i];
      assert nw.numaNodes[i] !in nw.numaNodes[..i];
      var insufficient := FitsRequestForNUMANode(request, nw.numaNodes[i]);
      if |insufficient| != 0 {
        continue;
      }
      fitting := fitting + [nw.numaNodes[i]];
      kept := kept + [views[i]];
    }
    assert views[..|nw.numaNodes|] == views;
    if |fitting| == 0 {
      return false;
    }
    nw.numaNodes := fitting;
    return true;
  }

  /** Of a request, given is served and left is not; nothing more could have been given of what is free. */
  predicate GivesAllItCan(given: int, asked: int, left: int, free: int) {
    given + left == asked && given <= free && left >= 0 && (given == free || left == 0)
  }

  /** Takes from the request what the zone can give. */
  method AssignRequestForNUMANode(request: PodRequest, numaNode: NumaNode)
    returns (given: Option<Resource>, finished: bool)
    requires request.amount.scalars == map[]
    modifies request
    ensures IsZero(old(request.amount)) ==> given == None && !finished && request.amount == old(request.amount)
    ensures !IsZero(old(request.amount)) ==>
      && given == Some(Assigned(old(request.amount), numaNode.View()))
      && request.amount == Rest(old(request.amount), given.value)
      && finished == Served(request.amount)
    ensures given.Some? ==>
      && GivesAllItCan(given.value.milliCPU, old(request.amount.milliCPU), request.amount.milliCPU,
                       numaNode.allocatable.milliCPU - numaNode.requested.milliCPU)
      && GivesAllItCan(given.value.memory, old(request.amount.memory), request.amount.memory,
                       numaNode.allocatable.memory - numaNode.requested.memory)
      && GivesAllItCan(given.value.ephemeralStorage, old(request.amount.ephemeralStorage),
                       request.amount.ephemeralStorage,
                       numaNode.allocatable.ephemeralStorage - numaNode.requested.ephemeralStorage)
    ensures given.Some? ==>
      (finished <==> request.amount.milliCPU <= 0 && request.amount.memory <= 0 && request.amount.ephemeralStorage <= 0)
  {
    var z := numaNode.View();
    if IsZero(request.amount) {
      return None, false;
    }
    var res := ZERO;
    finished := true;
    var share := Min(request.amount.milliCPU, Free(z));
    request.amount := request.amount.(milliCPU := request.amount.milliCPU - share);
    res := res.(milliCPU := share);
    if request.amount.milliCPU > 0 {
      finished := false;
    }
    share := Min(request.amount.memory, z.allocatable.memory - z.requested.memory);
    request.amount := request.amount.(memory := request.amount.memory - share);
    res := res.(memory := share);
    if request.amount.memory > 0 {
      finished := false;
    }
    share := Min(request.amount.ephemeralStorage, z.allocatable.ephemeralStorage - z.requested.ephemeralStorage);
    request.amount := request.amount.(ephemeralStorage := request.amount.ephemeralStorage - share);
    res := res.(ephemeralStorage := share);
    if request.amount.ephemeralStorage > 0 {
      finished := false;
    }
    given := Some(res);
  }

  lemma {:induction false} NameOrderIsTotal(a: string, b: string)
    ensures NameLeq(a, b) || NameLeq(b, a)
  {
    if a != [] && b != [] { NameOrderIsTotal(a[1..], b[1..]); }
  }

  lemma {:induction false} NameOrderIsTransitive(a: string, b: string, c: string)
    requires NameLeq(a, b) && NameLeq(b, c)
    ensures NameLeq(a, c)
  {
    if a != [] && b != [] && c != [] && a[0] == b[0] && b[0] == c[0] {
      NameOrderIsTransitive(a[1..], b[1..], c[1..]);
    }
  }

  /** a comes before b at their first difference. */
  ghost predicate DiffersBelow(a: string, b: string, k: nat) {
    k < |a| && k < |b| && a[..k] == b[..k] && a[k] < b[k]
  }

  lemma DiffersLater(a: string, b: string, k: nat)
    requires a != [] && b != [] && a[0] == b[0]
    ensures DiffersBelow(a, b, k + 1) <==> DiffersBelow(a[1..], b[1..], k)
  {
    if k + 1 <= |a| && k + 1 <= |b| {
      assert a[..k + 1] == [a[0]] + a[1..][..k] && b[..k + 1] == [b[0]] + b[1..][..k];
      assert a[..k + 1][1..] == a[1..][..k] && b[..k + 1][1..] == b[1..][..k];
    }
  }

  lemma PrefixLater(a: string, b: string)
    requires a != [] && b != [] && a[0] == b[0]
    ensures a <= b <==> a[1..] <= b[1..]
  {
    assert a == [a[0]] + a[1..] && b == [b[0]] + b[1..];
  }

  /** Names are ordered as strings are: a prefix comes first, and otherwise the first difference decides. */
  lemma {:induction false} NameOrderIsLexicographic(a: string, b: string)
    ensures NameLeq(a, b) <==> a <= b || exists k: nat :: DiffersBelow(a, b, k)
  {
    if a != [] && b != [] {
      if a[0] == b[0] {
        NameOrderIsLexicographic(a[1..], b[1..]);
        PrefixLater(a, b);
        forall k: nat { DiffersLater(a, b, k); }
        if k: nat :| DiffersBelow(a[1..], b[1..], k) {
          assert DiffersBelow(a, b, k + 1);
        }
        if k: nat :| DiffersBelow(a, b, k) {
          assert k != 0;
          assert DiffersBelow(a[1..], b[1..], k - 1);
        }
      } else {
        if a[0] < b[0] { assert DiffersBelow(a, b, 0); }
        if k: nat :| DiffersBelow(a, b, k) {
          assert k == 0 || a[..k][0] == b[..k][0];
        }
      }
    }
  }

  /** sort.Slice on the names of the result. */
  method SortResultByName(result: seq<Zone>) returns (sorted: seq<Zone>)
    ensures multiset(sorted) == multiset(result) && SortedByName(sorted)
  {
    var leq := (a: Zone, b: Zone) => NameLeq(a.name, b.name);
    forall x, y | x in result && y in result ensures leq(x, y) || leq(y, x) {
      NameOrderIsTotal(x.name, y.name);
    }
    forall x, y, z | x in result && y in result && z in result && leq(x, y) && leq(y, z) ensures leq(x, z) {
      NameOrderIsTransitive(x.name, y.name, z.name);
    }
    sorted := SortSlice(result, leq);
  }

  /** What is left of the request, whether the walk is over, the entries recorded and the zones reached so far. */
  datatype Walk = Walk(left: Resource, finished: bool, gained: seq<Zone>, reached: nat)

  function Next(w: Walk, z: ZoneView): Walk {
    if IsZero(w.left) then w.(reached := w.reached + 1)
    else
      var given := Assigned(w.left, Floored(z));
      Walk(Rest(w.left, given), Served(Rest(w.left, given)), w.gained + Entry(z.name, given), w.reached + 1)
  }

  /** The end of a walk that goes on with w over zones. */
  function WalkOn(zones: seq<ZoneView>, w: Walk): Walk {
    if zones == [] || w.finished then w else WalkOn(zones[1..], Next(w, zones[0]))
  }

  /** Stepping through the zones until the request is served computes Split, Remainder and Visited. */
  lemma {:induction false} WalkComputesSplit(zones: seq<ZoneView>, w: Walk)
    requires !w.finished
    ensures var end := WalkOn(zones, w);
      && end.gained == w.gained + Split(zones, w.left)
      && end.left == Remainder(zones, w.left)
      && end.reached == w.reached + Visited(zones, w.left)
  {
    if zones != [] {
      var next := Next(w, zones[0]);
      if !next.finished {
        WalkComputesSplit(zones[1..], next);
      }
    }
  }

  /** Cuts one zone to whole cores and lets it serve the request; entry is what gets appended to the result. */
  method ServeFrom(numaNode: NumaNode, request: PodRequest, ghost w: Walk) returns (entry: seq<Zone>, finished: bool)
    requires request.amount.scalars == map[] && w.left == request.amount && !w.finished
    modifies numaNode`allocatable, request
    ensures numaNode.View() == Floored(old(numaNode.View()))
    ensures request.amount.scalars == map[]
    ensures Next(w, old(numaNode.View())) == Walk(request.amount, finished, w.gained + entry, w.reached + 1)
  {
    numaNode.allocatable := numaNode.allocatable.(milliCPU := FloorToCores(numaNode.allocatable.milliCPU));
    var res;
    res, finished := AssignRequestForNUMANode(request, numaNode);
    entry := [];
    if res.Some? && Recorded(res.value) != map[] {
      entry := [ResultZone(numaNode.name, res.value)];
    }
    assert w.gained + [] == w.gained;
  }

  /** The walk over the sorted zones, before the result is sorted by name. */
  method AssignInOrder(nw: NodeWrapper, request: PodRequest, ghost sorted: seq<ZoneView>)
    requires nw.Valid() && request.amount.scalars == map[]
    requires nw.Shows(sorted)
    modifies nw`result, nw.numaNodes, request
    ensures nw.ShowsCut(sorted, Visited(sorted, old(request.amount)))
    ensures nw.result == old(nw.result) + Split(sorted, old(request.amount))
    ensures request.amount == Remainder(sorted, old(request.amount))
  {
    ghost var start := Walk(request.amount, false, nw.result, 0);
    ghost var w := start;
    WalkComputesSplit(sorted, start);
    var nodes := nw.numaNodes;
    var finished := false;
    var i := 0;
    assert sorted[0..] == sorted;
    while i < |nodes| && !finished
      invariant 0 <= i <= |nodes| == |sorted|
      invariant forall k :: 0 <= k < i ==> nodes[k].View() == Floored(sorted[k])
      invariant forall k :: i <= k < |sorted| ==> nodes[k].View() == sorted[k]
      invariant request.amount.scalars == map[]
      invariant w == Walk(request.amount, finished, nw.result, i)
      invariant WalkOn(sorted[i..], w) == WalkOn(sorted, start)
      decreases |nodes| - i
    {
      var entry;
      assert forall k :: i < k < |sorted| ==> nodes[k] != nodes[i];
      assert sorted[i..][0] == sorted[i] && sorted[i..][1..] == sorted[i + 1..];
      entry, finished := ServeFrom(nodes[i], request, w);
      nw.result := nw.result + entry;
      w := Next(w, sorted[i]);
      i := i + 1;
    }
  }

  /** Multi-zone mode on zones that are sorted already. */
  method AssignAcrossZones(nw: NodeWrapper, request: PodRequest, ghost sorted: seq<ZoneView>)
    requires nw.Valid() && request.amount.scalars == map[] && nw.Shows(sorted)
    modifies nw`result, nw.numaNodes, request
    ensures nw.ShowsCut(sorted, Visited(sorted, old(request.amount)))
    ensures SortedByName(nw.result)
    ensures multiset(nw.result) == multiset(old(nw.result) + Split(sorted, old(request.amount)))
    ensures request.amount == Remainder(sorted, old(request.amount))
  {
    AssignInOrder(nw, request, sorted);
    nw.result := SortResultByName(nw.result);
  }

  /** Sorts the zones and records what the pod gets; sorted is the order the sort left them in. */
  method AssignTopologyResult(nw: NodeWrapper, request: PodRequest, ghost views: seq<ZoneView>)
    returns (ghost sorted: seq<ZoneView>)
    requires nw.Valid() && nw.Shows(views)
    requires nw.aware ==> nw.numaNodes != []
    requires nw.aware || request.amount.scalars == map[]
    modifies nw`numaNodes, nw`result, nw.numaNodes, request
    ensures nw.Valid() && multiset(nw.numaNodes) == multiset(old(nw.numaNodes))
    ensures SortOf(sorted, views)
    ensures nw.ShowsCut(sorted, if nw.aware then 0 else Visited(sorted, old(request.amount)))
    ensures nw.aware ==> sorted != [] && nw.result == [ResultZone(sorted[0].name, old(request.amount))]
    ensures !nw.aware ==> SortedByName(nw.result)
    ensures !nw.aware ==> multiset(nw.result) == multiset(old(nw.result) + Split(sorted, old(request.amount)))
    ensures request.amount == if nw.aware then old(request.amount) else Remainder(sorted, old(request.amount))
  {
    sorted := nw.SortByFreeCPU(views);
    if nw.aware {
      nw.result := [ResultZone(nw.numaNodes[0].name, request.amount)];
      return;
    }
    AssignAcrossZones(nw, request, sorted);
  }

  /** The assignment of a wrapper that has no result yet. */
  method AssignFirstResult(nw: NodeWrapper, request: PodRequest, ghost views: seq<ZoneView>)
    requires nw.Valid() && nw.Shows(views) && nw.result == []
    requires nw.aware ==> nw.numaNodes != []
    requires nw.aware || request.amount.scalars == map[]
    modifies nw`numaNodes, nw`result, nw.numaNodes, request
    ensures Outcome(views, nw.aware, old(request.amount), nw.result)
  {
    ghost var sorted := AssignTopologyResult(nw, request, views);
    ghost var entries := Split(sorted, old(request.amount));
    assert [] + entries == entries;
    assert OutcomeOf(sorted, nw.aware, old(request.amount), nw.result);
  }
}
