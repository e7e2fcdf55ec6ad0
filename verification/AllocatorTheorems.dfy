/** What the recorded results guarantee: exact split, fewest zones, best fit, no over-commitment. */
module AllocatorTheorems {
  import opened Sums
  import opened Greedy
  import opened Topology
  import opened Allocator

  // ---------- zones as Filter meets them ----------

  /** Whole cores are charged, and no more than the zone has. */
  predicate Sound(z: ZoneView) {
    0 <= z.requested.milliCPU <= z.allocatable.milliCPU && z.requested.milliCPU % 1000 == 0
  }

  ghost predicate AllSound(zones: seq<ZoneView>) {
    forall i :: 0 <= i < |zones| ==> Sound(zones[i])
  }

  /** Nothing but CPU can be overdrawn. */
  ghost predicate Roomy(zones: seq<ZoneView>) {
    forall i :: 0 <= i < |zones| ==>
      && zones[i].requested.memory <= zones[i].allocatable.memory
      && zones[i].requested.ephemeralStorage <= zones[i].allocatable.ephemeralStorage
  }

  function Names(zones: seq<ZoneView>): seq<string> {
    MapSeq(zones, (z: ZoneView) => z.name)
  }

  function CoresOf(zones: seq<ZoneView>): seq<int> {
    MapSeq(zones, (z: ZoneView) => Cores(z))
  }

  /** A whole, non-negative number of cores and nothing else. */
  predicate CpuOnly(request: Resource) {
    request == Resource(request.milliCPU, 0, 0, map[]) && request.milliCPU >= 0 && request.milliCPU % 1000 == 0
  }

  lemma SortKeeps(sorted: seq<ZoneView>, zones: seq<ZoneView>)
    requires multiset(sorted) == multiset(zones)
    ensures |sorted| == |zones|
    ensures forall i :: 0 <= i < |sorted| ==> sorted[i] in zones
    ensures forall i :: 0 <= i < |zones| ==> zones[i] in sorted
  {
    SameLength(sorted, zones);
    forall i | 0 <= i < |sorted| ensures sorted[i] in zones { assert sorted[i] in multiset(zones); }
    forall i | 0 <= i < |zones| ensures zones[i] in sorted { assert zones[i] in multiset(sorted); }
  }

  lemma SortKeepsSound(sorted: seq<ZoneView>, zones: seq<ZoneView>)
    requires multiset(sorted) == multiset(zones)
    requires AllSound(zones) && Distinct(Names(zones))
    ensures AllSound(sorted) && Distinct(Names(sorted))
    ensures Roomy(zones) ==> Roomy(sorted)
  {
    SortKeeps(sorted, zones);
    MapPermutation(zones, sorted, (z: ZoneView) => z.name);
    DistinctPermutation(Names(zones), Names(sorted));
  }

  /** With whole cores charged, cutting to whole cores keeps the order of the free amounts. */
  lemma CoresFollowFree(z: ZoneView)
    requires Sound(z)
    ensures Cores(z) == Free(z) / 1000 * 1000
    ensures 0 <= Cores(z) <= Free(z) && Cores(z) % 1000 == 0
  {
    var k := z.requested.milliCPU / 1000;
    assert z.requested.milliCPU == 1000 * k;
    assert Free(z) / 1000 == z.allocatable.milliCPU / 1000 - k;
  }

  lemma CoresAreSorted(sorted: seq<ZoneView>)
    requires AllSound(sorted) && SortedByFree(sorted)
    ensures NonIncreasing(CoresOf(sorted)) && NonNegative(CoresOf(sorted)) && Whole(CoresOf(sorted))
  {
    forall i | 0 <= i < |sorted| ensures CoresOf(sorted)[i] == Free(sorted[i]) / 1000 * 1000 && 0 <= CoresOf(sorted)[i]
      && CoresOf(sorted)[i] % 1000 == 0 {
      CoresFollowFree(sorted[i]);
    }
    forall i, j | 0 <= i < j < |sorted| ensures CoresOf(sorted)[i] >= CoresOf(sorted)[j] {
      assert Free(sorted[i]) >= Free(sorted[j]);
    }
  }

  // ---------- the CPU a split records, whatever else is requested ----------

  lemma OneZone(zone: Zone, name: string)
    ensures CpuOn([zone], name) == CpuIfNamed(zone, name)
  {
    SumOne(zone, (z: Zone) => CpuIfNamed(z, name));
  }

  lemma EntryCpu(name: string, given: Resource, other: string)
    requires given.milliCPU >= 0 && given.scalars == map[]
    ensures CpuOn(Entry(name, given), other) == if name == other then given.milliCPU else 0
  {
    var list := Recorded(given);
    assert Get(list, CPU) == given.milliCPU * MICRO;
    MilliValueOfMilli(given.milliCPU);
    OneZone(ResultZone(name, given), other);
    if given.milliCPU > 0 { assert CPU in list; }
  }

  /** What the walk records after its first zone. */
  function SplitTail(zones: seq<ZoneView>, request: Resource): seq<Zone>
    requires zones != []
  {
    if IsZero(request) then Split(zones[1..], request)
    else
      var rest := Rest(request, Assigned(request, Floored(zones[0])));
      if Served(rest) then [] else Split(zones[1..], rest)
  }

  lemma SplitStep(zones: seq<ZoneView>, request: Resource, name: string)
    requires zones != [] && Sound(zones[0]) && 0 <= request.milliCPU
    ensures CpuOn(Split(zones, request), name)
      == (if zones[0].name == name then Min(request.milliCPU, Cores(zones[0])) else 0)
         + CpuOn(SplitTail(zones, request), name)
  {
    CoresFollowFree(zones[0]);
    if !IsZero(request) {
      var given := Assigned(request, Floored(zones[0]));
      EntryCpu(zones[0].name, given, name);
      assert Split(zones, request) == Entry(zones[0].name, given) + SplitTail(zones, request);
      SumAppend(Entry(zones[0].name, given), SplitTail(zones, request), (z: Zone) => CpuIfNamed(z, name));
    }
  }

  lemma {:induction false} SplitOtherName(zones: seq<ZoneView>, request: Resource, name: string)
    requires AllSound(zones) && 0 <= request.milliCPU
    requires forall i :: 0 <= i < |zones| ==> zones[i].name != name
    ensures CpuOn(Split(zones, request), name) == 0
  {
    if zones != [] {
      SplitStep(zones, request, name);
      SplitStops(zones, request);
      SplitOtherName(zones[1..], NextRequest(zones, request), name);
    }
  }

  lemma TailNames(zones: seq<ZoneView>, i: nat)
    requires Distinct(Names(zones)) && i < |zones|
    ensures Distinct(Names(zones[1..]))
    ensures i > 0 ==> zones[0].name != zones[i].name
    ensures i == 0 ==> forall k :: 0 <= k < |zones[1..]| ==> zones[1..][k].name != zones[0].name
  {
    assert Names(zones[1..]) == Names(zones)[1..];
    if i > 0 {
      assert Names(zones)[0] != Names(zones)[i];
    } else {
      forall k | 0 <= k < |zones[1..]| ensures zones[1..][k].name != zones[0].name {
        assert Names(zones)[0] != Names(zones)[k + 1];
      }
    }
  }

  lemma TakeStep(zones: seq<ZoneView>, request: int, i: nat)
    requires zones != [] && i < |zones|
    ensures var amount := Min(request, Cores(zones[0]));
      Take(CoresOf(zones), request)[i] == if i == 0 then amount else Take(CoresOf(zones[1..]), request - amount)[i - 1]
  {
    assert CoresOf(zones)[1..] == CoresOf(zones[1..]);
  }

  /** The request the walk goes on with after its first zone. */
  function NextRequest(zones: seq<ZoneView>, request: Resource): Resource
    requires zones != []
  {
    if IsZero(request) then request else Rest(request, Assigned(request, Floored(zones[0])))
  }

  lemma SplitStops(zones: seq<ZoneView>, request: Resource)
    requires zones != [] && Sound(zones[0]) && 0 <= request.milliCPU
    ensures var next := NextRequest(zones, request);
      && next.milliCPU == request.milliCPU - Min(request.milliCPU, Cores(zones[0])) >= 0
      && (SplitTail(zones, request) == Split(zones[1..], next)
          || (SplitTail(zones, request) == [] && next.milliCPU == 0))
  {
    CoresFollowFree(zones[0]);
  }

  lemma {:induction false} SplitOfNothing(zones: seq<ZoneView>, request: Resource, name: string)
    requires AllSound(zones) && request.milliCPU == 0
    ensures CpuOn(Split(zones, request), name) == 0
  {
    if zones != [] {
      SplitStep(zones, request, name);
      SplitStops(zones, request);
      CoresFollowFree(zones[0]);
      SplitOfNothing(zones[1..], NextRequest(zones, request), name);
    }
  }

  /** The first zone's share, then the split of what it leaves. */
  lemma SplitFirst(zones: seq<ZoneView>, request: Resource, name: string)
    requires zones != [] && AllSound(zones) && 0 <= request.milliCPU
    ensures CpuOn(Split(zones, request), name)
      == (if zones[0].name == name then Min(request.milliCPU, Cores(zones[0])) else 0)
         + CpuOn(Split(zones[1..], NextRequest(zones, request)), name)
  {
    SplitStep(zones, request, name);
    SplitStops(zones, request);
    if SplitTail(zones, request) == [] && NextRequest(zones, request).milliCPU == 0 {
      SplitOfNothing(zones[1..], NextRequest(zones, request), name);
    }
  }

  /** The walk and the greedy split give the i-th zone the same if they do so after the first. */
  lemma ShareStep(zones: seq<ZoneView>, request: Resource, i: nat)
    requires AllSound(zones) && Distinct(Names(zones)) && 0 <= request.milliCPU && 0 < i < |zones|
    ensures var next := NextRequest(zones, request);
      && 0 <= next.milliCPU && Distinct(Names(zones[1..]))
      && CpuOn(Split(zones, request), zones[i].name) == CpuOn(Split(zones[1..], next), zones[i].name)
      && Take(CoresOf(zones), request.milliCPU)[i] == Take(CoresOf(zones[1..]), next.milliCPU)[i - 1]
  {
    TakeStep(zones, request.milliCPU, i);
    TailNames(zones, i);
    SplitFirst(zones, request, zones[i].name);
    SplitStops(zones, request);
  }

  lemma FirstShare(zones: seq<ZoneView>, request: Resource)
    requires AllSound(zones) && Distinct(Names(zones)) && 0 <= request.milliCPU && zones != []
    ensures CpuOn(Split(zones, request), zones[0].name) == Take(CoresOf(zones), request.milliCPU)[0]
  {
    TakeStep(zones, request.milliCPU, 0);
    TailNames(zones, 0);
    SplitFirst(zones, request, zones[0].name);
    SplitStops(zones, request);
    SplitOtherName(zones[1..], NextRequest(zones, request), zones[0].name);
  }

  /** The CPU recorded for the i-th zone is the greedy share of its whole free cores. */
  lemma {:induction false} SplitCpu(zones: seq<ZoneView>, request: Resource, i: nat)
    requires AllSound(zones) && Distinct(Names(zones)) && 0 <= request.milliCPU && i < |zones|
    ensures CpuOn(Split(zones, request), zones[i].name) == Take(CoresOf(zones), request.milliCPU)[i]
  {
    if i == 0 {
      FirstShare(zones, request);
    } else {
      ShareStep(zones, request, i);
      SplitCpu(zones[1..], NextRequest(zones, request), i - 1);
    }
  }

  lemma NonNegativeCores(zones: seq<ZoneView>)
    requires AllSound(zones)
    ensures NonNegative(CoresOf(zones)) && Whole(CoresOf(zones))
  {
    forall i | 0 <= i < |zones| ensures 0 <= CoresOf(zones)[i] && CoresOf(zones)[i] % 1000 == 0 {
      CoresFollowFree(zones[i]);
    }
  }

  // ---------- safety of both modes ----------

  lemma {:induction false} FittingZonesFit(request: Resource, zones: seq<ZoneView>)
    ensures forall z :: z in FittingZones(request, zones) <==> z in zones && Fits(request, z)
  {
    if zones != [] {
      FittingZonesFit(request, zones[..|zones| - 1]);
      assert zones == zones[..|zones| - 1] + [zones[|zones| - 1]];
    }
  }

  /** The resource counts in the fit test: the native ones always, a scalar one if it is requested. */
  predicate Tested(request: Resource, name: string) { Native(name) || name in request.scalars }

  /** No scalar resource is named and every amount is zero. */
  ghost predicate AsksNothing(request: Resource) {
    request.scalars == map[] && forall name :: AmountOf(request, name) == 0
  }

  lemma WhenNothingIsAsked(request: Resource)
    ensures AsksNothing(request) <==> IsZero(request)
  {
    if AsksNothing(request) {
      assert AmountOf(request, CPU) == 0 && AmountOf(request, MEMORY) == 0 && AmountOf(request, EPHEMERAL_STORAGE) == 0;
    }
  }

  /** A zone fits exactly when nothing is requested or, resource by resource, what is requested is free. */
  lemma FitsMeansRoom(request: Resource, z: ZoneView)
    requires WellFormed(request)
    ensures Fits(request, z) <==> AsksNothing(request) || forall name :: Tested(request, name) ==>
      AmountOf(request, name) <= AmountOf(z.allocatable, name) - AmountOf(z.requested, name)
  {
    WhenNothingIsAsked(request);
    assert Tested(request, CPU) && Tested(request, MEMORY) && Tested(request, EPHEMERAL_STORAGE);
    if forall name :: Tested(request, name) ==>
        AmountOf(request, name) <= AmountOf(z.allocatable, name) - AmountOf(z.requested, name) {
      forall k | k in request.scalars
        ensures request.scalars[k] <= Scalar(z.allocatable.scalars, k) - Scalar(z.requested.scalars, k)
      {
        assert Tested(request, k);
      }
    }
  }

  /** What the pods record of a resource, and the request on top, is within what the zone states as allocatable. */
  ghost predicate HasStatedRoom(zone: Zone, pods: seq<Pod>, assumed: map<string, Assumed>, request: Resource,
                                name: string)
  {
    AmountOf(request, name) + SumOf(pods, (p: Pod) => RecordedOn(VisibleZones(p, assumed), zone.name, name))
    <= if zone.resources.None? then 0 else Counted(name, Get(zone.resources.value.allocatable, name))
  }

  /** Single-zone mode on a node as it is: the pod goes to one of its zones, with room there for every resource. */
  lemma SingleZoneHasStatedRoom(zones: seq<Zone>, pods: seq<Pod>, assumed: map<string, Assumed>, request: Resource,
                                result: seq<Zone>) returns (i: nat)
    requires WellFormed(request) && !AsksNothing(request)
    requires Accepts(Reconstruct(zones, pods, assumed), true, request, result)
    ensures i < |zones| && result == [ResultZone(zones[i].name, request)]
    ensures forall name :: Tested(request, name) ==> HasStatedRoom(zones[i], pods, assumed, request, name)
  {
    var views := Reconstruct(zones, pods, assumed);
    var z := ChosenZone(views, request, result);
    i :| i < |views| && views[i] == z;
    FitsMeansRoom(request, z);
    forall name | Tested(request, name) ensures HasStatedRoom(zones[i], pods, assumed, request, name) {
      AllocatableIsStated(zones[i], name);
      UsageIsSumOfEach(zones[i].name, pods, assumed, name);
    }
  }

  lemma CpuOnPermutation(a: seq<Zone>, b: seq<Zone>, name: string)
    requires multiset(a) == multiset(b)
    ensures CpuOn(a, name) == CpuOn(b, name)
  {
    SumPermutation(a, b, (z: Zone) => CpuIfNamed(z, name));
  }

  lemma NamesIdentify(zones: seq<ZoneView>, a: ZoneView, b: ZoneView)
    requires Distinct(Names(zones)) && a in zones && b in zones && a.name == b.name
    ensures a == b
  {
    var i :| 0 <= i < |zones| && zones[i] == a;
    var j :| 0 <= j < |zones| && zones[j] == b;
    assert Names(zones)[i] == Names(zones)[j];
  }

  /** z fits the request and no fitting zone has more free CPU. */
  ghost predicate BestFit(zones: seq<ZoneView>, request: Resource, z: ZoneView) {
    && z in zones && Fits(request, z)
    && forall other :: other in zones && Fits(request, other) ==> Free(other) <= Free(z)
  }

  lemma ChosenZone(zones: seq<ZoneView>, request: Resource, result: seq<Zone>) returns (z: ZoneView)
    requires Accepts(zones, true, request, result)
    ensures BestFit(zones, request, z) && result == [ResultZone(z.name, request)]
  {
    FittingZonesFit(request, zones);
    var fitting := FittingZones(request, zones);
    var sorted :| SortOf(sorted, fitting) && OutcomeOf(sorted, true, request, result);
    SortKeeps(sorted, fitting);
    z := sorted[0];
    assert z in fitting;
    forall other | other in zones && Fits(request, other) ensures Free(other) <= Free(z) {
      assert other in fitting && other in sorted;
      var k :| 0 <= k < |sorted| && sorted[k] == other;
    }
  }

  lemma ResultZoneCpu(name: string, request: Resource)
    requires 0 <= request.milliCPU && WellFormed(request)
    ensures ZoneCpu(ResultZone(name, request)) == request.milliCPU
  {
    assert Get(Recorded(request), CPU) == request.milliCPU * MICRO;
    MilliValueOfMilli(request.milliCPU);
  }

  /** Single-zone mode: refused exactly when no zone fits; else the whole request goes to a best fitting zone. */
  lemma SingleZoneIsBestFit(zones: seq<ZoneView>, request: Resource, result: seq<Zone>)
    requires 0 <= request.milliCPU && WellFormed(request)
    ensures Refused(zones, true, request) <==> forall z :: z in zones ==> !Fits(request, z)
    ensures Accepts(zones, true, request, result) ==>
      exists z :: BestFit(zones, request, z) && result == [ResultZone(z.name, request)]
                  && CpuOn(result, z.name) == request.milliCPU
  {
    FittingZonesFit(request, zones);
    var fitting := FittingZones(request, zones);
    assert fitting != [] ==> fitting[0] in fitting;
    if Accepts(zones, true, request, result) {
      var z := ChosenZone(zones, request, result);
      ResultZoneCpu(z.name, request);
      OneZone(ResultZone(z.name, request), z.name);
    }
  }

  /** No accepted result charges a zone more whole cores than it has left. */
  lemma AcceptedFits(zones: seq<ZoneView>, aware: bool, request: Resource, result: seq<Zone>, z: ZoneView)
    requires AllSound(zones) && Distinct(Names(zones)) && z in zones
    requires 0 <= request.milliCPU && request.milliCPU % 1000 == 0 && WellFormed(request)
    requires Accepts(zones, aware, request, result)
    ensures 0 <= CpuOn(result, z.name) <= Free(z)
    ensures CpuOn(result, z.name) % 1000 == 0
  {
    if aware {
      var best := ChosenZone(zones, request, result);
      ResultZoneCpu(best.name, request);
      OneZone(ResultZone(best.name, request), z.name);
      if best.name == z.name {
        NamesIdentify(zones, best, z);
      }
    } else {
      var sorted: seq<ZoneView> :| SortOf(sorted, zones) && OutcomeOf(sorted, false, request, result);
      SortKeeps(sorted, zones);
      SortKeepsSound(sorted, zones);
      var i :| 0 <= i < |sorted| && sorted[i] == z;
      SplitCpu(sorted, request, i);
      CpuOnPermutation(result, Split(sorted, request), z.name);
      CoresAreSorted(sorted);
      TakeIsExact(CoresOf(sorted), request.milliCPU);
      TakeIsWhole(CoresOf(sorted), request.milliCPU);
      CoresFollowFree(z);
    }
  }

  /** An accepted result names only zones of the node. */
  lemma AcceptedNamesZones(zones: seq<ZoneView>, aware: bool, request: Resource, result: seq<Zone>, name: string)
    requires AllSound(zones) && 0 <= request.milliCPU && WellFormed(request)
    requires Accepts(zones, aware, request, result)
    requires forall z :: z in zones ==> z.name != name
    ensures CpuOn(result, name) == 0
  {
    if aware {
      var best := ChosenZone(zones, request, result);
      OneZone(ResultZone(best.name, request), name);
    } else {
      var sorted: seq<ZoneView> :| SortOf(sorted, zones) && OutcomeOf(sorted, false, request, result);
      SortKeeps(sorted, zones);
      forall i | 0 <= i < |sorted| ensures Sound(sorted[i]) && sorted[i].name != name { assert sorted[i] in zones; }
      SplitOtherName(sorted, request, name);
      CpuOnPermutation(result, Split(sorted, request), name);
    }
  }

  // ---------- results on zones that may be over-committed ----------

  ghost predicate WholeCharges(zones: seq<ZoneView>) {
    forall i :: 0 <= i < |zones| ==> zones[i].requested.milliCPU % 1000 == 0
  }

  predicate WholeAmount(x: int) { x >= 0 && x % 1000 == 0 }

  ghost predicate WholeEntries(zones: seq<Zone>) {
    forall i :: 0 <= i < |zones| ==> WholeAmount(ZoneCpu(zones[i]))
  }

  lemma {:induction false} WholeEntriesCharge(zones: seq<Zone>, name: string)
    requires WholeEntries(zones)
    ensures WholeAmount(CpuOn(zones, name))
  {
    if zones != [] {
      assert forall i :: 0 <= i < |zones[1..]| ==> zones[1..][i] == zones[i + 1];
      WholeEntriesCharge(zones[1..], name);
      assert CpuOn(zones, name) == CpuIfNamed(zones[0], name) + CpuOn(zones[1..], name);
    }
  }

  lemma EntryIsWhole(name: string, given: Resource)
    requires given.scalars == map[] && given.milliCPU % 1000 == 0
    ensures WholeEntries(Entry(name, given))
  {
    if given.milliCPU > 0 {
      assert Get(Recorded(given), CPU) == given.milliCPU * MICRO;
      MilliValueOfMilli(given.milliCPU);
    } else {
      assert Get(Recorded(given), CPU) == 0;
    }
  }

  lemma GivenIsWhole(request: Resource, z: ZoneView)
    requires request.milliCPU % 1000 == 0 && z.requested.milliCPU % 1000 == 0
    ensures Assigned(request, Floored(z)).milliCPU % 1000 == 0
    ensures Rest(request, Assigned(request, Floored(z))).milliCPU % 1000 == 0
  {
  }

  /** Even from over-committed zones, a split records whole, non-negative amounts. */
  lemma {:induction false} SplitIsWhole(zones: seq<ZoneView>, request: Resource)
    requires WholeCharges(zones) && request.milliCPU % 1000 == 0
    ensures WholeEntries(Split(zones, request))
  {
    if zones == [] {
    } else if IsZero(request) {
      SplitIsWhole(zones[1..], request);
    } else {
      var given := Assigned(request, Floored(zones[0]));
      GivenIsWhole(request, zones[0]);
      EntryIsWhole(zones[0].name, given);
      SplitIsWhole(zones[1..], Rest(request, given));
    }
  }

  lemma AcceptedIsWhole(zones: seq<ZoneView>, aware: bool, request: Resource, result: seq<Zone>, name: string)
    requires WholeCharges(zones) && Accepts(zones, aware, request, result)
    requires WholeAmount(request.milliCPU) && WellFormed(request)
    ensures WholeAmount(CpuOn(result, name))
  {
    if aware {
      var best := ChosenZone(zones, request, result);
      ResultZoneCpu(best.name, request);
      OneZone(ResultZone(best.name, request), name);
    } else {
      var sorted: seq<ZoneView> :| SortOf(sorted, zones) && OutcomeOf(sorted, false, request, result);
      SortKeeps(sorted, zones);
      SplitIsWhole(sorted, request);
      WholeEntriesCharge(Split(sorted, request), name);
      CpuOnPermutation(result, Split(sorted, request), name);
    }
  }

  lemma {:induction false} SplitIsNuma(zones: seq<ZoneView>, request: Resource)
    ensures forall e :: e in Split(zones, request) ==> e.zoneType == NodeZone
  {
    if zones != [] {
      SplitIsNuma(zones[1..], request);
      SplitIsNuma(zones[1..], Rest(request, Assigned(request, Floored(zones[0]))));
    }
  }

  lemma {:induction false} AllNuma(zones: seq<Zone>)
    requires forall i :: 0 <= i < |zones| ==> zones[i].zoneType == NodeZone
    ensures NumaZones(zones) == zones
  {
    if zones != [] {
      AllNuma(zones[..|zones| - 1]);
    }
  }

  /** Every entry of an accepted result is a NUMA zone, so the annotation reads back whole. */
  lemma AcceptedReadsBack(zones: seq<ZoneView>, aware: bool, request: Resource, result: seq<Zone>)
    requires Accepts(zones, aware, request, result)
    ensures NumaZones(result) == result
  {
    if aware {
      var best := ChosenZone(zones, request, result);
    } else {
      var sorted: seq<ZoneView> :| SortOf(sorted, zones) && OutcomeOf(sorted, false, request, result);
      SplitIsNuma(sorted, request);
      forall i | 0 <= i < |result| ensures result[i].zoneType == NodeZone {
        assert result[i] in multiset(Split(sorted, request));
      }
    }
    AllNuma(result);
  }

  // ---------- the split of a CPU-only request ----------

  /** The zones that got something, with their amounts. */
  function Portions(zones: seq<ZoneView>, amounts: seq<int>): seq<Zone>
    requires |amounts| == |zones|
  {
    if zones == [] then []
    else (if amounts[0] > 0 then [ResultZone(zones[0].name, Resource(amounts[0], 0, 0, map[]))] else [])
         + Portions(zones[1..], amounts[1..])
  }

  lemma EntryOfCpu(name: string, amount: nat)
    ensures Entry(name, Resource(amount, 0, 0, map[]))
      == if amount > 0 then [ResultZone(name, Resource(amount, 0, 0, map[]))] else []
  {
    if amount > 0 { assert CPU in Recorded(Resource(amount, 0, 0, map[])); }
  }

  lemma PortionsStep(zones: seq<ZoneView>, request: int)
    requires zones != [] && Sound(zones[0]) && 0 <= request
    ensures var amount := Min(request, Cores(zones[0]));
      Portions(zones, Take(CoresOf(zones), request))
      == Entry(zones[0].name, Resource(amount, 0, 0, map[]))
         + Portions(zones[1..], Take(CoresOf(zones[1..]), request - amount))
  {
    CoresFollowFree(zones[0]);
    assert CoresOf(zones)[1..] == CoresOf(zones[1..]);
    EntryOfCpu(zones[0].name, Min(request, Cores(zones[0])));
  }

  lemma CpuOnlyStep(zones: seq<ZoneView>, request: Resource)
    requires zones != [] && Sound(zones[0]) && Roomy(zones) && CpuOnly(request)
    ensures var amount := Min(request.milliCPU, Cores(zones[0]));
      && CpuOnly(NextRequest(zones, request))
      && NextRequest(zones, request).milliCPU == request.milliCPU - amount
      && Split(zones, request) == Entry(zones[0].name, Resource(amount, 0, 0, map[])) + SplitTail(zones, request)
  {
    CoresFollowFree(zones[0]);
    var amount := Min(request.milliCPU, Cores(zones[0]));
    if IsZero(request) {
      EntryOfCpu(zones[0].name, 0);
    } else {
      assert Assigned(request, Floored(zones[0])) == Resource(amount, 0, 0, map[]);
    }
  }

  lemma {:induction false} NothingToSplit(zones: seq<ZoneView>, request: Resource)
    requires IsZero(request)
    ensures Split(zones, request) == []
  {
    if zones != [] { NothingToSplit(zones[1..], request); }
  }

  /** A CPU-only walk that stops early leaves nothing to split. */
  lemma TailIsRest(zones: seq<ZoneView>, request: Resource)
    requires zones != [] && Sound(zones[0]) && Roomy(zones) && CpuOnly(request)
    ensures SplitTail(zones, request) == Split(zones[1..], NextRequest(zones, request))
  {
    var next := NextRequest(zones, request);
    CpuOnlyStep(zones, request);
    if IsZero(next) {
      NothingToSplit(zones[1..], next);
    }
  }

  /** Both sides give the first zone the same entry and go on with the same request. */
  lemma GreedyStep(zones: seq<ZoneView>, request: Resource) returns (entry: seq<Zone>, next: Resource)
    requires zones != [] && Sound(zones[0]) && Roomy(zones) && CpuOnly(request)
    ensures CpuOnly(next)
    ensures Split(zones, request) == entry + Split(zones[1..], next)
    ensures Portions(zones, Take(CoresOf(zones), request.milliCPU))
      == entry + Portions(zones[1..], Take(CoresOf(zones[1..]), next.milliCPU))
  {
    next := NextRequest(zones, request);
    entry := Entry(zones[0].name, Resource(Min(request.milliCPU, Cores(zones[0])), 0, 0, map[]));
    PortionsStep(zones, request.milliCPU);
    CpuOnlyStep(zones, request);
    TailIsRest(zones, request);
  }

  /** A CPU-only split is the greedy split of the whole free cores. */
  lemma {:induction false} SplitIsGreedy(zones: seq<ZoneView>, request: Resource)
    requires AllSound(zones) && Roomy(zones) && CpuOnly(request)
    ensures Split(zones, request) == Portions(zones, Take(CoresOf(zones), request.milliCPU))
  {
    if zones != [] {
      var entry, next := GreedyStep(zones, request);
      SplitIsGreedy(zones[1..], next);
    }
  }

  lemma PortionCpu(name: string, amount: nat)
    ensures ZoneCpu(ResultZone(name, Resource(amount, 0, 0, map[]))) == amount
  {
    assert Get(Recorded(Resource(amount, 0, 0, map[])), CPU) == amount * MICRO;
    MilliValueOfMilli(amount);
  }

  /** The CPU of all entries of a result. */
  ghost function TotalCpu(result: seq<Zone>): int {
    SumOf(result, (z: Zone) => ZoneCpu(z))
  }

  /** amount is what some zone got. */
  ghost predicate PortionOf(entry: Zone, zones: seq<ZoneView>, amounts: seq<int>, i: nat)
    requires |amounts| == |zones|
  {
    i < |zones| && amounts[i] > 0 && entry.name == zones[i].name && ZoneCpu(entry) == amounts[i]
  }

  lemma {:induction false} PortionsAreExact(zones: seq<ZoneView>, amounts: seq<int>)
    requires |amounts| == |zones| && NonNegative(amounts)
    ensures |Portions(zones, amounts)| == CountPositive(amounts)
    ensures TotalCpu(Portions(zones, amounts)) == Total(amounts)
  {
    if zones != [] {
      var rest := Portions(zones[1..], amounts[1..]);
      PortionsAreExact(zones[1..], amounts[1..]);
      if amounts[0] > 0 {
        var head := ResultZone(zones[0].name, Resource(amounts[0], 0, 0, map[]));
        PortionCpu(zones[0].name, amounts[0]);
        assert Portions(zones, amounts) == [head] + rest;
        assert ([head] + rest)[1..] == rest;
      } else {
        assert Portions(zones, amounts) == rest;
      }
    }
  }

  lemma LaterPortion(e: Zone, zones: seq<ZoneView>, amounts: seq<int>, k: nat)
    requires |amounts| == |zones| > 0 && PortionOf(e, zones[1..], amounts[1..], k) && Distinct(Names(zones))
    ensures PortionOf(e, zones, amounts, k + 1) && e.name != zones[0].name
  {
    TailNames(zones, k + 1);
  }

  lemma {:induction false} PortionsAreNamed(zones: seq<ZoneView>, amounts: seq<int>)
    requires |amounts| == |zones| && NonNegative(amounts) && Distinct(Names(zones))
    ensures forall e :: e in Portions(zones, amounts) ==> exists i: nat :: PortionOf(e, zones, amounts, i)
    ensures Distinct(MapSeq(Portions(zones, amounts), (z: Zone) => z.name))
  {
    if zones != [] {
      var rest := Portions(zones[1..], amounts[1..]);
      TailNames(zones, 0);
      PortionsAreNamed(zones[1..], amounts[1..]);
      forall e | e in rest ensures e.name != zones[0].name && exists i: nat :: PortionOf(e, zones, amounts, i) {
        var k: nat :| PortionOf(e, zones[1..], amounts[1..], k);
        LaterPortion(e, zones, amounts, k);
      }
      if amounts[0] > 0 {
        var head := ResultZone(zones[0].name, Resource(amounts[0], 0, 0, map[]));
        PortionCpu(zones[0].name, amounts[0]);
        assert PortionOf(head, zones, amounts, 0);
        assert Portions(zones, amounts) == [head] + rest;
        assert forall k :: 0 <= k < |rest| ==> rest[k] in rest;
      } else {
        assert Portions(zones, amounts) == rest;
      }
    }
  }
}
