/** Values of the topology plugin: quantities, resources, zones, pods and the usage pods charge to zones. */
module Topology {
  import opened Options
  import opened Sums

  /** A Kubernetes quantity, counted in billionths so that rounding is visible. */
  type Quantity = int

  const NANO := 1_000_000_000
  const MICRO := 1_000_000
  const CPU := "cpu"
  const MEMORY := "memory"
  const EPHEMERAL_STORAGE := "ephemeral-storage"

  type ResourceList = map<string, Quantity>

  function RoundAwayFromZero(n: int, unit: nat): int
    requires unit > 0
  {
    if n >= 0 then (n + unit - 1) / unit else -((-n + unit - 1) / unit)
  }

  function Value(q: Quantity): int { RoundAwayFromZero(q, NANO) }

  function MilliValue(q: Quantity): int { RoundAwayFromZero(q, MICRO) }

  /** Both round up to the next unit, and a negative quantity mirrors the positive one. */
  lemma RoundingIsAwayFromZero(q: Quantity)
    ensures q >= 0 ==> (MilliValue(q) - 1) * 1_000_000 < q <= MilliValue(q) * 1_000_000
    ensures q >= 0 ==> (Value(q) - 1) * 1_000_000_000 < q <= Value(q) * 1_000_000_000
    ensures MilliValue(-q) == -MilliValue(q) && Value(-q) == -Value(q)
  {
  }

  function Get(list: ResourceList, name: string): Quantity {
    if name in list then list[name] else 0
  }

  // ---------- framework.Resource ----------

  datatype Resource = Resource(milliCPU: int, memory: int, ephemeralStorage: int, scalars: map<string, int>)

  const ZERO := Resource(0, 0, 0, map[])

  function Scalar(scalars: map<string, int>, name: string): int {
    if name in scalars then scalars[name] else 0
  }

  predicate Native(name: string) {
    name == CPU || name == MEMORY || name == EPHEMERAL_STORAGE
  }

  /** No scalar resource carries the name of a native one. */
  ghost predicate WellFormed(r: Resource) {
    forall k :: k in r.scalars ==> !Native(k)
  }

  /** r with a resource list added to it. */
  function AddList(r: Resource, list: ResourceList): Resource {
    Resource(
      r.milliCPU + MilliValue(Get(list, CPU)),
      r.memory + Value(Get(list, MEMORY)),
      r.ephemeralStorage + Value(Get(list, EPHEMERAL_STORAGE)),
      map k | k in r.scalars.Keys + list.Keys && (k in r.scalars || !Native(k)) ::
        Scalar(r.scalars, k) + if Native(k) then 0 else Value(Get(list, k)))
  }

  /** The amount of one resource by its name. */
  function AmountOf(r: Resource, name: string): int {
    if name == CPU then r.milliCPU
    else if name == MEMORY then r.memory
    else if name == EPHEMERAL_STORAGE then r.ephemeralStorage
    else Scalar(r.scalars, name)
  }

  /** CPU counts in thousandths, everything else in whole units. */
  function Counted(name: string, q: Quantity): int {
    if name == CPU then MilliValue(q) else Value(q)
  }

  /** Adding a list adds, resource by resource, what the list says. */
  lemma AddListAdds(r: Resource, list: ResourceList, name: string)
    ensures AmountOf(AddList(r, list), name) == AmountOf(r, name) + Counted(name, Get(list, name))
  {
  }

  predicate IsZero(r: Resource) {
    r.milliCPU == 0 && r.memory == 0 && r.ephemeralStorage == 0 && r.scalars == map[]
  }

  /** The positive amounts of r as a resource list. The memory entry holds the CPU amount, as in the source. */
  function Recorded(r: Resource): ResourceList {
    (if r.milliCPU > 0 then map[CPU := r.milliCPU * MICRO] else map[])
    + (if r.memory > 0 then map[MEMORY := r.milliCPU * NANO] else map[])
    + (if r.ephemeralStorage > 0 then map[EPHEMERAL_STORAGE := r.ephemeralStorage * NANO] else map[])
    + map k | k in r.scalars && r.scalars[k] > 0 :: r.scalars[k] * NANO
  }

  // ---------- zones and pods ----------

  datatype ZoneType = NodeZone | OtherZone(kind: string)

  datatype ResourceInfo = ResourceInfo(capacity: ResourceList, allocatable: ResourceList)

  datatype Zone = Zone(name: string, zoneType: ZoneType, resources: Option<ResourceInfo>)

  datatype Container = Container(requests: ResourceList, limits: ResourceList)

  /** The CPU policy annotation of a pod; Unset covers an absent or unsupported value. */
  datatype CPUPolicy = Unset | NonePolicy | Exclusive | Numa | Immovable

  /** result is the topology result annotation, [] when it is absent or cannot be decoded. */
  datatype Pod = Pod(uid: string, daemonSet: bool, cpuPolicy: CPUPolicy, awareness: Option<bool>,
                     containers: seq<Container>, result: seq<Zone>)

  /** An entry of the assumed cache. */
  datatype Assumed = Assumed(zones: seq<Zone>, deadline: int)

  function NumaZones(zones: seq<Zone>): seq<Zone> {
    if zones == [] then []
    else NumaZones(zones[..|zones| - 1])
         + if zones[|zones| - 1].zoneType == NodeZone then [zones[|zones| - 1]] else []
  }

  /** The zones a pod is charged to: its annotation first, then the assumed cache. */
  function VisibleZones(pod: Pod, assumed: map<string, Assumed>): seq<Zone> {
    var annotated := NumaZones(pod.result);
    if annotated != [] then annotated
    else if pod.uid != "" && pod.uid in assumed then assumed[pod.uid].zones
    else []
  }

  function ZoneCpu(zone: Zone): int {
    if zone.resources.None? then 0 else MilliValue(Get(zone.resources.value.capacity, CPU))
  }

  function CpuIfNamed(zone: Zone, name: string): int {
    if zone.name == name then ZoneCpu(zone) else 0
  }

  /** The CPU that zones records for the zone called name. */
  ghost function CpuOn(zones: seq<Zone>, name: string): int {
    SumOf(zones, (z: Zone) => CpuIfNamed(z, name))
  }

  /** The CPU that all pods together record for the zone called name. */
  ghost function Charged(pods: seq<Pod>, assumed: map<string, Assumed>, name: string): int {
    SumOf(pods, (p: Pod) => CpuOn(VisibleZones(p, assumed), name))
  }

  // ---------- usage reconstruction ----------

  /** The value of a numaNode object. */
  datatype ZoneView = ZoneView(name: string, allocatable: Resource, requested: Resource)

  function AddInfo(r: Resource, info: Option<ResourceInfo>): Resource {
    if info.None? then r else AddList(r, info.value.capacity)
  }

  function AddZones(r: Resource, name: string, zones: seq<Zone>): Resource {
    if zones == [] then r
    else
      var last := zones[|zones| - 1];
      var before := AddZones(r, name, zones[..|zones| - 1]);
      if last.name == name then AddInfo(before, last.resources) else before
  }

  function UsageOf(name: string, pods: seq<Pod>, assumed: map<string, Assumed>): Resource {
    if pods == [] then ZERO
    else AddZones(UsageOf(name, pods[..|pods| - 1], assumed), name, VisibleZones(pods[|pods| - 1], assumed))
  }

  function AllocatableOf(zone: Zone): Resource {
    AddList(ZERO, if zone.resources.None? then map[] else zone.resources.value.allocatable)
  }

  /** What a node wrapper sees of the zones of a node once every pod has been added. */
  function Reconstruct(zones: seq<Zone>, pods: seq<Pod>, assumed: map<string, Assumed>): (views: seq<ZoneView>)
    ensures |views| == |zones|
  {
    seq(|zones|, i requires 0 <= i < |zones| =>
      ZoneView(zones[i].name, AllocatableOf(zones[i]), UsageOf(zones[i].name, pods, assumed)))
  }

  // ---------- every resource ----------

  /** What a zone has to give: the allocatable amounts, whatever its capacity. */
  lemma AllocatableIsStated(zone: Zone, name: string)
    ensures AmountOf(AllocatableOf(zone), name)
      == if zone.resources.None? then 0 else Counted(name, Get(zone.resources.value.allocatable, name))
  {
    AddListAdds(ZERO, if zone.resources.None? then map[] else zone.resources.value.allocatable, name);
  }

  /** What an entry records of a resource for the zone called zoneName. */
  function RecordedFor(zone: Zone, zoneName: string, name: string): int {
    if zone.name != zoneName || zone.resources.None? then 0
    else Counted(name, Get(zone.resources.value.capacity, name))
  }

  ghost function RecordedOn(zones: seq<Zone>, zoneName: string, name: string): int {
    SumOf(zones, (z: Zone) => RecordedFor(z, zoneName, name))
  }

  lemma {:induction false} AddZonesAdds(r: Resource, zoneName: string, zones: seq<Zone>, name: string)
    ensures AmountOf(AddZones(r, zoneName, zones), name) == AmountOf(r, name) + RecordedOn(zones, zoneName, name)
  {
    if zones != [] {
      var init, last := zones[..|zones| - 1], zones[|zones| - 1];
      var f := (z: Zone) => RecordedFor(z, zoneName, name);
      AddZonesAdds(r, zoneName, init, name);
      SumAppend(init, [last], f);
      SumOne(last, f);
      assert zones == init + [last];
      if last.name == zoneName && last.resources.Some? {
        AddListAdds(AddZones(r, zoneName, init), last.resources.value.capacity, name);
      }
    }
  }

  /** For CPU, memory, storage and every scalar, the usage of a zone is what all pods together record for it. */
  lemma {:induction false} UsageIsSumOfEach(zoneName: string, pods: seq<Pod>, assumed: map<string, Assumed>,
                                           name: string)
    ensures AmountOf(UsageOf(zoneName, pods, assumed), name)
      == SumOf(pods, (p: Pod) => RecordedOn(VisibleZones(p, assumed), zoneName, name))
  {
    if pods != [] {
      var init, last := pods[..|pods| - 1], pods[|pods| - 1];
      var f := (p: Pod) => RecordedOn(VisibleZones(p, assumed), zoneName, name);
      UsageIsSumOfEach(zoneName, init, assumed, name);
      AddZonesAdds(UsageOf(zoneName, init, assumed), zoneName, VisibleZones(last, assumed), name);
      SumAppend(init, [last], f);
      SumOne(last, f);
      assert pods == init + [last];
    }
  }

  lemma NumaZonesOfOne(zone: Zone)
    ensures NumaZones([zone]) == if zone.zoneType.NodeZone? then [zone] else []
  {
    assert [zone][..0] == [] && NumaZones([]) == [];
  }

  lemma NumaZonesNext(zones: seq<Zone>, last: Zone)
    ensures NumaZones(zones + [last]) == NumaZones(zones) + NumaZones([last])
  {
    assert (zones + [last])[..|zones|] == zones;
    NumaZonesOfOne(last);
  }

  /** Together with NumaZonesOfOne: the kept entries are those of node type, in order. */
  lemma {:induction false} NumaZonesOfBoth(a: seq<Zone>, b: seq<Zone>)
    ensures NumaZones(a + b) == NumaZones(a) + NumaZones(b)
  {
    if b == [] {
      assert a + b == a && NumaZones(b) == [];
    } else {
      var init, last := b[..|b| - 1], b[|b| - 1];
      NumaZonesOfBoth(a, init);
      NumaZonesNext(a + init, last);
      NumaZonesNext(init, last);
      assert a + b == (a + init) + [last] && b == init + [last];
    }
  }

  // ---------- CPU ----------

  lemma {:induction false} AddZonesCpu(r: Resource, name: string, zones: seq<Zone>)
    ensures AddZones(r, name, zones).milliCPU == r.milliCPU + CpuOn(zones, name)
  {
    if zones != [] {
      var init, last := zones[..|zones| - 1], zones[|zones| - 1];
      AddZonesCpu(r, name, init);
      SumAppend(init, [last], (z: Zone) => CpuIfNamed(z, name));
      assert zones == init + [last];
      assert CpuOn([last], name) == CpuIfNamed(last, name);
    }
  }

  /** The CPU of a reconstructed zone is the sum over the pods of what each one records for it. */
  lemma {:induction false} UsageIsSum(name: string, pods: seq<Pod>, assumed: map<string, Assumed>)
    ensures UsageOf(name, pods, assumed).milliCPU == Charged(pods, assumed, name)
  {
    if pods != [] {
      var init, last := pods[..|pods| - 1], pods[|pods| - 1];
      UsageIsSum(name, init, assumed);
      AddZonesCpu(UsageOf(name, init, assumed), name, VisibleZones(last, assumed));
      SumAppend(init, [last], (p: Pod) => CpuOn(VisibleZones(p, assumed), name));
      assert pods == init + [last];
      assert Charged([last], assumed, name) == CpuOn(VisibleZones(last, assumed), name);
    }
  }

  /** The order in which the pods are added does not matter to the CPU of a zone. */
  lemma UsageIgnoresOrder(zones: seq<Zone>, pods: seq<Pod>, shuffled: seq<Pod>, assumed: map<string, Assumed>)
    requires multiset(pods) == multiset(shuffled)
    ensures forall i :: 0 <= i < |zones| ==>
      Reconstruct(zones, pods, assumed)[i].requested.milliCPU
      == Reconstruct(zones, shuffled, assumed)[i].requested.milliCPU
  {
    forall i | 0 <= i < |zones|
      ensures UsageOf(zones[i].name, pods, assumed).milliCPU == UsageOf(zones[i].name, shuffled, assumed).milliCPU
    {
      UsageIsSum(zones[i].name, pods, assumed);
      UsageIsSum(zones[i].name, shuffled, assumed);
      SumPermutation(pods, shuffled, (p: Pod) => CpuOn(VisibleZones(p, assumed), zones[i].name));
    }
  }

  /** A recorded amount reads back with its CPU unchanged; its memory survives only if it is the CPU number. */
  lemma RecordedReadsBack(r: Resource)
    requires WellFormed(r) && 0 <= r.milliCPU && 0 <= r.memory
    ensures AddList(ZERO, Recorded(r)).milliCPU == r.milliCPU
    ensures AddList(ZERO, Recorded(r)).memory == r.memory <==> r.memory == 0 || r.memory == r.milliCPU
    ensures 0 <= r.ephemeralStorage ==> AddList(ZERO, Recorded(r)).ephemeralStorage == r.ephemeralStorage
    ensures forall k :: k in r.scalars && 0 <= r.scalars[k] ==>
      Scalar(AddList(ZERO, Recorded(r)).scalars, k) == r.scalars[k]
  {
    var list := Recorded(r);
    assert Get(list, CPU) == r.milliCPU * MICRO;
    assert Get(list, MEMORY) == if r.memory > 0 then r.milliCPU * NANO else 0;
    MilliValueOfMilli(r.milliCPU);
    ValueOfWhole(r.milliCPU);
    if 0 <= r.ephemeralStorage {
      assert Get(list, EPHEMERAL_STORAGE) == r.ephemeralStorage * NANO;
      ValueOfWhole(r.ephemeralStorage);
    }
    forall k | k in r.scalars && 0 <= r.scalars[k] ensures Scalar(AddList(ZERO, list).scalars, k) == r.scalars[k] {
      assert Get(list, k) == r.scalars[k] * NANO;
      ValueOfWhole(r.scalars[k]);
    }
  }

  lemma MilliValueOfMilli(n: nat)
    ensures MilliValue(n * MICRO) == n
  {
    assert (n * MICRO + MICRO - 1) / MICRO == n;
  }

  lemma ValueOfWhole(n: nat)
    ensures Value(n * NANO) == n
  {
    assert (n * NANO + NANO - 1) / NANO == n;
  }
}
