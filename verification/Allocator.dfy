/** What Filter may answer for a node: the fit test, the two assignment modes and the recorded result. */
module Allocator {
  import opened Options
  import opened Greedy
  import opened Topology

  /** Go's milli / 1000 * 1000, which truncates toward zero. */
  function FloorToCores(milli: int): int {
    if milli >= 0 then milli / 1000 * 1000 else -((-milli) / 1000 * 1000)
  }

  function Free(z: ZoneView): int {
    z.allocatable.milliCPU - z.requested.milliCPU
  }

  /** The free CPU of a zone once its allocatable CPU is cut to whole cores. */
  function Cores(z: ZoneView): int {
    FloorToCores(z.allocatable.milliCPU) - z.requested.milliCPU
  }

  function Floored(z: ZoneView): ZoneView {
    z.(allocatable := z.allocatable.(milliCPU := FloorToCores(z.allocatable.milliCPU)))
  }

  // ---------- fit test ----------

  /** The zone has room for everything the request asks for. */
  predicate Fits(request: Resource, z: ZoneView) {
    || IsZero(request)
    || (&& request.milliCPU <= Free(z)
        && request.memory <= z.allocatable.memory - z.requested.memory
        && request.ephemeralStorage <= z.allocatable.ephemeralStorage - z.requested.ephemeralStorage
        && forall k :: k in request.scalars ==>
             request.scalars[k] <= Scalar(z.allocatable.scalars, k) - Scalar(z.requested.scalars, k))
  }

  function FittingZones(request: Resource, zones: seq<ZoneView>): seq<ZoneView> {
    if zones == [] then []
    else FittingZones(request, zones[..|zones| - 1])
         + if Fits(request, zones[|zones| - 1]) then [zones[|zones| - 1]] else []
  }

  // ---------- assignment ----------

  /** What a zone gives to a request. */
  function Assigned(request: Resource, z: ZoneView): Resource {
    Resource(
      Min(request.milliCPU, Free(z)),
      Min(request.memory, z.allocatable.memory - z.requested.memory),
      Min(request.ephemeralStorage, z.allocatable.ephemeralStorage - z.requested.ephemeralStorage),
      map[])
  }

  function Rest(request: Resource, given: Resource): Resource {
    request.(milliCPU := request.milliCPU - given.milliCPU,
             memory := request.memory - given.memory,
             ephemeralStorage := request.ephemeralStorage - given.ephemeralStorage)
  }

  predicate Served(rest: Resource) {
    rest.milliCPU <= 0 && rest.memory <= 0 && rest.ephemeralStorage <= 0
  }

  function ResultZone(name: string, r: Resource): Zone {
    Zone(name, NodeZone, Some(ResourceInfo(Recorded(r), map[])))
  }

  function Entry(name: string, given: Resource): seq<Zone> {
    if Recorded(given) == map[] then [] else [ResultZone(name, given)]
  }

  /** The result entries of walking over zones, in that order. */
  function Split(zones: seq<ZoneView>, request: Resource): seq<Zone> {
    if zones == [] then []
    else if IsZero(request) then Split(zones[1..], request)
    else
      var given := Assigned(request, Floored(zones[0]));
      Entry(zones[0].name, given)
      + if Served(Rest(request, given)) then [] else Split(zones[1..], Rest(request, given))
  }

  /** What the walk leaves of the request. */
  function Remainder(zones: seq<ZoneView>, request: Resource): Resource {
    if zones == [] then request
    else if IsZero(request) then Remainder(zones[1..], request)
    else
      var rest := Rest(request, Assigned(request, Floored(zones[0])));
      if Served(rest) then rest else Remainder(zones[1..], rest)
  }

  /** How many zones the walk reaches, and so floors. */
  function Visited(zones: seq<ZoneView>, request: Resource): (n: nat)
    ensures n <= |zones|
  {
    if zones == [] then 0
    else if IsZero(request) then 1 + Visited(zones[1..], request)
    else
      var rest := Rest(request, Assigned(request, Floored(zones[0])));
      if Served(rest) then 1 else 1 + Visited(zones[1..], rest)
  }

  // ---------- orders ----------

  predicate NameLeq(a: string, b: string) {
    if a == [] then true
    else if b == [] then false
    else a[0] < b[0] || (a[0] == b[0] && NameLeq(a[1..], b[1..]))
  }

  ghost predicate SortedByFree(zones: seq<ZoneView>) {
    forall i, j :: 0 <= i < j < |zones| ==> Free(zones[i]) >= Free(zones[j])
  }

  ghost predicate SortedByName(result: seq<Zone>) {
    forall i, j :: 0 <= i < j < |result| ==> NameLeq(result[i].name, result[j].name)
  }

  // ---------- what Filter records ----------

  /** The result the assignment records when the sort leaves the zones in this order. */
  ghost predicate OutcomeOf(sorted: seq<ZoneView>, aware: bool, request: Resource, result: seq<Zone>) {
    if aware then
      sorted != [] && result == [ResultZone(sorted[0].name, request)]
    else
      multiset(result) == multiset(Split(sorted, request)) && SortedByName(result)
  }

  /** sorted is an order the unstable sort may leave zones in. */
  ghost predicate SortOf(sorted: seq<ZoneView>, zones: seq<ZoneView>) {
    multiset(sorted) == multiset(zones) && SortedByFree(sorted)
  }

  ghost predicate Outcome(zones: seq<ZoneView>, aware: bool, request: Resource, result: seq<Zone>) {
    exists sorted :: SortOf(sorted, zones) && OutcomeOf(sorted, aware, request, result)
  }

  /** Filter refuses a node only in single-zone mode, and only when no zone fits. */
  predicate Refused(zones: seq<ZoneView>, aware: bool, request: Resource) {
    aware && FittingZones(request, zones) == []
  }

  /** Filter accepts the node and records result for it. */
  ghost predicate Accepts(zones: seq<ZoneView>, aware: bool, request: Resource, result: seq<Zone>) {
    && !Refused(zones, aware, request)
    && Outcome(if aware then FittingZones(request, zones) else zones, aware, request, result)
  }
}
