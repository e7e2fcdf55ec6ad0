/** The filter that admits a pod against a node's measured usage plus its predicted-load account. */
module Admission {
  import opened Options
  import opened Decimals
  import opened DecimalMeaning
  import opened Ledger
  import opened Annotations
  import opened PodController

  const RANGE_PREFIX := "range"

  datatype PredicatePolicy = PredicatePolicy(name: string, maxLimit: real)

  /** usage / capacity > limit, where a division by zero gives infinity with the sign of usage, or no number. */
  predicate Exceeds(usage: real, capacity: int, limit: real) {
    if capacity == 0 then usage > 0.0 else usage / capacity as real > limit
  }

  /** What slot i would use; a row of another length than the measured one is left out. */
  function UsageAt(measured: seq<int>, deploy: seq<int>, delta: seq<int>, capacity: int, i: nat): real
    requires i < |measured|
  {
    Amount(measured[i]) * capacity as real
    + (if |delta| == |measured| then Amount(delta[i]) else 0.0)
    + (if |deploy| == |measured| then Amount(deploy[i]) else 0.0)
  }

  predicate SomeSlotExceeds(measured: seq<int>, deploy: seq<int>, delta: seq<int>, capacity: int, limit: real) {
    exists i :: 0 <= i < |measured| && Exceeds(UsageAt(measured, deploy, delta, capacity, i), capacity, limit)
  }

  /** Any row that does not parse, and a limit of zero, let the pod pass. */
  predicate OverLoad(nodeStr: string, deployStr: string, deltaStr: string, limit: real, capacity: int) {
    var measured, deploy, delta := ParseRange(nodeStr), ParseRange(deployStr), ParseRange(deltaStr);
    && limit != 0.0 && measured.Some? && deploy.Some? && (deltaStr == "" || delta.Some?)
    && SomeSlotExceeds(measured.value, deploy.value, if deltaStr == "" then Zeros(|measured.value|) else delta.value,
                       capacity, limit)
  }

  method PredictingOverLoad(nodeUsageStr: string, deployUsageStr: string, deltaUsageStr: string, limit: real,
                            nodeCapacity: int) returns (over: bool)
    ensures over == OverLoad(nodeUsageStr, deployUsageStr, deltaUsageStr, limit, nodeCapacity)
    ensures limit == 0.0 ==> !over
    ensures ParseRange(nodeUsageStr).None? || ParseRange(deployUsageStr).None? ==> !over
    ensures deltaUsageStr != "" && ParseRange(deltaUsageStr).None? ==> !over
  {
    if limit == 0.0 {
      return false;
    }
    var nodeUsage := ParseRangeMetricsByString(nodeUsageStr);
    if nodeUsage.None? {
      return false;
    }
    var deployUsage := ParseRangeMetricsByString(deployUsageStr);
    if deployUsage.None? {
      return false;
    }
    var deltaUsage := Zeros(|nodeUsage.value|);
    if deltaUsageStr != "" {
      var parsed := ParseRangeMetricsByString(deltaUsageStr);
      if parsed.None? {
        return false;
      }
      deltaUsage := parsed.value;
    }
    over := AnySlotOver(nodeUsage.value, deployUsage.value, deltaUsage, limit, nodeCapacity);
  }

  /** The loop over the slots. */
  method AnySlotOver(nodeUsage: seq<int>, deployUsage: seq<int>, deltaUsage: seq<int>, limit: real, nodeCapacity: int)
    returns (over: bool)
    ensures over == SomeSlotExceeds(nodeUsage, deployUsage, deltaUsage, nodeCapacity, limit)
  {
    var deployInvalid, deltaInvalid := |nodeUsage| != |deployUsage|, |nodeUsage| != |deltaUsage|;
    for i := 0 to |nodeUsage|
      invariant forall k :: 0 <= k < i ==>
        !Exceeds(UsageAt(nodeUsage, deployUsage, deltaUsage, nodeCapacity, k), nodeCapacity, limit)
    {
      var usage := Amount(nodeUsage[i]) * nodeCapacity as real;
      if !deltaInvalid {
        usage := usage + Amount(deltaUsage[i]);
      }
      if !deployInvalid {
        usage := usage + Amount(deployUsage[i]);
      }
      assert usage == UsageAt(nodeUsage, deployUsage, deltaUsage, nodeCapacity, i);
      if Exceeds(usage, nodeCapacity, limit) {
        return true;
      }
    }
    return false;
  }

  // ---------- the filter ----------

  /** What one call of the filter looks at. */
  datatype Request = Request(
    syncPeriod: seq<SyncPolicy>, syncAppPeriod: seq<SyncPolicy>, node: map<string, string>,
    deploy: map<string, string>, cpu: int, memory: int, clock: Clock, now: int)

  function CapacityOf(resource: string, cpu: int, memory: int): int {
    if resource == "cpu" then cpu else if resource == "memory" then memory else 0
  }

  /** The policy decides against the pod: every annotation it needs is readable and fresh, and a slot exceeds. */
  predicate Blocks(p: PredicatePolicy, q: Request) {
    var parts := Split(p.name, ':');
    && RANGE_PREFIX <= p.name && |parts| == 4
    && BlocksWith(CapacityOf(parts[1], q.cpu, q.memory), parts[2], parts[3], p.maxLimit, q)
  }

  /** The decision for one profile and one metric against a capacity. */
  predicate BlocksWith(capacity: int, app: string, metric: string, limit: real, q: Request) {
    var nodeDuration, appDuration := GetActiveDuration(q.syncPeriod, metric), GetActiveDuration(q.syncAppPeriod, app);
    && nodeDuration.Ok? && nodeDuration.value != 0 && appDuration.Ok? && appDuration.value != 0
    && var measured := GetResourceUsageRange(q.node, metric, nodeDuration.value, q.clock, q.now);
    && var profile := GetResourceUsageRange(q.deploy, app, appDuration.value, q.clock, q.now);
    && var delta := GetDeltaUsageRange(q.node, DeltaName(app));
    && measured.Ok? && profile.Ok? && delta.Ok?
    && OverLoad(measured.value, profile.value, delta.value, limit, capacity)
  }

  predicate AllPass(predicates: seq<PredicatePolicy>, q: Request) {
    forall i :: 0 <= i < |predicates| ==> !Blocks(predicates[i], q)
  }

  lemma AllPassNext(predicates: seq<PredicatePolicy>, p: PredicatePolicy, q: Request)
    ensures AllPass(predicates + [p], q) <==> AllPass(predicates, q) && !Blocks(p, q)
  {
    var longer := predicates + [p];
    assert longer[|predicates|] == p;
    assert forall i :: 0 <= i < |predicates| ==> longer[i] == predicates[i];
  }

  /** The pod passes exactly when no policy blocks it. */
  method Filter(predicates: seq<PredicatePolicy>, q: Request) returns (passes: bool)
    ensures passes == AllPass(predicates, q)
  {
    for i := 0 to |predicates|
      invariant AllPass(predicates[..i], q)
    {
      var blocks := PolicyBlocks(predicates[i], q);
      AllPassNext(predicates[..i], predicates[i], q);
      assert predicates[..i + 1] == predicates[..i] + [predicates[i]];
      if blocks {
        return false;
      }
    }
    assert predicates[..|predicates|] == predicates;
    return true;
  }

  /** One turn of the filter's loop. */
  method PolicyBlocks(p: PredicatePolicy, q: Request) returns (blocks: bool)
    ensures blocks == Blocks(p, q)
    ensures var parts := Split(p.name, ':');
      if !("range" <= p.name) || |parts| != 4 then !blocks
      else if parts[1] == "cpu" then blocks == BlocksWith(q.cpu, parts[2], parts[3], p.maxLimit, q)
      else if parts[1] == "memory" then blocks == BlocksWith(q.memory, parts[2], parts[3], p.maxLimit, q)
      else blocks == BlocksWith(0, parts[2], parts[3], p.maxLimit, q)
  {
    var nameSlice := Split(p.name, ':');
    if !(RANGE_PREFIX <= p.name) || |nameSlice| != 4 {
      return false;
    }
    var activeDuration := GetActiveDuration(q.syncPeriod, nameSlice[3]);
    if activeDuration.Err? || activeDuration.value == 0 {
      return false;
    }
    var nodeUsages := GetResourceUsageRange(q.node, nameSlice[3], activeDuration.value, q.clock, q.now);
    if nodeUsages.Err? {
      return false;
    }
    activeDuration := GetActiveDuration(q.syncAppPeriod, nameSlice[2]);
    if activeDuration.Err? || activeDuration.value == 0 {
      return false;
    }
    var deployUsages := GetResourceUsageRange(q.deploy, nameSlice[2], activeDuration.value, q.clock, q.now);
    if deployUsages.Err? {
      return false;
    }
    var deltaUsages := GetDeltaUsageRange(q.node, DELTA_PREFIX_NAME + nameSlice[2]);
    if deltaUsages.Err? {
      return false;
    }
    var nodeCapacity := if nameSlice[1] == "cpu" then q.cpu else if nameSlice[1] == "memory" then q.memory else 0;
    blocks := PredictingOverLoad(nodeUsages.value, deployUsages.value, deltaUsages.value, p.maxLimit, nodeCapacity);
  }
}
