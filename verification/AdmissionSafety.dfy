/** What admission is worth: over whole runs, measured usage plus the account stays within the limit. */
module AdmissionSafety {
  import opened Options
  import opened Decimals
  import opened DecimalMeaning
  import opened Ledger
  import opened LedgerMeaning
  import opened Annotations
  import opened PodController
  import opened Admission

  /** The row an account of n slots stands for; the absent account stands for zero. */
  ghost function Row(s: string, n: nat): seq<int> {
    if s == "" then Zeros(n) else if ParseRange(s).Some? then ParseRange(s).value else []
  }

  ghost predicate Shaped(s: string, n: nat) { n > 0 && |Row(s, n)| == n }

  lemma ShapedHolds(s: string, n: nat)
    requires Shaped(s, n)
    ensures Holds(s, Row(s, n))
  {
  }

  ghost predicate SlotHasRoom(measured: int, promised: int, limit: real, capacity: int) {
    Amount(measured) * capacity as real + Amount(promised) <= limit * capacity as real
  }

  /** In every slot, measured usage plus the account stays within the limit. */
  ghost predicate Room(measured: seq<int>, row: seq<int>, limit: real, capacity: int) {
    |measured| == |row| && forall i :: 0 <= i < |row| ==> SlotHasRoom(measured[i], row[i], limit, capacity)
  }

  lemma ExceedsIsOverLimit(usage: real, capacity: int, limit: real)
    requires capacity > 0
    ensures Exceeds(usage, capacity, limit) <==> usage > limit * capacity as real
  {
    var c := capacity as real;
    assert usage == (usage / c) * c;
    if usage / c > limit {
      Scale(usage / c, limit, c);
    } else {
      Scale(limit, usage / c, c);
    }
  }

  lemma Scale(a: real, b: real, c: real)
    requires a >= b && c > 0.0
    ensures a * c >= b * c
    ensures a > b ==> a * c > b * c
  {
    assert (a - b) * c >= 0.0;
    if a > b {
      assert (a - b) * c > 0.0;
    }
  }

  lemma AmountAdds(a: int, b: int)
    ensures Amount(a + b) == Amount(a) + Amount(b)
  {
  }

  /** A pod with a profile of the right length passes exactly when the account with it added has room. */
  lemma AdmissionIsExact(nodeStr: string, deployStr: string, deltaStr: string, limit: real, capacity: int,
                         measured: seq<int>, profile: seq<int>, v: seq<int>)
    requires ParseRange(nodeStr) == Some(measured) && ParseRange(deployStr) == Some(profile) && Holds(deltaStr, v)
    requires |measured| == |profile| == |v| && limit != 0.0 && capacity > 0
    ensures !OverLoad(nodeStr, deployStr, deltaStr, limit, capacity)
      <==> Room(measured, Moved(Addition, v, profile), limit, capacity)
  {
    var row := Moved(Addition, v, profile);
    forall i: nat | i < |measured|
      ensures Exceeds(UsageAt(measured, profile, v, capacity, i), capacity, limit)
        <==> !SlotHasRoom(measured[i], row[i], limit, capacity)
    {
      AmountAdds(v[i], profile[i]);
      ExceedsIsOverLimit(UsageAt(measured, profile, v, capacity, i), capacity, limit);
    }
    assert OverLoad(nodeStr, deployStr, deltaStr, limit, capacity)
      == SomeSlotExceeds(measured, profile, v, capacity, limit);
  }

  /** The usage of the capacity and what is promised on top stay within the limit. */
  predicate SlotFits(usage: real, promised: real, limit: real, capacity: int) {
    usage * capacity as real + promised <= limit * capacity as real
  }

  lemma SlotOfDecimals(measured: int, v: int, profile: int, limit: real, capacity: int)
    ensures SlotHasRoom(measured, v + profile, limit, capacity)
      <==> SlotFits(Amount(measured), Amount(v) + Amount(profile), limit, capacity)
  {
    AmountAdds(v, profile);
  }

  /** On the numbers the texts denote: a pod passes exactly when no slot goes over its part of the capacity. */
  lemma AdmissionOfDecimals(nodeStr: string, deployStr: string, deltaStr: string, limit: real, capacity: int,
                            us: seq<real>, ps: seq<real>, xs: seq<real>)
    requires RowDenotes(nodeStr, us) && RowDenotes(deployStr, ps) && AccountDenotes(deltaStr, xs)
    requires |us| == |ps| == |xs| && limit != 0.0 && capacity > 0
    ensures !OverLoad(nodeStr, deployStr, deltaStr, limit, capacity)
      <==> forall i :: 0 <= i < |us| ==> SlotFits(us[i], xs[i] + ps[i], limit, capacity)
  {
    WhenRowDenotes(nodeStr, us);
    WhenRowDenotes(deployStr, ps);
    var v := DenotedAccountHolds(deltaStr, xs);
    var measured, profile := ParseRange(nodeStr).value, ParseRange(deployStr).value;
    AdmissionIsExact(nodeStr, deployStr, deltaStr, limit, capacity, measured, profile, v);
    var row := Moved(Addition, v, profile);
    forall i: nat | i < |us|
      ensures SlotHasRoom(measured[i], row[i], limit, capacity) <==> SlotFits(us[i], xs[i] + ps[i], limit, capacity)
    {
      SlotOfDecimals(measured[i], v[i], profile[i], limit, capacity);
    }
    assert Room(measured, row, limit, capacity)
      <==> forall i :: 0 <= i < |us| ==> SlotFits(us[i], xs[i] + ps[i], limit, capacity);
  }

  /** A profile of another length than the measured row has no say: the account alone decides. */
  lemma MismatchedProfileIsIgnored(nodeStr: string, deployStr: string, deltaStr: string, limit: real, capacity: int,
                                   measured: seq<int>, profile: seq<int>, v: seq<int>)
    requires ParseRange(nodeStr) == Some(measured) && ParseRange(deployStr) == Some(profile) && Holds(deltaStr, v)
    requires |measured| == |v| != |profile| && limit != 0.0 && capacity > 0
    ensures !OverLoad(nodeStr, deployStr, deltaStr, limit, capacity) <==> Room(measured, v, limit, capacity)
  {
    forall i: nat | i < |measured|
      ensures Exceeds(UsageAt(measured, profile, v, capacity, i), capacity, limit)
        <==> !SlotHasRoom(measured[i], v[i], limit, capacity)
    {
      ExceedsIsOverLimit(UsageAt(measured, profile, v, capacity, i), capacity, limit);
    }
    assert OverLoad(nodeStr, deployStr, deltaStr, limit, capacity)
      == SomeSlotExceeds(measured, profile, v, capacity, limit);
  }

  /** An account of another length than the measured row has no say either. */
  lemma MismatchedAccountIsIgnored(nodeStr: string, deployStr: string, deltaStr: string, limit: real, capacity: int,
                                   measured: seq<int>, profile: seq<int>)
    requires ParseRange(nodeStr) == Some(measured) && ParseRange(deployStr) == Some(profile)
    requires deltaStr != "" && ParseRange(deltaStr).Some? && |ParseRange(deltaStr).value| != |measured|
    requires |profile| == |measured| && limit != 0.0 && capacity > 0
    ensures !OverLoad(nodeStr, deployStr, deltaStr, limit, capacity) <==> Room(measured, profile, limit, capacity)
  {
    var delta := ParseRange(deltaStr).value;
    forall i: nat | i < |measured|
      ensures Exceeds(UsageAt(measured, profile, delta, capacity, i), capacity, limit)
        <==> !SlotHasRoom(measured[i], profile[i], limit, capacity)
    {
      ExceedsIsOverLimit(UsageAt(measured, profile, delta, capacity, i), capacity, limit);
    }
    assert OverLoad(nodeStr, deployStr, deltaStr, limit, capacity)
      == SomeSlotExceeds(measured, profile, delta, capacity, limit);
  }

  /** Without capacity a pod is turned away exactly when some slot promises anything at all. */
  lemma NoCapacity(nodeStr: string, deployStr: string, deltaStr: string, limit: real, measured: seq<int>,
                   profile: seq<int>, v: seq<int>)
    requires ParseRange(nodeStr) == Some(measured) && ParseRange(deployStr) == Some(profile) && Holds(deltaStr, v)
    requires |measured| == |profile| == |v| && limit != 0.0
    ensures OverLoad(nodeStr, deployStr, deltaStr, limit, 0)
      <==> exists i :: 0 <= i < |v| && Amount(v[i]) + Amount(profile[i]) > 0.0
  {
    forall i: nat | i < |measured|
      ensures Exceeds(UsageAt(measured, profile, v, 0, i), 0, limit) <==> Amount(v[i]) + Amount(profile[i]) > 0.0 {}
    assert OverLoad(nodeStr, deployStr, deltaStr, limit, 0) == SomeSlotExceeds(measured, profile, v, 0, limit);
  }

  lemma SubtractKeepsRoom(measured: seq<int>, v: seq<int>, profile: seq<int>, limit: real, capacity: int)
    requires Room(measured, v, limit, capacity) && |profile| == |v|
    requires forall i :: 0 <= i < |profile| ==> profile[i] >= 0
    ensures Room(measured, Moved(Subtraction, v, profile), limit, capacity)
  {
    forall i | 0 <= i < |v| ensures SlotHasRoom(measured[i], v[i] - profile[i], limit, capacity) {
      AmountAdds(v[i] - profile[i], profile[i]);
      assert SlotHasRoom(measured[i], v[i], limit, capacity);
    }
  }

  // ---------- runs ----------

  /** Everything that stays fixed while one predicate policy guards one node. */
  datatype Setting = Setting(
    policy: PredicatePolicy, resource: string, app: string, metric: string,
    syncPeriod: seq<SyncPolicy>, syncAppPeriod: seq<SyncPolicy>, metricDuration: int,
    cpu: int, memory: int, capacity: int, clock: Clock, nodeStr: string, measured: seq<int>)
  {
    function Asks(node: map<string, string>, deploy: map<string, string>, now: int): Request {
      Request(syncPeriod, syncAppPeriod, node, deploy, cpu, memory, clock, now)
    }
  }

  /** The policy limits a sized resource, and the sync policies of its profile agree on one period. */
  ghost predicate WellSet(g: Setting) {
    && RANGE_PREFIX <= g.policy.name
    && Split(g.policy.name, ':') == ["range", g.resource, g.app, g.metric]
    && ((g.resource == "cpu" && g.capacity == g.cpu) || (g.resource == "memory" && g.capacity == g.memory))
    && g.policy.maxLimit != 0.0 && g.capacity > 0
    && ParseRange(g.nodeStr) == Some(g.measured)
    && PlainStamps(g.clock)
    && GetActiveDuration(g.syncPeriod, g.metric) == Ok(g.metricDuration) && g.metricDuration != 0
    && OnePeriod(g.syncAppPeriod, g.app)
  }

  ghost predicate OnePeriod(policies: seq<SyncPolicy>, name: string) {
    forall i, j :: 0 <= i < |policies| && 0 <= j < |policies| && policies[i].name == policies[j].name == name
      ==> policies[i].period == policies[j].period >= 0
  }

  /** The profile the event moves the account by; a deployment without the annotation has none. */
  function OfferIn(g: Setting, e: Event): Result<string> {
    if !e.PodChanged? then Err
    else
      var offer := Offered(g.syncAppPeriod, g.app, e.deploy, g.clock, e.now);
      if offer == Ok("") then Err else offer
  }

  /** A profile is of the measured length and takes nothing away. */
  ghost predicate FairEvent(g: Setting, e: Event) {
    OfferIn(g, e).Ok? ==>
      var p := ParseRange(OfferIn(g, e).value);
      p.Some? && |p.value| == |g.measured| && forall i :: 0 <= i < |p.value| ==> p.value[i] >= 0
  }

  /** The filter finds the measured usage fresh and lets the pod pass. */
  ghost predicate PassedFilter(g: Setting, node: map<string, string>, e: Event) {
    e.PodChanged? && !e.deleted ==>
      && GetResourceUsageRange(node, g.metric, g.metricDuration, g.clock, e.now) == Ok(g.nodeStr)
      && !Blocks(g.policy, g.Asks(node, e.deploy, e.now))
  }

  /** Every profile is fair, and every scheduled pod passed the filter on the node as it was just before. */
  ghost predicate Guarded(g: Setting, anno: map<string, string>, events: seq<Event>) {
    && Separate(events)
    && (forall i :: 0 <= i < |events| ==> FairEvent(g, events[i]))
    && (forall i :: 0 <= i < |events| ==> PassedFilter(g, Before(g, anno, events, i), events[i]))
  }

  function Before(g: Setting, anno: map<string, string>, events: seq<Event>, i: nat): map<string, string>
    requires i <= |events|
  {
    Final(anno, g.syncAppPeriod, g.clock, events[..i])
  }

  /** The last event that settles the matter: an admission does, a reset if the measured usage alone fits. */
  ghost predicate Settled(g: Setting, start: bool, events: seq<Event>) {
    if events == [] then start
    else
      var last := events[|events| - 1];
      if last.Reset? then Room(g.measured, Zeros(|g.measured|), g.policy.maxLimit, g.capacity)
      else (last.PodChanged? && !last.deleted && OfferIn(g, last).Ok?) || Settled(g, start, events[..|events| - 1])
  }

  ghost predicate AccountShaped(g: Setting, node: map<string, string>) {
    var r := GetDeltaUsageRange(node, DeltaName(g.app));
    r.Ok? && Shaped(r.value, |g.measured|)
  }

  /** The node's measured usage plus its account is within the limit in every slot. */
  ghost predicate AccountHasRoom(g: Setting, node: map<string, string>) {
    var r := GetDeltaUsageRange(node, DeltaName(g.app));
    r.Ok? && Room(g.measured, Row(r.value, |g.measured|), g.policy.maxLimit, g.capacity)
  }

  lemma {:induction false} OneDuration(policies: seq<SyncPolicy>, p: SyncPolicy)
    requires OnePeriod(policies, p.name) && p in policies && p.period != 0
    ensures p.period > 0 && GetActiveDuration(policies, p.name) == Ok(p.period + EXTRA_ACTIVE_PERIOD)
  {
    var k :| 0 <= k < |policies| && policies[k] == p;
    if policies[0].name != p.name {
      assert policies[1..][k - 1] == p;
      OneDuration(policies[1..], p);
    } else {
      assert policies[0].period == policies[k].period;
    }
  }

  lemma {:induction false} OfferHasPolicy(policies: seq<SyncPolicy>, name: string, deploy: map<string, string>,
                                         clock: Clock, now: int) returns (p: SyncPolicy)
    requires Offered(policies, name, deploy, clock, now).Ok?
    ensures p in policies && p.name == name && p.period != 0
    ensures Offer(p, deploy, clock, now) == Offered(policies, name, deploy, clock, now)
  {
    var q := policies[|policies| - 1];
    if q.name == name && Offer(q, deploy, clock, now).Ok? {
      p := q;
    } else {
      p := OfferHasPolicy(policies[..|policies| - 1], name, deploy, clock, now);
    }
  }

  /** What the filter checked is what the controller then adds. */
  lemma FilterCheckedTheOffer(g: Setting, node: map<string, string>, e: Event)
    requires WellSet(g) && PassedFilter(g, node, e) && e.PodChanged? && !e.deleted && OfferIn(g, e).Ok?
    requires GetDeltaUsageRange(node, DeltaName(g.app)).Ok?
    ensures !OverLoad(g.nodeStr, OfferIn(g, e).value, GetDeltaUsageRange(node, DeltaName(g.app)).value,
                      g.policy.maxLimit, g.capacity)
  {
    var p := OfferHasPolicy(g.syncAppPeriod, g.app, e.deploy, g.clock, e.now);
    OneDuration(g.syncAppPeriod, p);
  }

  /** One pod event: the account stays readable, an admission makes room, and a deletion keeps it. */
  lemma PodChangeStep(g: Setting, node: map<string, string>, e: Event)
    requires WellSet(g) && e.PodChanged? && FairEvent(g, e) && PassedFilter(g, node, e) && AccountShaped(g, node)
    ensures var after := Apply(node, g.syncAppPeriod, g.clock, e);
      && AccountShaped(g, after)
      && (AccountHasRoom(g, node) || (!e.deleted && OfferIn(g, e).Ok?) ==> AccountHasRoom(g, after))
  {
    var s, n := GetDeltaUsageRange(node, DeltaName(g.app)).value, |g.measured|;
    ReconcileMakesEntry(node, g.syncAppPeriod, e.deploy, e.deleted, g.clock, e.now, g.app);
    if OfferIn(g, e).Ok? {
      var offer := OfferIn(g, e).value;
      var profile, v := ParseRange(offer).value, Row(s, n);
      AfterOne(s, Entry(KindOf(e.deleted), offer));
      ShapedHolds(s, n);
      MergeMovesAccount(s, offer, KindOf(e.deleted), v, profile);
      if e.deleted {
        if AccountHasRoom(g, node) {
          SubtractKeepsRoom(g.measured, v, profile, g.policy.maxLimit, g.capacity);
        }
      } else {
        FilterCheckedTheOffer(g, node, e);
        AdmissionIsExact(g.nodeStr, offer, s, g.policy.maxLimit, g.capacity, g.measured, profile, v);
      }
    } else {
      assert After(s, []) == s;
    }
  }

  lemma OtherStep(g: Setting, node: map<string, string>, e: Event)
    requires WellSet(g) && AccountShaped(g, node)
    requires e.Reset? || (e.Measured? && !(DELTA_PREFIX_NAME <= e.key))
    ensures var after := Apply(node, g.syncAppPeriod, g.clock, e);
      && AccountShaped(g, after)
      && (e.Reset? && Room(g.measured, Zeros(|g.measured|), g.policy.maxLimit, g.capacity) ==>
            AccountHasRoom(g, after))
      && (e.Measured? && AccountHasRoom(g, node) ==> AccountHasRoom(g, after))
  {
    assert DELTA_PREFIX_NAME <= DeltaName(g.app);
  }

  /**
   * Over every guarded run: from the first admission on (or from the start, if there was room), the
   * measured usage plus the account stays within the limit in every slot.
   */
  lemma {:induction false} NodeKeepsRoom(g: Setting, anno: map<string, string>, events: seq<Event>)
    requires WellSet(g) && Guarded(g, anno, events) && AccountShaped(g, anno)
    ensures var final := Final(anno, g.syncAppPeriod, g.clock, events);
      AccountShaped(g, final) && (Settled(g, AccountHasRoom(g, anno), events) ==> AccountHasRoom(g, final))
  {
    if events != [] {
      var n := |events| - 1;
      var init, last := events[..n], events[n];
      GuardedPrefix(g, anno, events);
      NodeKeepsRoom(g, anno, init);
      assert PassedFilter(g, Before(g, anno, events, n), last) && FairEvent(g, last);
      if last.PodChanged? {
        PodChangeStep(g, Final(anno, g.syncAppPeriod, g.clock, init), last);
      } else {
        OtherStep(g, Final(anno, g.syncAppPeriod, g.clock, init), last);
      }
    }
  }

  lemma GuardedPrefix(g: Setting, anno: map<string, string>, events: seq<Event>)
    requires Guarded(g, anno, events) && events != []
    ensures Guarded(g, anno, events[..|events| - 1])
  {
    var init := events[..|events| - 1];
    forall i | 0 <= i < |init| ensures PassedFilter(g, Before(g, anno, init, i), init[i]) && FairEvent(g, init[i]) {
      assert init[..i] == events[..i] && init[i] == events[i];
      assert PassedFilter(g, Before(g, anno, events, i), events[i]);
    }
  }
}
