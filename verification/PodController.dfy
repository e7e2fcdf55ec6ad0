/** The controller that moves a node's predicted-load accounts when pods are scheduled and deleted. */
module PodController {
  import opened Options
  import opened Decimals
  import opened Ledger
  import opened Annotations

  function DeltaName(name: string): string { DELTA_PREFIX_NAME + name }

  lemma DeltaNamesDiffer(a: string, b: string)
    ensures DeltaName(a) == DeltaName(b) ==> a == b
  {
    assert DeltaName(a)[6..] == a && DeltaName(b)[6..] == b;
  }

  function KindOf(deleted: bool): MergeType { if deleted then Subtraction else Addition }

  /** What a policy lets a deployment offer: its profile while that is fresh. */
  function Offer(p: SyncPolicy, deploy: map<string, string>, clock: Clock, now: int): Result<string> {
    if p.period == 0 then Err
    else GetResourceUsageRange(deploy, p.name, p.period + EXTRA_ACTIVE_PERIOD, clock, now)
  }

  /** The new account for one policy, from the annotations as they were seen, or an error to skip it. */
  function Proposal(seen: map<string, string>, p: SyncPolicy, deploy: map<string, string>, deleted: bool,
                    clock: Clock, now: int): Result<string>
  {
    var offer := Offer(p, deploy, clock, now);
    var delta := GetDeltaUsageRange(seen, DeltaName(p.name));
    if offer.Err? || delta.Err? then Err else Merge(delta.value, offer.value, KindOf(deleted))
  }

  /** The annotations after the first policies were handled, all of them reading the same view. */
  function Reconciled(seen: map<string, string>, policies: seq<SyncPolicy>, deploy: map<string, string>,
                      deleted: bool, clock: Clock, now: int): map<string, string>
  {
    if policies == [] then seen
    else
      var p := policies[|policies| - 1];
      var before := Reconciled(seen, policies[..|policies| - 1], deploy, deleted, clock, now);
      var r := Proposal(seen, p, deploy, deleted, clock, now);
      if r.Ok? then Patch(before, DeltaName(p.name), r.value, clock, now) else before
  }

  function WithoutDeltas(anno: map<string, string>): map<string, string> {
    map k | k in anno && !(DELTA_PREFIX_NAME <= k) :: anno[k]
  }

  class ClusterNode {
    var annotations: map<string, string>

    /** The loop over the policies; a missing deployment ends the reconcile before it. */
    method Reconcile(policies: seq<SyncPolicy>, deployment: Option<map<string, string>>, deleted: bool,
                     clock: Clock, now: int) returns (ok: bool)
      modifies this
      ensures ok == deployment.Some?
      ensures annotations
        == if ok then Reconciled(old(annotations), policies, deployment.value, deleted, clock, now)
           else old(annotations)
    {
      if deployment.None? {
        return false;
      }
      var seen := annotations;
      for i := 0 to |policies|
        invariant annotations == Reconciled(seen, policies[..i], deployment.value, deleted, clock, now)
      {
        var policy := policies[i];
        assert policies[..i + 1][..i] == policies[..i];
        if policy.period != 0 {
          var activeDuration := policy.period + EXTRA_ACTIVE_PERIOD;
          var deployUsages := GetResourceUsageRange(deployment.value, policy.name, activeDuration, clock, now);
          var deltaName := DELTA_PREFIX_NAME + policy.name;
          var deltaUsages := GetDeltaUsageRange(seen, deltaName);
          if deployUsages.Ok? && deltaUsages.Ok? {
            var mergeType := if !deleted then Addition else Subtraction;
            deltaUsages := MergeUsageRange(deltaUsages.value, deployUsages.value, mergeType);
            if deltaUsages.Ok? {
              annotations := Patch(annotations, deltaName, deltaUsages.value, clock, now);
            }
          }
        }
      }
      assert policies[..|policies|] == policies;
      return true;
    }

    /** The nightly reset: every account of the node is dropped. */
    method SyncNode()
      modifies this
      ensures annotations == WithoutDeltas(old(annotations))
      ensures forall k :: k in annotations <==> k in old(annotations) && !("delta_" <= k)
      ensures forall k :: k in annotations ==> annotations[k] == old(annotations)[k]
    {
      var keys := annotations.Keys;
      while keys != {}
        invariant keys <= old(annotations).Keys
        invariant forall k :: k in annotations <==>
                    k in old(annotations) && (k in keys || !(DELTA_PREFIX_NAME <= k))
        invariant forall k :: k in annotations ==> annotations[k] == old(annotations)[k]
        decreases |keys|
      {
        var k: string :| k in keys;
        keys := keys - {k};
        if DELTA_PREFIX_NAME <= k {
          annotations := annotations - {k};
        }
      }
    }
  }

  // ---------- one reconcile ----------

  /** The profile that the policies named so offer, whichever of them is fresh. */
  function Offered(policies: seq<SyncPolicy>, name: string, deploy: map<string, string>, clock: Clock, now: int)
    : Result<string>
  {
    if policies == [] then Err
    else
      var p := policies[|policies| - 1];
      if p.name == name && Offer(p, deploy, clock, now).Ok? then Offer(p, deploy, clock, now)
      else Offered(policies[..|policies| - 1], name, deploy, clock, now)
  }

  /** An absent profile makes no entry. */
  function Made(deleted: bool, profile: string): seq<Entry> {
    if profile == "" then [] else [Entry(KindOf(deleted), profile)]
  }

  /** The entry a pod event makes in the account of that name, if any. */
  function EntriesFor(policies: seq<SyncPolicy>, name: string, deploy: map<string, string>, deleted: bool,
                      clock: Clock, now: int): seq<Entry>
  {
    var offer := Offered(policies, name, deploy, clock, now);
    if offer.Ok? then Made(deleted, offer.value) else []
  }

  lemma MergeHasNoComma(deltaStr: string, deployStr: string, kind: MergeType)
    requires ',' !in deployStr
    ensures var r := Merge(deltaStr, deployStr, kind); r.Ok? ==> ',' !in r.value
  {
    var deploy := ParseRange(deployStr);
    if deploy.Some? {
      RangeHasNoComma(Moved(kind, BaseOf(deltaStr, |deploy.value|), deploy.value));
    }
  }

  lemma {:induction false} OfferedIsTheProfile(policies: seq<SyncPolicy>, name: string, deploy: map<string, string>,
                                              clock: Clock, now: int, p: SyncPolicy)
    requires Offered(policies, name, deploy, clock, now).Ok?
    requires p.name == name && Offer(p, deploy, clock, now).Ok?
    ensures Offer(p, deploy, clock, now) == Offered(policies, name, deploy, clock, now)
    ensures ',' !in Offer(p, deploy, clock, now).value
  {
    UsageHasNoComma(deploy, p.name, p.period + EXTRA_ACTIVE_PERIOD, clock, now);
    var q := policies[|policies| - 1];
    if !(q.name == name && Offer(q, deploy, clock, now).Ok?) {
      OfferedIsTheProfile(policies[..|policies| - 1], name, deploy, clock, now, p);
    }
  }

  lemma AfterOne(s: string, e: Entry)
    ensures var r := Merge(s, e.profile, e.kind);
      After(s, [e]) == if r.Ok? then r.value else s
  {
    assert [e][..0] == [];
    assert After(s, []) == s;
  }

  /** Merging an absent profile leaves the account alone, in either direction. */
  lemma AfterMade(s: string, deleted: bool, profile: string)
    ensures After(s, Made(deleted, profile)) == After(s, [Entry(KindOf(deleted), profile)])
  {
    AfterOne(s, Entry(KindOf(deleted), profile));
    if profile == "" {
      EmptyDoesNotParse();
      assert After(s, []) == s;
    }
  }

  /**
   * One reconcile makes one entry in every readable account that its policies offer a profile for, even
   * if two policies share the name, and leaves every other account alone.
   */
  lemma {:induction false} ReconcileMakesEntry(seen: map<string, string>, policies: seq<SyncPolicy>,
                                              deploy: map<string, string>, deleted: bool, clock: Clock, now: int,
                                              name: string)
    requires PlainStamps(clock) && GetDeltaUsageRange(seen, DeltaName(name)).Ok?
    ensures GetDeltaUsageRange(Reconciled(seen, policies, deploy, deleted, clock, now), DeltaName(name))
      == Ok(After(GetDeltaUsageRange(seen, DeltaName(name)).value,
                  EntriesFor(policies, name, deploy, deleted, clock, now)))
  {
    var s := GetDeltaUsageRange(seen, DeltaName(name)).value;
    if policies != [] {
      var p, rest := policies[|policies| - 1], policies[..|policies| - 1];
      ReconcileMakesEntry(seen, rest, deploy, deleted, clock, now, name);
      var offer, r := Offer(p, deploy, clock, now), Proposal(seen, p, deploy, deleted, clock, now);
      if offer.Ok? {
        LastPolicy(seen, rest, p, deploy, deleted, clock, now, name);
      }
    }
  }

  lemma LastPolicy(seen: map<string, string>, rest: seq<SyncPolicy>, p: SyncPolicy, deploy: map<string, string>,
                   deleted: bool, clock: Clock, now: int, name: string)
    requires PlainStamps(clock) && GetDeltaUsageRange(seen, DeltaName(name)).Ok?
    requires Offer(p, deploy, clock, now).Ok?
    requires GetDeltaUsageRange(Reconciled(seen, rest, deploy, deleted, clock, now), DeltaName(name))
      == Ok(After(GetDeltaUsageRange(seen, DeltaName(name)).value,
                  EntriesFor(rest, name, deploy, deleted, clock, now)))
    ensures var r := Proposal(seen, p, deploy, deleted, clock, now);
      var before := Reconciled(seen, rest, deploy, deleted, clock, now);
      var after := if r.Ok? then Patch(before, DeltaName(p.name), r.value, clock, now) else before;
      var e := if p.name == name then Made(deleted, Offer(p, deploy, clock, now).value)
               else EntriesFor(rest, name, deploy, deleted, clock, now);
      GetDeltaUsageRange(after, DeltaName(name)) == Ok(After(GetDeltaUsageRange(seen, DeltaName(name)).value, e))
  {
    var s := GetDeltaUsageRange(seen, DeltaName(name)).value;
    var before, offer := Reconciled(seen, rest, deploy, deleted, clock, now), Offer(p, deploy, clock, now).value;
    var r := Proposal(seen, p, deploy, deleted, clock, now);
    UsageHasNoComma(deploy, p.name, p.period + EXTRA_ACTIVE_PERIOD, clock, now);
    DeltaNamesDiffer(p.name, name);
    if r.Ok? {
      MergeHasNoComma(GetDeltaUsageRange(seen, DeltaName(p.name)).value, offer, KindOf(deleted));
      PatchReadsBack(before, DeltaName(p.name), r.value, clock, now, 0, now);
    }
    if p.name == name {
      AfterMade(s, deleted, offer);
      AfterOne(s, Entry(KindOf(deleted), offer));
      if r.Err? && Offered(rest, name, deploy, clock, now).Ok? {
        OfferedIsTheProfile(rest, name, deploy, clock, now, p);
      }
    }
  }

  /** A reconcile writes nothing but accounts of its policies. */
  lemma {:induction false} ReconcileWritesOnlyAccounts(seen: map<string, string>, policies: seq<SyncPolicy>,
                                                      deploy: map<string, string>, deleted: bool, clock: Clock,
                                                      now: int, key: string)
    requires forall i :: 0 <= i < |policies| ==> key != DeltaName(policies[i].name)
    ensures var after := Reconciled(seen, policies, deploy, deleted, clock, now);
      (key in after <==> key in seen) && (key in seen ==> after[key] == seen[key])
  {
    if policies != [] {
      ReconcileWritesOnlyAccounts(seen, policies[..|policies| - 1], deploy, deleted, clock, now, key);
    }
  }

  // ---------- runs ----------

  /** A pod bound or deleted, the nightly reset, and another annotation of the node refreshed. */
  datatype Event =
    | PodChanged(deploy: map<string, string>, deleted: bool, now: int)
    | Reset
    | Measured(key: string, value: string, now: int)

  function Apply(anno: map<string, string>, policies: seq<SyncPolicy>, clock: Clock, e: Event): map<string, string> {
    match e
    case PodChanged(deploy, deleted, now) => Reconciled(anno, policies, deploy, deleted, clock, now)
    case Reset => WithoutDeltas(anno)
    case Measured(key, value, now) => Patch(anno, key, value, clock, now)
  }

  function Final(anno: map<string, string>, policies: seq<SyncPolicy>, clock: Clock, events: seq<Event>)
    : map<string, string>
  {
    if events == [] then anno
    else Apply(Final(anno, policies, clock, events[..|events| - 1]), policies, clock, events[|events| - 1])
  }

  /** The entries made in the account of that name since the last reset. */
  function EntriesOf(policies: seq<SyncPolicy>, name: string, clock: Clock, events: seq<Event>): seq<Entry> {
    if events == [] then []
    else
      var before := EntriesOf(policies, name, clock, events[..|events| - 1]);
      match events[|events| - 1]
      case PodChanged(deploy, deleted, now) => before + EntriesFor(policies, name, deploy, deleted, clock, now)
      case Reset => []
      case Measured(_, _, _) => before
  }

  /** What the account starts from: nothing, once there was a reset. */
  function StartOf(s: string, events: seq<Event>): string {
    if exists i :: 0 <= i < |events| && events[i].Reset? then "" else s
  }

  /** Measurements never go to an account. */
  ghost predicate Separate(events: seq<Event>) {
    forall i :: 0 <= i < |events| && events[i].Measured? ==> !(DELTA_PREFIX_NAME <= events[i].key)
  }

  lemma {:induction false} AfterAppend(s: string, before: seq<Entry>, more: seq<Entry>)
    requires |more| <= 1
    ensures After(s, before + more) == After(After(s, before), more)
  {
    if more == [] {
      assert before + more == before;
    } else {
      assert (before + more)[..|before|] == before;
      AfterOne(After(s, before), more[0]);
      assert more == [more[0]];
    }
  }

  /** The account holds what the entries since the last reset make of its start s. */
  ghost predicate Replays(s: string, node: map<string, string>, policies: seq<SyncPolicy>, clock: Clock,
                          events: seq<Event>, name: string)
  {
    GetDeltaUsageRange(node, DeltaName(name))
    == Ok(After(StartOf(s, events), EntriesOf(policies, name, clock, events)))
  }

  lemma StartAfter(s: string, events: seq<Event>, e: Event)
    ensures StartOf(s, events + [e]) == if e.Reset? then "" else StartOf(s, events)
    ensures (events + [e])[..|events|] == events
  {
    var longer := events + [e];
    assert longer[|events|] == e;
    assert forall i :: 0 <= i < |events| ==> longer[i] == events[i];
  }

  lemma PodChangedReplays(s: string, node: map<string, string>, policies: seq<SyncPolicy>, clock: Clock,
                          events: seq<Event>, name: string, e: Event)
    requires PlainStamps(clock) && Replays(s, node, policies, clock, events, name) && e.PodChanged?
    ensures Replays(s, Apply(node, policies, clock, e), policies, clock, events + [e], name)
  {
    StartAfter(s, events, e);
    ReconcileMakesEntry(node, policies, e.deploy, e.deleted, clock, e.now, name);
    AfterAppend(StartOf(s, events), EntriesOf(policies, name, clock, events),
                EntriesFor(policies, name, e.deploy, e.deleted, clock, e.now));
  }

  lemma ResetReplays(s: string, node: map<string, string>, policies: seq<SyncPolicy>, clock: Clock,
                     events: seq<Event>, name: string)
    ensures Replays(s, WithoutDeltas(node), policies, clock, events + [Reset], name)
  {
    StartAfter(s, events, Reset);
    assert DELTA_PREFIX_NAME <= DeltaName(name);
    assert After("", []) == "";
  }

  lemma MeasuredReplays(s: string, node: map<string, string>, policies: seq<SyncPolicy>, clock: Clock,
                        events: seq<Event>, name: string, e: Event)
    requires Replays(s, node, policies, clock, events, name) && e.Measured? && !(DELTA_PREFIX_NAME <= e.key)
    ensures Replays(s, Apply(node, policies, clock, e), policies, clock, events + [e], name)
  {
    StartAfter(s, events, e);
    assert DELTA_PREFIX_NAME <= DeltaName(name);
  }

  /**
   * The account on the node is always what the entries since the last reset make of it, whatever else
   * the policies, the deployments and the other annotations do.
   */
  lemma {:induction false} AccountReplaysEntries(anno: map<string, string>, policies: seq<SyncPolicy>, clock: Clock,
                                                events: seq<Event>, name: string)
    requires PlainStamps(clock) && Separate(events) && GetDeltaUsageRange(anno, DeltaName(name)).Ok?
    ensures Replays(GetDeltaUsageRange(anno, DeltaName(name)).value, Final(anno, policies, clock, events),
                    policies, clock, events, name)
  {
    var s := GetDeltaUsageRange(anno, DeltaName(name)).value;
    if events == [] {
      assert After(s, []) == s;
    } else {
      var init, last := events[..|events| - 1], events[|events| - 1];
      AccountReplaysEntries(anno, policies, clock, init, name);
      assert events == init + [last];
      var before := Final(anno, policies, clock, init);
      match last
      case PodChanged(_, _, _) => PodChangedReplays(s, before, policies, clock, init, name, last);
      case Reset => ResetReplays(s, before, policies, clock, init, name);
      case Measured(_, _, _) => MeasuredReplays(s, before, policies, clock, init, name, last);
    }
  }

  /**
   * In every run over profiles of one length, the account on the node decodes to the sum of the
   * scheduled profiles minus the sum of the deleted ones since the last reset; pods without a profile
   * count for nothing.
   */
  lemma AccountIsBalance(anno: map<string, string>, policies: seq<SyncPolicy>, clock: Clock, events: seq<Event>,
                         name: string, v: seq<int>)
    requires PlainStamps(clock) && Separate(events) && GetDeltaUsageRange(anno, DeltaName(name)).Ok?
    requires Holds(StartOf(GetDeltaUsageRange(anno, DeltaName(name)).value, events), v)
    requires Regular(EntriesOf(policies, name, clock, events), |v|)
    ensures var r := GetDeltaUsageRange(Final(anno, policies, clock, events), DeltaName(name));
      r.Ok? && Holds(r.value, Balance(v, EntriesOf(policies, name, clock, events)))
  {
    AccountReplaysEntries(anno, policies, clock, events, name);
    LedgerIsSum(StartOf(GetDeltaUsageRange(anno, DeltaName(name)).value, events),
                EntriesOf(policies, name, clock, events), v);
  }
}
