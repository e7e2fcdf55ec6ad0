/** No zone is ever over-committed, whatever the interleaving. */
module ProtocolSafety {
  import opened Options
  import opened Sums
  import opened Topology
  import opened PodRequests
  import opened Allocator
  import opened AllocatorTheorems
  import opened AssumedCache
  import opened TopologyMatching
  import opened Protocol

  // ---------- how charges move ----------

  lemma ChargedAppend(pods: seq<Pod>, p: Pod, cache: map<string, Assumed>, name: string)
    ensures Charged(pods + [p], cache, name) == Charged(pods, cache, name) + CpuOn(VisibleZones(p, cache), name)
  {
    var f := (q: Pod) => CpuOn(VisibleZones(q, cache), name);
    SumAppend(pods, [p], f);
    SumOne(p, f);
  }

  lemma ChargedWithout(pods: seq<Pod>, i: nat, cache: map<string, Assumed>, name: string)
    requires i < |pods|
    ensures Charged(pods, cache, name)
      == Charged(pods[..i] + pods[i + 1..], cache, name) + CpuOn(VisibleZones(pods[i], cache), name)
  {
    SumSplitAt(pods, i, (q: Pod) => CpuOn(VisibleZones(q, cache), name));
  }

  lemma ChargedReplace(pods: seq<Pod>, i: nat, p: Pod, cache: map<string, Assumed>, name: string)
    requires i < |pods|
    ensures Charged(pods[i := p], cache, name)
      == Charged(pods, cache, name) - CpuOn(VisibleZones(pods[i], cache), name) + CpuOn(VisibleZones(p, cache), name)
  {
    ChargedWithout(pods, i, cache, name);
    ChargedWithout(pods[i := p], i, cache, name);
    assert pods[i := p][..i] == pods[..i] && pods[i := p][i + 1..] == pods[i + 1..];
  }

  /** The zones of every pod charge whole cores. */
  ghost predicate WholePods(pods: seq<Pod>, cache: map<string, Assumed>) {
    forall i :: 0 <= i < |pods| ==> WholeZones(VisibleZones(pods[i], cache))
  }

  lemma {:induction false} ChargedIsWhole(pods: seq<Pod>, cache: map<string, Assumed>, name: string)
    requires WholePods(pods, cache)
    ensures 0 <= Charged(pods, cache, name) && Charged(pods, cache, name) % 1000 == 0
  {
    if pods != [] {
      ChargedIsWhole(pods[1..], cache, name);
      assert WholeZones(VisibleZones(pods[0], cache));
      assert Charged(pods, cache, name)
        == CpuOn(VisibleZones(pods[0], cache), name) + Charged(pods[1..], cache, name);
    }
  }

  /** Charges follow what each pod shows. */
  lemma {:induction false} ChargedIsMonotone(
    pods: seq<Pod>, cache: map<string, Assumed>, cache': map<string, Assumed>, name: string)
    requires forall i :: 0 <= i < |pods| ==>
      CpuOn(VisibleZones(pods[i], cache'), name) <= CpuOn(VisibleZones(pods[i], cache), name)
    ensures Charged(pods, cache', name) <= Charged(pods, cache, name)
  {
    if pods != [] {
      assert forall i :: 0 <= i < |pods[1..]| ==> pods[1..][i] == pods[i + 1];
      ChargedIsMonotone(pods[1..], cache, cache', name);
      assert Charged(pods, cache, name)
        == CpuOn(VisibleZones(pods[0], cache), name) + Charged(pods[1..], cache, name);
      assert Charged(pods, cache', name)
        == CpuOn(VisibleZones(pods[0], cache'), name) + Charged(pods[1..], cache', name);
    }
  }

  /** cache' is cache with some entries gone. */
  ghost predicate Shrinks(cache: map<string, Assumed>, cache': map<string, Assumed>) {
    forall k :: k in cache' ==> k in cache && cache'[k] == cache[k]
  }

  lemma ShrinkLowersCharge(pods: seq<Pod>, cache: map<string, Assumed>, cache': map<string, Assumed>, name: string)
    requires WholePods(pods, cache) && Shrinks(cache, cache')
    ensures Charged(pods, cache', name) <= Charged(pods, cache, name)
  {
    forall i | 0 <= i < |pods|
      ensures CpuOn(VisibleZones(pods[i], cache'), name) <= CpuOn(VisibleZones(pods[i], cache), name)
    {
      assert WholeZones(VisibleZones(pods[i], cache));
      assert CpuOn([], name) == 0;
    }
    ChargedIsMonotone(pods, cache, cache', name);
  }

  // ---------- the invariant ----------

  ghost predicate ZonesOk(nrt: NodeTopology) {
    && Distinct(MapSeq(nrt.zones, (z: Zone) => z.name))
    && forall i :: 0 <= i < |nrt.zones| ==> 0 <= AllocatableCpu(nrt.zones[i])
  }

  ghost predicate PodOk(s: State, pod: Pod) {
    && WholeZones(NumaZones(pod.result))
    && (NumaZones(pod.result) != [] ==> pod.uid !in s.inFlight)
    && (Unannotated(s, pod) ==>
          pod.uid != "" && pod.uid in s.cache && s.cache[pod.uid].zones == s.inFlight[pod.uid])
  }

  ghost predicate NodeOk(s: State, node: Node) {
    && ZonesOk(node.nrt)
    && (forall i :: 0 <= i < |node.pods| ==> PodOk(s, node.pods[i]))
    && HasRoom(node, s.cache, [])
  }

  ghost predicate ResultOk(s: State, n: string, result: seq<Zone>) {
    n in s.nodes && ProperResult(result) && HasRoom(s.nodes[n], s.cache, result)
  }

  ghost predicate CycleOk(s: State, cycle: Cycle) {
    && 0 <= cycle.request.milliCPU && cycle.request.milliCPU % 1000 == 0 && WellFormed(cycle.request)
    && NumaZones(cycle.pod.result) == [] && !Listed(s, cycle.pod.uid)
    && cycle.pod.uid !in s.cache && cycle.pod.uid !in s.inFlight
    && forall n :: n in cycle.results ==> ResultOk(s, n, cycle.results[n])
  }

  ghost predicate StoresOk(s: State) {
    && (forall k :: k in s.cache ==> WholeZones(s.cache[k].zones))
    && (forall k :: k in s.inFlight ==> ProperResult(s.inFlight[k]) && s.inFlight[k] != [])
  }

  ghost predicate Inv(s: State) {
    && StoresOk(s)
    && (forall n :: n in s.nodes ==> NodeOk(s, s.nodes[n]))
    && (s.cycle.Some? ==> CycleOk(s, s.cycle.value))
  }

  /** Where a scheduler starts: nothing assumed or in flight, and the pods found on the nodes fit. */
  ghost predicate Init(s: State) {
    && s.cache == map[] && s.inFlight == map[] && s.cycle == None
    && forall n :: n in s.nodes ==>
         && ZonesOk(s.nodes[n].nrt)
         && (forall i :: 0 <= i < |s.nodes[n].pods| ==> WholeZones(NumaZones(s.nodes[n].pods[i].result)))
         && HasRoom(s.nodes[n], map[], [])
  }

  lemma NoZonesChargeNothing()
    ensures WholeZones([])
  {
  }

  lemma PodsAreWhole(s: State, n: string)
    requires Inv(s) && n in s.nodes
    ensures WholePods(s.nodes[n].pods, s.cache)
  {
    NoZonesChargeNothing();
    forall i | 0 <= i < |s.nodes[n].pods| ensures WholeZones(VisibleZones(s.nodes[n].pods[i], s.cache)) {
      assert NodeOk(s, s.nodes[n]) && PodOk(s, s.nodes[n].pods[i]);
    }
  }

  /** The invariant is what safety asks for. */
  lemma InvIsSafe(s: State)
    requires Inv(s)
    ensures NoOvercommit(s)
  {
    forall n, i | n in s.nodes && 0 <= i < |s.nodes[n].nrt.zones|
      ensures var zone := s.nodes[n].nrt.zones[i];
        var charged := Charged(s.nodes[n].pods, s.cache, zone.name);
        0 <= charged <= AllocatableCpu(zone) && charged % 1000 == 0
    {
      var zone := s.nodes[n].nrt.zones[i];
      PodsAreWhole(s, n);
      ChargedIsWhole(s.nodes[n].pods, s.cache, zone.name);
      assert NodeOk(s, s.nodes[n]) && ZoneHasRoom(zone, s.nodes[n].pods, s.cache, []);
      assert CpuOn([], zone.name) == 0;
    }
  }

  // ---------- Filter ----------

  /** The zones Filter reconstructs are sound. */
  lemma ViewsAreSound(s: State, n: string)
    requires Inv(s) && n in s.nodes
    ensures AllSound(ViewsOf(s, n)) && Distinct(Names(ViewsOf(s, n)))
    ensures forall i :: 0 <= i < |ViewsOf(s, n)| ==>
      Free(ViewsOf(s, n)[i]) == AllocatableCpu(s.nodes[n].nrt.zones[i])
                                - Charged(s.nodes[n].pods, s.cache, s.nodes[n].nrt.zones[i].name)
  {
    var node, views := s.nodes[n], ViewsOf(s, n);
    InvIsSafe(s);
    forall i | 0 <= i < |views|
      ensures Sound(views[i])
        && views[i].requested.milliCPU == Charged(node.pods, s.cache, node.nrt.zones[i].name)
    {
      UsageIsSum(node.nrt.zones[i].name, node.pods, s.cache);
      AllocatableIsStated(node.nrt.zones[i], CPU);
    }
    assert NodeOk(s, node);
    assert Names(views) == MapSeq(node.nrt.zones, (z: Zone) => z.name);
  }

  lemma FilteredFits(c: Config, s: State, n: string, result: seq<Zone>)
    requires Inv(s) && Enabled(c, s, Filter(n, result))
    ensures ResultOk(s, n, result)
  {
    var node, views, cycle := s.nodes[n], ViewsOf(s, n), s.cycle.value;
    var aware := Awareness(cycle.pod.awareness, node.nrt);
    ViewsAreSound(s, n);
    AcceptedReadsBack(views, aware, cycle.request, result);
    forall name ensures 0 <= CpuOn(result, name) && CpuOn(result, name) % 1000 == 0 {
      if z :| z in views && z.name == name {
        AcceptedFits(views, aware, cycle.request, result, z);
      } else {
        AcceptedNamesZones(views, aware, cycle.request, result, name);
      }
    }
    forall i | 0 <= i < |node.nrt.zones| ensures ZoneHasRoom(node.nrt.zones[i], node.pods, s.cache, result) {
      assert views[i] in views && views[i].name == node.nrt.zones[i].name;
      AcceptedFits(views, aware, cycle.request, result, views[i]);
    }
  }

  // ---------- one event at a time ----------

  lemma LowerKeepsRoom(node: Node, node': Node, cache: map<string, Assumed>, cache': map<string, Assumed>,
                       extra: seq<Zone>)
    requires node'.nrt == node.nrt && HasRoom(node, cache, extra)
    requires forall name :: Charged(node'.pods, cache', name) <= Charged(node.pods, cache, name)
    ensures HasRoom(node', cache', extra)
  {
    forall i | 0 <= i < |node'.nrt.zones| ensures ZoneHasRoom(node'.nrt.zones[i], node'.pods, cache', extra) {
      assert ZoneHasRoom(node.nrt.zones[i], node.pods, cache, extra);
    }
  }

  /** Losing assumed entries is harmless as long as no running binding cycle loses its own. */
  lemma ShrinkKeepsInv(s: State, s': State)
    requires Inv(s) && s'.nodes == s.nodes && s'.cycle == s.cycle && Shrinks(s.cache, s'.cache)
    requires forall k :: k in s'.inFlight ==> k in s.inFlight && s'.inFlight[k] == s.inFlight[k]
    requires forall n, i :: n in s.nodes && 0 <= i < |s.nodes[n].pods| ==>
      (Unannotated(s', s.nodes[n].pods[i]) ==> s.nodes[n].pods[i].uid in s'.cache)
    ensures Inv(s')
  {
    forall n | n in s.nodes
      ensures forall name :: Charged(s.nodes[n].pods, s'.cache, name) <= Charged(s.nodes[n].pods, s.cache, name)
    {
      PodsAreWhole(s, n);
      forall name { ShrinkLowersCharge(s.nodes[n].pods, s.cache, s'.cache, name); }
    }
    forall n | n in s'.nodes ensures NodeOk(s', s'.nodes[n]) {
      assert NodeOk(s, s.nodes[n]);
      LowerKeepsRoom(s.nodes[n], s.nodes[n], s.cache, s'.cache, []);
      forall i | 0 <= i < |s.nodes[n].pods| ensures PodOk(s', s.nodes[n].pods[i]) {
        assert PodOk(s, s.nodes[n].pods[i]);
      }
    }
    if s.cycle.Some? {
      SameListing(s, s');
      forall n | n in s.cycle.value.results ensures ResultOk(s', n, s.cycle.value.results[n]) {
        assert ResultOk(s, n, s.cycle.value.results[n]);
        LowerKeepsRoom(s.nodes[n], s.nodes[n], s.cache, s'.cache, s.cycle.value.results[n]);
      }
    }
  }

  lemma SameListing(s: State, s': State)
    requires s'.nodes == s.nodes
    ensures forall uid :: Listed(s', uid) <==> Listed(s, uid)
  {
    forall uid ensures Listed(s', uid) <==> Listed(s, uid) {
      if Listed(s, uid) {
        var n, i :| n in s.nodes && 0 <= i < |s.nodes[n].pods| && s.nodes[n].pods[i].uid == uid;
        assert s'.nodes[n].pods[i].uid == uid;
      }
      if Listed(s', uid) {
        var n, i :| n in s'.nodes && 0 <= i < |s'.nodes[n].pods| && s'.nodes[n].pods[i].uid == uid;
        assert s.nodes[n].pods[i].uid == uid;
      }
    }
  }

  /** A cleanup keeps the invariant exactly when every binding cycle that still runs is in time. */
  lemma CleanupKeepsInv(s: State)
    requires Inv(s)
    ensures Inv(s.(cache := Unexpired(s.cache, s.now))) <==> BindsInTime(s, s.now)
  {
    var s' := s.(cache := Unexpired(s.cache, s.now));
    forall n, i | n in s.nodes && 0 <= i < |s.nodes[n].pods|
      ensures PodOk(s, s.nodes[n].pods[i])
    {
      assert NodeOk(s, s.nodes[n]);
    }
    if BindsInTime(s, s.now) {
      ShrinkKeepsInv(s, s');
    }
    if Inv(s') {
      forall n, i | n in s.nodes && 0 <= i < |s.nodes[n].pods| ensures PodOk(s', s.nodes[n].pods[i]) {
        assert NodeOk(s', s'.nodes[n]);
      }
    }
  }

  lemma TickKeepsInv(s: State, to: int)
    requires Inv(s)
    ensures Inv(s.(now := to))
  {
    var s' := s.(now := to);
    forall n, i | n in s.nodes && 0 <= i < |s.nodes[n].pods|
      ensures Unannotated(s', s.nodes[n].pods[i]) ==> s.nodes[n].pods[i].uid in s'.cache
    {
      assert NodeOk(s, s.nodes[n]) && PodOk(s, s.nodes[n].pods[i]);
    }
    ShrinkKeepsInv(s, s');
  }

  lemma UnreserveKeepsInv(s: State, uid: string)
    requires Inv(s)
    ensures Inv(s.(cache := Forgotten(s.cache, uid), inFlight := s.inFlight - {uid}))
  {
    var s' := s.(cache := Forgotten(s.cache, uid), inFlight := s.inFlight - {uid});
    forall n, i | n in s.nodes && 0 <= i < |s.nodes[n].pods|
      ensures Unannotated(s', s.nodes[n].pods[i]) ==> s.nodes[n].pods[i].uid in s'.cache
    {
      assert NodeOk(s, s.nodes[n]) && PodOk(s, s.nodes[n].pods[i]);
    }
    ShrinkKeepsInv(s, s');
  }

  ghost predicate HasUid(pods: seq<Pod>, uid: string) {
    exists j :: 0 <= j < |pods| && pods[j].uid == uid
  }

  /** Changing the pods of one node, without new UIDs and without charging more, keeps the rest of the invariant. */
  lemma FewerChargesKeepInv(s: State, s': State, n: string)
    requires Inv(s) && n in s.nodes && n in s'.nodes && s'.nodes == s.nodes[n := s'.nodes[n]]
    requires s'.nodes[n].nrt == s.nodes[n].nrt && s'.cycle == s.cycle && s'.cache == s.cache
    requires forall k :: k in s'.inFlight ==> k in s.inFlight && s'.inFlight[k] == s.inFlight[k]
    requires forall i :: 0 <= i < |s'.nodes[n].pods| ==> PodOk(s', s'.nodes[n].pods[i])
    requires forall i :: 0 <= i < |s'.nodes[n].pods| ==> HasUid(s.nodes[n].pods, s'.nodes[n].pods[i].uid)
    requires forall name :: Charged(s'.nodes[n].pods, s.cache, name) <= Charged(s.nodes[n].pods, s.cache, name)
    ensures Inv(s')
  {
    forall m | m in s'.nodes ensures NodeOk(s', s'.nodes[m]) {
      assert NodeOk(s, s.nodes[m]);
      if m == n {
        LowerKeepsRoom(s.nodes[n], s'.nodes[n], s.cache, s.cache, []);
      } else {
        forall i | 0 <= i < |s.nodes[m].pods| ensures PodOk(s', s.nodes[m].pods[i]) {
          assert PodOk(s, s.nodes[m].pods[i]);
        }
      }
    }
    if s.cycle.Some? {
      var cycle := s.cycle.value;
      NoNewUids(s, s', n);
      assert !Listed(s', cycle.pod.uid);
      forall m | m in cycle.results ensures ResultOk(s', m, cycle.results[m]) {
        assert ResultOk(s, m, cycle.results[m]);
        if m == n { LowerKeepsRoom(s.nodes[n], s'.nodes[n], s.cache, s.cache, cycle.results[n]); }
      }
    }
  }

  lemma NoNewUids(s: State, s': State, n: string)
    requires n in s.nodes && n in s'.nodes && s'.nodes == s.nodes[n := s'.nodes[n]]
    requires forall i :: 0 <= i < |s'.nodes[n].pods| ==> HasUid(s.nodes[n].pods, s'.nodes[n].pods[i].uid)
    ensures forall uid :: Listed(s', uid) ==> Listed(s, uid)
  {
    forall uid | Listed(s', uid) ensures Listed(s, uid) {
      var m, i :| m in s'.nodes && 0 <= i < |s'.nodes[m].pods| && s'.nodes[m].pods[i].uid == uid;
      if m == n {
        assert HasUid(s.nodes[n].pods, uid);
        var j :| 0 <= j < |s.nodes[n].pods| && s.nodes[n].pods[j].uid == uid;
      } else {
        assert s.nodes[m].pods[i].uid == uid;
      }
    }
  }

  lemma RemoveKeepsPods(c: Config, s: State, n: string, i: nat)
    requires Inv(s) && Enabled(c, s, Remove(n, i))
    ensures var s' := Next(c, s, Remove(n, i));
      forall k :: 0 <= k < |s'.nodes[n].pods| ==>
        PodOk(s', s'.nodes[n].pods[k]) && HasUid(s.nodes[n].pods, s'.nodes[n].pods[k].uid)
  {
    var s' := Next(c, s, Remove(n, i));
    var pods, pods' := s.nodes[n].pods, s'.nodes[n].pods;
    assert NodeOk(s, s.nodes[n]);
    forall k | 0 <= k < |pods'| ensures PodOk(s', pods'[k]) && HasUid(pods, pods'[k].uid) {
      var j := if k < i then k else k + 1;
      assert pods'[k] == pods[j] && PodOk(s, pods[j]);
    }
  }

  lemma RemoveKeepsInv(c: Config, s: State, n: string, i: nat)
    requires Inv(s) && Enabled(c, s, Remove(n, i))
    ensures Inv(Next(c, s, Remove(n, i)))
  {
    var s' := Next(c, s, Remove(n, i));
    var pods := s.nodes[n].pods;
    RemoveKeepsPods(c, s, n, i);
    PodsAreWhole(s, n);
    assert WholeZones(VisibleZones(pods[i], s.cache));
    forall name ensures Charged(s'.nodes[n].pods, s.cache, name) <= Charged(pods, s.cache, name) {
      ChargedWithout(pods, i, s.cache, name);
    }
    FewerChargesKeepInv(s, s', n);
  }

  lemma PreBindKeepsInv(c: Config, s: State, n: string, i: nat)
    requires Inv(s) && Enabled(c, s, PreBind(n, i))
    ensures Inv(Next(c, s, PreBind(n, i)))
  {
    var s' := Next(c, s, PreBind(n, i));
    var pods, pods' := s.nodes[n].pods, s'.nodes[n].pods;
    assert NodeOk(s, s.nodes[n]) && PodOk(s, pods[i]);
    var uid := pods[i].uid;
    assert ProperResult(s.inFlight[uid]) && s.inFlight[uid] != [];
    assert VisibleZones(pods[i], s.cache) == VisibleZones(pods'[i], s.cache) == s.inFlight[uid];
    forall k | 0 <= k < |pods'|
      ensures PodOk(s', pods'[k]) && HasUid(pods, pods'[k].uid)
    {
      assert pods[k].uid == pods'[k].uid;
      assert PodOk(s, pods[k]);
    }
    forall name ensures Charged(pods', s.cache, name) <= Charged(pods, s.cache, name) {
      ChargedReplace(pods, i, pods'[i], s.cache, name);
    }
    FewerChargesKeepInv(s, s', n);
  }

  // ---------- placing the pod of the cycle ----------

  lemma {:induction false} UnlistedChangesNothing(
    pods: seq<Pod>, cache: map<string, Assumed>, uid: string, entry: Assumed, name: string)
    requires forall i :: 0 <= i < |pods| ==> pods[i].uid != uid
    ensures Charged(pods, cache[uid := entry], name) == Charged(pods, cache, name)
  {
    ChargedIsMonotone(pods, cache, cache[uid := entry], name);
    ChargedIsMonotone(pods, cache[uid := entry], cache, name);
  }

  lemma ReserveCharge(c: Config, s: State, n: string, pods: seq<Pod>, name: string)
    requires Enabled(c, s, Reserve(n)) && forall i :: 0 <= i < |pods| ==> pods[i].uid != s.cycle.value.pod.uid
    ensures Charged(pods, Next(c, s, Reserve(n)).cache, name) == Charged(pods, s.cache, name)
  {
    var s', uid := Next(c, s, Reserve(n)), s.cycle.value.pod.uid;
    UnlistedChangesNothing(pods, s.cache, uid, s'.cache[uid], name);
  }

  lemma UnlistedPods(s: State, n: string, uid: string)
    requires n in s.nodes && !Listed(s, uid)
    ensures forall i :: 0 <= i < |s.nodes[n].pods| ==> s.nodes[n].pods[i].uid != uid
  {
  }

  lemma ReservedNodeIsOk(c: Config, s: State, n: string)
    requires Inv(s) && Enabled(c, s, Reserve(n))
    ensures var s' := Next(c, s, Reserve(n)); NodeOk(s', s'.nodes[n])
  {
    var s', pods := Next(c, s, Reserve(n)), s.nodes[n].pods;
    var pod, result := s.cycle.value.pod, s.cycle.value.results[n];
    assert CycleOk(s, s.cycle.value) && ResultOk(s, n, result) && NodeOk(s, s.nodes[n]);
    UnlistedPods(s, n, pod.uid);
    assert VisibleZones(pod, s'.cache) == result;
    NoZonesChargeNothing();
    assert PodOk(s', pod);
    forall i | 0 <= i < |pods| ensures PodOk(s', pods[i]) { assert PodOk(s, pods[i]); }
    forall i | 0 <= i < |s'.nodes[n].nrt.zones|
      ensures ZoneHasRoom(s'.nodes[n].nrt.zones[i], s'.nodes[n].pods, s'.cache, [])
    {
      var zone := s.nodes[n].nrt.zones[i];
      ReserveCharge(c, s, n, pods, zone.name);
      ChargedAppend(pods, pod, s'.cache, zone.name);
      assert ZoneHasRoom(zone, pods, s.cache, result);
    }
  }

  lemma OtherNodeIsOk(c: Config, s: State, n: string, m: string)
    requires Inv(s) && Enabled(c, s, Reserve(n)) && m in s.nodes && m != n
    ensures var s' := Next(c, s, Reserve(n)); NodeOk(s', s'.nodes[m])
  {
    var s', pods := Next(c, s, Reserve(n)), s.nodes[m].pods;
    assert CycleOk(s, s.cycle.value) && NodeOk(s, s.nodes[m]);
    UnlistedPods(s, m, s.cycle.value.pod.uid);
    forall i | 0 <= i < |pods| ensures PodOk(s', pods[i]) { assert PodOk(s, pods[i]); }
    forall name ensures Charged(pods, s'.cache, name) <= Charged(pods, s.cache, name) {
      ReserveCharge(c, s, n, pods, name);
    }
    LowerKeepsRoom(s.nodes[m], s.nodes[m], s.cache, s'.cache, []);
  }

  lemma ReserveKeepsInv(c: Config, s: State, n: string)
    requires Inv(s) && Enabled(c, s, Reserve(n))
    ensures Inv(Next(c, s, Reserve(n)))
  {
    var s' := Next(c, s, Reserve(n));
    assert CycleOk(s, s.cycle.value) && ResultOk(s, n, s.cycle.value.results[n]);
    forall m | m in s'.nodes ensures NodeOk(s', s'.nodes[m]) {
      if m == n {
        ReservedNodeIsOk(c, s, n);
      } else {
        OtherNodeIsOk(c, s, n, m);
      }
    }
  }

  lemma PlaceKeepsInv(c: Config, s: State, n: string)
    requires Inv(s) && Enabled(c, s, Place(n))
    ensures Inv(Next(c, s, Place(n)))
  {
    var s' := Next(c, s, Place(n));
    var pod, node := s.cycle.value.pod, s.nodes[n];
    assert CycleOk(s, s.cycle.value);
    NoZonesChargeNothing();
    forall m | m in s.nodes ensures NodeOk(s', s'.nodes[m]) {
      assert NodeOk(s, s.nodes[m]);
      forall i | 0 <= i < |s.nodes[m].pods| ensures PodOk(s', s.nodes[m].pods[i]) {
        assert PodOk(s, s.nodes[m].pods[i]);
      }
      if m == n {
        assert VisibleZones(pod, s.cache) == [];
        forall name ensures Charged(node.pods + [pod], s.cache, name) <= Charged(node.pods, s.cache, name) {
          ChargedAppend(node.pods, pod, s.cache, name);
          assert CpuOn([], name) == 0;
        }
        assert PodOk(s', pod);
        LowerKeepsRoom(node, s'.nodes[n], s.cache, s.cache, []);
      }
    }
  }

  lemma PreFilterKeepsInv(c: Config, s: State, pod: Pod, targets: seq<nat>)
    requires CPU in c.names && Inv(s) && Enabled(c, s, PreFilter(pod, targets)) && Timely(s, PreFilter(pod, targets))
    ensures Inv(Next(c, s, PreFilter(pod, targets)))
  {
    var s' := Next(c, s, PreFilter(pod, targets));
    RequestsAreWholeCores(pod, targets, c.names);
    SameListing(s, s');
    CarryOver(s, s');
  }

  lemma FilterKeepsInv(c: Config, s: State, n: string, result: seq<Zone>)
    requires Inv(s) && Enabled(c, s, Filter(n, result))
    ensures Inv(Next(c, s, Filter(n, result)))
  {
    var s' := Next(c, s, Filter(n, result));
    FilteredFits(c, s, n, result);
    SameListing(s, s');
    CarryOver(s, s');
    forall m | m in s'.cycle.value.results ensures ResultOk(s', m, s'.cycle.value.results[m]) {
      assert m != n ==> ResultOk(s, m, s.cycle.value.results[m]);
    }
  }

  /** Nodes stay in order when pods, cache and binding cycles do not change. */
  lemma CarryOver(s: State, s': State)
    requires Inv(s) && s'.nodes == s.nodes && s'.cache == s.cache && s'.inFlight == s.inFlight
    ensures StoresOk(s') && forall n :: n in s'.nodes ==> NodeOk(s', s'.nodes[n])
  {
    forall n | n in s'.nodes ensures NodeOk(s', s'.nodes[n]) {
      assert NodeOk(s, s.nodes[n]);
      forall i | 0 <= i < |s.nodes[n].pods| ensures PodOk(s', s.nodes[n].pods[i]) {
        assert PodOk(s, s.nodes[n].pods[i]);
      }
    }
  }

  /** Every timely event keeps the invariant. */
  lemma EventKeepsInv(c: Config, s: State, e: Event)
    requires CPU in c.names && Inv(s) && Enabled(c, s, e) && Timely(s, e)
    ensures Inv(Next(c, s, e))
  {
    match e
    case PreFilter(pod, targets) => PreFilterKeepsInv(c, s, pod, targets);
    case Filter(n, result) => FilterKeepsInv(c, s, n, result);
    case Reserve(n) => ReserveKeepsInv(c, s, n);
    case Place(n) => PlaceKeepsInv(c, s, n);
    case Abandon => CarryOver(s, Next(c, s, e));
    case PreBind(n, i) => PreBindKeepsInv(c, s, n, i);
    case Unreserve(uid) => UnreserveKeepsInv(s, uid);
    case Remove(n, i) => RemoveKeepsInv(c, s, n, i);
    case Tick(to) => TickKeepsInv(s, to);
    case Cleanup => CleanupKeepsInv(s);
  }

  lemma InitIsInv(s: State)
    requires Init(s)
    ensures Inv(s)
  {
    forall n | n in s.nodes ensures NodeOk(s, s.nodes[n]) {
      forall i | 0 <= i < |s.nodes[n].pods| ensures PodOk(s, s.nodes[n].pods[i]) {}
    }
  }

  lemma {:induction false} RunKeepsInv(c: Config, s: State, events: seq<Event>)
    requires CPU in c.names && Inv(s) && Runs(c, s, events) && TimelyRun(c, s, events)
    ensures Inv(After(c, s, events))
    decreases |events|
  {
    if events != [] {
      EventKeepsInv(c, s, events[0]);
      RunKeepsInv(c, Next(c, s, events[0]), events[1..]);
    }
  }

  /** In every state a timely run reaches, no zone is charged more whole cores than it has. */
  lemma NoZoneIsOvercommitted(c: Config, s: State, events: seq<Event>)
    requires CPU in c.names && Init(s) && Runs(c, s, events) && TimelyRun(c, s, events)
    ensures NoOvercommit(After(c, s, events))
  {
    InitIsInv(s);
    RunKeepsInv(c, s, events);
    InvIsSafe(After(c, s, events));
  }
}
