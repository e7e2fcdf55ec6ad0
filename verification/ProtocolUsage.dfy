/** The usage Filter sees against the usage that is promised: what late binding and leftover annotations hide. */
module ProtocolUsage {
  import opened Sums
  import opened Topology
  import opened Protocol
  import opened ProtocolSafety
  import opened ProtocolExact

  /** The zones a pod is about to hold while its binding cycle runs, and holds afterwards. */
  function CommittedZones(s: State, pod: Pod): seq<Zone> {
    if pod.uid in s.inFlight then s.inFlight[pod.uid] else NumaZones(pod.result)
  }

  ghost function Committed(s: State, pods: seq<Pod>, name: string): int {
    SumOf(pods, (p: Pod) => CpuOn(CommittedZones(s, p), name))
  }

  /** The pod's binding cycle runs and gives it CPU, but neither annotation nor cache shows any. */
  ghost predicate Hidden(s: State, pod: Pod) {
    Unannotated(s, pod) && pod.uid !in s.cache && !SameCpu(s.inFlight[pod.uid], [])
  }

  /** The pod's binding cycle runs, but the annotation of an earlier attempt shows other CPU than it gives. */
  ghost predicate Masked(s: State, pod: Pod) {
    && pod.uid in s.inFlight && NumaZones(pod.result) != []
    && !SameCpu(NumaZones(pod.result), s.inFlight[pod.uid])
  }

  /** A pod shows what it is promised exactly when it is neither hidden nor masked. */
  lemma WhenPodIsSeenTruly(s: State, pod: Pod)
    requires Mirrors(s, pod)
    ensures SameCpu(VisibleZones(pod, s.cache), CommittedZones(s, pod)) <==> !Hidden(s, pod) && !Masked(s, pod)
  {
    if pod.uid in s.inFlight && NumaZones(pod.result) == [] && pod.uid !in s.cache {
      assert VisibleZones(pod, s.cache) == [];
      Symmetric(s.inFlight[pod.uid], []);
    }
  }

  lemma Symmetric(a: seq<Zone>, b: seq<Zone>)
    ensures SameCpu(a, b) <==> SameCpu(b, a)
  {
    if SameCpu(a, b) {
      forall name ensures CpuOn(b, name) == CpuOn(a, name) {}
    }
    if SameCpu(b, a) {
      forall name ensures CpuOn(a, name) == CpuOn(b, name) {}
    }
  }

  ghost predicate SeenTruly(s: State, pod: Pod) {
    SameCpu(VisibleZones(pod, s.cache), CommittedZones(s, pod))
  }

  lemma NeverShowsMore(s: State, pod: Pod, name: string)
    requires StoresOk(s) && Mirrors(s, pod) && !Masked(s, pod)
    ensures CpuOn(VisibleZones(pod, s.cache), name) <= CpuOn(CommittedZones(s, pod), name)
  {
    assert CpuOn([], name) == 0;
    if pod.uid in s.inFlight {
      assert ProperResult(s.inFlight[pod.uid]);
      if NumaZones(pod.result) != [] {
        assert SameCpu(NumaZones(pod.result), s.inFlight[pod.uid]);
      }
    }
  }

  /** Without masked pods, the usage of a zone name is what is promised exactly if every pod shows its part of it. */
  lemma WhenNameIsSeenTruly(s: State, n: string, name: string)
    requires Tracked(s) && n in s.nodes
    requires forall i :: 0 <= i < |s.nodes[n].pods| ==> !Masked(s, s.nodes[n].pods[i])
    ensures Charged(s.nodes[n].pods, s.cache, name) == Committed(s, s.nodes[n].pods, name)
      <==> forall i :: 0 <= i < |s.nodes[n].pods| ==>
        CpuOn(VisibleZones(s.nodes[n].pods[i], s.cache), name) == CpuOn(CommittedZones(s, s.nodes[n].pods[i]), name)
  {
    var pods := s.nodes[n].pods;
    var shown, held := (p: Pod) => CpuOn(VisibleZones(p, s.cache), name), (p: Pod) => CpuOn(CommittedZones(s, p), name);
    forall i | 0 <= i < |pods| ensures shown(pods[i]) <= held(pods[i]) {
      assert PodTracked(s, pods[i]);
      NeverShowsMore(s, pods[i], name);
    }
    SumCompare(pods, shown, held);
    assert forall i :: 0 <= i < |pods| ==> (shown(pods[i]) == held(pods[i])
      <==> CpuOn(VisibleZones(pods[i], s.cache), name) == CpuOn(CommittedZones(s, pods[i]), name));
  }

  /** Filter sees every zone of a node as it is promised. */
  ghost predicate UsageIsTrue(s: State, n: string)
    requires n in s.nodes
  {
    forall name :: Charged(s.nodes[n].pods, s.cache, name) == Committed(s, s.nodes[n].pods, name)
  }

  ghost predicate PodsSeenTruly(s: State, pods: seq<Pod>) {
    forall i :: 0 <= i < |pods| ==> SeenTruly(s, pods[i])
  }

  lemma TrulySeenPodsSumUp(s: State, n: string)
    requires n in s.nodes && PodsSeenTruly(s, s.nodes[n].pods)
    ensures UsageIsTrue(s, n)
  {
    var pods := s.nodes[n].pods;
    forall name ensures Charged(pods, s.cache, name) == Committed(s, pods, name) {
      var shown := (p: Pod) => CpuOn(VisibleZones(p, s.cache), name);
      var held := (p: Pod) => CpuOn(CommittedZones(s, p), name);
      forall i | 0 <= i < |pods| ensures shown(pods[i]) == held(pods[i]) {
        assert SeenTruly(s, pods[i]);
      }
      SumCompare(pods, shown, held);
    }
  }

  lemma TrueUsageShowsPods(s: State, n: string)
    requires Tracked(s) && n in s.nodes && UsageIsTrue(s, n)
    requires forall i :: 0 <= i < |s.nodes[n].pods| ==> !Masked(s, s.nodes[n].pods[i])
    ensures PodsSeenTruly(s, s.nodes[n].pods)
  {
    var pods := s.nodes[n].pods;
    forall i | 0 <= i < |pods| ensures SeenTruly(s, pods[i]) {
      forall name ensures CpuOn(VisibleZones(pods[i], s.cache), name) == CpuOn(CommittedZones(s, pods[i]), name) {
        assert Charged(pods, s.cache, name) == Committed(s, pods, name);
        WhenNameIsSeenTruly(s, n, name);
      }
    }
  }

  /**
   * In any state a run reaches, every pod of a node shows what it is promised if and only if none is hidden
   * or masked, and then the sums Filter works with are true. Where no leftover annotation masks a pod,
   * the sums are true only then.
   */
  lemma FilterSeesTrueUsage(s: State, n: string)
    requires Tracked(s) && n in s.nodes
    ensures var pods := s.nodes[n].pods;
      && (PodsSeenTruly(s, pods)
          <==> forall i :: 0 <= i < |pods| ==> !Hidden(s, pods[i]) && !Masked(s, pods[i]))
      && (PodsSeenTruly(s, pods) ==> UsageIsTrue(s, n))
      && ((forall i :: 0 <= i < |pods| ==> !Masked(s, pods[i])) ==>
            (UsageIsTrue(s, n) <==> forall i :: 0 <= i < |pods| ==> !Hidden(s, pods[i])))
  {
    var pods := s.nodes[n].pods;
    forall i | 0 <= i < |pods|
      ensures SeenTruly(s, pods[i]) <==> !Hidden(s, pods[i]) && !Masked(s, pods[i])
    {
      assert PodTracked(s, pods[i]);
      WhenPodIsSeenTruly(s, pods[i]);
    }
    if PodsSeenTruly(s, pods) {
      TrulySeenPodsSumUp(s, n);
    }
    if UsageIsTrue(s, n) && forall i :: 0 <= i < |pods| ==> !Masked(s, pods[i]) {
      TrueUsageShowsPods(s, n);
    }
  }

  /** The same, for the state at the end of any run of released pods. */
  lemma WhenRunSeesTrueUsage(c: Config, s: State, events: seq<Event>, n: string)
    requires CPU in c.names && Init(s) && Runs(c, s, events) && ReleasedRun(c, s, events)
    requires n in After(c, s, events).nodes
    ensures var t := After(c, s, events);
      var pods := t.nodes[n].pods;
      && (PodsSeenTruly(t, pods)
          <==> forall i :: 0 <= i < |pods| ==> !Hidden(t, pods[i]) && !Masked(t, pods[i]))
      && (PodsSeenTruly(t, pods) ==> UsageIsTrue(t, n))
      && ((forall i :: 0 <= i < |pods| ==> !Masked(t, pods[i])) ==>
            (UsageIsTrue(t, n) <==> forall i :: 0 <= i < |pods| ==> !Hidden(t, pods[i])))
  {
    InitIsTracked(s);
    RunKeepsTracked(c, s, events);
    FilterSeesTrueUsage(After(c, s, events), n);
  }

  /** A timely run hides and masks nothing, so Filter always sees true usage. */
  lemma TimelyRunSeesTrueUsage(c: Config, s: State, events: seq<Event>, n: string)
    requires CPU in c.names && Init(s) && Runs(c, s, events) && TimelyRun(c, s, events)
    requires n in After(c, s, events).nodes
    ensures UsageIsTrue(After(c, s, events), n)
  {
    var t := After(c, s, events);
    TimelyRunsFit(c, s, events);
    InitIsInv(s);
    RunKeepsInv(c, s, events);
    WhenRunSeesTrueUsage(c, s, events, n);
    assert NodeOk(t, t.nodes[n]);
    forall i | 0 <= i < |t.nodes[n].pods| ensures !Hidden(t, t.nodes[n].pods[i]) && !Masked(t, t.nodes[n].pods[i]) {
      assert PodOk(t, t.nodes[n].pods[i]);
    }
  }

  // ---------- the balance in general ----------

  /** CPU that the pod's running binding cycle gives and Filter does not see. */
  ghost function Unseen(s: State, pod: Pod, name: string): int {
    if pod.uid in s.inFlight && (NumaZones(pod.result) != [] || pod.uid !in s.cache)
    then CpuOn(s.inFlight[pod.uid], name) else 0
  }

  /** CPU that Filter sees in the annotation of an earlier attempt. */
  ghost function Leftover(s: State, pod: Pod, name: string): int {
    if pod.uid in s.inFlight then CpuOn(NumaZones(pod.result), name) else 0
  }

  /** In any state a run reaches: what Filter sees and does not see is what is promised and what is left over. */
  lemma UsageBalances(s: State, n: string, name: string)
    requires Tracked(s) && n in s.nodes
    ensures var pods := s.nodes[n].pods;
      Charged(pods, s.cache, name) + SumOf(pods, (p: Pod) => Unseen(s, p, name))
      == Committed(s, pods, name) + SumOf(pods, (p: Pod) => Leftover(s, p, name))
  {
    var pods := s.nodes[n].pods;
    forall i | 0 <= i < |pods|
      ensures CpuOn(VisibleZones(pods[i], s.cache), name) + Unseen(s, pods[i], name)
        == CpuOn(CommittedZones(s, pods[i]), name) + Leftover(s, pods[i], name)
    {
      assert PodTracked(s, pods[i]);
      assert CpuOn([], name) == 0;
    }
    SumBalance(pods, (p: Pod) => CpuOn(VisibleZones(p, s.cache), name), (p: Pod) => Unseen(s, p, name),
               (p: Pod) => CpuOn(CommittedZones(s, p), name), (p: Pod) => Leftover(s, p, name));
  }
}
