/** The cache of topology results of pods that are reserved but not yet annotated. */
module AssumedCache {
  import opened Options
  import opened Topology

  datatype CacheError = NoError | EmptyUid | AlreadyAssumed | NotFound

  /** The key of a pod is its UID; a pod without one has no key. */
  function GetPodKey(pod: Pod): Option<string> {
    if pod.uid == "" then None else Some(pod.uid)
  }

  // ---------- the one map the cache stands for ----------

  function Forgotten(entries: map<string, Assumed>, uid: string): map<string, Assumed> {
    entries - {uid}
  }

  /** The entries a cleanup at now keeps: a deadline that has come but not passed still counts. */
  function Unexpired(entries: map<string, Assumed>, now: int): map<string, Assumed> {
    map k | k in entries && now <= entries[k].deadline :: entries[k]
  }

  // ---------- whole histories ----------

  /** The operations, with the clock readings that matter to them. */
  datatype CacheOp = Assume(uid: string, zones: seq<Zone>, at: int) | Forget(uid: string) | Cleanup(at: int)

  /** A pod without a UID leaves the cache alone, and so does one that is assumed already. */
  function Apply(entries: map<string, Assumed>, op: CacheOp, ttl: int): map<string, Assumed> {
    match op
    case Assume(uid, zones, at) =>
      if uid == "" || uid in entries then entries else entries[uid := Assumed(zones, at + ttl)]
    case Forget(uid) => if uid == "" then entries else Forgotten(entries, uid)
    case Cleanup(at) => Unexpired(entries, at)
  }

  function Replay(history: seq<CacheOp>, ttl: int): map<string, Assumed> {
    if history == [] then map[]
    else Apply(Replay(history[..|history| - 1], ttl), history[|history| - 1], ttl)
  }

  lemma ReplayStep(history: seq<CacheOp>, op: CacheOp, ttl: int)
    ensures Replay(history + [op], ttl) == Apply(Replay(history, ttl), op, ttl)
  {
    assert (history + [op])[..|history|] == history;
  }

  /** The step at i assumed uid, and nothing since has removed it. */
  ghost predicate AliveSince(history: seq<CacheOp>, ttl: int, uid: string, i: nat) {
    && i < |history| && uid != ""
    && history[i].Assume? && history[i].uid == uid
    && uid !in Replay(history[..i], ttl)
    && forall j :: i < j < |history| ==>
         && history[j] != Forget(uid)
         && (history[j].Cleanup? ==> history[j].at <= history[i].at + ttl)
  }

  /** uid is in the cache exactly when some successful assume has been neither forgotten nor outlived its time. */
  lemma {:induction false} CacheRemembersExactly(history: seq<CacheOp>, ttl: int, uid: string)
    ensures uid in Replay(history, ttl) <==> exists i: nat :: AliveSince(history, ttl, uid, i)
    ensures forall i: nat :: AliveSince(history, ttl, uid, i) ==>
      uid in Replay(history, ttl)
      && Replay(history, ttl)[uid] == Assumed(history[i].zones, history[i].at + ttl)
  {
    if history != [] {
      var n := |history| - 1;
      var init, last := history[..n], history[n];
      CacheRemembersExactly(init, ttl, uid);
      var before, after := Replay(init, ttl), Replay(history, ttl);
      forall i: nat | i < n ensures history[..i] == init[..i] && history[i] == init[i] {}
      forall i: nat | AliveSince(history, ttl, uid, i)
        ensures uid in after && after[uid] == Assumed(history[i].zones, history[i].at + ttl)
      {
        if i < n {
          assert AliveSince(init, ttl, uid, i);
        } else {
          assert history[..i] == init;
        }
      }
      if uid in after {
        if uid in before {
          var i: nat :| AliveSince(init, ttl, uid, i);
          assert AliveSince(history, ttl, uid, i);
        } else {
          assert history[..n] == init;
          assert AliveSince(history, ttl, uid, n);
        }
      }
    }
  }

  class PodTopologyCache {
    const ttl: int
    var podTopology: map<string, seq<Zone>>
    var podTopologyTTL: map<string, int>
    /** Everything done to the cache so far. */
    ghost var history: seq<CacheOp>

    ghost predicate SameKeys()
      reads this
    {
      podTopology.Keys == podTopologyTTL.Keys
    }

    /** The single map from pod to zones and deadline. */
    ghost function Entries(): map<string, Assumed>
      requires SameKeys()
      reads this
    {
      map k | k in podTopology :: Assumed(podTopology[k], podTopologyTTL[k])
    }

    /** Both maps have the same keys, and together they are what the history makes of the empty map. */
    ghost predicate Valid()
      reads this
    {
      SameKeys() && Entries() == Replay(history, ttl)
    }

    constructor (ttl: int)
      ensures Valid() && this.ttl == ttl && Entries() == map[] && history == []
    {
      this.ttl := ttl;
      podTopology, podTopologyTTL, history := map[], map[], [];
    }

    method AssumePod(pod: Pod, zones: seq<Zone>, now: int) returns (err: CacheError)
      requires Valid()
      modifies this
      ensures Valid() && history == old(history) + [Assume(pod.uid, zones, now)]
      ensures err == if pod.uid == "" then EmptyUid
                     else if pod.uid in old(Entries()) then AlreadyAssumed else NoError
      ensures Entries() == if err == NoError then old(Entries())[pod.uid := Assumed(zones, now + ttl)]
                           else old(Entries())
    {
      err := Insert(pod, zones, now);
      ReplayStep(history, Assume(pod.uid, zones, now), ttl);
      history := history + [Assume(pod.uid, zones, now)];
    }

    /** What AssumePod does to the two maps. */
    method Insert(pod: Pod, zones: seq<Zone>, now: int) returns (err: CacheError)
      requires SameKeys()
      modifies this`podTopology, this`podTopologyTTL
      ensures SameKeys()
      ensures err == if pod.uid == "" then EmptyUid
                     else if pod.uid in old(Entries()) then AlreadyAssumed else NoError
      ensures Entries() == if err == NoError then old(Entries())[pod.uid := Assumed(zones, now + ttl)]
                           else old(Entries())
    {
      var key := GetPodKey(pod);
      if key.None? {
        return EmptyUid;
      }
      if key.value in podTopology {
        return AlreadyAssumed;
      }
      var deadline := now + ttl;
      podTopology := podTopology[key.value := zones];
      podTopologyTTL := podTopologyTTL[key.value := deadline];
      err := NoError;
    }

    method ForgetPod(pod: Pod) returns (err: CacheError)
      requires Valid()
      modifies this
      ensures Valid() && history == old(history) + [Forget(pod.uid)]
      ensures err == if pod.uid == "" then EmptyUid else NoError
      ensures Entries() == if err == NoError then Forgotten(old(Entries()), pod.uid) else old(Entries())
    {
      var key := GetPodKey(pod);
      err := EmptyUid;
      if key.Some? {
        RemovePod(key.value);
        err := NoError;
      }
      ReplayStep(history, Forget(pod.uid), ttl);
      history := history + [Forget(pod.uid)];
    }

    method RemovePod(key: string)
      requires SameKeys()
      modifies this`podTopology, this`podTopologyTTL
      ensures SameKeys() && Entries() == Forgotten(old(Entries()), key)
    {
      podTopology := podTopology - {key};
      podTopologyTTL := podTopologyTTL - {key};
    }

    method PodCount() returns (n: nat)
      requires Valid()
      ensures n == |Entries()|
    {
      assert Entries().Keys == podTopology.Keys;
      n := |podTopology|;
    }

    /** Finds the pod's zones exactly while some assume of it is neither forgotten nor cleaned up. */
    method GetPodTopology(pod: Pod) returns (zones: seq<Zone>, err: CacheError)
      requires Valid()
      ensures err == if pod.uid == "" then EmptyUid else if pod.uid in Entries() then NoError else NotFound
      ensures zones == if err == NoError then Entries()[pod.uid].zones else []
      ensures err == NoError <==> exists i: nat :: AliveSince(history, ttl, pod.uid, i)
      ensures forall i: nat :: AliveSince(history, ttl, pod.uid, i) ==> zones == history[i].zones
    {
      CacheRemembersExactly(history, ttl, pod.uid);
      var key := GetPodKey(pod);
      if key.None? {
        return [], EmptyUid;
      }
      if key.value !in podTopology {
        return [], NotFound;
      }
      return podTopology[key.value], NoError;
    }

    method CleanupAssumedPods(now: int)
      requires Valid()
      modifies this
      ensures Valid() && history == old(history) + [Cleanup(now)]
      ensures Entries() == Unexpired(old(Entries()), now)
    {
      RemoveExpired(now);
      ReplayStep(history, Cleanup(now), ttl);
      history := history + [Cleanup(now)];
    }

    /** The loop over the deadlines. */
    method RemoveExpired(now: int)
      requires SameKeys()
      modifies this`podTopology, this`podTopologyTTL
      ensures SameKeys() && Entries() == Unexpired(old(Entries()), now)
    {
      var pending := podTopologyTTL.Keys;
      while pending != {}
        invariant SameKeys() && pending <= Entries().Keys
        invariant forall k :: k in Entries() ==> k in old(Entries()) && Entries()[k] == old(Entries())[k]
        invariant forall k :: k in old(Entries()) && now <= old(Entries())[k].deadline ==> k in Entries()
        invariant forall k :: k in Entries() && k !in pending ==> now <= Entries()[k].deadline
        decreases |pending|
      {
        var key :| key in pending;
        assert key in Entries();
        if now > podTopologyTTL[key] {
          RemovePod(key);
        }
        assert Entries().Keys == podTopology.Keys;
        pending := pending - {key};
      }
    }
  }
}
