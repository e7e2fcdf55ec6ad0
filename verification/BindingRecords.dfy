/** The binding heap, sifted in place, and the records kept in it. */
module BindingRecordKeeping {
  import opened Bindings
  import opened BindingRuns

  function Parent(k: nat): nat
    requires k > 0
  {
    (k - 1) / 2
  }

  predicate NotOlder(s: seq<Binding>, a: nat, b: nat)
    requires a < |s| && b < |s|
  {
    s[a].timestamp <= s[b].timestamp
  }

  /** Every binding is no older than its parent. */
  ghost predicate HeapOrder(s: seq<Binding>) {
    forall k: nat :: 0 < k < |s| ==> NotOlder(s, Parent(k), k)
  }

  function Swapped(s: seq<Binding>, i: nat, j: nat): (t: seq<Binding>)
    requires i < |s| && j < |s|
    ensures |t| == |s|
  {
    s[i := s[j]][j := s[i]]
  }

  lemma SwapKeepsElements(s: seq<Binding>, i: nat, j: nat)
    requires i < |s| && j < |s|
    ensures multiset(Swapped(s, i, j)) == multiset(s)
  {
  }

  lemma {:induction false} RootIsOldest(s: seq<Binding>, k: nat)
    requires HeapOrder(s) && k < |s|
    ensures s[0].timestamp <= s[k].timestamp
  {
    if k > 0 {
      assert NotOlder(s, Parent(k), k);
      RootIsOldest(s, Parent(k));
    }
  }

  lemma RootOfAll(s: seq<Binding>)
    requires HeapOrder(s) && s != []
    ensures Oldest(s[0], multiset(s))
  {
    forall x | x in multiset(s) ensures s[0].timestamp <= x.timestamp {
      var k :| 0 <= k < |s| && s[k] == x;
      RootIsOldest(s, k);
    }
  }

  // ---------- sifting ----------

  /** Heap order except that j may be older than its parent; its children are no older than its parent. */
  ghost predicate UpTo(s: seq<Binding>, j: nat) {
    && (forall k: nat :: 0 < k < |s| && k != j ==> NotOlder(s, Parent(k), k))
    && (forall k: nat :: 0 < k < |s| && Parent(k) == j && 0 < j ==> NotOlder(s, Parent(j), k))
  }

  lemma SwapUp(s: seq<Binding>, j: nat)
    requires 0 < j < |s| && UpTo(s, j) && s[j].timestamp < s[Parent(j)].timestamp
    ensures UpTo(Swapped(s, Parent(j), j), Parent(j))
  {
    var i := Parent(j);
    var t := Swapped(s, i, j);
    forall k: nat | 0 < k < |t| && k != i ensures NotOlder(t, Parent(k), k) {
      assert k != j ==> NotOlder(s, Parent(k), k);
      assert Parent(k) == j ==> NotOlder(s, Parent(j), k);
    }
    forall k: nat | 0 < k < |t| && Parent(k) == i && 0 < i ensures NotOlder(t, Parent(i), k) {
      assert NotOlder(s, Parent(i), i);
      assert k != j ==> NotOlder(s, i, k);
    }
  }

  lemma UpDone(s: seq<Binding>, j: nat)
    requires j < |s| && UpTo(s, j) && (j > 0 ==> s[Parent(j)].timestamp <= s[j].timestamp)
    ensures HeapOrder(s)
  {
    forall k: nat | 0 < k < |s| ensures NotOlder(s, Parent(k), k) {
      assert k != j ==> NotOlder(s, Parent(k), k);
    }
  }

  /** Heap order among the first n except below i; the children of i are no older than its parent. */
  ghost predicate DownTo(s: seq<Binding>, i: nat, n: nat)
    requires n <= |s|
  {
    && (forall k: nat :: 0 < k < n && Parent(k) != i ==> NotOlder(s, Parent(k), k))
    && (forall k: nat :: 0 < k < n && Parent(k) == i && 0 < i ==> NotOlder(s, Parent(i), k))
  }

  /** j is the older child of i. */
  ghost predicate OlderChild(s: seq<Binding>, i: nat, j: nat, n: nat)
    requires n <= |s|
  {
    && i < j < n && Parent(j) == i
    && forall k: nat :: 0 < k < n && Parent(k) == i ==> NotOlder(s, j, k)
  }

  lemma TheOlderChild(s: seq<Binding>, i: nat, j: nat, n: nat)
    requires n <= |s| && 2 * i + 1 < n
    requires j == if 2 * i + 2 < n && s[2 * i + 2].timestamp < s[2 * i + 1].timestamp then 2 * i + 2 else 2 * i + 1
    ensures OlderChild(s, i, j, n)
  {
    forall k: nat | 0 < k < n && Parent(k) == i ensures NotOlder(s, j, k) {
      assert k == 2 * i + 1 || k == 2 * i + 2;
    }
  }

  lemma SwapDown(s: seq<Binding>, i: nat, j: nat, n: nat)
    requires n <= |s| && OlderChild(s, i, j, n) && DownTo(s, i, n) && s[j].timestamp < s[i].timestamp
    ensures DownTo(Swapped(s, i, j), j, n)
  {
    var t := Swapped(s, i, j);
    forall k: nat | 0 < k < n && Parent(k) != j ensures NotOlder(t, Parent(k), k) {
      if Parent(k) == i {
        assert NotOlder(s, j, k);
      } else {
        assert NotOlder(s, Parent(k), k);
        if k == i { assert NotOlder(s, Parent(i), j); }
      }
    }
    forall k: nat | 0 < k < n && Parent(k) == j ensures NotOlder(t, Parent(j), k) {
      assert NotOlder(s, Parent(k), k);
    }
  }

  lemma DownDone(s: seq<Binding>, i: nat, n: nat)
    requires n <= |s| && DownTo(s, i, n)
    requires forall k: nat :: 0 < k < n && Parent(k) == i ==> NotOlder(s, i, k)
    ensures HeapOrder(s[..n])
  {
    forall k: nat | 0 < k < |s[..n]| ensures NotOlder(s[..n], Parent(k), k) {
      assert NotOlder(s, Parent(k), k);
    }
  }

  lemma HeapWithoutRoot(s: seq<Binding>)
    requires HeapOrder(s) && |s| > 1
    ensures DownTo(Swapped(s, 0, |s| - 1), 0, |s| - 1)
  {
    var n := |s| - 1;
    forall k: nat | 0 < k < n && Parent(k) != 0 ensures NotOlder(Swapped(s, 0, n), Parent(k), k) {
      assert NotOlder(s, Parent(k), k);
    }
  }

  lemma WithoutLast(s: seq<Binding>, t: seq<Binding>, last: Binding)
    requires multiset(t) == multiset(s) && t != [] && t[|t| - 1] == last
    ensures multiset(t[..|t| - 1]) == multiset(s) - multiset{last}
  {
    assert t == t[..|t| - 1] + [last];
  }

  class BindingHeap {
    var items: seq<Binding>

    constructor ()
      ensures items == []
    {
      items := [];
    }

    predicate Less(i: nat, j: nat)
      requires i < |items| && j < |items|
      reads this
    {
      items[i].timestamp < items[j].timestamp
    }

    method Swap(i: nat, j: nat)
      requires i < |items| && j < |items|
      modifies this
      ensures items == Swapped(old(items), i, j)
    {
      items := items[i := items[j]][j := items[i]];
    }

    /** Moves j up until its parent is no newer. */
    method Up(j0: nat)
      requires j0 < |items| && UpTo(items, j0)
      modifies this
      ensures HeapOrder(items) && multiset(items) == old(multiset(items))
    {
      var j: nat := j0;
      while true
        invariant j < |items| && UpTo(items, j)
        invariant multiset(items) == old(multiset(items))
        decreases j
      {
        var i: nat := if j == 0 then 0 else (j - 1) / 2;
        if i == j || !Less(j, i) {
          break;
        }
        SwapUp(items, j);
        SwapKeepsElements(items, i, j);
        Swap(i, j);
        j := i;
      }
      UpDone(items, j);
    }

    /** Moves i down among the first n until its children are no older. */
    method Down(i0: nat, n: nat)
      requires i0 < n <= |items| && DownTo(items, i0, n)
      modifies this
      ensures |items| == |old(items)| && HeapOrder(items[..n])
      ensures multiset(items) == old(multiset(items))
      ensures forall k :: n <= k < |items| ==> items[k] == old(items[k])
    {
      var i: nat := i0;
      while true
        invariant i < n <= |items| == |old(items)| && DownTo(items, i, n)
        invariant multiset(items) == old(multiset(items))
        invariant forall k :: n <= k < |items| ==> items[k] == old(items[k])
        decreases n - i
      {
        var left := 2 * i + 1;
        if left >= n {
          break;
        }
        var j: nat := left;
        var right := left + 1;
        if right < n && Less(right, left) {
          j := right;
        }
        TheOlderChild(items, i, j, n);
        if !Less(j, i) {
          break;
        }
        SwapDown(items, i, j, n);
        SwapKeepsElements(items, i, j);
        Swap(i, j);
        i := j;
      }
      DownDone(items, i, n);
    }

    /** Appends, as the repository's own Push does. */
    method Push(b: Binding)
      modifies this
      ensures items == old(items) + [b]
    {
      items := items + [b];
    }

    /** Cuts off the last, as the repository's own Pop does. */
    method Pop() returns (last: Binding)
      requires items != []
      modifies this
      ensures items == old(items)[..|old(items)| - 1] && last == old(items)[|old(items)| - 1]
    {
      var n := |items|;
      last := items[n - 1];
      items := items[..n - 1];
    }

    /** Push of the heap package: append, then sift up. */
    method HeapPush(b: Binding)
      requires HeapOrder(items)
      modifies this
      ensures HeapOrder(items) && multiset(items) == old(multiset(items)) + multiset{b}
    {
      PushedIsUpTo(items, b);
      Push(b);
      Up(|items| - 1);
    }

    /** Brings the root to the end and the rest back in order. */
    method RootToEnd()
      requires HeapOrder(items) && items != []
      modifies this
      ensures |items| == |old(items)| && multiset(items) == old(multiset(items))
      ensures HeapOrder(items[..|items| - 1]) && items[|items| - 1] == old(items[0])
    {
      var n := |items| - 1;
      SwapKeepsElements(items, 0, n);
      if n > 0 {
        HeapWithoutRoot(items);
      }
      Swap(0, n);
      if n > 0 {
        Down(0, n);
      }
    }

    /** Pop of the heap package: one of the oldest bindings leaves. */
    method HeapPop() returns (oldest: Binding)
      requires HeapOrder(items) && items != []
      modifies this
      ensures HeapOrder(items) && Oldest(oldest, old(multiset(items)))
      ensures multiset(items) == old(multiset(items)) - multiset{oldest}
      ensures |items| == |old(items)| - 1
    {
      ghost var before := items;
      RootOfAll(items);
      RootToEnd();
      WithoutLast(before, items, before[0]);
      oldest := Pop();
    }
  }

  lemma PushedIsUpTo(s: seq<Binding>, b: Binding)
    requires HeapOrder(s)
    ensures UpTo(s + [b], |s|)
  {
    forall k: nat | 0 < k < |s| ensures NotOlder(s + [b], Parent(k), k) {
      assert NotOlder(s, Parent(k), k);
    }
  }

  // ---------- the records ----------

  lemma CountAdd(m: multiset<Binding>, b: Binding, node: string, line: int)
    ensures Count(m + multiset{b}, node, line)
      == Count(m, node, line) + if b.timestamp > line && b.node == node then 1 else 0
  {
    NewerAdd(m, b, line);
    if b.timestamp > line {
      OnNodeStep(Newer(m, line) + multiset{b}, b, node);
      assert Newer(m, line) + multiset{b} - multiset{b} == Newer(m, line);
    } else {
      assert Newer(m, line) + multiset{} == Newer(m, line);
    }
  }

  ghost function CountOf(s: seq<Binding>, node: string, line: int): nat {
    Count(multiset(s), node, line)
  }

  lemma CountNext(s: seq<Binding>, i: nat, node: string, line: int)
    requires i < |s|
    ensures CountOf(s[..i + 1], node, line)
      == CountOf(s[..i], node, line) + if s[i].timestamp > line && s[i].node == node then 1 else 0
  {
    assert s[..i + 1] == s[..i] + [s[i]];
    CountAdd(multiset(s[..i]), s[i], node, line);
  }

  /** The places of s that hold a binding of the node newer than the line. */
  function Recent(s: seq<Binding>, node: string, line: int): set<nat> {
    set i: nat | i < |s| && s[i].node == node && s[i].timestamp > line
  }

  lemma RecentNext(s: seq<Binding>, i: nat, node: string, line: int)
    requires i < |s|
    ensures |Recent(s[..i + 1], node, line)|
      == |Recent(s[..i], node, line)| + if s[i].timestamp > line && s[i].node == node then 1 else 0
  {
    var before, after := Recent(s[..i], node, line), Recent(s[..i + 1], node, line);
    assert i !in before;
    assert after == before + if s[i].timestamp > line && s[i].node == node then {i} else {};
  }

  lemma NoneRecent(node: string, line: int)
    ensures CountOf([], node, line) == 0 && Recent([], node, line) == {}
  {
  }

  lemma PutBack(m: multiset<Binding>, b: Binding)
    requires b in m
    ensures m - multiset{b} + multiset{b} == m
  {
  }

  lemma DropExpired(h: multiset<Binding>, b: Binding, line: int)
    requires b in h && b.timestamp <= line
    ensures Newer(h - multiset{b}, line) == Newer(h, line)
  {
    NewerDrop(h, b, line);
    assert Newer(h - multiset{b}, line) + multiset{} == Newer(h - multiset{b}, line);
  }

  lemma RunGrows(size: int, gcRange: int, ops: seq<Op>, heaps: seq<multiset<Binding>>, op: Op, h: multiset<Binding>)
    requires IsRun(size, gcRange, ops, heaps) && Step(size, gcRange, heaps[|ops|], op, h)
    ensures IsRun(size, gcRange, ops + [op], heaps + [h])
  {
    var ops', heaps' := ops + [op], heaps + [h];
    forall i | 0 <= i < |ops'| ensures Step(size, gcRange, heaps'[i], ops'[i], heaps'[i + 1]) {
      if i < |ops| {
        assert ops'[i] == ops[i] && heaps'[i] == heaps[i] && heaps'[i + 1] == heaps[i + 1];
      }
    }
  }

  class BindingRecords {
    const size: int
    const gcTimeRange: int
    const bindings: BindingHeap
    /** Everything done to the records so far, and the contents in between. */
    ghost var ops: seq<Op>
    ghost var heaps: seq<multiset<Binding>>

    ghost predicate Valid()
      reads this, bindings
    {
      && HeapOrder(bindings.items)
      && IsRun(size, gcTimeRange, ops, heaps)
      && multiset(bindings.items) == heaps[|ops|]
      && (size > 0 ==> |bindings.items| <= size)
    }

    constructor (size: int, timeRange: int)
      ensures Valid() && this.size == size && gcTimeRange == timeRange
      ensures ops == [] && bindings.items == [] && fresh(bindings)
    {
      var heap := new BindingHeap();
      this.size := size;
      this.gcTimeRange := timeRange;
      this.bindings := heap;
      this.ops := [];
      this.heaps := [multiset{}];
    }

    /** Size 0 is excluded: the source would pop an empty heap. A negative size never evicts. */
    method AddBinding(b: Binding)
      requires Valid() && size != 0
      modifies this, bindings
      ensures Valid() && ops == old(ops) + [Add(b)]
      ensures AddStep(size, old(multiset(bindings.items)), b, multiset(bindings.items))
    {
      ghost var before := multiset(bindings.items);
      assert |before| == |bindings.items|;
      if |bindings.items| == size {
        var gone := bindings.HeapPop();
        assert Oldest(gone, before);
      }
      bindings.HeapPush(b);
      ghost var after := multiset(bindings.items);
      assert |after| == |bindings.items|;
      RunGrows(size, gcTimeRange, ops, heaps, Add(b), after);
      ops, heaps := ops + [Add(b)], heaps + [after];
    }

    /** Pops until the oldest is newer than the line, and puts that one back. */
    method PopExpired(line: int)
      requires HeapOrder(bindings.items)
      modifies bindings
      ensures HeapOrder(bindings.items)
      ensures multiset(bindings.items) == Newer(old(multiset(bindings.items)), line)
    {
      ghost var kept := Newer(multiset(bindings.items), line);
      while |bindings.items| > 0
        invariant HeapOrder(bindings.items)
        invariant Newer(multiset(bindings.items), line) == kept
        decreases |bindings.items|
      {
        ghost var before := multiset(bindings.items);
        var binding := bindings.HeapPop();
        if binding.timestamp > line {
          NewerAll(before, line, binding);
          bindings.HeapPush(binding);
          PutBack(before, binding);
          return;
        }
        DropExpired(before, binding, line);
      }
    }

    method BindingsGC(now: int)
      requires Valid()
      modifies this, bindings
      ensures Valid() && ops == old(ops) + [Collect(now)]
      ensures multiset(bindings.items)
        == if gcTimeRange == 0 then old(multiset(bindings.items))
           else Newer(old(multiset(bindings.items)), Line(now, gcTimeRange))
      ensures forall line :: gcTimeRange != 0 && WholeSecondsBack(line, now, gcTimeRange) ==>
        multiset(bindings.items) == Newer(old(multiset(bindings.items)), line)
    {
      ghost var before := multiset(bindings.items);
      if gcTimeRange != 0 {
        PopExpired(Line(now, gcTimeRange));
      }
      ghost var after := multiset(bindings.items);
      NewerIsPart(before, Line(now, gcTimeRange));
      assert |before| == old(|bindings.items|) && |after| == |bindings.items|;
      WhenLineIsBack(now, gcTimeRange);
      RunGrows(size, gcTimeRange, ops, heaps, Collect(now), after);
      ops, heaps := ops + [Collect(now)], heaps + [after];
    }

    method CountIn(node: string, timeline: int) returns (cnt: nat)
      ensures cnt == Count(multiset(bindings.items), node, timeline) == |Recent(bindings.items, node, timeline)|
    {
      var items := bindings.items;
      cnt := 0;
      NoneRecent(node, timeline);
      assert items[..0] == [];
      for i := 0 to |items|
        invariant cnt == CountOf(items[..i], node, timeline) == |Recent(items[..i], node, timeline)|
      {
        CountNext(items, i, node, timeline);
        RecentNext(items, i, node, timeline);
        if items[i].timestamp > timeline && items[i].node == node {
          cnt := cnt + 1;
        }
      }
      assert items[..|items|] == items;
    }

    /** The count over the heap; inside the collection range, the count over all history unless the heap is full. */
    method GetLastNodeBindingCount(node: string, timeRange: int, now: int) returns (cnt: nat)
      requires Valid()
      ensures cnt == Count(multiset(bindings.items), node, Line(now, timeRange))
      ensures forall line :: WholeSecondsBack(line, now, timeRange) ==>
        cnt == Count(multiset(bindings.items), node, line) == |Recent(bindings.items, node, line)|
      ensures
        && (forall i :: 0 <= i < |ops| && ops[i].Collect? ==> ops[i].now <= now)
        && (gcTimeRange == 0 || timeRange <= gcTimeRange)
        ==>
          || cnt == Count(History(ops), node, Line(now, timeRange))
          || |Newer(multiset(bindings.items), Line(now, timeRange))| >= size - 1
    {
      cnt := CountIn(node, Line(now, timeRange));
      WhenLineIsBack(now, timeRange);
      if (forall i :: 0 <= i < |ops| && ops[i].Collect? ==> ops[i].now <= now)
        && (gcTimeRange == 0 || timeRange <= gcTimeRange) {
        CountIsExactOrSaturated(size, gcTimeRange, ops, heaps, node, now, timeRange);
      }
    }
  }
}
