/** What collection leaves unobservable, and the sliding window of a scheduler that stamps with its own clock. */
module BindingRuns {
  import opened Bindings

  // ---------- timestamps ----------

  /** The timestamps of m, with multiplicity. */
  ghost function Stamps(m: multiset<Binding>): multiset<int>
    decreases |m|
  {
    if m == multiset{} then multiset{}
    else
      var b :| b in m;
      Stamps(m - multiset{b}) + multiset{b.timestamp}
  }

  lemma SwapLast(s: multiset<int>, a: int, b: int)
    ensures s + multiset{a} + multiset{b} == s + multiset{b} + multiset{a}
  {
  }

  lemma CancelLast(s: multiset<int>, s': multiset<int>, a: int)
    requires s + multiset{a} == s' + multiset{a}
    ensures s == s'
  {
    assert s == (s + multiset{a}) - multiset{a};
    assert s' == (s' + multiset{a}) - multiset{a};
  }

  lemma {:induction false} StampsOfPart(m: multiset<Binding>, x: Binding)
    requires x in m
    ensures Stamps(m) == Stamps(m - multiset{x}) + multiset{x.timestamp}
    decreases |m|
  {
    var b :| b in m && Stamps(m) == Stamps(m - multiset{b}) + multiset{b.timestamp};
    if b != x {
      StampsOfPart(m - multiset{b}, x);
      StampsOfPart(m - multiset{x}, b);
      assert m - multiset{b} - multiset{x} == m - multiset{x} - multiset{b};
      SwapLast(Stamps(m - multiset{b} - multiset{x}), x.timestamp, b.timestamp);
    }
  }

  lemma StampsAdd(m: multiset<Binding>, x: Binding)
    ensures Stamps(m + multiset{x}) == Stamps(m) + multiset{x.timestamp}
  {
    StampsOfPart(m + multiset{x}, x);
    assert m + multiset{x} - multiset{x} == m;
  }

  lemma {:induction false} StampsSize(m: multiset<Binding>)
    ensures |Stamps(m)| == |m|
    decreases |m|
  {
    if m != multiset{} {
      var b :| b in m;
      StampsOfPart(m, b);
      StampsSize(m - multiset{b});
    }
  }

  lemma {:induction false} StampIn(m: multiset<Binding>, t: int)
    ensures t in Stamps(m) <==> exists b :: b in m && b.timestamp == t
    decreases |m|
  {
    if b :| b in m && b.timestamp == t {
      StampsOfPart(m, b);
    } else if m != multiset{} {
      var b :| b in m;
      StampsOfPart(m, b);
      StampIn(m - multiset{b}, t);
    }
  }

  /** The oldest bindings of two collections with the same timestamps are equally old. */
  lemma SameOldest(h1: multiset<Binding>, h2: multiset<Binding>, g1: Binding, g2: Binding)
    requires Stamps(h1) == Stamps(h2) && Oldest(g1, h1) && Oldest(g2, h2)
    ensures g1.timestamp == g2.timestamp
  {
    StampIn(h1, g1.timestamp);
    StampIn(h2, g2.timestamp);
    StampIn(h2, g1.timestamp);
    StampIn(h1, g2.timestamp);
  }

  // ---------- collection is unobservable ----------

  /** Above the line, h1 and h2 hold the same timestamps, and h1 holds no more bindings than h2. */
  ghost predicate AgreeAbove(size: int, h1: multiset<Binding>, h2: multiset<Binding>, line: int) {
    && Stamps(Newer(h1, line)) == Stamps(Newer(h2, line))
    && |h1| <= |h2|
    && (size > 0 ==> |h2| <= size)
  }

  lemma NewerIsPart(h: multiset<Binding>, line: int)
    ensures Newer(h, line) <= h && |Newer(h, line)| <= |h|
    ensures |Newer(h, line)| == |h| ==> Newer(h, line) == h
  {
    SubsetSize(Newer(h, line), h);
  }

  /** Evicting from a full h2 an element above the line means that h1 is full too and evicts as old a one. */
  lemma EvictionsAgree(size: int, h1: multiset<Binding>, h2: multiset<Binding>, line: int, g2: Binding)
    requires AgreeAbove(size, h1, h2, line) && |h2| == size && Oldest(g2, h2) && g2.timestamp > line
    ensures |h1| == size && Newer(h1, line) == h1
    ensures forall g1 :: Oldest(g1, h1) ==> g1.timestamp == g2.timestamp
  {
    NewerAll(h2, line, g2);
    StampsSize(Newer(h1, line));
    StampsSize(h2);
    NewerIsPart(h1, line);
    forall g1 | Oldest(g1, h1) ensures g1.timestamp == g2.timestamp { SameOldest(h1, h2, g1, g2); }
  }

  /** If h1 is full and its oldest element is above the line, so is h2's. */
  lemma FullAbove(size: int, h1: multiset<Binding>, h2: multiset<Binding>, line: int, g1: Binding, g2: Binding)
    requires size > 0 && AgreeAbove(size, h1, h2, line) && |h1| == size
    requires Oldest(g1, h1) && g1.timestamp > line && Oldest(g2, h2)
    ensures g2.timestamp > line
  {
    NewerAll(h1, line, g1);
    StampsSize(h1);
    StampsSize(Newer(h2, line));
    NewerIsPart(h2, line);
    assert Newer(h2, line)[g2] == h2[g2] > 0;
  }

  /** Dropping a binding takes its timestamp out of the part above the line, if it is there. */
  lemma StampsAfterDrop(h: multiset<Binding>, g: Binding, line: int)
    requires g in h
    ensures Stamps(Newer(h - multiset{g}, line))
      == if g.timestamp > line then Stamps(Newer(h, line)) - multiset{g.timestamp} else Stamps(Newer(h, line))
  {
    NewerDrop(h, g, line);
    if g.timestamp > line {
      StampsAdd(Newer(h - multiset{g}, line), g);
    } else {
      assert Newer(h, line) == Newer(h - multiset{g}, line);
    }
  }

  lemma PushAgrees(size: int, h1: multiset<Binding>, h2: multiset<Binding>, b: Binding, line: int)
    requires AgreeAbove(size, h1, h2, line) && (size > 0 ==> |h2| < size)
    ensures AgreeAbove(size, h1 + multiset{b}, h2 + multiset{b}, line)
  {
    NewerAdd(h1, b, line);
    NewerAdd(h2, b, line);
    if b.timestamp > line {
      StampsAdd(Newer(h1, line), b);
      StampsAdd(Newer(h2, line), b);
    } else {
      assert Newer(h1, line) + multiset{} == Newer(h1, line);
      assert Newer(h2, line) + multiset{} == Newer(h2, line);
    }
  }

  /** What is left of a collection when it makes room for a new binding. */
  ghost predicate MadeRoom(size: int, h: multiset<Binding>, kept: multiset<Binding>) {
    if |h| == size then exists gone :: Oldest(gone, h) && kept == h - multiset{gone} else kept == h
  }

  /** Only h2 is full: the one it gives up was not above the line. */
  lemma OnlyLargerIsFull(size: int, h1: multiset<Binding>, h2: multiset<Binding>, line: int, g2: Binding)
    requires AgreeAbove(size, h1, h2, line) && |h1| < |h2| == size && Oldest(g2, h2)
    ensures AgreeAbove(size, h1, h2 - multiset{g2}, line)
  {
    StampsAfterDrop(h2, g2, line);
    if g2.timestamp > line { EvictionsAgree(size, h1, h2, line, g2); }
  }

  /** Both are full: above the line, they give up equally old ones. */
  lemma SameSide(size: int, h1: multiset<Binding>, h2: multiset<Binding>, line: int, g1: Binding, g2: Binding)
    requires size > 0 && AgreeAbove(size, h1, h2, line) && |h1| == |h2| == size && Oldest(g1, h1) && Oldest(g2, h2)
    ensures g1.timestamp > line <==> g2.timestamp > line
    ensures g2.timestamp > line ==> g1.timestamp == g2.timestamp
  {
    if g2.timestamp > line {
      EvictionsAgree(size, h1, h2, line, g2);
    } else if g1.timestamp > line {
      FullAbove(size, h1, h2, line, g1, g2);
    }
  }

  lemma DropsAgree(h1: multiset<Binding>, h2: multiset<Binding>, line: int, g1: Binding, g2: Binding)
    requires g1 in h1 && g2 in h2 && Stamps(Newer(h1, line)) == Stamps(Newer(h2, line))
    requires g1.timestamp > line <==> g2.timestamp > line
    requires g2.timestamp > line ==> g1.timestamp == g2.timestamp
    ensures Stamps(Newer(h1 - multiset{g1}, line)) == Stamps(Newer(h2 - multiset{g2}, line))
  {
    StampsAfterDrop(h1, g1, line);
    StampsAfterDrop(h2, g2, line);
  }

  lemma DropSize(h: multiset<Binding>, g: Binding)
    requires g in h
    ensures |h - multiset{g}| == |h| - 1
  {
  }

  lemma BothAreFull(size: int, h1: multiset<Binding>, h2: multiset<Binding>, line: int, g1: Binding, g2: Binding)
    requires size > 0 && AgreeAbove(size, h1, h2, line) && |h1| == |h2| == size && Oldest(g1, h1) && Oldest(g2, h2)
    ensures AgreeAbove(size, h1 - multiset{g1}, h2 - multiset{g2}, line)
  {
    SameSide(size, h1, h2, line, g1, g2);
    DropsAgree(h1, h2, line, g1, g2);
    DropSize(h1, g1);
    DropSize(h2, g2);
  }

  lemma RoomAgrees(size: int, h1: multiset<Binding>, h2: multiset<Binding>, line: int,
                   k1: multiset<Binding>, k2: multiset<Binding>)
    requires size != 0 && AgreeAbove(size, h1, h2, line) && MadeRoom(size, h1, k1) && MadeRoom(size, h2, k2)
    ensures AgreeAbove(size, k1, k2, line) && (size > 0 ==> |k2| < size)
  {
    if |h2| == size {
      var g2 :| Oldest(g2, h2) && k2 == h2 - multiset{g2};
      if |h1| == size {
        var g1 :| Oldest(g1, h1) && k1 == h1 - multiset{g1};
        BothAreFull(size, h1, h2, line, g1, g2);
      } else {
        OnlyLargerIsFull(size, h1, h2, line, g2);
      }
    }
  }

  lemma AddsAgree(size: int, h1: multiset<Binding>, h2: multiset<Binding>, b: Binding,
                  h1': multiset<Binding>, h2': multiset<Binding>, line: int)
    requires size != 0 && AgreeAbove(size, h1, h2, line) && AddStep(size, h1, b, h1') && AddStep(size, h2, b, h2')
    ensures AgreeAbove(size, h1', h2', line)
  {
    var k1, k2 := h1' - multiset{b}, h2' - multiset{b};
    RoomOf(size, h1, b, h1');
    RoomOf(size, h2, b, h2');
    RoomAgrees(size, h1, h2, line, k1, k2);
    PushAgrees(size, k1, k2, b, line);
  }

  lemma RoomOf(size: int, h: multiset<Binding>, b: Binding, h': multiset<Binding>)
    requires AddStep(size, h, b, h')
    ensures MadeRoom(size, h, h' - multiset{b}) && h' == (h' - multiset{b}) + multiset{b}
  {
    if |h| == size {
      var gone :| Oldest(gone, h) && h' == h - multiset{gone} + multiset{b};
      assert h' - multiset{b} == h - multiset{gone};
    } else {
      assert h' - multiset{b} == h;
    }
  }

  /**
   * The same operations on a collecting heap and on one that never collects leave the same timestamps
   * above every line collection has not passed.
   */
  lemma {:induction false} CollectionIsUnobservable(
    size: int, gcRange: int, ops: seq<Op>, h1: seq<multiset<Binding>>, h2: seq<multiset<Binding>>, line: int)
    requires size != 0 && IsRun(size, gcRange, ops, h1) && IsRun(size, 0, ops, h2) && Covers(line, ops, gcRange)
    ensures AgreeAbove(size, h1[|ops|], h2[|ops|], line)
  {
    if ops != [] {
      var n := |ops| - 1;
      RunPrefix(size, gcRange, ops, h1);
      RunPrefix(size, 0, ops, h2);
      CollectionIsUnobservable(size, gcRange, ops[..n], h1[..n + 1], h2[..n + 1], line);
      match ops[n]
      case Add(b) => AddsAgree(size, h1[n], h2[n], b, h1[n + 1], h2[n + 1], line);
      case Collect(now) =>
        if gcRange != 0 {
          NewerTwice(h1[n], Line(now, gcRange), line);
          NewerIsPart(h1[n], Line(now, gcRange));
        }
    }
  }

  // ---------- counts per node ----------

  /** A timestamp of m determines the node. */
  ghost predicate StampTellsNode(m: multiset<Binding>) {
    forall a, b :: a in m && b in m && a.timestamp == b.timestamp ==> a.node == b.node
  }

  lemma OnNodeAdd(m: multiset<Binding>, b: Binding, node: string)
    ensures OnNode(m + multiset{b}, node) == OnNode(m, node) + if b.node == node then multiset{b} else multiset{}
  {
    var left, right := OnNode(m + multiset{b}, node),
                       OnNode(m, node) + if b.node == node then multiset{b} else multiset{};
    forall x ensures left[x] == right[x] {}
  }

  lemma OnNodeStep(m: multiset<Binding>, b: Binding, node: string)
    requires b in m
    ensures |OnNode(m, node)| == |OnNode(m - multiset{b}, node)| + if b.node == node then 1 else 0
  {
    assert m == m - multiset{b} + multiset{b};
    OnNodeAdd(m - multiset{b}, b, node);
  }

  /** nodeAt gives the node of every binding of m from its timestamp. */
  ghost predicate NodesByStamp(m: multiset<Binding>, nodeAt: int -> string) {
    forall b :: b in m ==> b.node == nodeAt(b.timestamp)
  }

  /** Each binding of m1 has a twin in m2: as old, on the same node, and the rests agree again. */
  lemma Twin(m1: multiset<Binding>, m2: multiset<Binding>, nodeAt: int -> string, a: Binding) returns (b: Binding)
    requires NodesByStamp(m1, nodeAt) && NodesByStamp(m2, nodeAt) && Stamps(m1) == Stamps(m2) && a in m1
    ensures b in m2 && b.node == a.node
    ensures Stamps(m1 - multiset{a}) == Stamps(m2 - multiset{b})
  {
    StampIn(m1, a.timestamp);
    StampIn(m2, a.timestamp);
    b :| b in m2 && b.timestamp == a.timestamp;
    StampsOfPart(m1, a);
    StampsOfPart(m2, b);
    CancelLast(Stamps(m1 - multiset{a}), Stamps(m2 - multiset{b}), a.timestamp);
  }

  lemma {:induction false} SameStampsSameCount(
    m1: multiset<Binding>, m2: multiset<Binding>, nodeAt: int -> string, node: string)
    requires NodesByStamp(m1, nodeAt) && NodesByStamp(m2, nodeAt) && Stamps(m1) == Stamps(m2)
    ensures |OnNode(m1, node)| == |OnNode(m2, node)|
    decreases |m1|
  {
    if m1 == multiset{} {
      StampsSize(m1);
      StampsSize(m2);
      assert m2 == multiset{};
    } else {
      var a :| a in m1;
      var b := Twin(m1, m2, nodeAt, a);
      OnNodeStep(m1, a, node);
      OnNodeStep(m2, b, node);
      SameStampsSameCount(m1 - multiset{a}, m2 - multiset{b}, nodeAt, node);
    }
  }

  /** The node of the bindings of m with timestamp t, if there are any. */
  ghost function NodeAt(m: multiset<Binding>, t: int): string {
    if b :| b in m && b.timestamp == t then b.node else ""
  }

  lemma NodesOfPart(part: multiset<Binding>, all: multiset<Binding>)
    requires part <= all && StampTellsNode(all)
    ensures NodesByStamp(part, t => NodeAt(all, t))
  {
    forall b | b in part ensures b.node == NodeAt(all, b.timestamp) {
      assert all[b] >= part[b] > 0;
    }
  }

  /** Collection changes no count of a hot value: every query range is at most the collection range. */
  lemma CountsIgnoreCollection(size: int, gcRange: int, ops: seq<Op>, h1: seq<multiset<Binding>>,
                               h2: seq<multiset<Binding>>, node: string, now: int, range: int)
    requires size != 0 && IsRun(size, gcRange, ops, h1) && IsRun(size, 0, ops, h2)
    requires forall i :: 0 <= i < |ops| && ops[i].Collect? ==> ops[i].now <= now
    requires gcRange == 0 || range <= gcRange
    requires StampTellsNode(History(ops))
    ensures Count(h1[|ops|], node, Line(now, range)) == Count(h2[|ops|], node, Line(now, range))
  {
    var line := Line(now, range);
    QueriesAreCovered(ops, gcRange, now, range);
    CollectionIsUnobservable(size, gcRange, ops, h1, h2, line);
    assert Covers(line, ops, 0);
    RunIsExactOrFull(size, gcRange, ops, h1, line);
    RunIsExactOrFull(size, 0, ops, h2, line);
    NewerIsPart(h1[|ops|], line);
    NewerIsPart(h2[|ops|], line);
    NodesOfPart(Newer(h1[|ops|], line), History(ops));
    NodesOfPart(Newer(h2[|ops|], line), History(ops));
    SameStampsSameCount(Newer(h1[|ops|], line), Newer(h2[|ops|], line), t => NodeAt(History(ops), t), node);
  }

  // ---------- the sliding window ----------

  /** When an operation happens: an add is stamped with the clock, as PostBind does. */
  function At(op: Op): int {
    match op case Add(b) => b.timestamp case Collect(now) => now
  }

  ghost predicate ClockMoves(ops: seq<Op>) {
    forall i, j :: 0 <= i < j < |ops| ==> At(ops[i]) <= At(ops[j])
  }

  /** The timestamps added, in order. */
  function AddedAt(ops: seq<Op>): seq<int> {
    if ops == [] then []
    else AddedAt(ops[..|ops| - 1]) + if ops[|ops| - 1].Add? then [ops[|ops| - 1].b.timestamp] else []
  }

  /** The timestamp is newer than the line of every collection. */
  ghost predicate Uncollected(t: int, ops: seq<Op>, gcRange: int) {
    forall i :: 0 <= i < |ops| && ops[i].Collect? && gcRange != 0 ==> t > Line(ops[i].now, gcRange)
  }

  /** The i-th add is among the last size, and no collection has reached it. */
  ghost predicate InWindow(size: nat, gcRange: int, ops: seq<Op>, i: nat)
    requires i < |AddedAt(ops)|
  {
    i >= |AddedAt(ops)| - size && Uncollected(AddedAt(ops)[i], ops, gcRange)
  }

  /** The adds from k on are exactly those in the window. */
  ghost predicate WindowStart(size: nat, gcRange: int, ops: seq<Op>, k: nat) {
    && k <= |AddedAt(ops)|
    && forall i: nat :: i < |AddedAt(ops)| ==> (i >= k <==> InWindow(size, gcRange, ops, i))
  }

  /** The heap holds the timestamps of the adds from k on. */
  ghost predicate Window(size: nat, gcRange: int, ops: seq<Op>, h: multiset<Binding>, k: nat) {
    WindowStart(size, gcRange, ops, k) && Stamps(h) == multiset(AddedAt(ops)[k..])
  }

  lemma {:induction false} AddsAreBounded(ops: seq<Op>, t: int)
    requires forall i :: 0 <= i < |ops| ==> At(ops[i]) <= t
    ensures forall i :: 0 <= i < |AddedAt(ops)| ==> AddedAt(ops)[i] <= t
  {
    if ops != [] {
      AddsAreBounded(ops[..|ops| - 1], t);
      assert At(ops[|ops| - 1]) <= t;
    }
  }

  lemma {:induction false} AddsFollowTheClock(ops: seq<Op>)
    requires ClockMoves(ops)
    ensures forall i, j :: 0 <= i < j < |AddedAt(ops)| ==> AddedAt(ops)[i] <= AddedAt(ops)[j]
  {
    if ops != [] {
      var n := |ops| - 1;
      AddsFollowTheClock(ops[..n]);
      AddsAreBounded(ops[..n], At(ops[n]));
    }
  }

  /** The part of a multiset of timestamps that is newer than the line. */
  ghost predicate NewerPart(part: multiset<int>, whole: multiset<int>, line: int) {
    forall t :: part[t] == if t > line then whole[t] else 0
  }

  lemma NewerPartGrows(part: multiset<int>, whole: multiset<int>, line: int, t: int)
    requires NewerPart(part, whole, line)
    ensures NewerPart(if t > line then part + multiset{t} else part, whole + multiset{t}, line)
  {
  }

  /** The stamps of what is newer than a line are the stamps newer than the line. */
  lemma {:induction false} NewerStamps(h: multiset<Binding>, line: int)
    ensures NewerPart(Stamps(Newer(h, line)), Stamps(h), line)
    decreases |h|
  {
    if h == multiset{} {
      assert Newer(h, line) == multiset{};
    } else {
      var b :| b in h;
      var rest := h - multiset{b};
      NewerStamps(rest, line);
      StampsOfPart(h, b);
      StampsAfterDrop(h, b, line);
      if b.timestamp > line {
        NewerDrop(h, b, line);
        StampsAdd(Newer(rest, line), b);
      }
      NewerPartGrows(Stamps(Newer(rest, line)), Stamps(rest), line, b.timestamp);
    }
  }

  /** A sorted row splits at a line: what is newer is a tail. */
  lemma {:induction false} TailAbove(s: seq<int>, line: int) returns (j: nat)
    requires forall i, k :: 0 <= i < k < |s| ==> s[i] <= s[k]
    ensures j <= |s| && forall i :: 0 <= i < |s| ==> (i >= j <==> s[i] > line)
    ensures NewerPart(multiset(s[j..]), multiset(s), line)
  {
    j := 0;
    while j < |s| && s[j] <= line
      invariant j <= |s| && forall i :: 0 <= i < j ==> s[i] <= line
    {
      j := j + 1;
    }
    assert s == s[..j] + s[j..];
    forall t ensures multiset(s[j..])[t] == if t > line then multiset(s)[t] else 0 {
      if t > line { assert t !in s[..j]; } else { assert t !in s[j..]; }
    }
  }

  // ---------- one operation on the window ----------

  /** Where the window starts after an add that finds kept bindings in a heap of the given size. */
  lemma WindowStartAfterAdd(size: nat, gcRange: int, ops: seq<Op>, b: Binding, k: nat, k': nat)
    requires size > 0 && WindowStart(size, gcRange, ops, k) && Uncollected(b.timestamp, ops, gcRange)
    requires |AddedAt(ops)| - k <= size && k' == if |AddedAt(ops)| - k == size then k + 1 else k
    ensures AddedAt(ops + [Add(b)]) == AddedAt(ops) + [b.timestamp]
    ensures WindowStart(size, gcRange, ops + [Add(b)], k')
  {
    var ops', adds := ops + [Add(b)], AddedAt(ops);
    assert ops'[..|ops|] == ops;
    SameUncollected(ops, Add(b), gcRange);
    var adds' := AddedAt(ops');
    forall i: nat | i < |adds'| ensures i >= k' <==> InWindow(size, gcRange, ops', i) {
      if i < |adds| {
        assert adds'[i] == adds[i];
        assert i >= k <==> InWindow(size, gcRange, ops, i);
      }
    }
  }

  lemma StampsAfterEvict(h: multiset<Binding>, gone: Binding, kept: seq<int>)
    requires Oldest(gone, h) && Stamps(h) == multiset(kept) && kept != []
    requires forall i, j :: 0 <= i < j < |kept| ==> kept[i] <= kept[j]
    ensures Stamps(h - multiset{gone}) == multiset(kept[1..])
  {
    OldestIsFirst(h, gone, kept);
    StampsOfPart(h, gone);
    HeadAndTail(kept);
    CancelLast(Stamps(h - multiset{gone}), multiset(kept[1..]), kept[0]);
  }

  lemma HeadAndTail(s: seq<int>)
    requires s != []
    ensures multiset(s) == multiset(s[1..]) + multiset{s[0]}
  {
    assert s == [s[0]] + s[1..];
  }

  /** The timestamps of a heap after an add, when it held the sorted row kept. */
  lemma StampsAfterAdd(size: int, h: multiset<Binding>, b: Binding, h': multiset<Binding>, kept: seq<int>)
    requires size > 0 && AddStep(size, h, b, h') && Stamps(h) == multiset(kept)
    requires forall i, j :: 0 <= i < j < |kept| ==> kept[i] <= kept[j]
    ensures |h| == |kept|
    ensures Stamps(h') == multiset((if |h| == size then kept[1..] else kept) + [b.timestamp])
  {
    StampsSize(h);
    assert |multiset(kept)| == |kept|;
    if |h| == size {
      var gone :| Oldest(gone, h) && h' == h - multiset{gone} + multiset{b};
      StampsAfterEvict(h, gone, kept);
      StampsAdd(h - multiset{gone}, b);
    } else {
      StampsAdd(h, b);
    }
  }

  lemma SuffixAfterAdd(adds: seq<int>, t: int, k: nat, k': nat)
    requires k <= k' <= k + 1 && k' <= |adds| + 1 && k <= |adds| && (k' > k ==> k < |adds|)
    ensures (adds + [t])[k'..] == (if k' > k then adds[k..][1..] else adds[k..]) + [t]
  {
  }

  lemma WindowAfterAdd(size: nat, gcRange: int, ops: seq<Op>, b: Binding, h: multiset<Binding>,
                       h': multiset<Binding>, k: nat) returns (k': nat)
    requires size > 0 && Window(size, gcRange, ops, h, k) && AddStep(size, h, b, h') && |h| <= size
    requires ClockMoves(ops) && Uncollected(b.timestamp, ops, gcRange)
    ensures Window(size, gcRange, ops + [Add(b)], h', k')
  {
    var adds := AddedAt(ops);
    AddsFollowTheClock(ops);
    StampsAfterAdd(size, h, b, h', adds[k..]);
    k' := if |h| == size then k + 1 else k;
    WindowStartAfterAdd(size, gcRange, ops, b, k, k');
    SuffixAfterAdd(adds, b.timestamp, k, k');
  }

  lemma SameUncollected(ops: seq<Op>, add: Op, gcRange: int)
    requires add.Add?
    ensures forall t :: Uncollected(t, ops + [add], gcRange) <==> Uncollected(t, ops, gcRange)
  {
    var ops' := ops + [add];
    assert forall i :: 0 <= i < |ops| ==> ops'[i] == ops[i];
    forall t | Uncollected(t, ops', gcRange) ensures Uncollected(t, ops, gcRange) {
      forall i | 0 <= i < |ops| && ops[i].Collect? && gcRange != 0 ensures t > Line(ops[i].now, gcRange) {
        assert ops'[i] == ops[i];
      }
    }
  }

  /** The oldest binding carries the first of the sorted timestamps. */
  lemma OldestIsFirst(h: multiset<Binding>, gone: Binding, stamps: seq<int>)
    requires Oldest(gone, h) && Stamps(h) == multiset(stamps) && stamps != []
    requires forall i, j :: 0 <= i < j < |stamps| ==> stamps[i] <= stamps[j]
    ensures gone.timestamp == stamps[0]
  {
    StampIn(h, gone.timestamp);
    StampIn(h, stamps[0]);
    assert stamps[0] in multiset(stamps) && gone.timestamp in stamps;
  }

  lemma UncollectedBy(ops: seq<Op>, now: int, gcRange: int, t: int)
    ensures Uncollected(t, ops + [Collect(now)], gcRange)
      <==> Uncollected(t, ops, gcRange) && (gcRange != 0 ==> t > Line(now, gcRange))
  {
    var ops' := ops + [Collect(now)];
    assert forall i :: 0 <= i < |ops| ==> ops'[i] == ops[i];
    if Uncollected(t, ops', gcRange) {
      assert gcRange != 0 ==> t > Line(ops'[|ops|].now, gcRange);
      forall i | 0 <= i < |ops| && ops[i].Collect? && gcRange != 0 ensures t > Line(ops[i].now, gcRange) {
        assert ops'[i] == ops[i];
      }
    }
  }

  lemma CollectAddsNothing(ops: seq<Op>, now: int)
    ensures AddedAt(ops + [Collect(now)]) == AddedAt(ops)
  {
    assert (ops + [Collect(now)])[..|ops|] == ops;
  }

  /** Where the window starts after a collection: at the first kept add above its line. */
  lemma WindowStartAfterCollect(size: nat, gcRange: int, ops: seq<Op>, now: int, k: nat, k': nat)
    requires WindowStart(size, gcRange, ops, k) && k <= k' <= |AddedAt(ops)|
    requires forall i :: k <= i < |AddedAt(ops)| ==>
      (i >= k' <==> (gcRange != 0 ==> AddedAt(ops)[i] > Line(now, gcRange)))
    ensures WindowStart(size, gcRange, ops + [Collect(now)], k')
  {
    var ops', adds := ops + [Collect(now)], AddedAt(ops);
    CollectAddsNothing(ops, now);
    forall i: nat | i < |AddedAt(ops')| ensures i >= k' <==> InWindow(size, gcRange, ops', i) {
      UncollectedBy(ops, now, gcRange, adds[i]);
      assert i >= k <==> InWindow(size, gcRange, ops, i);
    }
  }

  /** Where a sorted row of adds passes a line, counted from k. */
  lemma KeptAbove(adds: seq<int>, k: nat, line: int) returns (k': nat)
    requires k <= |adds| && forall i, j :: 0 <= i < j < |adds| ==> adds[i] <= adds[j]
    ensures k <= k' <= |adds| && forall i :: k <= i < |adds| ==> (i >= k' <==> adds[i] > line)
    ensures NewerPart(multiset(adds[k'..]), multiset(adds[k..]), line)
  {
    var j := TailAbove(adds[k..], line);
    k' := k + j;
    assert adds[k..][j..] == adds[k'..];
    forall i | k <= i < |adds| ensures i >= k' <==> adds[i] > line {
      assert adds[k..][i - k] == adds[i];
    }
  }

  lemma WindowAfterCollect(size: nat, gcRange: int, ops: seq<Op>, now: int, h: multiset<Binding>, k: nat)
    returns (k': nat)
    requires Window(size, gcRange, ops, h, k) && ClockMoves(ops)
    ensures Window(size, gcRange, ops + [Collect(now)], if gcRange == 0 then h else Newer(h, Line(now, gcRange)), k')
  {
    k' := k;
    if gcRange != 0 {
      AddsFollowTheClock(ops);
      k' := KeptAbove(AddedAt(ops), k, Line(now, gcRange));
      NewerStamps(h, Line(now, gcRange));
      SamePart(Stamps(Newer(h, Line(now, gcRange))), multiset(AddedAt(ops)[k'..]), Stamps(h), Line(now, gcRange));
    }
    CollectAddsNothing(ops, now);
    WindowStartAfterCollect(size, gcRange, ops, now, k, k');
  }

  lemma SamePart(a: multiset<int>, b: multiset<int>, whole: multiset<int>, line: int)
    requires NewerPart(a, whole, line) && NewerPart(b, whole, line)
    ensures a == b
  {
    forall t ensures a[t] == b[t] {}
  }

  lemma StampIsUncollected(ops: seq<Op>, gcRange: int)
    requires ops != [] && ops[|ops| - 1].Add? && ClockMoves(ops) && (gcRange == 0 || Seconds(gcRange) >= 1)
    ensures Uncollected(ops[|ops| - 1].b.timestamp, ops[..|ops| - 1], gcRange)
  {
    forall i | 0 <= i < |ops| - 1 && ops[i].Collect? ensures ops[i].now <= ops[|ops| - 1].b.timestamp {
      assert At(ops[i]) <= At(ops[|ops| - 1]);
    }
  }

  /**
   * Stamped with its own clock and collecting with a range of a second or more, the heap holds exactly
   * the timestamps of the last size adds that no collection has reached.
   */
  lemma {:induction false} SlidingWindow(size: nat, gcRange: int, ops: seq<Op>, heaps: seq<multiset<Binding>>)
    returns (k: nat)
    requires size > 0 && IsRun(size, gcRange, ops, heaps) && ClockMoves(ops)
    requires gcRange == 0 || Seconds(gcRange) >= 1
    ensures Window(size, gcRange, ops, heaps[|ops|], k)
  {
    if ops == [] {
      k := 0;
    } else {
      var n := |ops| - 1;
      RunPrefix(size, gcRange, ops, heaps);
      var k0 := SlidingWindow(size, gcRange, ops[..n], heaps[..n + 1]);
      assert ops == ops[..n] + [ops[n]];
      match ops[n]
      case Add(b) =>
        StampIsUncollected(ops, gcRange);
        StampsSize(heaps[n]);
        WindowIsSmall(size, gcRange, ops[..n], k0);
        k := WindowAfterAdd(size, gcRange, ops[..n], b, heaps[n], heaps[n + 1], k0);
      case Collect(now) =>
        k := WindowAfterCollect(size, gcRange, ops[..n], now, heaps[n], k0);
    }
  }

  lemma WindowIsSmall(size: nat, gcRange: int, ops: seq<Op>, k: nat)
    requires WindowStart(size, gcRange, ops, k)
    ensures |AddedAt(ops)| - k <= size && |multiset(AddedAt(ops)[k..])| == |AddedAt(ops)| - k
  {
    var adds := AddedAt(ops);
    assert |multiset(adds[k..])| == |adds[k..]|;
    if k < |adds| {
      assert InWindow(size, gcRange, ops, k);
    }
  }

  lemma OnlyOneDropped(h: multiset<Binding>, gone: Binding, b: Binding)
    requires gone in h
    ensures h + multiset{b} - (h - multiset{gone} + multiset{b}) == multiset{gone}
  {
  }

  /** Nothing that was dropped is newer than anything that was kept. */
  ghost predicate NoneNewer(dropped: multiset<Binding>, kept: multiset<Binding>) {
    forall x, y :: x in kept && y in dropped ==> y.timestamp <= x.timestamp
  }

  lemma DroppedIsOlder(h: multiset<Binding>, gone: Binding, b: Binding)
    requires Oldest(gone, h)
    ensures NoneNewer(multiset{gone}, h - multiset{gone} + multiset{b}) <==> gone.timestamp <= b.timestamp
  {
    assert b in h - multiset{gone} + multiset{b};
  }

  /** An add keeps the newest bindings exactly when there was room or the new one is not older than all the others. */
  lemma WhenAddKeepsNewest(size: int, h: multiset<Binding>, b: Binding, h': multiset<Binding>)
    requires size != 0 && AddStep(size, h, b, h')
    ensures NoneNewer(h + multiset{b} - h', h') <==> |h| != size || exists x :: x in h && x.timestamp <= b.timestamp
  {
    if |h| == size {
      var gone :| Oldest(gone, h) && h' == h - multiset{gone} + multiset{b};
      OnlyOneDropped(h, gone, b);
      DroppedIsOlder(h, gone, b);
    } else {
      assert h + multiset{b} - h' == multiset{};
    }
  }

  /** Without an ordered clock the heap need not hold the newest: a late arrival displaces a newer binding. */
  lemma LateArrivalDisplacesNewer(early: Binding, late: Binding)
    requires late.timestamp < early.timestamp
    ensures IsRun(1, 0, [Add(early), Add(late)], [multiset{}, multiset{early}, multiset{late}])
  {
    var heaps := [multiset{}, multiset{early}, multiset{late}];
    assert Oldest(early, multiset{early});
    assert multiset{early} - multiset{early} + multiset{late} == multiset{late};
    assert multiset{} + multiset{early} == multiset{early};
  }
}
