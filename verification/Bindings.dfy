/** Histories of adds and collections over a bounded collection of bindings, and what a count over it is worth. */
module Bindings {

  datatype Binding = Binding(node: string, namespace: string, podName: string, timestamp: int)

  /** The bindings of m that are newer than the line. */
  ghost function Newer(m: multiset<Binding>, line: int): (r: multiset<Binding>)
    ensures forall b :: r[b] == if b.timestamp > line then m[b] else 0
    decreases |m|
  {
    if m == multiset{} then multiset{}
    else
      var b :| b in m;
      Newer(m - multiset{b}, line) + if b.timestamp > line then multiset{b} else multiset{}
  }

  /** The bindings of m on the node. */
  ghost function OnNode(m: multiset<Binding>, node: string): (r: multiset<Binding>)
    ensures forall b :: r[b] == if b.node == node then m[b] else 0
    decreases |m|
  {
    if m == multiset{} then multiset{}
    else
      var b :| b in m;
      OnNode(m - multiset{b}, node) + if b.node == node then multiset{b} else multiset{}
  }

  /** How many bindings of m are on the node and newer than the line. */
  ghost function Count(m: multiset<Binding>, node: string, line: int): nat {
    |OnNode(Newer(m, line), node)|
  }

  ghost predicate Oldest(b: Binding, m: multiset<Binding>) {
    b in m && forall x :: x in m ==> b.timestamp <= x.timestamp
  }

  // ---------- steps and runs ----------

  /** Whole seconds of a duration in nanoseconds, truncated toward zero. */
  function Seconds(duration: int): int {
    if duration >= 0 then duration / 1_000_000_000 else -((-duration) / 1_000_000_000)
  }

  function Line(now: int, duration: int): int { now - Seconds(duration) }

  /** line lies as many whole seconds before now as the duration has; a negative duration is mirrored. */
  predicate WholeSecondsBack(line: int, now: int, duration: int) {
    if duration >= 0 then (now - line) * 1_000_000_000 <= duration < (now - line + 1) * 1_000_000_000
    else (now - line - 1) * 1_000_000_000 < duration <= (now - line) * 1_000_000_000
  }

  lemma WhenLineIsBack(now: int, duration: int)
    ensures forall line :: WholeSecondsBack(line, now, duration) <==> line == Line(now, duration)
  {
    forall line ensures WholeSecondsBack(line, now, duration) <==> line == Line(now, duration) {}
  }

  datatype Op = Add(b: Binding) | Collect(now: int)

  /** A full collection gives up one of its oldest bindings before it takes the new one. */
  ghost predicate AddStep(size: int, h: multiset<Binding>, b: Binding, h': multiset<Binding>) {
    if |h| == size then exists gone :: Oldest(gone, h) && h' == h - multiset{gone} + multiset{b}
    else h' == h + multiset{b}
  }

  ghost predicate Step(size: int, gcRange: int, h: multiset<Binding>, op: Op, h': multiset<Binding>) {
    match op
    case Add(b) => AddStep(size, h, b, h')
    case Collect(now) => h' == if gcRange == 0 then h else Newer(h, Line(now, gcRange))
  }

  /** heaps are the contents before, between and after the operations, from empty. */
  ghost predicate IsRun(size: int, gcRange: int, ops: seq<Op>, heaps: seq<multiset<Binding>>) {
    && |heaps| == |ops| + 1 && heaps[0] == multiset{}
    && forall i :: 0 <= i < |ops| ==> Step(size, gcRange, heaps[i], ops[i], heaps[i + 1])
  }

  function Added(op: Op): multiset<Binding> {
    if op.Add? then multiset{op.b} else multiset{}
  }

  /** Everything that was ever added. */
  ghost function History(ops: seq<Op>): multiset<Binding> {
    if ops == [] then multiset{}
    else History(ops[..|ops| - 1]) + Added(ops[|ops| - 1])
  }

  /** No collection so far reached past the line. */
  ghost predicate Covers(line: int, ops: seq<Op>, gcRange: int) {
    forall i :: 0 <= i < |ops| && ops[i].Collect? && gcRange != 0 ==> Line(ops[i].now, gcRange) <= line
  }

  lemma RunPrefix(size: int, gcRange: int, ops: seq<Op>, heaps: seq<multiset<Binding>>)
    requires IsRun(size, gcRange, ops, heaps) && ops != []
    ensures var n := |ops| - 1;
      && IsRun(size, gcRange, ops[..n], heaps[..n + 1])
      && Step(size, gcRange, heaps[n], ops[n], heaps[n + 1])
      && heaps[..n + 1][n] == heaps[n]
  {
  }

  /** A clock that never goes back makes every query range up to the collection range covered. */
  lemma QueriesAreCovered(ops: seq<Op>, gcRange: int, now: int, range: int)
    requires forall i :: 0 <= i < |ops| && ops[i].Collect? ==> ops[i].now <= now
    requires gcRange == 0 || range <= gcRange
    ensures Covers(Line(now, range), ops, gcRange)
  {
    if gcRange != 0 {
      SecondsAreMonotone(range, gcRange);
    }
  }

  lemma SecondsAreMonotone(a: int, b: int)
    requires a <= b
    ensures Seconds(a) <= Seconds(b)
  {
  }

  // ---------- counts ----------

  lemma SubsetSize(a: multiset<Binding>, b: multiset<Binding>)
    requires a <= b
    ensures |a| <= |b|
    ensures |a| == |b| ==> a == b
  {
    assert b == a + (b - a);
  }

  lemma NewerAll(h: multiset<Binding>, line: int, gone: Binding)
    requires Oldest(gone, h) && gone.timestamp > line
    ensures Newer(h, line) == h
  {
    forall b ensures Newer(h, line)[b] == h[b] {
      if b in h { assert gone.timestamp <= b.timestamp; }
    }
  }

  lemma NewerAdd(h: multiset<Binding>, b: Binding, line: int)
    ensures Newer(h + multiset{b}, line) == Newer(h, line) + if b.timestamp > line then multiset{b} else multiset{}
  {
    var left, right := Newer(h + multiset{b}, line),
                       Newer(h, line) + if b.timestamp > line then multiset{b} else multiset{};
    forall x ensures left[x] == right[x] {}
  }

  lemma NewerDrop(h: multiset<Binding>, b: Binding, line: int)
    requires b in h
    ensures Newer(h, line) == Newer(h - multiset{b}, line) + if b.timestamp > line then multiset{b} else multiset{}
  {
    assert h == (h - multiset{b}) + multiset{b};
    NewerAdd(h - multiset{b}, b, line);
  }

  lemma NewerTwice(h: multiset<Binding>, early: int, line: int)
    requires early <= line
    ensures Newer(Newer(h, early), line) == Newer(h, line)
  {
  }

  /** The heap has everything newer than the line, or at least size - 1 such bindings. */
  ghost predicate ExactOrFull(size: int, h: multiset<Binding>, all: multiset<Binding>, line: int) {
    && h <= all
    && (Newer(h, line) == Newer(all, line) || |Newer(h, line)| >= size - 1)
  }

  lemma EvictIsExactOrFull(size: int, h: multiset<Binding>, gone: Binding, all: multiset<Binding>, line: int)
    requires ExactOrFull(size, h, all, line) && |h| == size && Oldest(gone, h)
    ensures ExactOrFull(size, h - multiset{gone}, all, line)
  {
    NewerDrop(h, gone, line);
    if gone.timestamp > line {
      NewerAll(h, line, gone);
    }
  }

  lemma PushIsExactOrFull(size: int, h: multiset<Binding>, b: Binding, all: multiset<Binding>, line: int)
    requires ExactOrFull(size, h, all, line)
    ensures ExactOrFull(size, h + multiset{b}, all + multiset{b}, line)
  {
    NewerAdd(all, b, line);
    NewerAdd(h, b, line);
  }

  lemma AddIsExactOrFull(
    size: int, h: multiset<Binding>, b: Binding, h': multiset<Binding>, all: multiset<Binding>, line: int)
    requires ExactOrFull(size, h, all, line) && AddStep(size, h, b, h')
    ensures ExactOrFull(size, h', all + multiset{b}, line)
  {
    if |h| == size {
      var gone :| Oldest(gone, h) && h' == h - multiset{gone} + multiset{b};
      EvictIsExactOrFull(size, h, gone, all, line);
      PushIsExactOrFull(size, h - multiset{gone}, b, all, line);
    } else {
      PushIsExactOrFull(size, h, b, all, line);
    }
  }

  lemma StepIsExactOrFull(size: int, gcRange: int, h: multiset<Binding>, op: Op, h': multiset<Binding>,
                          all: multiset<Binding>, line: int)
    requires ExactOrFull(size, h, all, line) && Step(size, gcRange, h, op, h')
    requires op.Collect? && gcRange != 0 ==> Line(op.now, gcRange) <= line
    ensures ExactOrFull(size, h', all + Added(op), line)
  {
    match op
    case Add(b) => AddIsExactOrFull(size, h, b, h', all, line);
    case Collect(now) =>
      assert all + multiset{} == all;
      if gcRange != 0 { NewerTwice(h, Line(now, gcRange), line); }
  }

  lemma {:induction false} RunIsExactOrFull(
    size: int, gcRange: int, ops: seq<Op>, heaps: seq<multiset<Binding>>, line: int)
    requires IsRun(size, gcRange, ops, heaps) && Covers(line, ops, gcRange)
    ensures ExactOrFull(size, heaps[|ops|], History(ops), line)
  {
    if ops != [] {
      var n := |ops| - 1;
      RunPrefix(size, gcRange, ops, heaps);
      RunIsExactOrFull(size, gcRange, ops[..n], heaps[..n + 1], line);
      StepIsExactOrFull(size, gcRange, heaps[n], ops[n], heaps[n + 1], History(ops[..n]), line);
    }
  }

  /** A count inside the collection range is the count over all bindings ever added, or the heap is saturated. */
  lemma CountIsExactOrSaturated(
    size: int, gcRange: int, ops: seq<Op>, heaps: seq<multiset<Binding>>, node: string, now: int, range: int)
    requires IsRun(size, gcRange, ops, heaps)
    requires forall i :: 0 <= i < |ops| && ops[i].Collect? ==> ops[i].now <= now
    requires gcRange == 0 || range <= gcRange
    ensures var h, line := heaps[|ops|], Line(now, range);
      Count(h, node, line) == Count(History(ops), node, line) || |Newer(h, line)| >= size - 1
    ensures forall line :: WholeSecondsBack(line, now, range) ==>
      Count(heaps[|ops|], node, line) == Count(History(ops), node, line) || |Newer(heaps[|ops|], line)| >= size - 1
  {
    QueriesAreCovered(ops, gcRange, now, range);
    RunIsExactOrFull(size, gcRange, ops, heaps, Line(now, range));
    WhenLineIsBack(now, range);
  }
}
