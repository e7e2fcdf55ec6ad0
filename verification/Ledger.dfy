/** The predicted-load account of a node: profiles are added and subtracted slot by slot, on strings. */
module Ledger {
  import opened Options
  import opened Sums
  import opened Decimals

  /** The two merge types, and any other string. */
  datatype MergeType = Addition | Subtraction | OtherMerge

  function Zeros(n: nat): (z: seq<int>)
    ensures |z| == n && forall i :: 0 <= i < n ==> z[i] == 0
  {
    seq(n, i => 0)
  }

  function Signed(kind: MergeType, amount: int): int {
    if kind == Subtraction then -amount else amount
  }

  /** base with the profile added or subtracted, slot by slot. */
  function Moved(kind: MergeType, base: seq<int>, profile: seq<int>): (r: seq<int>)
    requires |base| == |profile|
    ensures |r| == |base| && forall i :: 0 <= i < |r| ==> r[i] == base[i] + Signed(kind, profile[i])
  {
    seq(|base|, i requires 0 <= i < |base| => base[i] + Signed(kind, profile[i]))
  }

  /** An account that is absent or of another length than the profile counts as zero. */
  function BaseOf(deltaStr: string, n: nat): (base: seq<int>)
    ensures |base| == n
  {
    if deltaStr != "" && ParseRange(deltaStr).Some? && |ParseRange(deltaStr).value| == n
    then ParseRange(deltaStr).value else Zeros(n)
  }

  function Merge(deltaStr: string, deployStr: string, kind: MergeType): Result<string> {
    if deltaStr == "" && kind == Addition then Ok(deployStr)
    else
      var deploy, delta := ParseRange(deployStr), ParseRange(deltaStr);
      if deploy.None? then Err
      else if deltaStr != "" && (delta.None? || |delta.value| > |deploy.value|) then Err
      else if kind == OtherMerge then Ok("")
      else Ok(PrintRange(Moved(kind, BaseOf(deltaStr, |deploy.value|), deploy.value)))
  }

  method MergeUsageRange(deltaStr: string, deployStr: string, kind: MergeType) returns (r: Result<string>)
    ensures r == Merge(deltaStr, deployStr, kind)
  {
    if deltaStr == "" && kind == Addition {
      return Ok(deployStr);
    }
    var deployUsages := ParseRangeMetricsByString(deployStr);
    if deployUsages.None? {
      return Err;
    }
    var deltaUsages := Zeros(|deployUsages.value|);
    if deltaStr != "" {
      var parsed := ParseRangeMetricsByString(deltaStr);
      if parsed.None? || |parsed.value| > |deployUsages.value| {
        return Err;
      } else if |parsed.value| == |deployUsages.value| {
        deltaUsages := parsed.value;
      }
    }
    if kind == OtherMerge {
      return Ok("");
    }
    var result := PrintMoved(kind, deltaUsages, deployUsages.value);
    return Ok(result);
  }

  /** The parts before i, with the separators written so far. */
  ghost function Printed(parts: seq<string>, i: nat): string
    requires i <= |parts|
  {
    if 0 < i < |parts| then Join(parts[..i], '|') + "|" else Join(parts[..i], '|')
  }

  lemma PrintedNext(parts: seq<string>, i: nat)
    requires i < |parts|
    ensures Printed(parts, i + 1) == Printed(parts, i) + parts[i] + (if i < |parts| - 1 then "|" else "")
  {
    assert parts[..i + 1] == parts[..i] + [parts[i]];
    if i > 0 {
      JoinLast(parts[..i], parts[i], '|');
    }
  }

  /** The loops that print the merged row, a separator after every number but the last. */
  method PrintMoved(kind: MergeType, delta: seq<int>, deploy: seq<int>) returns (result: string)
    requires |delta| == |deploy| > 0
    ensures result == PrintRange(Moved(kind, delta, deploy))
  {
    ghost var moved := Moved(kind, delta, deploy);
    ghost var parts := FormatAll(moved);
    result := "";
    for i := 0 to |delta|
      invariant result == Printed(parts, i)
    {
      var usage := if kind == Addition then delta[i] + deploy[i]
                   else delta[i] + Signed(kind, deploy[i]);
      assert usage == moved[i];
      PrintedNext(parts, i);
      if i < |delta| - 1 {
        result := result + Format(usage) + "|";
      } else {
        result := result + Format(usage);
      }
    }
    assert parts[..|delta|] == parts;
  }

  // ---------- what an account holds ----------

  /** The account string stands for the row v; the absent account stands for zero in every slot. */
  ghost predicate Holds(s: string, v: seq<int>) {
    |v| > 0 && if s == "" then v == Zeros(|v|) else ParseRange(s) == Some(v)
  }

  lemma EmptyDoesNotParse()
    ensures ParseRange("").None?
  {
    assert Split("", '|') == [""];
    assert ParseFloat(Split("", '|')[0]).None?;
  }

  /** A merge with a profile of the account's length moves every slot by the profile. */
  lemma MergeMovesAccount(deltaStr: string, deployStr: string, kind: MergeType, v: seq<int>, profile: seq<int>)
    requires Holds(deltaStr, v) && ParseRange(deployStr) == Some(profile) && |profile| == |v| && kind != OtherMerge
    ensures var r := Merge(deltaStr, deployStr, kind);
      r.Ok? && r.value != "" && Holds(r.value, Moved(kind, v, profile))
  {
    EmptyDoesNotParse();
    var moved := Moved(kind, v, profile);
    if deltaStr == "" && kind == Addition {
      assert moved == profile;
    } else {
      assert BaseOf(deltaStr, |v|) == v;
      RangeRoundTrip(moved);
      RangeHasNoComma(moved);
    }
  }

  /** r is the account of v moved by the profile in every slot that v has. */
  ghost predicate KeepsBalance(r: Result<string>, kind: MergeType, v: seq<int>, profile: seq<int>) {
    r.Ok? && ParseRange(r.value).Some? && MovedFrom(ParseRange(r.value).value, kind, v, profile)
  }

  ghost predicate MovedFrom(row: seq<int>, kind: MergeType, v: seq<int>, profile: seq<int>) {
    && |v| <= |profile| <= |row|
    && forall i :: 0 <= i < |v| ==> row[i] == v[i] + Signed(kind, profile[i])
  }

  lemma MergedRow(deltaStr: string, deployStr: string, kind: MergeType, v: seq<int>, profile: seq<int>)
    requires deltaStr != "" && ParseRange(deltaStr) == Some(v) && ParseRange(deployStr) == Some(profile)
    requires kind != OtherMerge && |v| <= |profile|
    ensures var r := Merge(deltaStr, deployStr, kind);
      r.Ok? && ParseRange(r.value)
               == Some(Moved(kind, if |v| == |profile| then v else Zeros(|profile|), profile))
  {
    RangeRoundTrip(Moved(kind, BaseOf(deltaStr, |profile|), profile));
  }

  lemma DroppedBalance(kind: MergeType, v: seq<int>, profile: seq<int>)
    requires |v| < |profile|
    ensures MovedFrom(Moved(kind, Zeros(|profile|), profile), kind, v, profile) <==> v == Zeros(|v|)
  {
    var row := Moved(kind, Zeros(|profile|), profile);
    assert forall i :: 0 <= i < |v| ==> row[i] == Signed(kind, profile[i]);
    if MovedFrom(row, kind, v, profile) {
      assert forall i :: 0 <= i < |v| ==> v[i] == 0;
      assert v == Zeros(|v|);
    }
  }

  /**
   * For any two lengths: a merge keeps the balance exactly when the lengths agree, or the account is
   * shorter and holds nothing, because a shorter account is dropped.
   */
  lemma WhenMergeKeepsBalance(deltaStr: string, deployStr: string, kind: MergeType, v: seq<int>, profile: seq<int>)
    requires deltaStr != "" && ParseRange(deltaStr) == Some(v) && ParseRange(deployStr) == Some(profile)
    requires kind != OtherMerge
    ensures KeepsBalance(Merge(deltaStr, deployStr, kind), kind, v, profile)
      <==> |v| == |profile| || (|v| < |profile| && v == Zeros(|v|))
  {
    if |v| <= |profile| {
      MergedRow(deltaStr, deployStr, kind, v, profile);
      if |v| < |profile| {
        DroppedBalance(kind, v, profile);
      }
    }
  }

  // ---------- runs ----------

  datatype Entry = Entry(kind: MergeType, profile: string)

  /** The account after the entries; an entry that cannot be merged is skipped. */
  function After(deltaStr: string, entries: seq<Entry>): string {
    if entries == [] then deltaStr
    else
      var before := After(deltaStr, entries[..|entries| - 1]);
      var last := entries[|entries| - 1];
      var r := Merge(before, last.profile, last.kind);
      if r.Ok? then r.value else before
  }

  ghost predicate RegularEntry(e: Entry, n: nat) {
    e.kind != OtherMerge && ParseRange(e.profile).Some? && |ParseRange(e.profile).value| == n
  }

  ghost predicate Regular(entries: seq<Entry>, n: nat) {
    forall i :: 0 <= i < |entries| ==> RegularEntry(entries[i], n)
  }

  /** What an entry moves slot i by. */
  function SlotMove(e: Entry, i: nat): int {
    var p := ParseRange(e.profile);
    if p.Some? && i < |p.value| then Signed(e.kind, p.value[i]) else 0
  }

  /** v with every entry applied: the sum of the adds minus the sum of the subtracts, slot by slot. */
  ghost function Balance(v: seq<int>, entries: seq<Entry>): (r: seq<int>)
    ensures |r| == |v|
  {
    seq(|v|, i requires 0 <= i < |v| => v[i] + SumOf(entries, (e: Entry) => SlotMove(e, i)))
  }

  lemma BalanceStep(v: seq<int>, entries: seq<Entry>, e: Entry)
    requires RegularEntry(e, |v|)
    ensures Balance(v, entries + [e]) == Moved(e.kind, Balance(v, entries), ParseRange(e.profile).value)
  {
    var left, right := Balance(v, entries + [e]), Moved(e.kind, Balance(v, entries), ParseRange(e.profile).value);
    forall i: nat | i < |v| ensures left[i] == right[i] {
      var f := (x: Entry) => SlotMove(x, i);
      SumAppend(entries, [e], f);
      SumOne(e, f);
      assert left[i] == v[i] + SumOf(entries + [e], f);
      assert Balance(v, entries)[i] == v[i] + SumOf(entries, f);
    }
  }

  /** Whatever the entries, the account decodes to its start plus the adds minus the subtracts. */
  lemma {:induction false} LedgerIsSum(deltaStr: string, entries: seq<Entry>, v: seq<int>)
    requires Holds(deltaStr, v) && Regular(entries, |v|)
    ensures Holds(After(deltaStr, entries), Balance(v, entries))
  {
    if entries == [] {
      assert Balance(v, []) == v;
    } else {
      var init, last := entries[..|entries| - 1], entries[|entries| - 1];
      LedgerIsSum(deltaStr, init, v);
      assert RegularEntry(last, |v|);
      assert entries == init + [last];
      BalanceStep(v, init, last);
      MergeMovesAccount(After(deltaStr, init), last.profile, last.kind, Balance(v, init),
                        ParseRange(last.profile).value);
    }
  }

  /** The order of the entries does not matter. */
  lemma LedgerIgnoresOrder(deltaStr: string, entries: seq<Entry>, shuffled: seq<Entry>, v: seq<int>)
    requires Holds(deltaStr, v) && Regular(entries, |v|) && multiset(entries) == multiset(shuffled)
    ensures Holds(After(deltaStr, entries), Balance(v, entries))
    ensures Holds(After(deltaStr, shuffled), Balance(v, entries))
  {
    LedgerIsSum(deltaStr, entries, v);
    forall i | 0 <= i < |shuffled| ensures RegularEntry(shuffled[i], |v|) {
      assert shuffled[i] in multiset(entries);
      var k :| 0 <= k < |entries| && entries[k] == shuffled[i];
    }
    LedgerIsSum(deltaStr, shuffled, v);
    forall i: nat | i < |v| ensures Balance(v, entries)[i] == Balance(v, shuffled)[i] {
      SumPermutation(entries, shuffled, (e: Entry) => SlotMove(e, i));
    }
    assert Balance(v, entries) == Balance(v, shuffled);
  }

  /** Subtracting a profile undoes adding it, and the other way round. */
  lemma SubtractUndoesAdd(deltaStr: string, profile: string, v: seq<int>, first: MergeType, second: MergeType)
    requires Holds(deltaStr, v) && RegularEntry(Entry(Addition, profile), |v|)
    requires {first, second} == {Addition, Subtraction}
    ensures Holds(After(deltaStr, [Entry(first, profile), Entry(second, profile)]), v)
  {
    var a, b := Entry(first, profile), Entry(second, profile);
    assert first != second by { assert Addition in {first, second} && Subtraction in {first, second}; }
    LedgerIsSum(deltaStr, [a, b], v);
    forall i: nat | i < |v| ensures Balance(v, [a, b])[i] == v[i] {
      var f := (e: Entry) => SlotMove(e, i);
      assert [a, b] == [a] + [b];
      SumAppend([a], [b], f);
      SumOne(a, f);
      SumOne(b, f);
    }
    assert Balance(v, [a, b]) == v;
  }
}
