/** The ledger on the numbers its texts denote. */
module LedgerMeaning {
  import opened Options
  import opened Sums
  import opened Decimals
  import opened DecimalMeaning
  import opened Ledger

  /** The account text stands for the numbers xs; the absent account stands for zero in every slot. */
  ghost predicate AccountDenotes(s: string, xs: seq<real>) {
    |xs| > 0 && if s == "" then forall i :: 0 <= i < |xs| ==> xs[i] == 0.0 else RowDenotes(s, xs)
  }

  function SignedAmount(kind: MergeType, x: real): real {
    if kind == Subtraction then -x else x
  }

  /** xs with the numbers ps added or subtracted, slot by slot. */
  ghost predicate MovedBy(zs: seq<real>, kind: MergeType, xs: seq<real>, ps: seq<real>) {
    && |zs| == |xs| == |ps|
    && forall i :: 0 <= i < |zs| ==> zs[i] == xs[i] + SignedAmount(kind, ps[i])
  }

  lemma DenotedAccountHolds(s: string, xs: seq<real>) returns (v: seq<int>)
    requires AccountDenotes(s, xs)
    ensures Holds(s, v) && Amounts(v) == xs
  {
    if s == "" {
      v := Zeros(|xs|);
      assert Amounts(v) == xs;
    } else {
      WhenRowDenotes(s, xs);
      v := ParseRange(s).value;
    }
  }

  lemma SignedAmountAdds(kind: MergeType, a: int, b: int)
    ensures Amount(a + Signed(kind, b)) == Amount(a) + SignedAmount(kind, Amount(b))
  {
  }

  /** A merge adds or subtracts the numbers that the two texts denote, and writes a text that denotes the outcome. */
  lemma MergeAddsDecimals(deltaStr: string, deployStr: string, kind: MergeType, xs: seq<real>, ps: seq<real>)
    returns (zs: seq<real>)
    requires AccountDenotes(deltaStr, xs) && RowDenotes(deployStr, ps) && |ps| == |xs| && kind != OtherMerge
    ensures MovedBy(zs, kind, xs, ps)
    ensures var r := Merge(deltaStr, deployStr, kind); r.Ok? && AccountDenotes(r.value, zs)
  {
    var v := DenotedAccountHolds(deltaStr, xs);
    WhenRowDenotes(deployStr, ps);
    var profile := ParseRange(deployStr).value;
    var moved := Moved(kind, v, profile);
    MergeMovesAccount(deltaStr, deployStr, kind, v, profile);
    zs := Amounts(moved);
    forall i | 0 <= i < |zs| ensures zs[i] == xs[i] + SignedAmount(kind, ps[i]) {
      SignedAmountAdds(kind, v[i], profile[i]);
    }
    WhenRowDenotes(Merge(deltaStr, deployStr, kind).value, zs);
  }

  /** When a merge fails: a text that does not read, or an account longer than the profile. */
  lemma WhenMergeFails(deltaStr: string, deployStr: string, kind: MergeType)
    ensures Merge(deltaStr, deployStr, kind).Err?
      <==> (&& !(deltaStr == "" && kind == Addition)
            && (|| ParseRange(deployStr).None?
                || (&& deltaStr != ""
                    && (|| ParseRange(deltaStr).None?
                        || |ParseRange(deltaStr).value| > |ParseRange(deployStr).value|))))
  {
  }

  // ---------- runs ----------

  /** Every entry's profile denotes its row, and all rows have n slots. */
  ghost predicate ProfilesDenote(entries: seq<Entry>, rows: seq<seq<real>>, n: nat) {
    && |rows| == |entries|
    && forall k :: 0 <= k < |entries| ==>
         entries[k].kind != OtherMerge && |rows[k]| == n && RowDenotes(entries[k].profile, rows[k])
  }

  /** What the entries move slot i by, one number an entry. */
  function Moves(entries: seq<Entry>, rows: seq<seq<real>>, i: nat): seq<real>
    requires |rows| == |entries| && forall k :: 0 <= k < |rows| ==> i < |rows[k]|
  {
    seq(|entries|, k requires 0 <= k < |entries| => SignedAmount(entries[k].kind, rows[k][i]))
  }

  /** After any entries, the text on the node denotes its start plus the adds minus the subtracts, slot by slot. */
  lemma {:induction false} LedgerIsDecimalSum(deltaStr: string, entries: seq<Entry>, xs: seq<real>,
                                             rows: seq<seq<real>>) returns (zs: seq<real>)
    requires AccountDenotes(deltaStr, xs) && ProfilesDenote(entries, rows, |xs|)
    ensures AccountDenotes(After(deltaStr, entries), zs)
    ensures |zs| == |xs| && forall i :: 0 <= i < |xs| ==> zs[i] == xs[i] + RealSum(Moves(entries, rows, i))
  {
    if entries == [] {
      zs := xs;
    } else {
      var n := |entries| - 1;
      var before := LedgerIsDecimalSum(deltaStr, entries[..n], xs, rows[..n]);
      zs := MergeAddsDecimals(After(deltaStr, entries[..n]), entries[n].profile, entries[n].kind, before, rows[n]);
      forall i | 0 <= i < |xs| ensures zs[i] == xs[i] + RealSum(Moves(entries, rows, i)) {
        RealSumLast(Moves(entries, rows, i));
        assert Moves(entries, rows, i)[..n] == Moves(entries[..n], rows[..n], i);
      }
    }
  }
}
