/** What five-decimal texts mean: place value, read off the digits alone. */
module DecimalMeaning {
  import opened Options
  import opened Decimals

  /** The quantity that a value in units of the fifth decimal stands for. */
  function Amount(v: int): real { v as real / SCALE as real }

  // ---------- place value ----------

  function Digit(c: char): real
    requires IsDigit(c)
  {
    (c as int - '0' as int) as real
  }

  /** The number that digits before the point stand for. */
  function WholePart(w: string): real
    requires AllDigits(w)
  {
    if w == "" then 0.0 else 10.0 * WholePart(w[..|w| - 1]) + Digit(w[|w| - 1])
  }

  /** The number that digits after the point stand for: tenths first, each place a tenth of the one before. */
  function Fraction(p: string): real
    requires AllDigits(p)
  {
    if p == "" then 0.0 else (Digit(p[0]) + Fraction(p[1..])) / 10.0
  }

  /** s is the digits w, a point and at most five digits p, or w alone, after an optional sign. */
  ghost predicate Spells(s: string, negative: bool, w: string, p: string) {
    && AllDigits(w) && AllDigits(p) && |w| + |p| > 0 && |p| <= 5
    && exists sign: string ::
         && (if negative then sign == "-" else sign == "" || sign == "+")
         && (s == sign + w + "." + p || (p == "" && s == sign + w))
  }

  function Decimal(negative: bool, w: string, p: string): real
    requires AllDigits(w) && AllDigits(p)
  {
    if negative then -(WholePart(w) + Fraction(p)) else WholePart(w) + Fraction(p)
  }

  /** s is a decimal text for the number x. */
  ghost predicate Denotes(s: string, x: real) {
    exists negative: bool, w: string, p: string :: Spells(s, negative, w, p) && x == Decimal(negative, w, p)
  }

  lemma {:induction false} WholeIsValue(w: string)
    requires AllDigits(w)
    ensures WholePart(w) == ValueOf(w) as real
  {
    if w != "" {
      WholeIsValue(w[..|w| - 1]);
    }
  }

  /** A zero in a further place changes nothing. */
  lemma {:induction false} ZeroPlace(p: string)
    requires AllDigits(p)
    ensures AllDigits(p + "0") && Fraction(p + "0") == Fraction(p) && ValueOf(p + "0") == 10 * ValueOf(p)
  {
    assert (p + "0")[..|p|] == p;
    if p == "" {
      assert ("" + "0")[1..] == "";
    } else {
      ZeroPlace(p[1..]);
      assert (p + "0")[1..] == p[1..] + "0";
    }
  }

  lemma ValueOfFive(p: string)
    requires AllDigits(p) && |p| == 5
    ensures ValueOf(p) == 10_000 * DigitValue(p[0]) + 1000 * DigitValue(p[1]) + 100 * DigitValue(p[2])
                          + 10 * DigitValue(p[3]) + DigitValue(p[4])
  {
    assert p[..4][..3] == p[..3] && p[..3][..2] == p[..2] && p[..2][..1] == p[..1] && p[..1][..0] == "";
    assert ValueOf(p[..1]) == DigitValue(p[0]);
    assert ValueOf(p[..2]) == 10 * ValueOf(p[..1]) + DigitValue(p[1]);
    assert ValueOf(p[..3]) == 10 * ValueOf(p[..2]) + DigitValue(p[2]);
    assert ValueOf(p[..4]) == 10 * ValueOf(p[..3]) + DigitValue(p[3]);
  }

  lemma FractionOfFive(p: string)
    requires AllDigits(p) && |p| == 5
    ensures Fraction(p) == Digit(p[0]) / 10.0 + Digit(p[1]) / 100.0 + Digit(p[2]) / 1000.0
                           + Digit(p[3]) / 10_000.0 + Digit(p[4]) / 100_000.0
  {
    assert p[1..][1..] == p[2..] && p[2..][1..] == p[3..] && p[3..][1..] == p[4..] && p[4..][1..] == "";
    assert Fraction(p[4..]) == Digit(p[4]) / 10.0;
    assert Fraction(p[3..]) == (Digit(p[3]) + Fraction(p[4..])) / 10.0;
    assert Fraction(p[2..]) == (Digit(p[2]) + Fraction(p[3..])) / 10.0;
    assert Fraction(p[1..]) == (Digit(p[1]) + Fraction(p[2..])) / 10.0;
  }

  lemma Regroup(v: nat, m: nat)
    ensures (10 * v) * m == v * (10 * m)
  {
  }

  /** Filling up to five places leaves the fraction as it is. */
  lemma {:induction false} FilledUp(p: string)
    requires AllDigits(p) && |p| <= 5
    ensures (ValueOf(p) * Pow10(5 - |p|)) as real == Fraction(p) * 100_000.0
    decreases 5 - |p|
  {
    if |p| == 5 {
      ValueOfFive(p);
      FractionOfFive(p);
    } else {
      ZeroPlace(p);
      FilledUp(p + "0");
      Regroup(ValueOf(p), Pow10(4 - |p|));
    }
  }

  lemma Placed(w: string, p: string)
    requires AllDigits(w) && AllDigits(p) && |w| + |p| > 0 && |p| <= 5
    ensures ParseParts(w, p).Some? && Amount(ParseParts(w, p).value) == WholePart(w) + Fraction(p)
  {
    WholeIsValue(w);
    FilledUp(p);
  }

  // ---------- reading ----------

  lemma {:induction false} NoneOf(s: string, c: char)
    requires c !in s
    ensures IndexOf(s, c) == |s|
  {
    if s != "" { NoneOf(s[1..], c); }
  }

  /** The parts before and after the first point, if there is one. */
  lemma PointSplits(u: string, w: string, p: string)
    requires AllDigits(w) && (u == w + "." + p || (p == "" && u == w))
    ensures var dot := IndexOf(u, '.');
      u[..dot] == w && (if dot < |u| then u[dot + 1..] else "") == p
  {
    if u == w + "." + p {
      forall k | 0 <= k < |w| ensures u[k] != '.' { assert u[k] == w[k] && IsDigit(w[k]); }
      IndexIs(u, '.', |w|);
    } else {
      assert forall k :: 0 <= k < |w| ==> IsDigit(w[k]);
      NoneOf(u, '.');
    }
  }

  lemma UnsignedReads(u: string, w: string, p: string)
    requires AllDigits(w)
    requires u == w + "." + p || (p == "" && u == w)
    ensures ParseUnsigned(u) == ParseParts(w, p)
  {
    PointSplits(u, w, p);
  }

  lemma SignReads(sign: string, u: string)
    requires (sign == "" || sign == "+" || sign == "-") && u != "" && u[0] != '-' && u[0] != '+'
    requires ParseUnsigned(u).Some?
    ensures ParseFloat(sign + u).Some?
    ensures var v: int := ParseUnsigned(u).value; ParseFloat(sign + u).value == if sign == "-" then -v else v
  {
    assert sign != "" ==> (sign + u)[1..] == u && (sign + u)[0] == sign[0];
    assert sign == "" ==> sign + u == u;
  }

  lemma StartsPlain(u: string, w: string, p: string)
    requires AllDigits(w) && AllDigits(p) && |w| + |p| > 0
    requires u == w + "." + p || (p == "" && u == w)
    ensures u != "" && u[0] != '-' && u[0] != '+'
  {
    assert w != "" ==> u[0] == w[0] && IsDigit(w[0]);
  }

  lemma NegativeAmount(v: int)
    ensures Amount(-v) == -Amount(v)
  {
  }

  lemma SignedReads(sign: string, negative: bool, w: string, p: string, u: string)
    requires AllDigits(w) && AllDigits(p) && |w| + |p| > 0 && |p| <= 5
    requires if negative then sign == "-" else sign == "" || sign == "+"
    requires u == w + "." + p || (p == "" && u == w)
    ensures ParseFloat(sign + u).Some? && Amount(ParseFloat(sign + u).value) == Decimal(negative, w, p)
  {
    StartsPlain(u, w, p);
    UnsignedReads(u, w, p);
    Placed(w, p);
    SignReads(sign, u);
    NegativeAmount(ParseParts(w, p).value);
  }

  lemma Regrouped(sign: string, w: string, p: string)
    ensures sign + (w + "." + p) == sign + w + "." + p
  {
  }

  /** A decimal text reads as the number it spells. */
  lemma DecimalReads(s: string, negative: bool, w: string, p: string)
    requires Spells(s, negative, w, p)
    ensures ParseFloat(s).Some? && Amount(ParseFloat(s).value) == Decimal(negative, w, p)
  {
    var sign: string :|
      && (if negative then sign == "-" else sign == "" || sign == "+")
      && (s == sign + w + "." + p || (p == "" && s == sign + w));
    Regrouped(sign, w, p);
    if s == sign + w + "." + p {
      SignedReads(sign, negative, w, p, w + "." + p);
    } else {
      SignedReads(sign, negative, w, p, w);
    }
  }

  /** What reads without a sign is digits, with at most one point among them. */
  lemma UnsignedSpells(u: string) returns (w: string, p: string)
    requires ParseUnsigned(u).Some?
    ensures AllDigits(w) && AllDigits(p) && |w| + |p| > 0 && |p| <= 5
    ensures u == w + "." + p || (p == "" && u == w)
  {
    var dot := IndexOf(u, '.');
    w, p := u[..dot], if dot < |u| then u[dot + 1..] else "";
    assert dot < |u| ==> u == w + "." + p;
  }

  lemma SpellsWith(sign: string, negative: bool, w: string, p: string, u: string)
    requires AllDigits(w) && AllDigits(p) && |w| + |p| > 0 && |p| <= 5
    requires if negative then sign == "-" else sign == "" || sign == "+"
    requires u == w + "." + p || (p == "" && u == w)
    ensures Spells(sign + u, negative, w, p)
  {
    Regrouped(sign, w, p);
  }

  lemma SignSplits(s: string) returns (sign: string, negative: bool, u: string)
    requires ParseFloat(s).Some?
    ensures s == sign + u && ParseUnsigned(u).Some?
    ensures if negative then sign == "-" else sign == "" || sign == "+"
  {
    negative := s[0] == '-';
    if s[0] == '-' || s[0] == '+' {
      sign, u := s[..1], s[1..];
    } else {
      sign, u := "", s;
    }
  }

  /** Whatever reads as a number spells it. */
  lemma ReadSpells(s: string) returns (negative: bool, w: string, p: string)
    requires ParseFloat(s).Some?
    ensures Spells(s, negative, w, p)
  {
    var sign, u;
    sign, negative, u := SignSplits(s);
    w, p := UnsignedSpells(u);
    SpellsWith(sign, negative, w, p, u);
  }

  /** A text denotes a number exactly when it reads as that number. */
  lemma WhenDenotes(s: string, x: real)
    ensures Denotes(s, x) <==> ParseFloat(s).Some? && Amount(ParseFloat(s).value) == x
  {
    if Denotes(s, x) {
      var negative: bool, w: string, p: string :| Spells(s, negative, w, p) && x == Decimal(negative, w, p);
      DecimalReads(s, negative, w, p);
    }
    if ParseFloat(s).Some? && Amount(ParseFloat(s).value) == x {
      var negative, w, p := ReadSpells(s);
      DecimalReads(s, negative, w, p);
    }
  }

  /** Printing writes the number with exactly five places, and a minus sign only before a negative one. */
  lemma FormatSpells(v: int) returns (w: string, p: string)
    ensures w != "" && |p| == 5 && Format(v) == (if v < 0 then "-" else "") + w + "." + p
    ensures AllDigits(w) && AllDigits(p) && Decimal(v < 0, w, p) == Amount(v)
  {
    var n := if v < 0 then -v else v;
    w, p := NatDigits(n / SCALE), FixedDigits(n % SCALE, 5);
    NatRoundTrip(n / SCALE);
    assert Pow10(5) == SCALE by { assert Pow10(3) == 1000; }
    FixedRoundTrip(n % SCALE, 5);
    var sign := if v < 0 then "-" else "";
    SpellsWith(sign, v < 0, w, p, w + "." + p);
    Regrouped(sign, w, p);
    assert Format(v) == sign + (w + "." + p);
    NumberRoundTrip(v);
    DecimalReads(Format(v), v < 0, w, p);
  }

  // ---------- rows ----------

  /** The parts of s between the separators are decimal texts for xs. */
  ghost predicate RowDenotes(s: string, xs: seq<real>) {
    && |Split(s, '|')| == |xs|
    && forall i :: 0 <= i < |xs| ==> Denotes(Split(s, '|')[i], xs[i])
  }

  function Amounts(v: seq<int>): (xs: seq<real>)
    ensures |xs| == |v| && forall i :: 0 <= i < |v| ==> xs[i] == Amount(v[i])
  {
    seq(|v|, i requires 0 <= i < |v| => Amount(v[i]))
  }

  /** A row of texts denotes numbers exactly when it reads as values with those amounts. */
  lemma WhenRowDenotes(s: string, xs: seq<real>)
    ensures RowDenotes(s, xs) <==> ParseRange(s).Some? && Amounts(ParseRange(s).value) == xs
  {
    var parts := Split(s, '|');
    forall i, x: real | 0 <= i < |parts|
      ensures Denotes(parts[i], x) <==> ParseFloat(parts[i]).Some? && Amount(ParseFloat(parts[i]).value) == x
    {
      WhenDenotes(parts[i], x);
    }
    if RowDenotes(s, xs) {
      assert forall i :: 0 <= i < |parts| ==> Denotes(parts[i], xs[i]);
      assert Amounts(ParseRange(s).value) == xs;
    }
  }
}
