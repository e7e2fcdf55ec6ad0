/** Five-decimal numbers as strings: digits, separators, and the round trips through them. */
module Decimals {
  import opened Options

  /** One unit of the fifth decimal; a value v stands for v / SCALE. */
  const SCALE := 100_000

  // ---------- digits ----------

  function DigitChar(d: nat): char
    requires d < 10
  {
    "0123456789"[d]
  }

  predicate IsDigit(c: char) { '0' <= c <= '9' }

  predicate AllDigits(s: string) {
    forall i :: 0 <= i < |s| ==> IsDigit(s[i])
  }

  function DigitValue(c: char): nat
    requires IsDigit(c)
  {
    c as int - '0' as int
  }

  function ValueOf(s: string): nat
    requires AllDigits(s)
  {
    if s == "" then 0 else 10 * ValueOf(s[..|s| - 1]) + DigitValue(s[|s| - 1])
  }

  /** The decimal digits of n, without leading zeros. */
  function NatDigits(n: nat): string {
    if n < 10 then [DigitChar(n)] else NatDigits(n / 10) + [DigitChar(n % 10)]
  }

  /** The last width digits of n. */
  function FixedDigits(n: nat, width: nat): string {
    if width == 0 then "" else FixedDigits(n / 10, width - 1) + [DigitChar(n % 10)]
  }

  function Pow10(k: nat): nat {
    if k == 0 then 1 else 10 * Pow10(k - 1)
  }

  lemma DigitRoundTrip(d: nat)
    requires d < 10
    ensures IsDigit(DigitChar(d)) && DigitValue(DigitChar(d)) == d
  {
  }

  lemma {:induction false} NatRoundTrip(n: nat)
    ensures AllDigits(NatDigits(n)) && NatDigits(n) != "" && ValueOf(NatDigits(n)) == n
  {
    DigitRoundTrip(n % 10);
    if n >= 10 {
      NatRoundTrip(n / 10);
    } else {
      assert NatDigits(n)[..0] == "";
    }
  }

  lemma {:induction false} FixedRoundTrip(n: nat, width: nat)
    requires n < Pow10(width)
    ensures AllDigits(FixedDigits(n, width)) && |FixedDigits(n, width)| == width
    ensures ValueOf(FixedDigits(n, width)) == n
  {
    if width > 0 {
      DigitRoundTrip(n % 10);
      FixedRoundTrip(n / 10, width - 1);
    }
  }

  // ---------- one number ----------

  function FormatUnsigned(n: nat): string {
    NatDigits(n / SCALE) + "." + FixedDigits(n % SCALE, 5)
  }

  /** The %.5f form of a value. */
  function Format(v: int): string {
    if v < 0 then "-" + FormatUnsigned(-v) else FormatUnsigned(v)
  }

  /** The first position of c, or the length if there is none. */
  function IndexOf(s: string, c: char): (i: nat)
    ensures i <= |s|
    ensures i < |s| ==> s[i] == c
    ensures forall k :: 0 <= k < i ==> s[k] != c
  {
    if s == "" || s[0] == c then 0 else 1 + IndexOf(s[1..], c)
  }

  /** The value of the digits before and after the point; more than five places are not read. */
  function ParseParts(whole: string, places: string): Option<nat> {
    if !AllDigits(whole) || !AllDigits(places) || |whole| + |places| == 0 || |places| > 5 then None
    else Some(ValueOf(whole) * SCALE + ValueOf(places) * Pow10(5 - |places|))
  }

  /** A decimal of at most five places without a sign. */
  function ParseUnsigned(s: string): Option<nat> {
    var dot := IndexOf(s, '.');
    ParseParts(s[..dot], if dot < |s| then s[dot + 1..] else "")
  }

  function ParseFloat(s: string): Option<int> {
    if s == "" then None
    else if s[0] == '-' then
      var u: Option<int> := ParseUnsigned(s[1..]);
      if u.Some? then Some(-u.value) else None
    else if s[0] == '+' then ParseUnsigned(s[1..])
    else ParseUnsigned(s)
  }

  lemma {:induction false} IndexIs(s: string, c: char, i: nat)
    requires i < |s| && s[i] == c && forall k :: 0 <= k < i ==> s[k] != c
    ensures IndexOf(s, c) == i
  {
    if i > 0 { IndexIs(s[1..], c, i - 1); }
  }

  lemma UnsignedRoundTrip(n: nat)
    ensures ParseUnsigned(FormatUnsigned(n)) == Some(n)
    ensures FormatUnsigned(n) != "" && IsDigit(FormatUnsigned(n)[0])
  {
    var whole, places := NatDigits(n / SCALE), FixedDigits(n % SCALE, 5);
    var s := whole + "." + places;
    NatRoundTrip(n / SCALE);
    assert Pow10(5) == SCALE by { assert Pow10(3) == 1000; }
    FixedRoundTrip(n % SCALE, 5);
    forall k | 0 <= k < |whole| ensures s[k] != '.' { assert s[k] == whole[k] && IsDigit(whole[k]); }
    IndexIs(s, '.', |whole|);
    assert s[..|whole|] == whole && s[|whole| + 1..] == places;
    assert Pow10(0) == 1;
    assert s[0] == whole[0];
  }

  /** Formatting and parsing a number gives the number back. */
  lemma NumberRoundTrip(v: int)
    ensures ParseFloat(Format(v)) == Some(v)
  {
    var n := if v < 0 then -v else v;
    UnsignedRoundTrip(n);
    assert ("-" + FormatUnsigned(n))[1..] == FormatUnsigned(n);
  }

  // ---------- rows of numbers ----------

  /** strings.Split on a single character. */
  function Split(s: string, c: char): (parts: seq<string>)
    ensures |parts| > 0
    decreases |s|
  {
    var i := IndexOf(s, c);
    if i == |s| then [s] else [s[..i]] + Split(s[i + 1..], c)
  }

  function Join(parts: seq<string>, c: char): string {
    if parts == [] then ""
    else if |parts| == 1 then parts[0]
    else parts[0] + [c] + Join(parts[1..], c)
  }

  lemma IndexInJoin(head: string, c: char, tail: string)
    requires c !in head
    ensures IndexOf(head + [c] + tail, c) == |head|
    ensures IndexOf(head, c) == |head|
  {
    var s := head + [c] + tail;
    forall k | 0 <= k < |head| ensures s[k] != c { assert s[k] == head[k]; }
    IndexIs(s, c, |head|);
  }

  lemma {:induction false} SplitJoin(parts: seq<string>, c: char)
    requires parts != [] && forall i :: 0 <= i < |parts| ==> c !in parts[i]
    ensures Split(Join(parts, c), c) == parts
  {
    if |parts| == 1 {
      IndexInJoin(parts[0], c, "");
    } else {
      var rest := Join(parts[1..], c);
      IndexInJoin(parts[0], c, rest);
      SplitJoin(parts[1..], c);
      var s := parts[0] + [c] + rest;
      assert s[..|parts[0]|] == parts[0] && s[|parts[0]| + 1..] == rest;
    }
  }

  /** The numbers of a row, or nothing if one of them does not parse. */
  function ParseAll(parts: seq<string>): Option<seq<int>> {
    if forall i :: 0 <= i < |parts| ==> ParseFloat(parts[i]).Some? then
      Some(seq(|parts|, i requires 0 <= i < |parts| && ParseFloat(parts[i]).Some? => ParseFloat(parts[i]).value))
    else None
  }

  function ParseRange(s: string): (r: Option<seq<int>>)
    ensures r.Some? ==> |r.value| > 0
  {
    ParseAll(Split(s, '|'))
  }

  method ParseRangeMetricsByString(str: string) returns (result: Option<seq<int>>)
    ensures result == ParseRange(str)
  {
    var parts := Split(str, '|');
    var numbers: seq<int> := [];
    for i := 0 to |parts|
      invariant |numbers| == i
      invariant forall k :: 0 <= k < i ==> ParseFloat(parts[k]) == Some(numbers[k])
    {
      var fv := ParseFloat(parts[i]);
      if fv.None? {
        return None;
      }
      numbers := numbers + [fv.value];
    }
    assert numbers == ParseAll(parts).value;
    return Some(numbers);
  }

  function FormatAll(vs: seq<int>): (parts: seq<string>)
    ensures |parts| == |vs|
  {
    seq(|vs|, i requires 0 <= i < |vs| => Format(vs[i]))
  }

  /** A row of numbers as one string. */
  function PrintRange(vs: seq<int>): string { Join(FormatAll(vs), '|') }

  lemma {:induction false} JoinLast(parts: seq<string>, last: string, c: char)
    requires parts != []
    ensures Join(parts + [last], c) == Join(parts, c) + [c] + last
  {
    if |parts| == 1 {
      assert (parts + [last])[1..] == [last];
    } else {
      assert (parts + [last])[1..] == parts[1..] + [last];
      JoinLast(parts[1..], last, c);
    }
  }

  lemma {:induction false} JoinHasNo(parts: seq<string>, c: char, d: char)
    requires d != c && forall i :: 0 <= i < |parts| ==> d !in parts[i]
    ensures d !in Join(parts, c)
  {
    if |parts| > 1 { JoinHasNo(parts[1..], c, d); }
  }

  lemma ParseFormats(vs: seq<int>)
    ensures ParseAll(FormatAll(vs)) == Some(vs)
  {
    var parts := FormatAll(vs);
    forall i | 0 <= i < |parts| ensures ParseFloat(parts[i]) == Some(vs[i]) { NumberRoundTrip(vs[i]); }
    assert ParseAll(parts).value == vs;
  }

  /** Neither separator occurs in a formatted number. */
  lemma FormatHasNoSeparator(v: int)
    ensures '|' !in Format(v) && ',' !in Format(v) && Format(v) != ""
  {
    var n := if v < 0 then -v else v;
    NatRoundTrip(n / SCALE);
    assert Pow10(5) == SCALE by { assert Pow10(3) == 1000; }
    FixedRoundTrip(n % SCALE, 5);
    forall i | 0 <= i < |Format(v)| ensures Format(v)[i] == '-' || Format(v)[i] == '.' || IsDigit(Format(v)[i]) {}
  }

  /** Printing and parsing a row gives the row back. */
  lemma RangeRoundTrip(vs: seq<int>)
    requires vs != []
    ensures ParseRange(PrintRange(vs)) == Some(vs)
  {
    ParseFormats(vs);
    forall i | 0 <= i < |vs| ensures '|' !in FormatAll(vs)[i] { FormatHasNoSeparator(vs[i]); }
    SplitJoin(FormatAll(vs), '|');
  }

  lemma RangeHasNoComma(vs: seq<int>)
    ensures ',' !in PrintRange(vs)
    ensures vs != [] ==> PrintRange(vs) != ""
  {
    forall i | 0 <= i < |vs| ensures ',' !in FormatAll(vs)[i] && FormatAll(vs)[i] != "" {
      FormatHasNoSeparator(vs[i]);
    }
    JoinHasNo(FormatAll(vs), '|', ',');
  }

  // ---------- the annotation around a value ----------

  /** What an annotation holds: a value and the time it was written. */
  function Wrap(value: string, stamp: string): string { value + "," + stamp }

  lemma WrapSplits(value: string, stamp: string)
    requires ',' !in value && ',' !in stamp
    ensures Split(Wrap(value, stamp), ',') == [value, stamp]
  {
    assert Join([value, stamp], ',') == Wrap(value, stamp) by { assert [value, stamp][1..] == [stamp]; }
    SplitJoin([value, stamp], ',');
  }

  /** A printed row survives the annotation: it comes back unwrapped, then number by number. */
  lemma AnnotationRoundTrip(vs: seq<int>, stamp: string)
    requires vs != [] && ',' !in stamp
    ensures Split(Wrap(PrintRange(vs), stamp), ',') == [PrintRange(vs), stamp]
    ensures ParseRange(Split(Wrap(PrintRange(vs), stamp), ',')[0]) == Some(vs)
  {
    RangeHasNoComma(vs);
    WrapSplits(PrintRange(vs), stamp);
    RangeRoundTrip(vs);
  }
}
