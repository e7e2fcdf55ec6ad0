/** Values kept in annotations: a value, a comma, and the time it was written. */
module Annotations {
  import opened Options
  import opened Decimals

  /** Five minutes, in nanoseconds. */
  const EXTRA_ACTIVE_PERIOD := 300_000_000_000
  const MIN_TIMESTAMP_STR_LENGTH := 5
  const DELTA_PREFIX_NAME := "delta_"

  datatype SyncPolicy = SyncPolicy(name: string, period: int)

  /** How a time is printed, and which time (in nanoseconds) a printed stamp is read as, if any. */
  datatype Clock = Clock(stamp: int -> string, read: string -> Option<int>)

  /** No stamp of the clock holds a comma. */
  ghost predicate PlainStamps(clock: Clock) {
    forall t :: ',' !in clock.stamp(t)
  }

  predicate InActivePeriod(written: string, duration: int, clock: Clock, now: int) {
    && |written| >= MIN_TIMESTAMP_STR_LENGTH
    && clock.read(written).Some?
    && now < clock.read(written).value + duration
  }

  function Patch(anno: map<string, string>, key: string, value: string, clock: Clock, now: int): map<string, string> {
    anno[key := Wrap(value, clock.stamp(now))]
  }

  function GetDeltaUsageRange(anno: map<string, string>, key: string): Result<string> {
    if key !in anno then Ok("")
    else
      var parts := Split(anno[key], ',');
      if |parts| != 2 then Err else Ok(parts[0])
  }

  function GetResourceUsageRange(anno: map<string, string>, key: string, duration: int, clock: Clock, now: int)
    : Result<string>
  {
    if key !in anno then Ok("")
    else
      var parts := Split(anno[key], ',');
      if |parts| != 2 || !InActivePeriod(parts[1], duration, clock, now) then Err else Ok(parts[0])
  }

  /** A usage in units of the fifth decimal; a missing key and a negative number are errors here. */
  function GetResourceUsage(anno: map<string, string>, key: string, duration: int, clock: Clock, now: int)
    : Result<nat>
  {
    if key !in anno then Err
    else
      var parts := Split(anno[key], ',');
      if |parts| != 2 || !InActivePeriod(parts[1], duration, clock, now) then Err
      else
        var used := ParseFloat(parts[0]);
        if used.None? || used.value < 0 then Err else Ok(used.value)
  }

  /** The first policy of that name with a period decides. */
  function GetActiveDuration(policies: seq<SyncPolicy>, name: string): Result<int> {
    if policies == [] then Err
    else if policies[0].name == name && policies[0].period != 0 then Ok(policies[0].period + EXTRA_ACTIVE_PERIOD)
    else GetActiveDuration(policies[1..], name)
  }

  /**
   * A missing annotation is no value to the range readers and an error to the usage reader; a malformed one
   * is an error to all.
   */
  lemma MissingAndMalformed(anno: map<string, string>, key: string, duration: int, clock: Clock, now: int)
    ensures key !in anno ==>
      && GetDeltaUsageRange(anno, key) == Ok("")
      && GetResourceUsageRange(anno, key, duration, clock, now) == Ok("")
      && GetResourceUsage(anno, key, duration, clock, now) == Err
    ensures key in anno && |Split(anno[key], ',')| != 2 ==>
      && GetDeltaUsageRange(anno, key) == Err
      && GetResourceUsageRange(anno, key, duration, clock, now) == Err
      && GetResourceUsage(anno, key, duration, clock, now) == Err
  {
  }

  /** The first policy of that name with a period gives its period and five minutes more; without one there is none. */
  lemma {:induction false} ActiveDurationIsOfTheFirst(policies: seq<SyncPolicy>, name: string, k: nat)
    requires k <= |policies| && forall i :: 0 <= i < k ==> policies[i].name != name || policies[i].period == 0
    requires k < |policies| ==> policies[k].name == name && policies[k].period != 0
    ensures GetActiveDuration(policies, name)
      == if k < |policies| then Ok(policies[k].period + 5 * 60 * 1_000_000_000) else Err
  {
    if k > 0 {
      ActiveDurationIsOfTheFirst(policies[1..], name, k - 1);
    }
  }

  lemma {:induction false} PartsHaveNoSeparator(s: string, c: char)
    ensures forall i :: 0 <= i < |Split(s, c)| ==> c !in Split(s, c)[i]
    decreases |s|
  {
    var i := IndexOf(s, c);
    if i < |s| {
      PartsHaveNoSeparator(s[i + 1..], c);
    }
  }

  lemma UsageHasNoComma(anno: map<string, string>, key: string, duration: int, clock: Clock, now: int)
    ensures var r := GetResourceUsageRange(anno, key, duration, clock, now);
      r.Ok? ==> ',' !in r.value
  {
    if key in anno {
      PartsHaveNoSeparator(anno[key], ',');
    }
  }

  /**
   * A patched value without a comma is read back by every reader: as a delta always, and as a usage
   * exactly until its stamp plus the duration.
   */
  lemma PatchReadsBack(anno: map<string, string>, key: string, value: string, clock: Clock, written: int,
                       duration: int, now: int)
    requires ',' !in value && PlainStamps(clock)
    ensures var patched := Patch(anno, key, value, clock, written);
      && GetDeltaUsageRange(patched, key) == Ok(value)
      && GetResourceUsageRange(patched, key, duration, clock, now)
         == (if |clock.stamp(written)| >= 5 && clock.read(clock.stamp(written)).Some?
               && now - clock.read(clock.stamp(written)).value < duration
             then Ok(value) else Err)
      && forall other | other != key ::
           && GetDeltaUsageRange(patched, other) == GetDeltaUsageRange(anno, other)
           && GetResourceUsageRange(patched, other, duration, clock, now)
              == GetResourceUsageRange(anno, other, duration, clock, now)
  {
    WrapSplits(value, clock.stamp(written));
  }

  /** A measured usage printed with five decimals is read back as that number while it is fresh. */
  lemma UsageReadsBack(anno: map<string, string>, key: string, used: int, clock: Clock, written: int,
                       duration: int, now: int)
    requires PlainStamps(clock)
    ensures GetResourceUsage(Patch(anno, key, Format(used), clock, written), key, duration, clock, now)
      == (if used >= 0 && |clock.stamp(written)| >= 5 && clock.read(clock.stamp(written)).Some?
            && now - clock.read(clock.stamp(written)).value < duration
          then Ok(used) else Err)
  {
    FormatHasNoSeparator(used);
    NumberRoundTrip(used);
    WrapSplits(Format(used), clock.stamp(written));
  }
}
