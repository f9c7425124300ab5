/** The time-of-day collection policy: which bucket an instant falls in, whether to
    collect, and the recommended interval before the next run. */
module Scheduler {
  import opened Wrappers
  import opened CivilTime

  const CommuteIntervalSeconds := 120
  const NormalIntervalSeconds := 900

  /** Window bounds in seconds of day, both ends inclusive. */
  const MorningStart := 7 * 3600
  const MorningEnd := 9 * 3600 + 30 * 60
  const EveningStart := 17 * 3600 + 30 * 60
  const EveningEnd := 20 * 3600
  const NightStart := 30 * 60
  const NightEnd := 5 * 3600
  /** 05:00:01, the first instant at which collection may resume. */
  const NextCollectSeconds := 5 * 3600 + 1

  datatype TimeBucket = Morning | Evening | Normal | Night

  datatype PolicyDecision = PolicyDecision(shouldCollect: bool, intervalSeconds: int, bucket: TimeBucket)

  /** `ValueError` for a naive `now`. */
  datatype PolicyError = NaiveDateTime

  /** `decide_collection(now=...)`. Night is tested first, then morning, then evening. */
  function DecideCollection(now: Instant): (r: Result<PolicyDecision, PolicyError>)
    ensures r.Failure? <==> !now.aware
    ensures r.Success? ==> (r.value.shouldCollect <==> r.value.bucket != Night)
    ensures r.Success? && r.value.bucket == Night ==>
      r.value.intervalSeconds == NextCollectSeconds - SecondsOfDay(now.local) >= 1
    ensures r.Success? && r.value.bucket in {Morning, Evening} ==> r.value.intervalSeconds == CommuteIntervalSeconds
    ensures r.Success? && r.value.bucket == Normal ==> r.value.intervalSeconds == NormalIntervalSeconds
  {
    if !now.aware then Failure(NaiveDateTime)
    else
      var t := SecondsOfDay(now.local);
      if NightStart <= t <= NightEnd then
        // the next collect time of the same day, rolled to the following day once passed
        var untilNext := if t >= NextCollectSeconds then NextCollectSeconds + 86400 - t else NextCollectSeconds - t;
        Success(PolicyDecision(false, untilNext, Night))
      else if MorningStart <= t <= MorningEnd then
        Success(PolicyDecision(true, CommuteIntervalSeconds, Morning))
      else if EveningStart <= t <= EveningEnd then
        Success(PolicyDecision(true, CommuteIntervalSeconds, Evening))
      else
        Success(PolicyDecision(true, NormalIntervalSeconds, Normal))
  }

  // ---------------------------------------------------------------------------
  // The windows stated on the wall clock

  /** `t` reads `h:m:s` or later on its day. */
  predicate AtOrAfter(t: DateTime, h: int, m: int, s: int) {
    t.hour > h || (t.hour == h && (t.minute > m || (t.minute == m && t.second >= s)))
  }

  /** `t` reads `h:m:s` or earlier on its day. */
  predicate AtOrBefore(t: DateTime, h: int, m: int, s: int) {
    t.hour < h || (t.hour == h && (t.minute < m || (t.minute == m && t.second <= s)))
  }

  /** The policy table as written on the clock face: night 00:30:00-05:00:00,
      morning 07:00:00-09:30:00, evening 17:30:00-20:00:00, all inclusive. */
  function WallClockBucket(t: DateTime): TimeBucket {
    if AtOrAfter(t, 0, 30, 0) && AtOrBefore(t, 5, 0, 0) then Night
    else if AtOrAfter(t, 7, 0, 0) && AtOrBefore(t, 9, 30, 0) then Morning
    else if AtOrAfter(t, 17, 30, 0) && AtOrBefore(t, 20, 0, 0) then Evening
    else Normal
  }

  /** Comparing seconds of day is comparing `(hour, minute, second)` lexicographically. */
  lemma SecondsOfDayOrder(t: DateTime, h: int, m: int, s: int)
    requires 0 <= h < 24 && 0 <= m < 60 && 0 <= s < 60
    ensures SecondsOfDay(t) >= h * 3600 + m * 60 + s <==> AtOrAfter(t, h, m, s)
    ensures SecondsOfDay(t) <= h * 3600 + m * 60 + s <==> AtOrBefore(t, h, m, s)
  {
    var a := t.minute * 60 + t.second;
    var b := m * 60 + s;
    assert 0 <= a < 3600 && 0 <= b < 3600;
    if t.hour > h {
      assert t.hour * 3600 >= h * 3600 + 3600;
    } else if t.hour < h {
      assert t.hour * 3600 + 3600 <= h * 3600;
    } else if t.minute > m {
      assert t.minute * 60 >= m * 60 + 60;
    } else if t.minute < m {
      assert t.minute * 60 + 60 <= m * 60;
    }
  }

  /** The seconds-of-day thresholds of the code select the same buckets as the clock-face
      table, for every aware instant. */
  lemma {:induction false} BucketMatchesWallClock(now: Instant)
    requires now.aware
    ensures DecideCollection(now).Success?
    ensures DecideCollection(now).value.bucket == WallClockBucket(now.local)
  {
    var t := now.local;
    SecondsOfDayOrder(t, 0, 30, 0);
    SecondsOfDayOrder(t, 5, 0, 0);
    SecondsOfDayOrder(t, 7, 0, 0);
    SecondsOfDayOrder(t, 9, 30, 0);
    SecondsOfDayOrder(t, 17, 30, 0);
    SecondsOfDayOrder(t, 20, 0, 0);
  }

  /** Collection is refused exactly in the night window. */
  lemma ShouldCollectIffNotNight(now: Instant)
    requires now.aware
    ensures DecideCollection(now).value.shouldCollect <==> !(NightStart <= SecondsOfDay(now.local) <= NightEnd)
  {
  }

  /** A night answer waits until 05:00:01 of the same day and never past it: the branch
      that would roll to the next day cannot be taken. */
  lemma NightWaitsUntilFiveOhOne(now: Instant)
    requires now.aware && DecideCollection(now).value.bucket == Night
    ensures 1 <= DecideCollection(now).value.intervalSeconds <= NextCollectSeconds - NightStart
    ensures SecondsOfDay(now.local) + DecideCollection(now).value.intervalSeconds == NextCollectSeconds
  {
  }

  /** The instants just outside each window are normal. */
  lemma BoundaryInstantsAreNormal(d: Date)
    requires d.Valid()
    ensures DecideCollection(Instant(LocalDateTime(d, 0, 29, 59), true)) == Success(PolicyDecision(true, 900, Normal))
    ensures DecideCollection(Instant(LocalDateTime(d, 5, 0, 1), true)) == Success(PolicyDecision(true, 900, Normal))
    ensures DecideCollection(Instant(LocalDateTime(d, 9, 30, 1), true)) == Success(PolicyDecision(true, 900, Normal))
    ensures DecideCollection(Instant(LocalDateTime(d, 20, 0, 1), true)) == Success(PolicyDecision(true, 900, Normal))
  {
  }

  /** The inclusive window ends belong to their windows. */
  lemma WindowEndsAreInclusive(d: Date)
    requires d.Valid()
    ensures DecideCollection(Instant(LocalDateTime(d, 0, 30, 0), true)) == Success(PolicyDecision(false, 16201, Night))
    ensures DecideCollection(Instant(LocalDateTime(d, 5, 0, 0), true)) == Success(PolicyDecision(false, 1, Night))
    ensures DecideCollection(Instant(LocalDateTime(d, 7, 0, 0), true)) == Success(PolicyDecision(true, 120, Morning))
    ensures DecideCollection(Instant(LocalDateTime(d, 9, 30, 0), true)) == Success(PolicyDecision(true, 120, Morning))
    ensures DecideCollection(Instant(LocalDateTime(d, 17, 30, 0), true)) == Success(PolicyDecision(true, 120, Evening))
    ensures DecideCollection(Instant(LocalDateTime(d, 20, 0, 0), true)) == Success(PolicyDecision(true, 120, Evening))
  {
  }
}
