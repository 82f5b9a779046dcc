/** The time conversions the history model relies on: QDateTime::toTime_t and local calendar days. */
module Calendar {

  const MSECS_PER_DAY: int := 86_400_000

  /** What QDateTime::toTime_t answers for an instant it cannot represent: -1 as a 32-bit unsigned number. */
  const NO_TIME_T: int := 0xFFFF_FFFF

  /** An instant in UTC milliseconds that toTime_t represents: from 1970 to early 2106. */
  type Millis = t: int | 0 <= t < 0xFFFF_FFFF * 1000

  /** A stored time: a whole second that toTime_t can answer. */
  type Seconds = s: int | 0 <= s < 0xFFFF_FFFF

  datatype Date = NoDate | Day(number: int)

  /** Whole seconds since 1970, dividing the way C++ does, or NO_TIME_T outside the unsigned 32-bit range. */
  function ToTimeT(ms: int): (s: int)
    ensures 0 <= s <= NO_TIME_T
  {
    var seconds := if ms >= 0 then ms / 1000 else -(-ms / 1000);
    if 0 <= seconds < NO_TIME_T then seconds else NO_TIME_T
  }

  /** The second an instant falls into, cut towards 1970; for more than a second before 1970, and from early 2106 on,
      the largest unsigned 32-bit number. */
  lemma TimeTExactly(ms: int)
    ensures 0 <= ms < 4_294_967_295_000 ==> ToTimeT(ms) * 1000 <= ms < ToTimeT(ms) * 1000 + 1000
    ensures -1000 < ms < 0 ==> ToTimeT(ms) == 0
    ensures ms <= -1000 || ms >= 4_294_967_295_000 ==> ToTimeT(ms) == 4_294_967_295
  {
  }

  function SecondsOf(ms: Millis): Seconds {
    ToTimeT(ms)
  }

  /** The calendar day of an instant for a clock that is utcOffset seconds ahead of UTC. */
  function LocalDay(ms: int, utcOffset: int): int {
    (ms + utcOffset * 1000) / MSECS_PER_DAY
  }

  /** UTC milliseconds at which a local day begins. */
  function DayBegin(day: int, utcOffset: int): int {
    day * MSECS_PER_DAY - utcOffset * 1000
  }

  /** UTC milliseconds of 23:59:59.999 on a local day. */
  function DayEnd(day: int, utcOffset: int): int {
    DayBegin(day, utcOffset) + 86_399_999
  }

  /** The local day that began before 1970 UTC and ended after it: its first second has no time_t. */
  predicate StraddlesEpoch(day: int, utcOffset: int) {
    DayBegin(day, utcOffset) < 0 <= DayEnd(day, utcOffset)
  }

  predicate InTimeTRange(ms: int, day: int, utcOffset: int) {
    ToTimeT(DayBegin(day, utcOffset)) <= ToTimeT(ms) <= ToTimeT(DayEnd(day, utcOffset))
  }

  lemma LocalDayBounds(ms: int, day: int, utcOffset: int)
    ensures LocalDay(ms, utcOffset) == day
       <==> DayBegin(day, utcOffset) <= ms <= DayEnd(day, utcOffset)
  {
    var local := ms + utcOffset * 1000;
    assert local == local / MSECS_PER_DAY * MSECS_PER_DAY + local % MSECS_PER_DAY;
  }

  /** An instant lies on a local day exactly when its truncated second lies between the day's first and
      last second, unless the day straddles the epoch. */
  lemma DayIsTimeTRange(ms: Millis, day: int, utcOffset: int)
    ensures StraddlesEpoch(day, utcOffset) ==> !InTimeTRange(ms, day, utcOffset)
    ensures !StraddlesEpoch(day, utcOffset) ==>
      (LocalDay(ms, utcOffset) == day <==> InTimeTRange(ms, day, utcOffset))
  {
    LocalDayBounds(ms, day, utcOffset);
    var begin := day * 86_400 - utcOffset;
    assert DayBegin(day, utcOffset) == begin * 1000;
    assert DayBegin(day, utcOffset) >= 0 ==>
      DayBegin(day, utcOffset) / 1000 == begin && DayEnd(day, utcOffset) / 1000 == begin + 86_399;
  }

  /** The two tests agree on every representable instant exactly for the days that do not straddle the epoch. */
  lemma DayTestsAgree(day: int, utcOffset: int)
    ensures (forall ms: Millis :: LocalDay(ms, utcOffset) == day <==> InTimeTRange(ms, day, utcOffset))
       <==> !StraddlesEpoch(day, utcOffset)
  {
    forall ms: Millis | !StraddlesEpoch(day, utcOffset)
      ensures LocalDay(ms, utcOffset) == day <==> InTimeTRange(ms, day, utcOffset)
    {
      DayIsTimeTRange(ms, day, utcOffset);
    }
    if StraddlesEpoch(day, utcOffset) {
      var epoch: Millis := 0;
      LocalDayBounds(epoch, day, utcOffset);
      DayIsTimeTRange(epoch, day, utcOffset);
      assert LocalDay(epoch, utcOffset) == day && !InTimeTRange(epoch, day, utcOffset);
    }
  }
}
