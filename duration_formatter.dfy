/** formatDuration's choice of unit and count. The plural-resource lookup that
    turns the pair into text is left to the caller. */
module DurationFormatter {
  import opened Base

  datatype DurationUnit = Days | Hours | Minutes | Seconds

  datatype DurationLabel = DurationLabel(unit: DurationUnit, count: int)

  function UnitMillis(unit: DurationUnit): (ms: int)
    ensures ms > 0
  {
    match unit
    case Days => DAY_MILLIS
    case Hours => HOUR_MILLIS
    case Minutes => MINUTE_MILLIS
    case Seconds => SECOND_MILLIS
  }

  /** Days when the duration is a positive whole number of days, else hours when
      it is a positive whole number of hours, else minutes when it reaches a
      minute, else seconds, never fewer than one. */
  function FormatDuration(durationMillis: int): (shown: DurationLabel)
    ensures shown.count >= 1
    ensures shown.unit == Days <==> durationMillis > 0 && durationMillis % DAY_MILLIS == 0
    ensures shown.unit == Hours <==>
      durationMillis > 0 && durationMillis % DAY_MILLIS != 0 && durationMillis % HOUR_MILLIS == 0
    ensures shown.unit == Minutes <==>
      durationMillis >= MINUTE_MILLIS && durationMillis % HOUR_MILLIS != 0
    ensures shown.unit in {Days, Hours} ==> shown.count * UnitMillis(shown.unit) == durationMillis
    ensures shown.unit == Minutes ==>
      shown.count * MINUTE_MILLIS <= durationMillis < (shown.count + 1) * MINUTE_MILLIS
    ensures shown.unit == Seconds ==> durationMillis < MINUTE_MILLIS
  {
    DivisionFacts(durationMillis);
    var days := KDiv(durationMillis, DAY_MILLIS);
    if KRem(durationMillis, DAY_MILLIS) == 0 && days > 0 then
      DurationLabel(Days, days)
    else
      var hours := KDiv(durationMillis, HOUR_MILLIS);
      if KRem(durationMillis, HOUR_MILLIS) == 0 && hours > 0 then
        DurationLabel(Hours, hours)
      else
        var minutes := KDiv(durationMillis, MINUTE_MILLIS);
        if minutes > 0 then
          DurationLabel(Minutes, minutes)
        else
          DurationLabel(Seconds, AtLeast(KDiv(durationMillis, SECOND_MILLIS), 1))
  }

  /** Kotlin's truncating `/` and `%` agree with Dafny's on non-negative
      durations, a negative duration has no positive quotient, and a whole
      number of days is a whole number of hours. */
  lemma DivisionFacts(ms: int)
    ensures ms >= 0 ==> forall u :: u in {DAY_MILLIS, HOUR_MILLIS, MINUTE_MILLIS, SECOND_MILLIS} ==>
      KDiv(ms, u) == ms / u && KRem(ms, u) == ms % u
    ensures ms < 0 ==> forall u :: u in {DAY_MILLIS, HOUR_MILLIS, MINUTE_MILLIS, SECOND_MILLIS} ==>
      KDiv(ms, u) <= 0
    ensures ms % DAY_MILLIS == 0 ==> ms % HOUR_MILLIS == 0
  {
    if ms % DAY_MILLIS == 0 {
      var k := ms / DAY_MILLIS;
      assert ms == (24 * k) * HOUR_MILLIS;
    }
  }

  /** Below one second (including zero and negative durations) the label is
      "1 second"; between one second and one minute it is the whole seconds. */
  lemma SecondsCount(durationMillis: int)
    requires durationMillis < MINUTE_MILLIS
    ensures FormatDuration(durationMillis).unit == Seconds
    ensures durationMillis < SECOND_MILLIS ==> FormatDuration(durationMillis).count == 1
    ensures durationMillis >= SECOND_MILLIS ==>
      FormatDuration(durationMillis).count == durationMillis / SECOND_MILLIS
  {
  }

  lemma TwentyFiveHours()
    ensures FormatDuration(90_000_000) == DurationLabel(Hours, 25)
  {
  }

  lemma FourDays()
    ensures FormatDuration(345_600_000) == DurationLabel(Days, 4)
  {
  }
}
