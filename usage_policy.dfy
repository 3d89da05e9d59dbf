/** UsagePolicy: the three usage thresholds, derived from one allow duration
    and replaced together, with a report of whether anything changed. */
module UsagePolicy {
  import opened Base

  const DEFAULT_RECENT_THRESHOLD: int := 2 * DAY_MILLIS
  const DEFAULT_WARNING_THRESHOLD: int := 3 * DAY_MILLIS
  const DEFAULT_DISABLE_THRESHOLD: int := 4 * DAY_MILLIS
  const MIN_THRESHOLD: int := MINUTE_MILLIS

  datatype Thresholds = Thresholds(recent: int, warning: int, disable: int)

  const DEFAULT_THRESHOLDS: Thresholds :=
    Thresholds(DEFAULT_RECENT_THRESHOLD, DEFAULT_WARNING_THRESHOLD, DEFAULT_DISABLE_THRESHOLD)

  /** The triple updateThresholds computes from an allow duration: the disable
      threshold is the duration floored at one minute, the warning threshold
      three quarters of it (floored at one minute), the recent threshold the
      disable threshold capped at two days. */
  function Derive(allowDurationMillis: int): (t: Thresholds)
    ensures t.disable == AtLeast(allowDurationMillis, MIN_THRESHOLD)
    ensures t.recent >= MIN_THRESHOLD && t.warning >= MIN_THRESHOLD && t.disable >= MIN_THRESHOLD
    ensures t.warning <= t.disable && t.recent <= t.disable
    ensures t.recent <= DEFAULT_RECENT_THRESHOLD
    ensures t.recent == DEFAULT_RECENT_THRESHOLD || t.recent == t.disable
    ensures t.disable * 3 >= MIN_THRESHOLD * 4 ==> t.warning * 4 <= t.disable * 3 < t.warning * 4 + 4
    ensures t.disable * 3 < MIN_THRESHOLD * 4 ==> t.warning == MIN_THRESHOLD
  {
    var sanitized := AtLeast(allowDurationMillis, MIN_THRESHOLD);
    Thresholds(
      AtMost(sanitized, DEFAULT_RECENT_THRESHOLD),
      AtLeast(KDiv(sanitized * 3, 4), MIN_THRESHOLD),
      sanitized)
  }

  /** Each derived threshold is monotone non-decreasing in the allow duration. */
  lemma DeriveMonotone(a: int, b: int)
    requires a <= b
    ensures Derive(a).recent <= Derive(b).recent
    ensures Derive(a).warning <= Derive(b).warning
    ensures Derive(a).disable <= Derive(b).disable
  {
    var sa, sb := AtLeast(a, MIN_THRESHOLD), AtLeast(b, MIN_THRESHOLD);
    assert sa <= sb;
    assert KDiv(sa * 3, 4) <= KDiv(sb * 3, 4);
  }

  /** The constructor's defaults are exactly what the default allow duration of
      four days derives, so applying it to a fresh policy changes nothing. */
  lemma DefaultsAreDerivedFromFourDays()
    ensures Derive(4 * DAY_MILLIS) == DEFAULT_THRESHOLDS
  {
  }

  /** shouldSkip: no package is excluded from the automation pipeline. */
  function ShouldSkip(packageName: string): (skip: bool)
    ensures !skip
  {
    false
  }

  class Policy {
    var recentThresholdMillis: int
    var warningThresholdMillis: int
    var disableThresholdMillis: int

    function Current(): Thresholds
      reads this
    {
      Thresholds(recentThresholdMillis, warningThresholdMillis, disableThresholdMillis)
    }

    constructor (initial: Thresholds)
      ensures Current() == initial
    {
      recentThresholdMillis := initial.recent;
      warningThresholdMillis := initial.warning;
      disableThresholdMillis := initial.disable;
    }

    /** Replaces all three thresholds at once when any of them differs from the
        derived triple; reports whether that happened. */
    method UpdateThresholds(allowDurationMillis: int) returns (changed: bool)
      modifies this
      ensures changed <==> old(Current()) != Derive(allowDurationMillis)
      ensures Current() == Derive(allowDurationMillis)
    {
      var sanitized := AtLeast(allowDurationMillis, MIN_THRESHOLD);
      var newDisable := sanitized;
      var newWarning := AtLeast(KDiv(sanitized * 3, 4), MIN_THRESHOLD);
      var newRecent := AtMost(sanitized, DEFAULT_RECENT_THRESHOLD);
      changed := false;
      if newDisable != disableThresholdMillis || newWarning != warningThresholdMillis
        || newRecent != recentThresholdMillis
      {
        disableThresholdMillis := newDisable;
        warningThresholdMillis := newWarning;
        recentThresholdMillis := newRecent;
        changed := true;
      }
    }
  }

  /** A second update with the same argument reports no change, and a fresh
      policy reports no change for the default four days. */
  method UpdateIsIdempotent(allowDurationMillis: int) returns (first: bool, second: bool)
    ensures !second
    ensures first <==> Derive(allowDurationMillis) != DEFAULT_THRESHOLDS
  {
    var policy := new Policy(DEFAULT_THRESHOLDS);
    first := policy.UpdateThresholds(allowDurationMillis);
    second := policy.UpdateThresholds(allowDurationMillis);
  }
}
