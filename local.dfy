/** The local persistence layer's value types: the usage status enum, the
    tracked-app row, the domain view of a row, and the Room type converters
    that store the enum as its constant name. */
module Local {
  import opened Base

  datatype AppUsageStatus = RECENT | RARE | DISABLED

  /** One row of the tracked_apps table; `lastUsedAt` is 0 when unknown. */
  datatype TrackedAppEntity = TrackedAppEntity(
    packageName: string,
    appLabel: string,
    lastUsedAt: int,
    status: AppUsageStatus,
    isDisabled: bool,
    scheduledDisableAt: Option<int>,
    notifiedAt: Option<int>)

  /** What the UI and the block-list resolver see of a row. */
  datatype AppUsageInfo = AppUsageInfo(
    packageName: string,
    appLabel: string,
    lastUsedAt: Option<int>,
    status: AppUsageStatus,
    isDisabled: bool,
    scheduledDisableAt: Option<int>,
    notifiedAt: Option<int>)

  /** The enum constant names, in declaration order. */
  const STATUS_NAMES: set<string> := {"RECENT", "RARE", "DISABLED"}

  /** Converters.fromStatus: the constant's `name`. */
  function FromStatus(status: AppUsageStatus): (name: string)
    ensures name in STATUS_NAMES
  {
    match status
    case RECENT => "RECENT"
    case RARE => "RARE"
    case DISABLED => "DISABLED"
  }

  /** Converters.toStatus: `AppUsageStatus.valueOf`, which throws for a string
      that is not a constant name; the throw is `None` here. */
  function ToStatus(value: string): (r: Option<AppUsageStatus>)
    ensures r.Some? <==> value in STATUS_NAMES
  {
    if value == "RECENT" then Some(RECENT)
    else if value == "RARE" then Some(RARE)
    else if value == "DISABLED" then Some(DISABLED)
    else None
  }

  lemma StatusRoundTrip(status: AppUsageStatus)
    ensures ToStatus(FromStatus(status)) == Some(status)
  {
  }

  lemma NameRoundTrip(value: string)
    requires value in STATUS_NAMES
    ensures ToStatus(value).Some? && FromStatus(ToStatus(value).value) == value
  {
  }

  lemma FromStatusInjective(s1: AppUsageStatus, s2: AppUsageStatus)
    requires s1 != s2
    ensures FromStatus(s1) != FromStatus(s2)
  {
  }

  lemma UnknownNameFails(value: string)
    requires value !in STATUS_NAMES
    ensures ToStatus(value) == None
  {
  }
}
