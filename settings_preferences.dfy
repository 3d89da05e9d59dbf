/** SettingsPreferencesDataSource: the allow duration, the metrics switch and
    the manual-unblock switch in a preferences store, with their defaults and
    the positivity check on the duration. */
module SettingsPreferences {
  import opened Base

  datatype PrefValue =
    | BoolValue(b: bool)
    | LongValue(n: int)

  type Store = map<string, PrefValue>

  const ALLOW_DURATION_MILLIS: string := "allow_duration_millis"
  const METRICS_ENABLED: string := "metrics_enabled"
  const MANUAL_FIREWALL_UNBLOCK: string := "manual_firewall_unblock"

  const DEFAULT_ALLOW_DURATION_MILLIS: int := 4 * DAY_MILLIS

  datatype AppSettings = AppSettings(allowDurationMillis: int, metricsEnabled: bool, manualFirewallUnblock: bool)

  const DEFAULT_SETTINGS: AppSettings := AppSettings(DEFAULT_ALLOW_DURATION_MILLIS, false, false)

  /** The preferencesFlow mapping: each key read with its default. */
  function Read(store: Store): (p: AppSettings)
    ensures ALLOW_DURATION_MILLIS in store && store[ALLOW_DURATION_MILLIS].LongValue? ==>
      p.allowDurationMillis == store[ALLOW_DURATION_MILLIS].n
    ensures !(ALLOW_DURATION_MILLIS in store && store[ALLOW_DURATION_MILLIS].LongValue?) ==>
      p.allowDurationMillis == DEFAULT_ALLOW_DURATION_MILLIS
    ensures p.metricsEnabled <==> METRICS_ENABLED in store && store[METRICS_ENABLED] == BoolValue(true)
    ensures p.manualFirewallUnblock <==>
      MANUAL_FIREWALL_UNBLOCK in store && store[MANUAL_FIREWALL_UNBLOCK] == BoolValue(true)
  {
    AppSettings(
      if ALLOW_DURATION_MILLIS in store && store[ALLOW_DURATION_MILLIS].LongValue?
      then store[ALLOW_DURATION_MILLIS].n else DEFAULT_ALLOW_DURATION_MILLIS,
      METRICS_ENABLED in store && store[METRICS_ENABLED] == BoolValue(true),
      MANUAL_FIREWALL_UNBLOCK in store && store[MANUAL_FIREWALL_UNBLOCK] == BoolValue(true))
  }

  /** One emission of the flow: an IOException (None) reads as the empty
      store, so the defaults. */
  function ReadFlow(data: Option<Store>): (p: AppSettings)
    ensures data.None? ==> p == DEFAULT_SETTINGS
    ensures data.Some? ==> p == Read(data.value)
  {
    Read(if data.Some? then data.value else map[])
  }

  /** setAllowDurationMillis's edit: None (the `require` failure) for a
      duration that is not positive, before anything is written. */
  function PutAllowDuration(store: Store, durationMillis: int): (r: Option<Store>)
    ensures r.None? <==> durationMillis <= 0
    ensures r.Some? ==> Read(r.value) == Read(store).(allowDurationMillis := durationMillis)
    ensures r.Some? ==> forall k :: k != ALLOW_DURATION_MILLIS ==>
      (k in r.value <==> k in store) && (k in store ==> r.value[k] == store[k])
  {
    if durationMillis <= 0 then None else Some(store[ALLOW_DURATION_MILLIS := LongValue(durationMillis)])
  }

  function PutMetricsEnabled(store: Store, enabled: bool): (s: Store)
    ensures Read(s) == Read(store).(metricsEnabled := enabled)
    ensures forall k :: k != METRICS_ENABLED ==> (k in s <==> k in store) && (k in store ==> s[k] == store[k])
  {
    store[METRICS_ENABLED := BoolValue(enabled)]
  }

  function PutManualFirewallUnblock(store: Store, enabled: bool): (s: Store)
    ensures Read(s) == Read(store).(manualFirewallUnblock := enabled)
    ensures forall k :: k != MANUAL_FIREWALL_UNBLOCK ==> (k in s <==> k in store) && (k in store ==> s[k] == store[k])
  {
    store[MANUAL_FIREWALL_UNBLOCK := BoolValue(enabled)]
  }

  /** The duration a successful write stores is always positive, so a store
      written only through the setters never reads a non-positive duration. */
  lemma StoredDurationPositive(store: Store, durationMillis: int)
    requires Read(store).allowDurationMillis > 0
    ensures var r := PutAllowDuration(store, durationMillis);
      Read(if r.Some? then r.value else store).allowDurationMillis > 0
  {
  }

  class SettingsPreferencesDataSource {
    var data: Store

    constructor (initial: Store)
      ensures data == initial
    {
      data := initial;
    }

    function Current(): AppSettings
      reads this
    {
      Read(data)
    }

    /** Returns false, writing nothing, when the duration is rejected. */
    method SetAllowDurationMillis(durationMillis: int) returns (accepted: bool)
      modifies this
      ensures accepted <==> durationMillis > 0
      ensures accepted ==> Some(data) == PutAllowDuration(old(data), durationMillis)
      ensures !accepted ==> data == old(data)
    {
      if durationMillis <= 0 {
        return false;
      }
      data := data[ALLOW_DURATION_MILLIS := LongValue(durationMillis)];
      accepted := true;
    }

    method SetMetricsEnabled(enabled: bool)
      modifies this
      ensures data == PutMetricsEnabled(old(data), enabled)
    {
      data := data[METRICS_ENABLED := BoolValue(enabled)];
    }

    method SetManualFirewallUnblock(enabled: bool)
      modifies this
      ensures data == PutManualFirewallUnblock(old(data), enabled)
    {
      data := data[MANUAL_FIREWALL_UNBLOCK := BoolValue(enabled)];
    }
  }
}
