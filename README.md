# Battery Analyzer firewall policy engine in Dafny

This project models the usage-driven firewall policy engine of the Android app
battery-analyzer (packages `com.privacyguard.batteryanalyzer`,
`com.privacyguard.privacyguard` and the older `com.example.batteryanalyzer`).
The engine has these parts:

- **Usage classifier.** `UsageAnalyzer.evaluateUsage` gives each installed
  user app a status of RECENT, RARE or DISABLED. It also decides when a
  disable recommendation or a reminder is due, each at most once.
- **Thresholds.** `UsagePolicy.updateThresholds` derives the three usage
  thresholds from the configured allow duration.
- **Persistence.** The firewall and settings preference stores and the
  tracked-apps table are modelled as key/value maps.
- **Block-list resolver.** `computeBlockList` builds the set of packages to
  block from the RARE and DISABLED apps, the applied set and the
  manual-unblock cooldown table. The companion operations are
  `manualUnblockPackage`, the resync timer and `syncFirewallBlockList`.
- **Firewall state machine.** `FirewallController` turns commands into a
  persisted record, one pending auto-block job and the intents sent to the
  VPN service.
- **VPN service.** `VpnFirewallService` chooses the tunnel: none, a global
  one, or a selective one.
- **Helpers.** The duration label chooser, the Room enum converters and the
  sliding-window traffic accumulator.

The model takes the following as inputs:

- the wall clock, as a parameter `now`;
- the package manager's answers: installed apps, labels, package times,
  enabled state;
- the usage-event query and the TrafficStats counters;
- whether `establish()` returns an interface.

Each coroutine-launched handler is one atomic step. The "currently applied
set" that the view models read is the controller's persisted
`blockedPackages`.

Classes hold the state the source mutates:

| class | state it holds |
|---|---|
| `FirewallPreferencesDataSource`, `SettingsPreferencesDataSource` | a preferences map |
| `Controller`, `LegacyController` | the preference store, the pending job time, the list of commands sent |
| `VpnFirewallService`, `LegacyVpnFirewallService` | mode, set, interface, stream and thread flags |
| `Repository` | the table and the DAO calls made |
| `TrafficMonitor` | snapshots and deques |
| `ViewModel`, `LegacyMainViewModel` | UI lists, settings copies, cooldown table, timer |
| `Policy` | the three thresholds |

Each method states its new state in terms of specification functions:
`Resolve`, `Evaluate`, `PutState`, `Upserted`, `DropExpired`,
`WantedTunnel` and `AfterUpdate`. The source's promises are proved about
those functions as lemmas.

Behaviours of the code that a reader might not expect, each proved:

- The blocked set is not emptied for good by `disable()`:
  `updateBlockedPackages` persists a new set even while the firewall is
  disabled (`FirewallController.DisabledFirewallKeepsUpdatedSet`).
- The cooldown scheduler is re-armed by `manualUnblockPackage` and by
  `setManualFirewallUnblock(true)`, the two paths that call
  `scheduleManualUnblockSync`. The
  sweep in `syncFirewallBlockList`, which the job itself runs, never
  re-arms it, so once the job has fired later cooldowns have no timer
  (see Findings).
- `enableFirewall` in the newer controller sends an allowing command with an
  empty list. The older controller sends the full list
  (`LegacyFirewallController.EnableSendsFullListOnlyInLegacy`).

Other behaviours of the older copy that the model proves:

- A second blocking start command leaves the tunnel routing the first list
  (`LegacyVpnService.SecondListIsNotRouted`).
- In automatic mode, a manual unblock is undone by the immediate resync
  whenever the package is a candidate
  (`LegacyViewModel.LegacyMainViewModel.ManualUnblockPackage`).

## Model

| member | source | states |
|---|---|---|
| Local.FromStatus | app/src/main/java/com/privacyguard/batteryanalyzer/data/local/Converters.kt:8 | the stored string is one of the three constant names RECENT, RARE, DISABLED |
| Local.ToStatus | app/src/main/java/com/privacyguard/batteryanalyzer/data/local/Converters.kt:11 | a status is produced exactly for the three constant names; any other string fails (None) |
| Local.StatusRoundTrip | app/src/main/java/com/privacyguard/batteryanalyzer/data/local/Converters.kt:7-11 | toStatus(fromStatus(s)) == s for every status |
| Local.NameRoundTrip | app/src/main/java/com/privacyguard/batteryanalyzer/data/local/Converters.kt:7-11 | fromStatus(toStatus(v)) == v for every constant name v |
| Local.FromStatusInjective | app/src/main/java/com/privacyguard/batteryanalyzer/data/local/Converters.kt:8 | distinct statuses are stored as distinct strings |
| Local.UnknownNameFails | app/src/main/java/com/privacyguard/batteryanalyzer/data/local/Converters.kt:11 | a string that is not a constant name does not convert, rather than defaulting |
| Base.KDiv | app/src/main/java/com/privacyguard/batteryanalyzer/ui/DurationFormatter.kt:22 | Kotlin's Long division: the quotient truncated toward zero, bounded on both sides |
| Base.KRem | app/src/main/java/com/privacyguard/batteryanalyzer/ui/DurationFormatter.kt:23 | Kotlin's Long remainder: a == q*b + r with r taking the sign of the dividend |
| Base.AtLeast | app/src/main/java/com/privacyguard/batteryanalyzer/domain/UsagePolicy.kt:40 | coerceAtLeast: the larger of the value and the floor |
| Base.AtMost | app/src/main/java/com/privacyguard/batteryanalyzer/domain/UsagePolicy.kt:43 | coerceAtMost: the smaller of the value and the ceiling |
| DurationFormatter.UnitMillis | app/src/main/java/com/privacyguard/batteryanalyzer/ui/DurationFormatter.kt:18-20 | every display unit has a positive length in milliseconds |
| DurationFormatter.FormatDuration | app/src/main/java/com/privacyguard/batteryanalyzer/ui/DurationFormatter.kt:17-39 | days iff a positive whole number of days; else hours iff a positive whole number of hours; else minutes iff at least a minute; else seconds; the count is always at least 1; in the day and hour branches count × unit equals the input; the minute count is the floor |
| DurationFormatter.DivisionFacts | app/src/main/java/com/privacyguard/batteryanalyzer/ui/DurationFormatter.kt:22-37 | truncating division agrees with floor division for non-negative durations; a negative duration has no positive quotient; whole days are whole hours |
| DurationFormatter.SecondsCount | app/src/main/java/com/privacyguard/batteryanalyzer/ui/DurationFormatter.kt:37-38 | below a minute the label is seconds: 1 below one second (zero and negatives included), else the whole seconds |
| DurationFormatter.TwentyFiveHours | app/src/main/java/com/privacyguard/batteryanalyzer/ui/DurationFormatter.kt:27-30 | 90 000 000 ms is shown as 25 hours |
| DurationFormatter.FourDays | app/src/main/java/com/privacyguard/batteryanalyzer/ui/DurationFormatter.kt:22-25 | 345 600 000 ms is shown as 4 days |
| UsagePolicy.Derive | app/src/main/java/com/privacyguard/batteryanalyzer/domain/UsagePolicy.kt:40-43 | disable = max(a, 1 min); all three thresholds are at least one minute; warning ≤ disable and recent ≤ disable; recent ≤ 2 days and equals 2 days or disable; warning is exactly ⌊3·disable/4⌋ when that is at least one minute, and one minute otherwise |
| UsagePolicy.DeriveMonotone | app/src/main/java/com/privacyguard/batteryanalyzer/domain/UsagePolicy.kt:40-43 | each derived threshold is monotone non-decreasing in the allow duration |
| UsagePolicy.DefaultsAreDerivedFromFourDays | app/src/main/java/com/privacyguard/batteryanalyzer/domain/UsagePolicy.kt:57-61 | the default thresholds (2, 3, 4 days) are exactly what four days derives |
| UsagePolicy.ShouldSkip | app/src/main/java/com/privacyguard/batteryanalyzer/domain/UsagePolicy.kt:32 | no package is ever skipped |
| UsagePolicy.Policy.UpdateThresholds | app/src/main/java/com/privacyguard/batteryanalyzer/domain/UsagePolicy.kt:39-55 | returns true iff the old triple differs from the derived one; afterwards the thresholds are the derived triple, so a false result changes nothing |
| UsagePolicy.UpdateIsIdempotent | app/src/main/java/com/privacyguard/batteryanalyzer/domain/UsagePolicy.kt:45-54 | a second update with the same argument returns false; on a fresh policy the first returns true iff the argument derives something other than the defaults (so four days returns false) |
| UsageAnalyzer.UserInstalledApps | app/src/main/java/com/privacyguard/batteryanalyzer/domain/UsageAnalyzer.kt:124-145 | a failed query gives no apps; the result is exactly the queried apps that are neither the app itself nor system apps, in the order the query returned them |
| UsageAnalyzer.FilterUserApps | app/src/main/java/com/privacyguard/batteryanalyzer/domain/UsageAnalyzer.kt:141-144 | an app is kept iff it is not the app itself and has no FLAG_SYSTEM; the result is never longer than the input, and a one-app list is kept or dropped whole |
| UsageAnalyzer.FilterUserAppsAppend | app/src/main/java/com/privacyguard/batteryanalyzer/domain/UsageAnalyzer.kt:141-144 | filtering a concatenation is the concatenation of the filtered parts, so the input order is kept |
| UsageAnalyzer.QueryLastUsedTimestamps | app/src/main/java/com/privacyguard/batteryanalyzer/domain/UsageAnalyzer.kt:147-170 | a failed query gives the empty map; a package is present iff it has a foreground/resumed event with a positive time (excluding self and blank names); its value is the maximum such time and is one of its event times |
| UsageAnalyzer.LastUsedFromUnique | app/src/main/java/com/privacyguard/batteryanalyzer/domain/UsageAnalyzer.kt:147-170 | the events determine the last-used map: two maps meeting QueryLastUsedTimestamps' contract are equal, and all their values are positive |
| UsageAnalyzer.ResolveLastUsed | app/src/main/java/com/privacyguard/batteryanalyzer/domain/UsageAnalyzer.kt:172-196 | the observed time first; else a positive stored lastUsedAt; else max(firstInstallTime, lastUpdateTime); unknown exactly when all three are missing |
| UsageAnalyzer.ResolveStatus | app/src/main/java/com/privacyguard/batteryanalyzer/domain/UsageAnalyzer.kt:70-74 | DISABLED iff OS-disabled; RECENT iff not disabled, last use known and within the recent threshold; RARE otherwise |
| UsageAnalyzer.EvaluateApp | app/src/main/java/com/privacyguard/batteryanalyzer/domain/UsageAnalyzer.kt:55-113 | the row keeps package, label, lastUsed-or-0 and the disabled flag, and has the resolved status; a recommendation fires iff not disabled, disableAt known and reached, and not yet notified since; a reminder fires iff no recommendation, notifyAt reached, not notified since and disableAt not reached; each then stamps notifiedAt = now; never both; disabled apps get no schedule nor notifiedAt; unknown last use clears both |
| UsageAnalyzer.NotifyOnce | app/src/main/java/com/privacyguard/batteryanalyzer/domain/UsageAnalyzer.kt:69-98 | re-evaluating later with the row a recommendation wrote fires nothing, and after a reminder no reminder fires again |
| UsageAnalyzer.EvaluateExtend | app/src/main/java/com/privacyguard/batteryanalyzer/domain/UsageAnalyzer.kt:44-114 | evaluating one more app is one more step of the accumulation |
| UsageAnalyzer.EvaluateUsage | app/src/main/java/com/privacyguard/batteryanalyzer/domain/UsageAnalyzer.kt:32-122 | the loop's result is the evaluation of the filtered installed apps, in order, against the last-used map the usage events determine (QueryLastUsedTimestamps' contract) |
| UsageAnalyzer.Record | app/src/main/java/com/privacyguard/batteryanalyzer/domain/UsageAnalyzer.kt:76-113 | one app's decision appends its row, takes it out of the removal set and lists its recommendation, or else its reminder |
| UsageAnalyzer.EvaluateRows | app/src/main/java/com/privacyguard/batteryanalyzer/domain/UsageAnalyzer.kt:39-51 | one row per app in input order, each the app's decided row; packagesToRemove is the stored keys minus the installed packages |
| UsageAnalyzer.EvaluateRecommendations | app/src/main/java/com/privacyguard/batteryanalyzer/domain/UsageAnalyzer.kt:76-87 | the recommendation list holds exactly the apps' fired recommendations |
| UsageAnalyzer.EvaluateReminders | app/src/main/java/com/privacyguard/batteryanalyzer/domain/UsageAnalyzer.kt:88-98 | the reminder list holds exactly the apps' fired reminders |
| UsageAnalyzer.RowsDescribeApps | app/src/main/java/com/privacyguard/batteryanalyzer/domain/UsageAnalyzer.kt:103-112 | each written row is for its app, carries its disabled flag, and is DISABLED iff the app is OS-disabled |
| UsageAnalyzer.NoAppInBothLists | app/src/main/java/com/privacyguard/batteryanalyzer/domain/UsageAnalyzer.kt:76-98 | no package is both recommended and reminded in one evaluation |
| UsageRepository.ToDomain | app/src/main/java/com/privacyguard/batteryanalyzer/data/repository/UsageRepository.kt:32-42 | a lastUsedAt ≤ 0 becomes unknown, a positive one is kept; every other field is copied unchanged |
| UsageRepository.StoredLastUsedReadsBack | app/src/main/java/com/privacyguard/batteryanalyzer/data/repository/UsageRepository.kt:36 | an unknown last use, stored as 0, reads back as unknown; a positive one reads back unchanged |
| UsageRepository.UpsertedLookup | app/src/main/java/com/privacyguard/batteryanalyzer/data/local/TrackedAppDao.kt:19-20 | after upsertAll with REPLACE the keys are the old and the written ones; a written key maps to its last entity in the list; untouched keys keep their rows |
| UsageRepository.UpsertedKeyed | app/src/main/java/com/privacyguard/batteryanalyzer/data/local/TrackedAppDao.kt:19-20 | upserting keeps every row under its own package name |
| UsageRepository.Repository.ApplyEvaluation | app/src/main/java/com/privacyguard/batteryanalyzer/data/repository/UsageRepository.kt:21-30 | the table becomes upsert-then-delete of the old one; a removed key is absent even if also updated; untouched rows keep their values; an empty list makes no DAO call |
| UsageRepository.Repository.LatestFirst | app/src/main/java/com/privacyguard/batteryanalyzer/data/local/TrackedAppDao.kt:16-17 | exactly the keys of rows with the status, each once, ordered by lastUsedAt descending |
| UsageRepository.Repository.ObserveStatus | app/src/main/java/com/privacyguard/batteryanalyzer/data/repository/UsageRepository.kt:15-19 | exactly the rows with the status, each once, mapped by toDomain, latest stored use first |
| UsageRepository.Latest | app/src/main/java/com/privacyguard/batteryanalyzer/data/local/TrackedAppDao.kt:16-17 | picks a key of the set whose row has the latest lastUsedAt |
| UsageRepository.LatestExists | app/src/main/java/com/privacyguard/batteryanalyzer/data/local/TrackedAppDao.kt:16-17 | a non-empty set of stored keys has one with the latest lastUsedAt |
| UsageRepository.SyncKeepsInstalledKeys | app/src/main/java/com/privacyguard/batteryanalyzer/domain/UsageAnalyzer.kt:39-51 | applying an evaluation to the table it read leaves exactly the installed user apps as keys |
| UsageRepository.SyncWritesDecidedRows | app/src/main/java/com/privacyguard/batteryanalyzer/data/repository/UsageRepository.kt:23-28 | after one sync each installed app's row is the one its decision wrote |
| FirewallPreferences.Read | app/src/main/java/com/privacyguard/batteryanalyzer/firewall/FirewallPreferencesDataSource.kt:32-39 | absent keys read as false, false, no deadline, empty set; present ones as stored |
| FirewallPreferences.ReadFlow | app/src/main/java/com/privacyguard/batteryanalyzer/firewall/FirewallPreferencesDataSource.kt:24-39 | an IOException during the read yields the defaults (false, false, null, ∅) |
| FirewallPreferences.PutBlockedPackages | app/src/main/java/com/privacyguard/batteryanalyzer/firewall/FirewallPreferencesDataSource.kt:71-79 | the set reads back as written; an empty set removes the key; no other key changes |
| FirewallPreferences.PutReactivateAt | app/src/main/java/com/privacyguard/batteryanalyzer/firewall/FirewallPreferencesDataSource.kt:50-54 | the deadline reads back as written; null removes the key; no other key changes |
| FirewallPreferences.PutState | app/src/main/java/com/privacyguard/batteryanalyzer/firewall/FirewallPreferencesDataSource.kt:41-63 | reading after setState(e, b, r, p) gives (e, b, r, p), or the old set when p is null; null r and empty p remove their keys; a null p leaves the set key untouched; keys outside the record are untouched |
| FirewallPreferences.PutBlocking | app/src/main/java/com/privacyguard/batteryanalyzer/firewall/FirewallPreferencesDataSource.kt:65-69 | only the blocking flag changes |
| FirewallPreferences.PutStateIdempotent | app/src/main/java/com/privacyguard/batteryanalyzer/firewall/FirewallPreferencesDataSource.kt:47-62 | writing the same record twice leaves the store as writing it once |
| FirewallPreferences.FirewallPreferencesDataSource.SetState | app/src/main/java/com/privacyguard/batteryanalyzer/firewall/FirewallPreferencesDataSource.kt:41-63 | the store becomes the PutState edit of the old store |
| FirewallPreferences.FirewallPreferencesDataSource.SetBlocking | app/src/main/java/com/privacyguard/batteryanalyzer/firewall/FirewallPreferencesDataSource.kt:65-69 | the store becomes the PutBlocking edit |
| FirewallPreferences.FirewallPreferencesDataSource.SetBlockedPackages | app/src/main/java/com/privacyguard/batteryanalyzer/firewall/FirewallPreferencesDataSource.kt:72-78 | the store becomes the PutBlockedPackages edit (empty ⇒ key removed) |
| SettingsPreferences.Read | app/src/main/java/com/privacyguard/batteryanalyzer/settings/SettingsPreferencesDataSource.kt:32-38 | absent keys read as 4 days, metrics off, manual unblock off; present ones as stored |
| SettingsPreferences.ReadFlow | app/src/main/java/com/privacyguard/batteryanalyzer/settings/SettingsPreferencesDataSource.kt:24-38 | an IOException yields the defaults (345 600 000 ms, false, false) |
| SettingsPreferences.PutAllowDuration | app/src/main/java/com/privacyguard/batteryanalyzer/settings/SettingsPreferencesDataSource.kt:40-45 | rejected iff d ≤ 0; otherwise the duration reads back as d and no other key changes |
| SettingsPreferences.PutMetricsEnabled | app/src/main/java/com/privacyguard/batteryanalyzer/settings/SettingsPreferencesDataSource.kt:47-51 | the metrics flag reads back as written; no other key changes |
| SettingsPreferences.PutManualFirewallUnblock | app/src/main/java/com/privacyguard/batteryanalyzer/settings/SettingsPreferencesDataSource.kt:53-57 | the manual-unblock flag reads back as written; no other key changes |
| SettingsPreferences.StoredDurationPositive | app/src/main/java/com/privacyguard/batteryanalyzer/settings/SettingsPreferencesDataSource.kt:41-44 | the setters never make the stored duration non-positive |
| SettingsPreferences.SettingsPreferencesDataSource.SetAllowDurationMillis | app/src/main/java/com/privacyguard/batteryanalyzer/settings/SettingsPreferencesDataSource.kt:40-45 | a duration ≤ 0 is rejected before any write; otherwise the store is PutAllowDuration's edit |
| SettingsPreferences.SettingsPreferencesDataSource.SetMetricsEnabled | app/src/main/java/com/privacyguard/batteryanalyzer/settings/SettingsPreferencesDataSource.kt:47-51 | the store becomes PutMetricsEnabled's edit |
| SettingsPreferences.SettingsPreferencesDataSource.SetManualFirewallUnblock | app/src/main/java/com/privacyguard/batteryanalyzer/settings/SettingsPreferencesDataSource.kt:53-57 | the store becomes PutManualFirewallUnblock's edit |
| FirewallController.Payload | app/src/main/java/com/privacyguard/batteryanalyzer/firewall/FirewallController.kt:158-162 | the payload is the list iff blocking or the include flag is set, otherwise empty |
| FirewallController.DueAt | app/src/main/java/com/privacyguard/batteryanalyzer/firewall/FirewallController.kt:176-196 | a non-positive delay runs now; a future deadline runs at the deadline |
| FirewallController.Controller.StartService | app/src/main/java/com/privacyguard/batteryanalyzer/firewall/FirewallController.kt:149-166 | one START_OR_UPDATE with the mode and the Payload is sent; the job is untouched |
| FirewallController.Controller.StopService | app/src/main/java/com/privacyguard/batteryanalyzer/firewall/FirewallController.kt:168-174 | one STOP is sent |
| FirewallController.Controller.ScheduleAutoBlock | app/src/main/java/com/privacyguard/batteryanalyzer/firewall/FirewallController.kt:176-196 | enqueueing with REPLACE leaves exactly one pending job, due at DueAt |
| FirewallController.Controller.CancelAutoBlock | app/src/main/java/com/privacyguard/batteryanalyzer/firewall/FirewallController.kt:198-201 | no job is pending |
| FirewallController.Controller.EnableFirewall | app/src/main/java/com/privacyguard/batteryanalyzer/firewall/FirewallController.kt:36-48 | state (enabled, allowing, now + d, p); job due at now + d; an allowing start with an empty list; the invariants hold |
| FirewallController.Controller.AllowForDuration | app/src/main/java/com/privacyguard/batteryanalyzer/firewall/FirewallController.kt:50-66 | with or without packages: (enabled, allowing, now + d, p), the job re-armed, an empty payload |
| FirewallController.Controller.BlockNow | app/src/main/java/com/privacyguard/batteryanalyzer/firewall/FirewallController.kt:68-79 | state (enabled, blocking, null, p); job cancelled; a blocking start with p |
| FirewallController.Controller.ApplyManualBlockList | app/src/main/java/com/privacyguard/batteryanalyzer/firewall/FirewallController.kt:81-97 | always ends in (enabled, allowing, null, p); the store is not written when it already held that; job cancelled; p is sent while allowing |
| FirewallController.Controller.DisableFirewall | app/src/main/java/com/privacyguard/batteryanalyzer/firewall/FirewallController.kt:99-104 | state (disabled, allowing, null, ∅); job cancelled; STOP sent |
| FirewallController.Controller.SetBlocking | app/src/main/java/com/privacyguard/batteryanalyzer/firewall/FirewallController.kt:106-122 | job cancelled iff blocking, rescheduled iff allowing with a deadline, else unchanged; payload p iff blocking or (allowing, no deadline, p ≠ ∅); the invariants are kept unless blocking with a deadline |
| FirewallController.Controller.UpdateBlockedPackages | app/src/main/java/com/privacyguard/batteryanalyzer/firewall/FirewallController.kt:124-147 | a no-op for the stored set; otherwise only the set changes (even while disabled), the job is untouched, and a start is sent only if enabled; the invariants are preserved |
| FirewallController.Controller.FireAutoBlock | app/src/main/java/com/privacyguard/batteryanalyzer/firewall/FirewallAutoBlockWorker.kt:12-16 | the worker's run is blockNow with the persisted set |
| FirewallController.DisabledFirewallKeepsUpdatedSet | app/src/main/java/com/privacyguard/batteryanalyzer/firewall/FirewallController.kt:132-137 | after disable then updateBlockedPackages({a}) the firewall is disabled with {a} stored and only STOP was sent |
| VpnService.AsSet | app/src/main/java/com/privacyguard/batteryanalyzer/firewall/VpnFirewallService.kt:37-42 | the list extra as a set: the same members |
| VpnService.WantedTunnel | app/src/main/java/com/privacyguard/batteryanalyzer/firewall/VpnFirewallService.kt:108-126 | blocking ⇒ the global tunnel excluding only the app itself; allowing with a non-empty set ⇒ the selective tunnel routing exactly the set minus the app; otherwise none |
| VpnService.RoutedApplications | app/src/main/java/com/privacyguard/batteryanalyzer/firewall/VpnFirewallService.kt:148-155 | the allowed applications are the blocked packages minus the app itself |
| VpnService.VpnFirewallService.StopVpn | app/src/main/java/com/privacyguard/batteryanalyzer/firewall/VpnFirewallService.kt:184-201 | thread, stream and interface are all cleared; mode and set unchanged |
| VpnService.VpnFirewallService.EstablishVpn | app/src/main/java/com/privacyguard/batteryanalyzer/firewall/VpnFirewallService.kt:175-182 | success opens the tunnel with its stream and drain thread; failure leaves none of them |
| VpnService.VpnFirewallService.StartGlobalBlockVpn | app/src/main/java/com/privacyguard/batteryanalyzer/firewall/VpnFirewallService.kt:128-136 | the old tunnel is torn down, then the global one (excluding the app) is opened if establish succeeds |
| VpnService.VpnFirewallService.StartSelectiveBlockVpn | app/src/main/java/com/privacyguard/batteryanalyzer/firewall/VpnFirewallService.kt:138-158 | an empty set stops; otherwise after a teardown the set minus the app is routed if establish succeeds |
| VpnService.VpnFirewallService.UpdateVpn | app/src/main/java/com/privacyguard/batteryanalyzer/firewall/VpnFirewallService.kt:108-126 | the tunnel becomes WantedTunnel, or none on a failed establish; at most one interface is ever open |
| VpnService.VpnFirewallService.OnStartCommand | app/src/main/java/com/privacyguard/batteryanalyzer/firewall/VpnFirewallService.kt:25-50 | STOP: NOT_STICKY, stop requested, nothing else changes; START_OR_UPDATE: mode = extra, set = list or ∅, tunnel updated, STICKY; any other or no action: STICKY and nothing changes |
| VpnService.VpnFirewallService.OnDestroy | app/src/main/java/com/privacyguard/batteryanalyzer/firewall/VpnFirewallService.kt:52-56 | the tunnel, stream and thread are torn down; mode, set, stop request and open count are kept |
| VpnService.CommandTunnels | app/src/main/java/com/privacyguard/batteryanalyzer/firewall/FirewallController.kt:156-163 | the controller's blocking command opens the global tunnel; an allowing one with an empty list closes it; one with a list routes that list minus the app |
| BlockList.EffectiveThreshold | app/src/main/java/com/privacyguard/batteryanalyzer/MainViewModel.kt:266 | the threshold is at least one minute and no smaller than the configured one |
| BlockList.CandidateSet | app/src/main/java/com/privacyguard/batteryanalyzer/MainViewModel.kt:267-276 | a package is a candidate iff it is a RARE app unused since the cut-off (or never) or any DISABLED app |
| BlockList.NeverBlocksSelfOrAllowlisted | app/src/main/java/com/privacyguard/batteryanalyzer/MainViewModel.kt:296-305 | in both modes the result never holds the app itself nor an allowlisted package |
| BlockList.PrivacyGuardSparesAllowlist | app/src/main/java/com/privacyguard/privacyguard/MainViewModel.kt:65-71 | the privacyguard copy never blocks the app itself, YouTube, the three Sparkasse apps or BK Secure |
| BlockList.AutomaticIsExact | app/src/main/java/com/privacyguard/batteryanalyzer/MainViewModel.kt:301-306 | automatic mode blocks p iff p is a candidate (cut-off now − max(threshold, 1 min)), not the app itself and not allowlisted |
| BlockList.AutomaticIgnoresApplied | app/src/main/java/com/privacyguard/batteryanalyzer/MainViewModel.kt:301-306 | automatic mode does not depend on the applied set |
| BlockList.SweepKeepsOnlyPending | app/src/main/java/com/privacyguard/batteryanalyzer/MainViewModel.kt:278-290 | an entry survives iff it expires after now and is not (in manual mode) the cooldown of a DISABLED package; survivors keep their value |
| BlockList.ExpiryAtNowIsSwept | app/src/main/java/com/privacyguard/batteryanalyzer/MainViewModel.kt:278-283 | an entry expiring exactly now is removed |
| BlockList.ManualIsSticky | app/src/main/java/com/privacyguard/batteryanalyzer/MainViewModel.kt:285-300 | manual result ⊇ applied − self − allowlist, and ⊆ applied ∪ candidates |
| BlockList.DisabledOverridesCooldown | app/src/main/java/com/privacyguard/batteryanalyzer/MainViewModel.kt:288-297 | in the newer copies every DISABLED package (not self, not allowlisted) is blocked in manual mode whatever its cooldown |
| BlockList.CooldownHoldsBack | app/src/main/java/com/privacyguard/batteryanalyzer/MainViewModel.kt:292-297 | a candidate still cooling down is in the manual result iff it was already applied |
| BlockList.LegacyCooldownBeatsDisabled | app/src/main/java/com/example/batteryanalyzer/MainViewModel.kt:249-257 | in the older copy, for every input, a DISABLED package that is cooling down and not applied stays unblocked in manual mode and keeps its cooldown |
| BlockList.SweepExpired | app/src/main/java/com/privacyguard/batteryanalyzer/MainViewModel.kt:278-283 | the iterator pass leaves exactly the entries expiring after now |
| BlockList.ForgetDisabled | app/src/main/java/com/privacyguard/batteryanalyzer/MainViewModel.kt:288-290 | the pass over the DISABLED list removes exactly their entries |
| MainViewModel.MinOrNull | app/src/main/java/com/privacyguard/batteryanalyzer/MainViewModel.kt:175 | null iff the list is empty, otherwise a member no larger than any other |
| MainViewModel.CooldownUntil | app/src/main/java/com/privacyguard/batteryanalyzer/MainViewModel.kt:166-175 | the cooldown is ≤ a future reactivateAt and ≤ now + allowDuration when positive, and equals one of them, or now + blockThreshold when neither applies |
| MainViewModel.CooldownIsAhead | app/src/main/java/com/privacyguard/batteryanalyzer/MainViewModel.kt:169-175 | with a positive threshold the cooldown always ends after now |
| MainViewModel.NextExpiry | app/src/main/java/com/privacyguard/batteryanalyzer/MainViewModel.kt:312 | null iff the table is empty, otherwise the least expiry in it |
| MainViewModel.ViewModel.ComputeBlockList | app/src/main/java/com/privacyguard/batteryanalyzer/MainViewModel.kt:264-309 | the result and the swept table are exactly Resolve's (so every lemma on Resolve applies) |
| MainViewModel.ViewModel.SyncFirewallBlockList | app/src/main/java/com/privacyguard/batteryanalyzer/MainViewModel.kt:329-336 | the controller then holds the resolved set; nothing is written or sent when it equals the applied set, otherwise the service gets what updateBlockedPackages sends for it (a start in the stored mode while enabled); the job is kept |
| MainViewModel.ViewModel.ScheduleManualUnblockSync | app/src/main/java/com/privacyguard/batteryanalyzer/MainViewModel.kt:311-327 | an empty table leaves no timer; otherwise one timer at max(now, earliest expiry) |
| MainViewModel.ViewModel.ManualUnblockPackage | app/src/main/java/com/privacyguard/batteryanalyzer/MainViewModel.kt:163-185 | the cooldown is CooldownUntil, and it ends after now while the threshold is at least one minute; the package leaves the applied set, with a write and the commands updateBlockedPackages sends for the reduced set (a start in the stored mode while enabled), only if it was in it; the timer is re-armed |
| MainViewModel.ViewModel.SetManualFirewallUnblock | app/src/main/java/com/privacyguard/batteryanalyzer/MainViewModel.kt:144-161 | on: the manual set is applied (enabled, allowing, no deadline), the job cancelled, an allowing start carrying the set sent, the timer armed; off: table and timer cleared, then a resync with its record and commands |
| MainViewModel.ViewModel.EnableFirewall | app/src/main/java/com/privacyguard/batteryanalyzer/MainViewModel.kt:83-94 | manual mode applies the resolved set with no deadline, cancels the job and sends an allowing start with the set; otherwise it is allowed until now + allowDuration, the re-block job is due then, and an allowing start with an empty list is sent |
| MainViewModel.ViewModel.BlockNow | app/src/main/java/com/privacyguard/batteryanalyzer/MainViewModel.kt:103-114 | manual mode applies the resolved set while allowing and sends an allowing start with it; otherwise the resolved set is blocked and a blocking start with it is sent; no job is pending |
| MainViewModel.ViewModel.AllowForConfiguredDuration | app/src/main/java/com/privacyguard/batteryanalyzer/MainViewModel.kt:116-127 | skipped with nothing changed in manual mode; otherwise the automatic set is allowed for the configured duration, the re-block job is due at its end and an allowing start with an empty list is sent |
| MainViewModel.ViewModel.OnStatusUpdate | app/src/main/java/com/privacyguard/batteryanalyzer/MainViewModel.kt:244-261 | the RARE or DISABLED list is replaced; the cooldown table is swept as Resolve says and the controller's whole record is the old one with the resolved set; job, consistency, settings copies and timer are kept |
| MainViewModel.ViewModel.OnSettingsUpdate | app/src/main/java/com/privacyguard/batteryanalyzer/MainViewModel.kt:338-371 | a changed allow duration becomes the block threshold floored at one minute (so the threshold stays ≥ 1 min); both settings are copied; a changed manual mode resyncs in the new mode, an unchanged one writes and sends nothing |
| MainViewModel.ViewModel.FireUnblockTimer | app/src/main/java/com/privacyguard/batteryanalyzer/MainViewModel.kt:321-326 | as written: one resync (table and record as SyncFirewallBlockList leaves them, lists and settings kept), after which no timer is pending |
| MainViewModel.ViewModel.FireUnblockTimerRearmed | app/src/main/java/com/privacyguard/batteryanalyzer/MainViewModel.kt:311-327 | corrected: after the resync the timer is re-armed for the earliest pending cooldown, and every remaining entry expires after now; lists, settings and job are kept |
| MainViewModel.SecondCooldownIsNotScheduled | app/src/main/java/com/privacyguard/batteryanalyzer/MainViewModel.kt:319-326 | unblocking a at 0 and b at 1 s, then firing at four days, leaves b cooling down with no timer pending |
| TrafficWindow.Delta | app/src/main/java/com/privacyguard/batteryanalyzer/MainViewModel.kt:462-464 | the delta is never negative; 0 on the first sample or when the counter decreased; else the growth |
| TrafficWindow.DropExpiredSuffix | app/src/main/java/com/privacyguard/batteryanalyzer/MainViewModel.kt:470-472 | trimming leaves a suffix of the deque whose front is within the window, and every dropped entry was expired |
| TrafficWindow.TotalOfPositive | app/src/main/java/com/privacyguard/batteryanalyzer/MainViewModel.kt:473 | the sum of positive deltas is non-negative, positive when the deque is not empty |
| TrafficWindow.AppendPositive | app/src/main/java/com/privacyguard/batteryanalyzer/MainViewModel.kt:467-469 | appending only a positive delta keeps every entry positive |
| TrafficWindow.DropKeepsPositive | app/src/main/java/com/privacyguard/batteryanalyzer/MainViewModel.kt:470-472 | trimming keeps every entry positive |
| TrafficWindow.WithinWindowWhenChronological | app/src/main/java/com/privacyguard/batteryanalyzer/MainViewModel.kt:470-472 | for a deque in time order every entry left has now − t ≤ window |
| TrafficWindow.FrontTestOnly | app/src/main/java/com/privacyguard/batteryanalyzer/MainViewModel.kt:470 | on an out-of-order deque trimming stops at the front and leaves an expired entry |
| TrafficWindow.TrimWindow | app/src/main/java/com/privacyguard/batteryanalyzer/MainViewModel.kt:470-472 | the removeFirst loop computes DropExpired |
| TrafficWindow.DistinctPackages | app/src/main/java/com/privacyguard/batteryanalyzer/MainViewModel.kt:410-411 | distinctBy keeps exactly the names of the input, each once, and leaves an already distinct list unchanged |
| TrafficWindow.UpdatedDequeIsLocal | app/src/main/java/com/privacyguard/batteryanalyzer/MainViewModel.kt:455-472 | a package's new deque depends only on its own snapshot and deque |
| TrafficWindow.TrafficMonitor.CollectTrafficFromSnapshots | app/src/main/java/com/privacyguard/batteryanalyzer/MainViewModel.kt:452-474 | negative counters: null and nothing changes; otherwise the snapshot becomes the total, the deque is the trimmed append of the delta, and the result is its non-negative sum; no other package's snapshot or deque changes |
| TrafficWindow.TrafficMonitor.PruneUntracked | app/src/main/java/com/privacyguard/batteryanalyzer/MainViewModel.kt:435-442 | exactly the untracked packages lose their deque and snapshot; the rest are untouched |
| TrafficWindow.TrafficMonitor.Clear | app/src/main/java/com/privacyguard/batteryanalyzer/MainViewModel.kt:416-418 | history and snapshots become empty |
| TrafficWindow.TrafficMonitor.CollectAll | app/src/main/java/com/privacyguard/batteryanalyzer/MainViewModel.kt:428-433 | for distinct tracked packages: a sum is reported exactly for those with a uid and supported counters; each such package's snapshot is its counter total and its deque the trimmed append of its delta, the sum being that deque's non-negative total; every other package is untouched |
| TrafficWindow.TrafficMonitor.SampleAppTraffic | app/src/main/java/com/privacyguard/batteryanalyzer/MainViewModel.kt:409-450 | no tracked package clears everything; otherwise the tracked list is made distinct, every sampled package's snapshot and deque are as in CollectAll, tracked packages without a sum are untouched, and afterwards only tracked packages have history |
| TrafficWindow.TrafficMonitor.SampleWithNetworkStats | app/src/main/java/com/privacyguard/privacyguard/MainViewModel.kt:426-472 | a network-stats result clears history and snapshots and is returned; otherwise the snapshot path runs with the same per-package snapshots and deques as SampleAppTraffic, and untracked packages are pruned |
| LegacyFirewallController.LegacyController.StartService | app/src/main/java/com/example/batteryanalyzer/firewall/FirewallController.kt:114-121 | one START_OR_UPDATE carrying the whole list is sent |
| LegacyFirewallController.LegacyController.StopService | app/src/main/java/com/example/batteryanalyzer/firewall/FirewallController.kt:123-128 | one STOP is sent |
| LegacyFirewallController.LegacyController.ScheduleAutoBlock | app/src/main/java/com/example/batteryanalyzer/firewall/FirewallController.kt:130-148 | exactly one job pending, due at DueAt |
| LegacyFirewallController.LegacyController.CancelAutoBlock | app/src/main/java/com/example/batteryanalyzer/firewall/FirewallController.kt:150-152 | no job pending |
| LegacyFirewallController.LegacyController.EnableFirewall | app/src/main/java/com/example/batteryanalyzer/firewall/FirewallController.kt:35-46 | (enabled, allowing, now + d, p), job due at now + d, an allowing start with the full list |
| LegacyFirewallController.LegacyController.AllowForDuration | app/src/main/java/com/example/batteryanalyzer/firewall/FirewallController.kt:48-62 | with or without packages: the enableFirewall record, job and command |
| LegacyFirewallController.LegacyController.BlockNow | app/src/main/java/com/example/batteryanalyzer/firewall/FirewallController.kt:64-74 | (enabled, blocking, null, p), job cancelled, a blocking start with p |
| LegacyFirewallController.LegacyController.DisableFirewall | app/src/main/java/com/example/batteryanalyzer/firewall/FirewallController.kt:76-80 | (disabled, allowing, null, ∅), job cancelled, STOP sent |
| LegacyFirewallController.LegacyController.SetBlocking | app/src/main/java/com/example/batteryanalyzer/firewall/FirewallController.kt:82-96 | job cancelled iff blocking, rescheduled iff allowing with a deadline; the full list is always sent |
| LegacyFirewallController.LegacyController.UpdateBlockedPackages | app/src/main/java/com/example/batteryanalyzer/firewall/FirewallController.kt:98-112 | a no-op for the stored set; otherwise only the set changes and the service restarts with it only if enabled |
| LegacyFirewallController.EnableSendsFullListOnlyInLegacy | app/src/main/java/com/example/batteryanalyzer/firewall/FirewallController.kt:45 | for the same call the older controller sends the list and the newer one an empty list |
| LegacyVpnService.Routed | app/src/main/java/com/example/batteryanalyzer/firewall/VpnFirewallService.kt:129-134 | the routed set is the blocked packages minus the app itself |
| LegacyVpnService.AfterUpdate | app/src/main/java/com/example/batteryanalyzer/firewall/VpnFirewallService.kt:97-141 | allowing or an empty set tears the tunnel down; an open tunnel is kept as it is; a new one routes the set minus the app |
| LegacyVpnService.LegacyVpnFirewallService.StopVpn | app/src/main/java/com/example/batteryanalyzer/firewall/VpnFirewallService.kt:143-158 | thread, stream and interface all cleared |
| LegacyVpnService.LegacyVpnFirewallService.StartVpn | app/src/main/java/com/example/batteryanalyzer/firewall/VpnFirewallService.kt:109-141 | nothing happens while an interface is open; otherwise an empty set stops, and a non-empty one is routed if establish succeeds |
| LegacyVpnService.LegacyVpnFirewallService.UpdateVpn | app/src/main/java/com/example/batteryanalyzer/firewall/VpnFirewallService.kt:97-107 | the tunnel becomes AfterUpdate of the one before |
| LegacyVpnService.LegacyVpnFirewallService.OnStartCommand | app/src/main/java/com/example/batteryanalyzer/firewall/VpnFirewallService.kt:24-40 | STOP: NOT_STICKY and nothing else; START: set = list or ∅, tunnel updated, STICKY; other: STICKY and nothing changes |
| LegacyVpnService.LegacyVpnFirewallService.OnDestroy | app/src/main/java/com/example/batteryanalyzer/firewall/VpnFirewallService.kt:42-45 | the tunnel, stream and thread are torn down; the set and the stop request are kept |
| LegacyVpnService.SecondListIsNotRouted | app/src/main/java/com/example/batteryanalyzer/firewall/VpnFirewallService.kt:110 | two blocking starts with {a} then {b}: the service records {b} while the tunnel still routes {a} |
| LegacyVpnService.LegacyCommandTunnels | app/src/main/java/com/example/batteryanalyzer/firewall/VpnFirewallService.kt:97-107 | an allowing command always closes the tunnel; a blocking one on a closed tunnel routes the list minus the app |
| LegacyViewModel.LegacyMainViewModel.ComputeBlockList | app/src/main/java/com/example/batteryanalyzer/MainViewModel.kt:229-263 | the result and table are Resolve's with no allowlist, a fixed 4-day threshold and no clearing of DISABLED cooldowns |
| LegacyViewModel.LegacyMainViewModel.SyncFirewallBlockList | app/src/main/java/com/example/batteryanalyzer/MainViewModel.kt:265-270 | the controller then holds the resolved set; nothing is written or sent when it is unchanged, otherwise a start in the stored mode carrying the set is sent while enabled |
| LegacyViewModel.LegacyMainViewModel.ManualUnblockPackage | app/src/main/java/com/example/batteryanalyzer/MainViewModel.kt:141-150 | cooldown now + 4 days, the package removed from the applied set, then a resync; the commands are those of the removal update followed by those of the resync's update; in manual mode the package ends unblocked, in automatic mode it is blocked again iff it is a candidate |
| LegacyViewModel.LegacyMainViewModel.EnableFirewall | app/src/main/java/com/example/batteryanalyzer/MainViewModel.kt:78-88 | manual mode blocks the resolved set at once (job cancelled, a blocking start with the set); otherwise it is allowed until now + allowDuration, the job is due then, and an allowing start carrying the set is sent |
| LegacyViewModel.LegacyMainViewModel.BlockNow | app/src/main/java/com/example/batteryanalyzer/MainViewModel.kt:96-101 | the resolved set is blocked in either mode, the job cancelled and a blocking start with the set sent |
| LegacyViewModel.LegacyMainViewModel.AllowForConfiguredDuration | app/src/main/java/com/example/batteryanalyzer/MainViewModel.kt:103-113 | skipped in manual mode; otherwise the automatic set is allowed for the configured duration, the job is due at its end and an allowing start carrying the set is sent |
| LegacyViewModel.LegacyMainViewModel.SetManualFirewallUnblock | app/src/main/java/com/example/batteryanalyzer/MainViewModel.kt:130-139 | the setting is written; on: the manual set is blocked at once, the job cancelled and a blocking start with the set sent; off: nothing else changes |
| LegacyViewModel.LegacyMainViewModel.OnStatusUpdate | app/src/main/java/com/example/batteryanalyzer/MainViewModel.kt:209-227 | the RARE or DISABLED list is replaced; the table is swept as Resolve says and the controller's whole record is the old one with the resolved set; job, the controller invariants and settings copies are kept |
| LegacyViewModel.LegacyMainViewModel.OnSettingsUpdate | app/src/main/java/com/example/batteryanalyzer/MainViewModel.kt:272-304 | both settings are copied; a changed manual mode resyncs in the new mode (record and commands as SyncFirewallBlockList), an unchanged one writes and sends nothing |

## Left out

- 64-bit arithmetic: integers are unbounded. Sums such as `now + allowDurationMillis` and `sanitized * 3` in UsagePolicy.Derive do not wrap at Long overflow (about 9.2·10^18, far beyond any real duration).
- FirewallController.Controller.AllowForDuration: the source reads the clock separately for the record, the job and the setBlocking delegation. One `now` stands for all of these reads.
- UsageAnalyzer.IsBlank: Kotlin's isBlank accepts every Unicode whitespace character. The model accepts only space, tab, newline and carriage return.
- UsageAnalyzer.EvaluateUsage: the `shouldSkip` branch is not written, because UsagePolicy.ShouldSkip is always false.
- The 30-day look-back of queryEvents, getApplicationLabel, getPackageInfo, getApplicationEnabledSetting and getInstalledApplications are not modelled. Their answers (or a failure, as None) are inputs.
- `updatePolicyThresholds` only forwards to UsagePolicy.Policy.UpdateThresholds, so it has no member of its own.
- SettingsPreferences.SettingsPreferencesDataSource.SetAllowDurationMillis: the IllegalArgumentException from `require` is modelled as a false result with nothing written.
- Local.ToStatus: the exception from `valueOf` is modelled as None.
- Flows (preferencesFlow, observeStatus, the controller's state flow) are modelled as a single emission. The rethrow of a non-IO exception is not modelled.
- AppUsageStatus.kt is not part of this model. Its three constants are taken from their uses.
- UsageRepository.Repository.LatestFirst: Room's order among rows with equal last_used_at is unspecified. The model picks some order.
- VpnService builder failures are not modelled: the model treats every addAllowedApplication / addDisallowedApplication call as successful. The addresses and routes of createBaseBuilder, the notification, startForeground and the packet-draining thread's reads are also not modelled.
- The privacyguard/privacyguard package's own FirewallController, data sources and models are not part of this model. Its view model is modelled against the com.privacyguard.batteryanalyzer controller.
- The data sources of com/example/batteryanalyzer are not part of this model. The older controller is modelled over the newer FirewallPreferencesDataSource.
- View-model plumbing is not modelled:
  - observeSettings (both copies) beyond MainViewModel.ViewModel.OnSettingsUpdate and LegacyViewModel.LegacyMainViewModel.OnSettingsUpdate: the traffic window it stores is a parameter, the metrics monitor start and stop and the refreshUsage call are not modelled;
  - subscribeToFirewall and subscribeToData: one collector emission is OnStatusUpdate;
  - refreshUsage, restoreApp and refreshMetricsNow;
  - startMetricsMonitor and stopMetricsMonitor: their loop and delay;
  - resolveUid: a package has a uid when its counters are given;
  - collectTrafficViaNetworkStats: its result is an input;
  - user-facing notifications and the UI state's appTraffic and metricsLastSampleAt fields.
- The view models' `disableFirewall`, `updateAllowDuration` and `setMetricsEnabled` are one-line forwards to members modelled above (Controller.DisableFirewall, SetAllowDurationMillis, SetMetricsEnabled). They have no member of their own.
- The RECENT list is not stored. It plays no part in block lists, and the traffic sampler takes its tracked packages as an input.
- The per-package ArrayDeque is a sequence inside a map field. In-place mutation of a shared deque object is not modelled.
- TrafficWindow.WithinWindowWhenChronological: "every entry is within the window after trimming" is proved only for deques in time order. The monitor does not keep that order as an invariant, because `now` is a free parameter (TrafficWindow.FrontTestOnly).
- MainViewModel.ViewModel.SetManualFirewallUnblock: the off branch resyncs in the mode the UI state still shows (the `manualFirewallUnblock` field). The settings flow updates that field later (MainViewModel.ViewModel.OnSettingsUpdate).
- Concurrency is not modelled: `@Volatile`, `synchronized`, AtomicLong and interleavings between coroutines. Each handler is one atomic step.

## Findings

| source | as written | input that shows it | evidently intended | confidence | as-written member | corrected member |
|---|---|---|---|---|---|---|
| app/src/main/java/com/privacyguard/batteryanalyzer/MainViewModel.kt:319-326 | the scheduler job waits for the earliest cooldown expiry, resyncs once and ends without re-arming, so later cooldowns get no timer until some other event runs scheduleManualUnblockSync | unblock a at 0 and b at 1000 ms (allow duration 4 days), then let the timer fire at 4 days: b is still cooling down (until 4 days + 1 s) and no timer is pending | after the resync the job re-arms for the earliest remaining expiry, as with every other cooldown change | not executed | MainViewModel.ViewModel.FireUnblockTimer, MainViewModel.SecondCooldownIsNotScheduled | MainViewModel.ViewModel.FireUnblockTimerRearmed |
