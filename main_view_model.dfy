/** The firewall side of MainViewModel (com/privacyguard/batteryanalyzer and
    its com/privacyguard/privacyguard copy, which differs only in its
    allowlist): the manual-unblock cooldown table, the one pending resync
    timer, and the handlers that resolve a block list and hand it to the
    firewall controller. The UI lists and settings the handlers read are
    fields; the applied set and the scheduled re-block time are the
    controller's persisted record. The clock is the `now` parameter. */
module MainViewModel {
  import opened Base
  import opened Local
  import opened BlockList
  import opened FirewallPreferences
  import opened FirewallController
  import SettingsPreferences

  /** The candidate expiries of manualUnblockPackage: the scheduled re-block
      if it is still ahead, and now + the allow duration if that is positive. */
  function Expiries(now: int, scheduledReblockAt: Option<int>, allowDurationMillis: int): seq<int> {
    (if scheduledReblockAt.Some? && scheduledReblockAt.value > now then [scheduledReblockAt.value] else [])
    + (if allowDurationMillis > 0 then [now + allowDurationMillis] else [])
  }

  /** minOrNull. */
  function MinOrNull(xs: seq<int>): (m: Option<int>)
    ensures m.None? <==> xs == []
    ensures m.Some? ==> m.value in xs && forall i :: 0 <= i < |xs| ==> m.value <= xs[i]
  {
    if xs == [] then None
    else
      var rest := MinOrNull(xs[1..]);
      if rest.Some? && rest.value < xs[0] then rest else Some(xs[0])
  }

  /** The cooldown manualUnblockPackage records: the earliest candidate
      expiry, or now + the block threshold when there is none. */
  function CooldownUntil(now: int, scheduledReblockAt: Option<int>, allowDurationMillis: int, blockThresholdMillis: int): (until: int)
    ensures scheduledReblockAt.Some? && scheduledReblockAt.value > now ==> until <= scheduledReblockAt.value
    ensures allowDurationMillis > 0 ==> until <= now + allowDurationMillis
    ensures (scheduledReblockAt.Some? && scheduledReblockAt.value > now && until == scheduledReblockAt.value)
      || (allowDurationMillis > 0 && until == now + allowDurationMillis)
      || (!(scheduledReblockAt.Some? && scheduledReblockAt.value > now) && allowDurationMillis <= 0
        && until == now + blockThresholdMillis)
  {
    var candidates := Expiries(now, scheduledReblockAt, allowDurationMillis);
    var earliest := MinOrNull(candidates);
    if earliest.Some? then earliest.value else now + blockThresholdMillis
  }

  /** The cooldown always ends in the future when the block threshold is
      positive, as it is (at least one minute). */
  lemma CooldownIsAhead(now: int, scheduledReblockAt: Option<int>, allowDurationMillis: int, blockThresholdMillis: int)
    requires blockThresholdMillis > 0
    ensures CooldownUntil(now, scheduledReblockAt, allowDurationMillis, blockThresholdMillis) > now
  {
  }

  /** manualUnblockCooldown.values.minOrNull(). */
  method NextExpiry(cooldown: map<string, int>) returns (next: Option<int>)
    ensures next.None? <==> cooldown == map[]
    ensures next.Some? ==> ((exists p :: p in cooldown && cooldown[p] == next.value)
      && forall p :: p in cooldown ==> next.value <= cooldown[p])
  {
    next := None;
    var keys := cooldown.Keys;
    while keys != {}
      invariant keys <= cooldown.Keys
      invariant next.None? <==> keys == cooldown.Keys
      invariant next.Some? ==> ((exists p :: p in cooldown && cooldown[p] == next.value)
        && forall p :: p in cooldown && p !in keys ==> next.value <= cooldown[p])
      decreases |keys|
    {
      var key :| key in keys;
      if next.None? || cooldown[key] < next.value {
        next := Some(cooldown[key]);
      }
      keys := keys - {key};
    }
    if next.None? {
      assert cooldown.Keys == {};
    }
  }

  class ViewModel {
    const controller: Controller
    const settings: SettingsPreferences.SettingsPreferencesDataSource
    /** appContext.packageName */
    const selfPackage: string
    /** firewallAllowlist of this copy */
    const allowlist: set<string>
    /** The UI state's RARE and DISABLED lists, as the status collectors
        last delivered them. */
    var rareApps: seq<AppUsageInfo>
    var disabledApps: seq<AppUsageInfo>
    /** The UI state's copies of two settings. */
    var allowDurationMillis: int
    var manualFirewallUnblock: bool
    /** blockThresholdMillisRef */
    var blockThresholdMillis: int
    /** manualUnblockCooldown: package to the end of its cooldown. */
    var cooldown: map<string, int>
    /** When manualUnblockSchedulerJob resyncs, if one is pending. */
    var unblockTimer: Option<int>

    constructor (controller: Controller, settings: SettingsPreferences.SettingsPreferencesDataSource,
      selfPackage: string, allowlist: set<string>)
      ensures this.controller == controller && this.settings == settings
      ensures this.selfPackage == selfPackage && this.allowlist == allowlist
      ensures rareApps == [] && disabledApps == [] && !manualFirewallUnblock
      ensures allowDurationMillis == SettingsPreferences.DEFAULT_ALLOW_DURATION_MILLIS
      ensures blockThresholdMillis == 4 * DAY_MILLIS
      ensures cooldown == map[] && unblockTimer == None
      ensures Valid()
    {
      this.controller := controller;
      this.settings := settings;
      this.selfPackage := selfPackage;
      this.allowlist := allowlist;
      rareApps := [];
      disabledApps := [];
      allowDurationMillis := SettingsPreferences.DEFAULT_ALLOW_DURATION_MILLIS;
      manualFirewallUnblock := false;
      blockThresholdMillis := 4 * DAY_MILLIS;
      cooldown := map[];
      unblockTimer := None;
    }

    /** firewallBlockedPackages: the set the controller has persisted. */
    function Applied(): set<string>
      reads controller, controller.preferences
    {
      controller.State().blockedPackages
    }

    /** What computeBlockList returns and leaves in the table. */
    function Resolution(now: int, manual: bool): Resolution
      reads this, controller, controller.preferences
    {
      Resolve(Variant(allowlist, true), manual, Applied(), rareApps, disabledApps, cooldown, now,
        EffectiveThreshold(blockThresholdMillis), selfPackage)
    }

    /** The block threshold is floored at one minute: it starts at four
        days and the settings observer only ever stores a floored duration. */
    predicate Valid()
      reads this
    {
      blockThresholdMillis >= MINUTE_MILLIS
    }

    /** While a package is cooling down, a resync is pending. */
    predicate Pending()
      reads this
    {
      cooldown != map[] ==> unblockTimer.Some?
    }

    /** The timer scheduleManualUnblockSync leaves: none for an empty table,
        otherwise at the earliest expiry, or now if that has passed. */
    predicate ArmedFor(now: int)
      reads this
    {
      (cooldown == map[] ==> unblockTimer == None)
      && (cooldown != map[] ==>
        unblockTimer.Some? && unblockTimer.value >= now
        && (forall p :: p in cooldown ==> unblockTimer.value <= AtLeast(cooldown[p], now))
        && exists p :: p in cooldown && unblockTimer.value == AtLeast(cooldown[p], now))
    }

    /** computeBlockList: the candidates, the sweep, and in manual mode the
        sticky set grown by the candidates without a pending cooldown. */
    method ComputeBlockList(now: int, manual: bool) returns (blockList: set<string>)
      modifies this
      ensures blockList == old(Resolution(now, manual)).blockList
      ensures cooldown == old(Resolution(now, manual)).cooldown
      ensures rareApps == old(rareApps) && disabledApps == old(disabledApps)
      ensures allowDurationMillis == old(allowDurationMillis) && manualFirewallUnblock == old(manualFirewallUnblock)
      ensures blockThresholdMillis == old(blockThresholdMillis) && unblockTimer == old(unblockTimer)
    {
      var thresholdMillis := EffectiveThreshold(blockThresholdMillis);
      var threshold := now - thresholdMillis;
      var rarePackages := StaleRare(rareApps, threshold);
      var disabledPackages := DisabledNames(disabledApps);
      cooldown := SweepExpired(cooldown, now);
      if manual {
        var manualSet := controller.State().blockedPackages;
        cooldown := ForgetDisabled(cooldown, disabledApps);
        var additions := Admitted(rarePackages + disabledPackages, cooldown, now);
        manualSet := manualSet + additions;
        manualSet := manualSet - {selfPackage};
        manualSet := manualSet - allowlist;
        blockList := manualSet;
      } else {
        blockList := (rarePackages + disabledPackages) - {selfPackage} - allowlist;
      }
    }

    /** syncFirewallBlockList: the resolved set is pushed only when it differs
        from the applied one; either way the controller then holds it. */
    method SyncFirewallBlockList(now: int)
      modifies this, controller, controller.preferences
      ensures cooldown == old(Resolution(now, manualFirewallUnblock)).cooldown
      ensures controller.State() == old(controller.State()).(blockedPackages := old(Resolution(now, manualFirewallUnblock)).blockList)
      ensures old(Resolution(now, manualFirewallUnblock)).blockList == old(Applied()) ==>
        controller.preferences.data == old(controller.preferences.data) && controller.sent == old(controller.sent)
      ensures controller.sent == old(controller.sent)
        + UpdateCommands(old(controller.State()), old(Resolution(now, manualFirewallUnblock)).blockList)
      ensures controller.autoBlock == old(controller.autoBlock)
      ensures old(controller.Consistent()) ==> controller.Consistent()
      ensures rareApps == old(rareApps) && disabledApps == old(disabledApps)
      ensures allowDurationMillis == old(allowDurationMillis) && manualFirewallUnblock == old(manualFirewallUnblock)
      ensures blockThresholdMillis == old(blockThresholdMillis) && unblockTimer == old(unblockTimer)
    {
      var desired := ComputeBlockList(now, manualFirewallUnblock);
      var current := controller.State().blockedPackages;
      if desired != current {
        controller.UpdateBlockedPackages(desired);
      }
    }

    /** scheduleManualUnblockSync: the previous job is cancelled and, unless
        the table is empty, one job is armed for the earliest expiry. */
    method ScheduleManualUnblockSync(now: int)
      modifies this
      ensures ArmedFor(now) && Pending()
      ensures cooldown == old(cooldown) && rareApps == old(rareApps) && disabledApps == old(disabledApps)
      ensures allowDurationMillis == old(allowDurationMillis) && manualFirewallUnblock == old(manualFirewallUnblock)
      ensures blockThresholdMillis == old(blockThresholdMillis)
    {
      var nextExpiry := NextExpiry(cooldown);
      if nextExpiry.None? {
        unblockTimer := None;
        return;
      }
      var delayMillis := AtLeast(nextExpiry.value - now, 0);
      unblockTimer := Some(now + delayMillis);
      var p :| p in cooldown && cooldown[p] == nextExpiry.value;
      assert unblockTimer.value == AtLeast(cooldown[p], now);
    }

    /** manualUnblockPackage: the package gets a cooldown; it leaves the
        applied set, through updateBlockedPackages, only if it was in it; and
        the timer is re-armed. */
    method ManualUnblockPackage(now: int, packageName: string)
      modifies this, controller, controller.preferences
      ensures cooldown == old(cooldown)[packageName :=
        CooldownUntil(now, old(controller.State().reactivateAt), allowDurationMillis, blockThresholdMillis)]
      ensures controller.State() == old(controller.State()).(blockedPackages := old(Applied()) - {packageName})
      ensures packageName !in old(Applied()) ==>
        controller.preferences.data == old(controller.preferences.data) && controller.sent == old(controller.sent)
      ensures controller.sent == old(controller.sent) + UpdateCommands(old(controller.State()), old(Applied()) - {packageName})
      ensures controller.autoBlock == old(controller.autoBlock)
      ensures Valid() ==> cooldown[packageName] > now
      ensures ArmedFor(now) && Pending()
      ensures rareApps == old(rareApps) && disabledApps == old(disabledApps)
      ensures allowDurationMillis == old(allowDurationMillis) && manualFirewallUnblock == old(manualFirewallUnblock)
      ensures blockThresholdMillis == old(blockThresholdMillis)
    {
      var scheduledReblockAt := controller.State().reactivateAt;
      var cooldownUntil := CooldownUntil(now, scheduledReblockAt, allowDurationMillis, blockThresholdMillis);
      if Valid() {
        CooldownIsAhead(now, scheduledReblockAt, allowDurationMillis, blockThresholdMillis);
      }
      cooldown := cooldown[packageName := cooldownUntil];
      var current := controller.State().blockedPackages;
      if packageName in current {
        controller.UpdateBlockedPackages(current - {packageName});
      }
      ScheduleManualUnblockSync(now);
    }

    /** setManualFirewallUnblock: the setting is written; switching on applies
        the manual block list and arms the timer; switching off cancels the
        timer, clears the table and resyncs with the mode the UI state still
        shows. */
    method SetManualFirewallUnblock(now: int, enabled: bool)
      modifies this, controller, controller.preferences, settings
      ensures settings.data == SettingsPreferences.PutManualFirewallUnblock(old(settings.data), enabled)
      ensures enabled ==>
        cooldown == old(Resolution(now, true)).cooldown
        && controller.State() == FirewallPrefs(true, false, None, old(Resolution(now, true)).blockList)
        && controller.autoBlock == None
        && controller.sent == old(controller.sent) + [StartOrUpdate(false, old(Resolution(now, true)).blockList)]
        && ArmedFor(now)
      ensures !enabled ==>
        var r := Resolve(Variant(allowlist, true), manualFirewallUnblock, old(Applied()), rareApps, disabledApps, map[], now,
          EffectiveThreshold(blockThresholdMillis), selfPackage);
        cooldown == map[] && unblockTimer == None
        && controller.State() == old(controller.State()).(blockedPackages := r.blockList)
        && controller.sent == old(controller.sent) + UpdateCommands(old(controller.State()), r.blockList)
        && controller.autoBlock == old(controller.autoBlock)
      ensures Pending()
      ensures rareApps == old(rareApps) && disabledApps == old(disabledApps)
      ensures allowDurationMillis == old(allowDurationMillis) && manualFirewallUnblock == old(manualFirewallUnblock)
      ensures blockThresholdMillis == old(blockThresholdMillis)
    {
      settings.SetManualFirewallUnblock(enabled);
      if enabled {
        var blockList := ComputeBlockList(now, true);
        controller.ApplyManualBlockList(blockList);
        ScheduleManualUnblockSync(now);
      } else {
        unblockTimer := None;
        cooldown := map[];
        SyncFirewallBlockList(now);
      }
    }

    /** enableFirewall: the resolved set goes to applyManualBlockList in
        manual mode, else to enableFirewall with the allow duration. */
    method EnableFirewall(now: int)
      modifies this, controller, controller.preferences
      ensures manualFirewallUnblock ==>
        controller.State() == FirewallPrefs(true, false, None, old(Resolution(now, true)).blockList)
        && controller.autoBlock == None
        && controller.sent == old(controller.sent) + [StartOrUpdate(false, old(Resolution(now, true)).blockList)]
      ensures !manualFirewallUnblock ==>
        controller.State() == FirewallPrefs(true, false, Some(now + allowDurationMillis), old(Resolution(now, false)).blockList)
        && controller.autoBlock == Some(DueAt(now, now + allowDurationMillis))
        && controller.sent == old(controller.sent) + [StartOrUpdate(false, {})]
      ensures cooldown == old(Resolution(now, manualFirewallUnblock)).cooldown
      ensures controller.Consistent() && controller.BlockingHasNoDeadline()
      ensures rareApps == old(rareApps) && disabledApps == old(disabledApps) && unblockTimer == old(unblockTimer)
      ensures allowDurationMillis == old(allowDurationMillis) && manualFirewallUnblock == old(manualFirewallUnblock)
      ensures blockThresholdMillis == old(blockThresholdMillis)
    {
      var blockList := ComputeBlockList(now, manualFirewallUnblock);
      if manualFirewallUnblock {
        controller.ApplyManualBlockList(blockList);
      } else {
        controller.EnableFirewall(now, Some(blockList), allowDurationMillis);
      }
    }

    /** blockNow: applyManualBlockList in manual mode, else blockNow. */
    method BlockNow(now: int)
      modifies this, controller, controller.preferences
      ensures manualFirewallUnblock ==>
        controller.State() == FirewallPrefs(true, false, None, old(Resolution(now, true)).blockList)
        && controller.sent == old(controller.sent) + [StartOrUpdate(false, old(Resolution(now, true)).blockList)]
      ensures !manualFirewallUnblock ==>
        controller.State() == FirewallPrefs(true, true, None, old(Resolution(now, false)).blockList)
        && controller.sent == old(controller.sent) + [StartOrUpdate(true, old(Resolution(now, false)).blockList)]
      ensures controller.autoBlock == None
      ensures cooldown == old(Resolution(now, manualFirewallUnblock)).cooldown
      ensures controller.Consistent() && controller.BlockingHasNoDeadline()
      ensures rareApps == old(rareApps) && disabledApps == old(disabledApps) && unblockTimer == old(unblockTimer)
      ensures allowDurationMillis == old(allowDurationMillis) && manualFirewallUnblock == old(manualFirewallUnblock)
      ensures blockThresholdMillis == old(blockThresholdMillis)
    {
      var blockList := ComputeBlockList(now, manualFirewallUnblock);
      if manualFirewallUnblock {
        controller.ApplyManualBlockList(blockList);
      } else {
        controller.BlockNow(Some(blockList));
      }
    }

    /** allowForConfiguredDuration: skipped in manual mode; otherwise the
        automatic set is allowed for the configured duration. */
    method AllowForConfiguredDuration(now: int)
      modifies this, controller, controller.preferences
      ensures manualFirewallUnblock ==>
        cooldown == old(cooldown) && controller.preferences.data == old(controller.preferences.data)
        && controller.sent == old(controller.sent) && controller.autoBlock == old(controller.autoBlock)
      ensures !manualFirewallUnblock ==>
        controller.State() == FirewallPrefs(true, false, Some(now + allowDurationMillis), old(Resolution(now, false)).blockList)
        && controller.autoBlock == Some(DueAt(now, now + allowDurationMillis))
        && controller.sent == old(controller.sent) + [StartOrUpdate(false, {})]
        && cooldown == old(Resolution(now, false)).cooldown
      ensures rareApps == old(rareApps) && disabledApps == old(disabledApps) && unblockTimer == old(unblockTimer)
      ensures allowDurationMillis == old(allowDurationMillis) && manualFirewallUnblock == old(manualFirewallUnblock)
      ensures blockThresholdMillis == old(blockThresholdMillis)
    {
      if manualFirewallUnblock {
        return;
      }
      var blockList := ComputeBlockList(now, manualFirewallUnblock);
      controller.AllowForDuration(now, allowDurationMillis, Some(blockList));
    }

    /** A status collector's emission: the list is stored and the firewall
        resynced. The RECENT list plays no part in the block list. */
    method OnStatusUpdate(now: int, status: AppUsageStatus, apps: seq<AppUsageInfo>)
      modifies this, controller, controller.preferences
      ensures rareApps == if status == RARE then apps else old(rareApps)
      ensures disabledApps == if status == DISABLED then apps else old(disabledApps)
      ensures var r := Resolve(Variant(allowlist, true), manualFirewallUnblock, old(Applied()), rareApps, disabledApps,
          old(cooldown), now, EffectiveThreshold(blockThresholdMillis), selfPackage);
        cooldown == r.cooldown && controller.State() == old(controller.State()).(blockedPackages := r.blockList)
        && controller.sent == old(controller.sent) + UpdateCommands(old(controller.State()), r.blockList)
      ensures controller.autoBlock == old(controller.autoBlock)
      ensures old(controller.Consistent()) ==> controller.Consistent()
      ensures old(Pending()) ==> Pending()
      ensures allowDurationMillis == old(allowDurationMillis) && manualFirewallUnblock == old(manualFirewallUnblock)
      ensures blockThresholdMillis == old(blockThresholdMillis) && unblockTimer == old(unblockTimer)
    {
      if status == RARE {
        rareApps := apps;
      } else if status == DISABLED {
        disabledApps := apps;
      }
      SyncFirewallBlockList(now);
    }

    /** observeSettings, firewall side: a changed allow duration becomes the
        block threshold, floored at one minute; the UI state takes both
        settings; a changed manual mode resyncs the firewall in the new mode. */
    method OnSettingsUpdate(now: int, prefs: SettingsPreferences.AppSettings)
      modifies this, controller, controller.preferences
      ensures blockThresholdMillis == if prefs.allowDurationMillis != old(allowDurationMillis)
        then AtLeast(prefs.allowDurationMillis, MINUTE_MILLIS) else old(blockThresholdMillis)
      ensures old(Valid()) ==> Valid()
      ensures allowDurationMillis == prefs.allowDurationMillis && manualFirewallUnblock == prefs.manualFirewallUnblock
      ensures prefs.manualFirewallUnblock != old(manualFirewallUnblock) ==>
        var r := Resolve(Variant(allowlist, true), prefs.manualFirewallUnblock, old(Applied()), rareApps, disabledApps,
          old(cooldown), now, EffectiveThreshold(blockThresholdMillis), selfPackage);
        cooldown == r.cooldown && controller.State() == old(controller.State()).(blockedPackages := r.blockList)
        && controller.sent == old(controller.sent) + UpdateCommands(old(controller.State()), r.blockList)
      ensures prefs.manualFirewallUnblock == old(manualFirewallUnblock) ==>
        cooldown == old(cooldown) && controller.preferences.data == old(controller.preferences.data)
        && controller.sent == old(controller.sent)
      ensures controller.autoBlock == old(controller.autoBlock)
      ensures old(controller.Consistent()) ==> controller.Consistent()
      ensures rareApps == old(rareApps) && disabledApps == old(disabledApps) && unblockTimer == old(unblockTimer)
    {
      var allowDurationChanged := prefs.allowDurationMillis != allowDurationMillis;
      var manualModeChanged := prefs.manualFirewallUnblock != manualFirewallUnblock;
      if allowDurationChanged {
        blockThresholdMillis := AtLeast(prefs.allowDurationMillis, MINUTE_MILLIS);
      }
      allowDurationMillis := prefs.allowDurationMillis;
      manualFirewallUnblock := prefs.manualFirewallUnblock;
      if manualModeChanged {
        SyncFirewallBlockList(now);
      }
    }

    /** The scheduler job as written: it resyncs once and is then complete,
        so no timer is pending afterwards, whatever is left in the table. */
    method FireUnblockTimer(now: int)
      modifies this, controller, controller.preferences
      ensures unblockTimer == None
      ensures cooldown == old(Resolution(now, manualFirewallUnblock)).cooldown
      ensures controller.State() == old(controller.State()).(blockedPackages := old(Resolution(now, manualFirewallUnblock)).blockList)
      ensures controller.sent == old(controller.sent)
        + UpdateCommands(old(controller.State()), old(Resolution(now, manualFirewallUnblock)).blockList)
      ensures controller.autoBlock == old(controller.autoBlock)
      ensures old(controller.Consistent()) ==> controller.Consistent()
      ensures rareApps == old(rareApps) && disabledApps == old(disabledApps)
      ensures allowDurationMillis == old(allowDurationMillis) && manualFirewallUnblock == old(manualFirewallUnblock)
      ensures blockThresholdMillis == old(blockThresholdMillis)
    {
      SyncFirewallBlockList(now);
      unblockTimer := None;
    }

    /** The scheduler job re-armed after its resync: the timer then waits
        for the earliest cooldown still pending. */
    method FireUnblockTimerRearmed(now: int)
      modifies this, controller, controller.preferences
      ensures cooldown == old(Resolution(now, manualFirewallUnblock)).cooldown
      ensures controller.State() == old(controller.State()).(blockedPackages := old(Resolution(now, manualFirewallUnblock)).blockList)
      ensures ArmedFor(now) && Pending()
      ensures forall p :: p in cooldown ==> cooldown[p] > now
      ensures controller.sent == old(controller.sent)
        + UpdateCommands(old(controller.State()), old(Resolution(now, manualFirewallUnblock)).blockList)
      ensures controller.autoBlock == old(controller.autoBlock)
      ensures old(controller.Consistent()) ==> controller.Consistent()
      ensures rareApps == old(rareApps) && disabledApps == old(disabledApps)
      ensures allowDurationMillis == old(allowDurationMillis) && manualFirewallUnblock == old(manualFirewallUnblock)
      ensures blockThresholdMillis == old(blockThresholdMillis)
    {
      SyncFirewallBlockList(now);
      ScheduleManualUnblockSync(now);
      forall p | p in cooldown
        ensures cooldown[p] > now
      {
        SweepKeepsOnlyPending(Variant(allowlist, true), old(manualFirewallUnblock), old(Applied()), rareApps, disabledApps,
          old(cooldown), now, EffectiveThreshold(blockThresholdMillis), selfPackage, p);
      }
    }
  }

  /** Two packages unblocked a second apart: when the timer for the first
      expiry fires, the second is still cooling down but, as written, no
      timer is pending for it any more. */
  method SecondCooldownIsNotScheduled() returns (cooldown: map<string, int>, timer: Option<int>)
    ensures "com.example.b" in cooldown && timer == None
  {
    var store := new FirewallPreferencesDataSource(map[]);
    var controller := new Controller(store);
    var settings := new SettingsPreferences.SettingsPreferencesDataSource(map[]);
    var viewModel := new ViewModel(controller, settings, "com.privacyguard.batteryanalyzer", PRIMARY_ALLOWLIST);
    viewModel.ManualUnblockPackage(0, "com.example.a");
    viewModel.ManualUnblockPackage(1000, "com.example.b");
    assert viewModel.cooldown["com.example.b"] == 1000 + 4 * DAY_MILLIS;
    viewModel.FireUnblockTimer(4 * DAY_MILLIS);
    SweepKeepsOnlyPending(Variant(PRIMARY_ALLOWLIST, true), false, {}, [], [],
      map["com.example.a" := 4 * DAY_MILLIS, "com.example.b" := 1000 + 4 * DAY_MILLIS], 4 * DAY_MILLIS,
      4 * DAY_MILLIS, "com.privacyguard.batteryanalyzer", "com.example.b");
    cooldown := viewModel.cooldown;
    timer := viewModel.unblockTimer;
  }
}
