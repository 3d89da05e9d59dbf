/** The firewall side of the older MainViewModel (com/example/batteryanalyzer):
    no allowlist, a fixed four-day threshold, a cooldown of four days for a
    manual unblock, no resync timer, and manual mode blocks (blockNow)
    rather than allows. The applied set is the legacy controller's persisted
    record; the clock is the `now` parameter. */
module LegacyViewModel {
  import opened Base
  import opened Local
  import opened BlockList
  import opened FirewallPreferences
  import opened FirewallController
  import opened LegacyFirewallController
  import SettingsPreferences

  class LegacyMainViewModel {
    const controller: LegacyController
    const settings: SettingsPreferences.SettingsPreferencesDataSource
    /** appContext.packageName */
    const selfPackage: string
    var rareApps: seq<AppUsageInfo>
    var disabledApps: seq<AppUsageInfo>
    var allowDurationMillis: int
    var manualFirewallUnblock: bool
    /** manualUnblockCooldown: package to the end of its cooldown. */
    var cooldown: map<string, int>

    constructor (controller: LegacyController, settings: SettingsPreferences.SettingsPreferencesDataSource, selfPackage: string)
      ensures this.controller == controller && this.settings == settings && this.selfPackage == selfPackage
      ensures rareApps == [] && disabledApps == [] && !manualFirewallUnblock && cooldown == map[]
      ensures allowDurationMillis == SettingsPreferences.DEFAULT_ALLOW_DURATION_MILLIS
    {
      this.controller := controller;
      this.settings := settings;
      this.selfPackage := selfPackage;
      rareApps := [];
      disabledApps := [];
      allowDurationMillis := SettingsPreferences.DEFAULT_ALLOW_DURATION_MILLIS;
      manualFirewallUnblock := false;
      cooldown := map[];
    }

    function Applied(): set<string>
      reads controller, controller.preferences
    {
      controller.State().blockedPackages
    }

    function Resolution(now: int, manual: bool): Resolution
      reads this, controller, controller.preferences
    {
      Resolve(LEGACY, manual, Applied(), rareApps, disabledApps, cooldown, now, LEGACY_BLOCK_THRESHOLD_MILLIS, selfPackage)
    }

    /** computeBlockList of the older copy: the cooldown holds back DISABLED
        candidates as well, and nothing is allowlisted. */
    method ComputeBlockList(now: int, manual: bool) returns (blockList: set<string>)
      modifies this
      ensures blockList == old(Resolution(now, manual)).blockList
      ensures cooldown == old(Resolution(now, manual)).cooldown
      ensures rareApps == old(rareApps) && disabledApps == old(disabledApps)
      ensures allowDurationMillis == old(allowDurationMillis) && manualFirewallUnblock == old(manualFirewallUnblock)
    {
      var threshold := now - LEGACY_BLOCK_THRESHOLD_MILLIS;
      var rarePackages := StaleRare(rareApps, threshold);
      var disabledPackages := DisabledNames(disabledApps);
      cooldown := SweepExpired(cooldown, now);
      if manual {
        var manualSet := controller.State().blockedPackages;
        var additions := Admitted(rarePackages + disabledPackages, cooldown, now);
        manualSet := manualSet + additions;
        manualSet := manualSet - {selfPackage};
        blockList := manualSet;
      } else {
        blockList := (rarePackages + disabledPackages) - {selfPackage};
      }
      assert blockList - LEGACY.allowlist == blockList;
    }

    /** syncFirewallBlockList: pushed only when it differs from the applied
        set; either way the controller then holds it. */
    method SyncFirewallBlockList(now: int)
      modifies this, controller, controller.preferences
      ensures cooldown == old(Resolution(now, manualFirewallUnblock)).cooldown
      ensures controller.State() == old(controller.State()).(blockedPackages := old(Resolution(now, manualFirewallUnblock)).blockList)
      ensures old(Resolution(now, manualFirewallUnblock)).blockList == old(Applied()) ==>
        controller.preferences.data == old(controller.preferences.data) && controller.sent == old(controller.sent)
      ensures controller.sent == old(controller.sent)
        + LegacyUpdateCommands(old(controller.State()), old(Resolution(now, manualFirewallUnblock)).blockList)
      ensures controller.autoBlock == old(controller.autoBlock)
      ensures old(controller.PendingOnlyWhileAllowing()) ==> controller.PendingOnlyWhileAllowing()
      ensures old(controller.BlockingHasNoDeadline()) ==> controller.BlockingHasNoDeadline()
      ensures rareApps == old(rareApps) && disabledApps == old(disabledApps)
      ensures allowDurationMillis == old(allowDurationMillis) && manualFirewallUnblock == old(manualFirewallUnblock)
    {
      var desired := ComputeBlockList(now, manualFirewallUnblock);
      if desired != controller.State().blockedPackages {
        controller.UpdateBlockedPackages(desired);
      }
    }

    /** manualUnblockPackage: a four-day cooldown, the package taken out of
        the applied set if it was in it, then a resync. In manual mode the
        package stays unblocked; in automatic mode the resync blocks it
        again whenever it is a candidate. */
    method ManualUnblockPackage(now: int, packageName: string)
      modifies this, controller, controller.preferences
      ensures cooldown == Resolve(LEGACY, manualFirewallUnblock, old(Applied()) - {packageName}, rareApps, disabledApps,
        old(cooldown)[packageName := now + LEGACY_BLOCK_THRESHOLD_MILLIS], now, LEGACY_BLOCK_THRESHOLD_MILLIS, selfPackage).cooldown
      ensures controller.State() == old(controller.State()).(blockedPackages :=
        Resolve(LEGACY, manualFirewallUnblock, old(Applied()) - {packageName}, rareApps, disabledApps,
          old(cooldown)[packageName := now + LEGACY_BLOCK_THRESHOLD_MILLIS], now, LEGACY_BLOCK_THRESHOLD_MILLIS, selfPackage).blockList)
      ensures controller.sent == old(controller.sent)
        + LegacyUpdateCommands(old(controller.State()), old(Applied()) - {packageName})
        + LegacyUpdateCommands(old(controller.State()).(blockedPackages := old(Applied()) - {packageName}),
          Resolve(LEGACY, manualFirewallUnblock, old(Applied()) - {packageName}, rareApps, disabledApps,
            old(cooldown)[packageName := now + LEGACY_BLOCK_THRESHOLD_MILLIS], now, LEGACY_BLOCK_THRESHOLD_MILLIS,
            selfPackage).blockList)
      ensures manualFirewallUnblock ==> packageName !in controller.State().blockedPackages
      ensures !manualFirewallUnblock ==> (packageName in controller.State().blockedPackages <==>
        packageName != selfPackage && IsCandidate(packageName, rareApps, disabledApps, now - LEGACY_BLOCK_THRESHOLD_MILLIS))
      ensures controller.autoBlock == old(controller.autoBlock)
      ensures rareApps == old(rareApps) && disabledApps == old(disabledApps)
      ensures allowDurationMillis == old(allowDurationMillis) && manualFirewallUnblock == old(manualFirewallUnblock)
    {
      cooldown := cooldown[packageName := now + LEGACY_BLOCK_THRESHOLD_MILLIS];
      var current := controller.State().blockedPackages;
      if packageName in current {
        controller.UpdateBlockedPackages(current - {packageName});
      }
      ghost var applied := Applied();
      ghost var table := cooldown;
      assert applied == old(Applied()) - {packageName};
      SyncFirewallBlockList(now);
      if manualFirewallUnblock {
        CooldownHoldsBack(LEGACY, applied, rareApps, disabledApps, table, now, LEGACY_BLOCK_THRESHOLD_MILLIS,
          selfPackage, packageName);
      } else {
        AutomaticIsExact(LEGACY, applied, rareApps, disabledApps, table, now, LEGACY_BLOCK_THRESHOLD_MILLIS,
          selfPackage, packageName);
      }
    }

    /** enableFirewall: manual mode blocks the resolved set at once;
        otherwise the firewall allows for the configured duration. */
    method EnableFirewall(now: int)
      modifies this, controller, controller.preferences
      ensures manualFirewallUnblock ==>
        controller.State() == FirewallPrefs(true, true, None, old(Resolution(now, true)).blockList)
        && controller.autoBlock == None
        && controller.sent == old(controller.sent) + [StartOrUpdate(true, old(Resolution(now, true)).blockList)]
      ensures !manualFirewallUnblock ==>
        controller.State() == FirewallPrefs(true, false, Some(now + allowDurationMillis), old(Resolution(now, false)).blockList)
        && controller.autoBlock == Some(DueAt(now, now + allowDurationMillis))
        && controller.sent == old(controller.sent) + [StartOrUpdate(false, old(Resolution(now, false)).blockList)]
      ensures cooldown == old(Resolution(now, manualFirewallUnblock)).cooldown
      ensures controller.BlockingHasNoDeadline() && controller.PendingOnlyWhileAllowing()
      ensures rareApps == old(rareApps) && disabledApps == old(disabledApps)
      ensures allowDurationMillis == old(allowDurationMillis) && manualFirewallUnblock == old(manualFirewallUnblock)
    {
      var blockList := ComputeBlockList(now, manualFirewallUnblock);
      if manualFirewallUnblock {
        controller.BlockNow(Some(blockList));
      } else {
        controller.EnableFirewall(now, Some(blockList), allowDurationMillis);
      }
    }

    /** blockNow: the resolved set, blocked in either mode. */
    method BlockNow(now: int)
      modifies this, controller, controller.preferences
      ensures controller.State() == FirewallPrefs(true, true, None, old(Resolution(now, manualFirewallUnblock)).blockList)
      ensures controller.sent == old(controller.sent) + [StartOrUpdate(true, old(Resolution(now, manualFirewallUnblock)).blockList)]
      ensures controller.autoBlock == None
      ensures cooldown == old(Resolution(now, manualFirewallUnblock)).cooldown
      ensures controller.BlockingHasNoDeadline() && controller.PendingOnlyWhileAllowing()
      ensures rareApps == old(rareApps) && disabledApps == old(disabledApps)
      ensures allowDurationMillis == old(allowDurationMillis) && manualFirewallUnblock == old(manualFirewallUnblock)
    {
      var blockList := ComputeBlockList(now, manualFirewallUnblock);
      controller.BlockNow(Some(blockList));
    }

    /** allowForConfiguredDuration: skipped in manual mode. */
    method AllowForConfiguredDuration(now: int)
      modifies this, controller, controller.preferences
      ensures manualFirewallUnblock ==>
        cooldown == old(cooldown) && controller.preferences.data == old(controller.preferences.data)
        && controller.sent == old(controller.sent) && controller.autoBlock == old(controller.autoBlock)
      ensures !manualFirewallUnblock ==>
        controller.State() == FirewallPrefs(true, false, Some(now + allowDurationMillis), old(Resolution(now, false)).blockList)
        && controller.autoBlock == Some(DueAt(now, now + allowDurationMillis))
        && controller.sent == old(controller.sent) + [StartOrUpdate(false, old(Resolution(now, false)).blockList)]
        && cooldown == old(Resolution(now, false)).cooldown
      ensures rareApps == old(rareApps) && disabledApps == old(disabledApps)
      ensures allowDurationMillis == old(allowDurationMillis) && manualFirewallUnblock == old(manualFirewallUnblock)
    {
      if manualFirewallUnblock {
        return;
      }
      var blockList := ComputeBlockList(now, manualFirewallUnblock);
      controller.AllowForDuration(now, allowDurationMillis, Some(blockList));
    }

    /** setManualFirewallUnblock: the setting is written; switching on blocks
        the manual set at once; switching off does nothing more. */
    method SetManualFirewallUnblock(now: int, enabled: bool)
      modifies this, controller, controller.preferences, settings
      ensures settings.data == SettingsPreferences.PutManualFirewallUnblock(old(settings.data), enabled)
      ensures enabled ==>
        cooldown == old(Resolution(now, true)).cooldown
        && controller.State() == FirewallPrefs(true, true, None, old(Resolution(now, true)).blockList)
        && controller.autoBlock == None
        && controller.sent == old(controller.sent) + [StartOrUpdate(true, old(Resolution(now, true)).blockList)]
      ensures !enabled ==>
        cooldown == old(cooldown) && controller.preferences.data == old(controller.preferences.data)
        && controller.sent == old(controller.sent) && controller.autoBlock == old(controller.autoBlock)
      ensures rareApps == old(rareApps) && disabledApps == old(disabledApps)
      ensures allowDurationMillis == old(allowDurationMillis) && manualFirewallUnblock == old(manualFirewallUnblock)
    {
      settings.SetManualFirewallUnblock(enabled);
      if enabled {
        var blockList := ComputeBlockList(now, true);
        controller.BlockNow(Some(blockList));
      }
    }

    /** A status collector's emission: the list is stored and the firewall
        resynced. */
    method OnStatusUpdate(now: int, status: AppUsageStatus, apps: seq<AppUsageInfo>)
      modifies this, controller, controller.preferences
      ensures rareApps == if status == RARE then apps else old(rareApps)
      ensures disabledApps == if status == DISABLED then apps else old(disabledApps)
      ensures var r := Resolve(LEGACY, manualFirewallUnblock, old(Applied()), rareApps, disabledApps, old(cooldown), now,
          LEGACY_BLOCK_THRESHOLD_MILLIS, selfPackage);
        cooldown == r.cooldown && controller.State() == old(controller.State()).(blockedPackages := r.blockList)
        && controller.sent == old(controller.sent) + LegacyUpdateCommands(old(controller.State()), r.blockList)
      ensures controller.autoBlock == old(controller.autoBlock)
      ensures old(controller.PendingOnlyWhileAllowing()) ==> controller.PendingOnlyWhileAllowing()
      ensures old(controller.BlockingHasNoDeadline()) ==> controller.BlockingHasNoDeadline()
      ensures allowDurationMillis == old(allowDurationMillis) && manualFirewallUnblock == old(manualFirewallUnblock)
    {
      if status == RARE {
        rareApps := apps;
      } else if status == DISABLED {
        disabledApps := apps;
      }
      SyncFirewallBlockList(now);
    }

    /** observeSettings, firewall side: the UI state takes both settings and
        a changed manual mode resyncs the firewall in the new mode. This copy
        has no block-threshold setting to update. */
    method OnSettingsUpdate(now: int, prefs: SettingsPreferences.AppSettings)
      modifies this, controller, controller.preferences
      ensures allowDurationMillis == prefs.allowDurationMillis && manualFirewallUnblock == prefs.manualFirewallUnblock
      ensures prefs.manualFirewallUnblock != old(manualFirewallUnblock) ==>
        var r := Resolve(LEGACY, prefs.manualFirewallUnblock, old(Applied()), rareApps, disabledApps, old(cooldown), now,
          LEGACY_BLOCK_THRESHOLD_MILLIS, selfPackage);
        cooldown == r.cooldown && controller.State() == old(controller.State()).(blockedPackages := r.blockList)
        && controller.sent == old(controller.sent) + LegacyUpdateCommands(old(controller.State()), r.blockList)
      ensures prefs.manualFirewallUnblock == old(manualFirewallUnblock) ==>
        cooldown == old(cooldown) && controller.preferences.data == old(controller.preferences.data)
        && controller.sent == old(controller.sent)
      ensures controller.autoBlock == old(controller.autoBlock)
      ensures old(controller.PendingOnlyWhileAllowing()) ==> controller.PendingOnlyWhileAllowing()
      ensures old(controller.BlockingHasNoDeadline()) ==> controller.BlockingHasNoDeadline()
      ensures rareApps == old(rareApps) && disabledApps == old(disabledApps)
    {
      var manualModeChanged := prefs.manualFirewallUnblock != manualFirewallUnblock;
      allowDurationMillis := prefs.allowDurationMillis;
      manualFirewallUnblock := prefs.manualFirewallUnblock;
      if manualModeChanged {
        SyncFirewallBlockList(now);
      }
    }
  }
}
