/** The older firewall state machine of com/example/batteryanalyzer: the same
    persisted record and single auto-block job as the newer controller, but
    every start command carries the full list and there is no
    applyManualBlockList. */
module LegacyFirewallController {
  import opened Base
  import opened FirewallPreferences
  import opened FirewallController

  /** The commands the older updateBlockedPackages sends for a new set: none
      for the set already stored or while disabled, otherwise one start in
      the stored mode carrying the whole set. */
  function LegacyUpdateCommands(state: FirewallPrefs, blockPackages: set<string>): seq<ServiceCommand> {
    if state.blockedPackages == blockPackages || !state.isEnabled then []
    else [StartOrUpdate(state.isBlocking, blockPackages)]
  }

  class LegacyController {
    const preferences: FirewallPreferencesDataSource
    /** The time the pending auto-block job runs, if one is enqueued. */
    var autoBlock: Option<int>
    var sent: seq<ServiceCommand>

    constructor (preferences: FirewallPreferencesDataSource)
      ensures this.preferences == preferences && autoBlock == None && sent == []
    {
      this.preferences := preferences;
      autoBlock := None;
      sent := [];
    }

    function State(): FirewallPrefs
      reads this, preferences
    {
      preferences.Current()
    }

    /** While blocking, no deadline is recorded. */
    predicate BlockingHasNoDeadline()
      reads this, preferences
    {
      State().isBlocking ==> State().reactivateAt.None?
    }

    /** A pending auto-block belongs to an enabled, allowing firewall. */
    predicate PendingOnlyWhileAllowing()
      reads this, preferences
    {
      autoBlock.Some? ==> State().isEnabled && !State().isBlocking
    }

    function PackagesOr(blockPackages: Option<set<string>>): set<string>
      reads this, preferences
    {
      if blockPackages.Some? then blockPackages.value else State().blockedPackages
    }

    /** startService: always the whole list. */
    method StartService(isBlocking: bool, blockList: set<string>)
      modifies this
      ensures sent == old(sent) + [StartOrUpdate(isBlocking, blockList)] && autoBlock == old(autoBlock)
    {
      sent := sent + [StartOrUpdate(isBlocking, blockList)];
    }

    method StopService()
      modifies this
      ensures sent == old(sent) + [Stop] && autoBlock == old(autoBlock)
    {
      sent := sent + [Stop];
    }

    method ScheduleAutoBlock(now: int, reactivateAt: int)
      modifies this
      ensures autoBlock == Some(DueAt(now, reactivateAt)) && sent == old(sent)
    {
      var delay := reactivateAt - now;
      if delay <= 0 {
        autoBlock := Some(now);
        return;
      }
      autoBlock := Some(reactivateAt);
    }

    method CancelAutoBlock()
      modifies this
      ensures autoBlock == None && sent == old(sent)
    {
      autoBlock := None;
    }

    /** enableFirewall: enabled and allowing until now + d, the job armed,
        and an allowing start that carries the whole list. */
    method EnableFirewall(now: int, blockPackages: Option<set<string>>, allowDurationMillis: int)
      modifies this, preferences
      ensures State() == FirewallPrefs(true, false, Some(now + allowDurationMillis), old(PackagesOr(blockPackages)))
      ensures autoBlock == Some(DueAt(now, now + allowDurationMillis))
      ensures sent == old(sent) + [StartOrUpdate(false, old(PackagesOr(blockPackages)))]
      ensures BlockingHasNoDeadline() && PendingOnlyWhileAllowing()
    {
      var packages := if blockPackages.Some? then blockPackages.value else preferences.Current().blockedPackages;
      var reactivateAt := now + allowDurationMillis;
      preferences.SetState(true, false, Some(reactivateAt), Some(packages));
      ScheduleAutoBlock(now, reactivateAt);
      StartService(false, packages);
    }

    /** allowForDuration: setBlocking(false, now + d, the empty set) when
        there are no packages, otherwise the shape of enableFirewall. */
    method AllowForDuration(now: int, allowDurationMillis: int, blockPackages: Option<set<string>>)
      modifies this, preferences
      ensures State() == FirewallPrefs(true, false, Some(now + allowDurationMillis), old(PackagesOr(blockPackages)))
      ensures autoBlock == Some(DueAt(now, now + allowDurationMillis))
      ensures sent == old(sent) + [StartOrUpdate(false, old(PackagesOr(blockPackages)))]
      ensures BlockingHasNoDeadline() && PendingOnlyWhileAllowing()
    {
      var packages := if blockPackages.Some? then blockPackages.value else preferences.Current().blockedPackages;
      if packages == {} {
        SetBlocking(now, false, Some(now + allowDurationMillis), Some(packages));
        return;
      }
      preferences.SetState(true, false, Some(now + allowDurationMillis), Some(packages));
      ScheduleAutoBlock(now, now + allowDurationMillis);
      StartService(false, packages);
    }

    /** blockNow: enabled and blocking with no deadline, the job cancelled. */
    method BlockNow(blockPackages: Option<set<string>>)
      modifies this, preferences
      ensures State() == FirewallPrefs(true, true, None, old(PackagesOr(blockPackages)))
      ensures autoBlock == None
      ensures sent == old(sent) + [StartOrUpdate(true, old(PackagesOr(blockPackages)))]
      ensures BlockingHasNoDeadline() && PendingOnlyWhileAllowing()
    {
      var packages := if blockPackages.Some? then blockPackages.value else preferences.Current().blockedPackages;
      preferences.SetState(true, true, None, Some(packages));
      CancelAutoBlock();
      StartService(true, packages);
    }

    /** disableFirewall: the all-off record, the job cancelled, STOP sent. */
    method DisableFirewall()
      modifies this, preferences
      ensures State() == FirewallPrefs(false, false, None, {})
      ensures autoBlock == None
      ensures sent == old(sent) + [Stop]
      ensures BlockingHasNoDeadline() && PendingOnlyWhileAllowing()
    {
      preferences.SetState(false, false, None, Some({}));
      CancelAutoBlock();
      StopService();
    }

    /** setBlocking: cancel iff blocking, reschedule iff allowing with a
        deadline; the whole list is always sent. */
    method SetBlocking(now: int, blocking: bool, reactivateAt: Option<int>, blockPackages: Option<set<string>>)
      modifies this, preferences
      ensures State() == FirewallPrefs(true, blocking, reactivateAt, old(PackagesOr(blockPackages)))
      ensures autoBlock == if blocking then None
        else if reactivateAt.Some? then Some(DueAt(now, reactivateAt.value))
        else old(autoBlock)
      ensures sent == old(sent) + [StartOrUpdate(blocking, old(PackagesOr(blockPackages)))]
      ensures old(PendingOnlyWhileAllowing()) || blocking || reactivateAt.Some? ==> PendingOnlyWhileAllowing()
      ensures !blocking || reactivateAt.None? ==> BlockingHasNoDeadline()
    {
      var packages := if blockPackages.Some? then blockPackages.value else preferences.Current().blockedPackages;
      preferences.SetState(true, blocking, reactivateAt, Some(packages));
      if blocking {
        CancelAutoBlock();
      } else if reactivateAt.Some? {
        ScheduleAutoBlock(now, reactivateAt.value);
      }
      StartService(blocking, packages);
    }

    /** updateBlockedPackages: a no-op for the set already stored; otherwise
        only the set changes, and the service restarts with it if enabled. */
    method UpdateBlockedPackages(blockPackages: set<string>)
      modifies this, preferences
      ensures old(State()).blockedPackages == blockPackages ==>
        preferences.data == old(preferences.data) && sent == old(sent)
      ensures State() == old(State()).(blockedPackages := blockPackages)
      ensures autoBlock == old(autoBlock)
      ensures old(State()).blockedPackages != blockPackages ==>
        sent == old(sent) + (if old(State()).isEnabled then [StartOrUpdate(old(State()).isBlocking, blockPackages)] else [])
      ensures sent == old(sent) + LegacyUpdateCommands(old(State()), blockPackages)
      ensures old(PendingOnlyWhileAllowing()) ==> PendingOnlyWhileAllowing()
      ensures old(BlockingHasNoDeadline()) ==> BlockingHasNoDeadline()
    {
      var current := preferences.Current();
      if current.blockedPackages == blockPackages {
        return;
      }
      preferences.SetState(current.isEnabled, current.isBlocking, current.reactivateAt, Some(blockPackages));
      if current.isEnabled {
        StartService(current.isBlocking, blockPackages);
      }
    }
  }

  /** Where the two controllers differ: enableFirewall with a non-empty set
      sends that set in the legacy controller and an empty list in the newer
      one, for the same persisted record. */
  method EnableSendsFullListOnlyInLegacy() returns (legacy: seq<ServiceCommand>, newer: seq<ServiceCommand>)
    ensures legacy == [StartOrUpdate(false, {"com.example.app"})]
    ensures newer == [StartOrUpdate(false, {})]
  {
    var legacyStore := new FirewallPreferencesDataSource(map[]);
    var legacyController := new LegacyController(legacyStore);
    legacyController.EnableFirewall(0, Some({"com.example.app"}), 1000);
    legacy := legacyController.sent;
    var newerStore := new FirewallPreferencesDataSource(map[]);
    var newerController := new Controller(newerStore);
    newerController.EnableFirewall(0, Some({"com.example.app"}), 1000);
    newer := newerController.sent;
  }
}
