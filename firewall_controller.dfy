/** FirewallController: the firewall state machine. Its state is the
    persisted record in the firewall preferences store, the one pending
    auto-block job (WorkManager unique work with REPLACE), and the commands
    sent to the VPN service. The clock is the `now` parameter. */
module FirewallController {
  import opened Base
  import opened FirewallPreferences

  const DEFAULT_ALLOW_DURATION_MILLIS: int := 4 * DAY_MILLIS

  /** An intent to the VPN service: START_OR_UPDATE with its two extras, or
      STOP. */
  datatype ServiceCommand =
    | StartOrUpdate(blocking: bool, blockList: set<string>)
    | Stop

  /** The block-list extra startService puts in the intent. */
  function Payload(isBlocking: bool, blockList: set<string>, includeBlockListWhenNotBlocking: bool): (p: set<string>)
    ensures isBlocking || includeBlockListWhenNotBlocking ==> p == blockList
    ensures !isBlocking && !includeBlockListWhenNotBlocking ==> p == {}
  {
    if isBlocking then blockList
    else if includeBlockListWhenNotBlocking then blockList
    else {}
  }

  /** When the auto-block job runs once scheduleAutoBlock(reactivateAt) has
      enqueued it: immediately for a delay that is not positive, else at the
      deadline. */
  function DueAt(now: int, reactivateAt: int): (due: int)
    ensures due >= now && (due == now || due == reactivateAt)
    ensures reactivateAt > now ==> due == reactivateAt
  {
    var delay := reactivateAt - now;
    if delay <= 0 then now else reactivateAt
  }

  /** The payload setBlocking and updateBlockedPackages send while not
      blocking: the list only when no deadline is pending and it is not empty. */
  function IncludeWhenNotBlocking(blocking: bool, reactivateAt: Option<int>, packages: set<string>): bool {
    !blocking && reactivateAt.None? && packages != {}
  }

  /** The commands updateBlockedPackages sends for a new set: none for the
      set already stored or while the firewall is disabled, otherwise one
      start in the stored mode. */
  function UpdateCommands(state: FirewallPrefs, blockPackages: set<string>): seq<ServiceCommand> {
    if state.blockedPackages == blockPackages || !state.isEnabled then []
    else [StartOrUpdate(state.isBlocking,
      if state.isBlocking || IncludeWhenNotBlocking(state.isBlocking, state.reactivateAt, blockPackages)
      then blockPackages else {})]
  }

  class Controller {
    const preferences: FirewallPreferencesDataSource
    /** The time the pending auto-block job runs, if one is enqueued. */
    var autoBlock: Option<int>
    var sent: seq<ServiceCommand>

    constructor (preferences: FirewallPreferencesDataSource)
      ensures this.preferences == preferences && autoBlock == None && sent == []
    {
      this.preferences := preferences;
      autoBlock := None;
      sent := [];
    }

    function State(): FirewallPrefs
      reads this, preferences
    {
      preferences.Current()
    }

    /** A pending auto-block belongs to an enabled, allowing firewall, and a
        disabled firewall neither blocks nor waits for a deadline. */
    predicate Consistent()
      reads this, preferences
    {
      (autoBlock.Some? ==> State().isEnabled && !State().isBlocking)
      && (!State().isEnabled ==> !State().isBlocking && State().reactivateAt.None?)
    }

    /** While blocking, no deadline is recorded. */
    predicate BlockingHasNoDeadline()
      reads this, preferences
    {
      State().isBlocking ==> State().reactivateAt.None?
    }

    function PackagesOr(blockPackages: Option<set<string>>): set<string>
      reads this, preferences
    {
      if blockPackages.Some? then blockPackages.value else State().blockedPackages
    }

    method StartService(isBlocking: bool, blockList: set<string>, includeBlockListWhenNotBlocking: bool)
      modifies this
      ensures sent == old(sent) + [StartOrUpdate(isBlocking, Payload(isBlocking, blockList, includeBlockListWhenNotBlocking))]
      ensures autoBlock == old(autoBlock)
    {
      var payload := Payload(isBlocking, blockList, includeBlockListWhenNotBlocking);
      sent := sent + [StartOrUpdate(isBlocking, payload)];
    }

    method StopService()
      modifies this
      ensures sent == old(sent) + [Stop] && autoBlock == old(autoBlock)
    {
      sent := sent + [Stop];
    }

    /** Enqueueing with REPLACE leaves exactly one pending job. */
    method ScheduleAutoBlock(now: int, reactivateAt: int)
      modifies this
      ensures autoBlock == Some(DueAt(now, reactivateAt)) && sent == old(sent)
    {
      var delay := reactivateAt - now;
      if delay <= 0 {
        autoBlock := Some(now);
        return;
      }
      autoBlock := Some(reactivateAt);
    }

    method CancelAutoBlock()
      modifies this
      ensures autoBlock == None && sent == old(sent)
    {
      autoBlock := None;
    }

    /** enableFirewall: enabled and allowing until now + d, the job armed for
        the deadline, and an allowing start with an empty list. */
    method EnableFirewall(now: int, blockPackages: Option<set<string>>, allowDurationMillis: int)
      modifies this, preferences
      ensures State() == FirewallPrefs(true, false, Some(now + allowDurationMillis), old(PackagesOr(blockPackages)))
      ensures autoBlock == Some(DueAt(now, now + allowDurationMillis))
      ensures sent == old(sent) + [StartOrUpdate(false, {})]
      ensures Consistent() && BlockingHasNoDeadline()
    {
      var packages := if blockPackages.Some? then blockPackages.value else preferences.Current().blockedPackages;
      var reactivateAt := now + allowDurationMillis;
      preferences.SetState(true, false, Some(reactivateAt), Some(packages));
      ScheduleAutoBlock(now, reactivateAt);
      StartService(false, packages, false);
    }

    /** allowForDuration: with no packages it is setBlocking(false, now + d,
        the empty set); otherwise the same record, deadline and command as
        enableFirewall. Either way the command carries an empty list. */
    method AllowForDuration(now: int, allowDurationMillis: int, blockPackages: Option<set<string>>)
      modifies this, preferences
      ensures State() == FirewallPrefs(true, false, Some(now + allowDurationMillis), old(PackagesOr(blockPackages)))
      ensures autoBlock == Some(DueAt(now, now + allowDurationMillis))
      ensures sent == old(sent) + [StartOrUpdate(false, {})]
      ensures Consistent() && BlockingHasNoDeadline()
    {
      var packages := if blockPackages.Some? then blockPackages.value else preferences.Current().blockedPackages;
      if packages == {} {
        SetBlocking(now, false, Some(now + allowDurationMillis), Some(packages));
        return;
      }
      preferences.SetState(true, false, Some(now + allowDurationMillis), Some(packages));
      ScheduleAutoBlock(now, now + allowDurationMillis);
      StartService(false, packages, false);
    }

    /** blockNow: enabled and blocking with no deadline, the job cancelled,
        and a blocking start with the whole list. */
    method BlockNow(blockPackages: Option<set<string>>)
      modifies this, preferences
      ensures State() == FirewallPrefs(true, true, None, old(PackagesOr(blockPackages)))
      ensures autoBlock == None
      ensures sent == old(sent) + [StartOrUpdate(true, old(PackagesOr(blockPackages)))]
      ensures Consistent() && BlockingHasNoDeadline()
    {
      var packages := if blockPackages.Some? then blockPackages.value else preferences.Current().blockedPackages;
      preferences.SetState(true, true, None, Some(packages));
      CancelAutoBlock();
      StartService(true, packages, false);
    }

    /** applyManualBlockList: enabled and allowing with no deadline and
        exactly the given set, written only when the record differs; the job
        is cancelled and the set is sent in allowing mode. */
    method ApplyManualBlockList(blockPackages: set<string>)
      modifies this, preferences
      ensures State() == FirewallPrefs(true, false, None, blockPackages)
      ensures old(State()) == FirewallPrefs(true, false, None, blockPackages) ==> preferences.data == old(preferences.data)
      ensures autoBlock == None
      ensures sent == old(sent) + [StartOrUpdate(false, blockPackages)]
      ensures Consistent() && BlockingHasNoDeadline()
    {
      var current := preferences.Current();
      var shouldPersist := !current.isEnabled || current.isBlocking || current.reactivateAt != None
        || current.blockedPackages != blockPackages;
      if shouldPersist {
        preferences.SetState(true, false, None, Some(blockPackages));
      }
      CancelAutoBlock();
      StartService(false, blockPackages, true);
    }

    /** disableFirewall: the all-off record with an empty set, the job
        cancelled, and STOP sent. */
    method DisableFirewall()
      modifies this, preferences
      ensures State() == FirewallPrefs(false, false, None, {})
      ensures autoBlock == None
      ensures sent == old(sent) + [Stop]
      ensures Consistent() && BlockingHasNoDeadline()
    {
      preferences.SetState(false, false, None, Some({}));
      CancelAutoBlock();
      StopService();
    }

    /** setBlocking: the job is cancelled iff blocking and rescheduled iff
        allowing with a deadline, otherwise left as it was; the list is sent
        when blocking, or when allowing with no deadline and a non-empty set. */
    method SetBlocking(now: int, blocking: bool, reactivateAt: Option<int>, blockPackages: Option<set<string>>)
      modifies this, preferences
      ensures State() == FirewallPrefs(true, blocking, reactivateAt, old(PackagesOr(blockPackages)))
      ensures autoBlock == if blocking then None
        else if reactivateAt.Some? then Some(DueAt(now, reactivateAt.value))
        else old(autoBlock)
      ensures sent == old(sent) + [StartOrUpdate(blocking,
        if blocking || IncludeWhenNotBlocking(blocking, reactivateAt, old(PackagesOr(blockPackages)))
        then old(PackagesOr(blockPackages)) else {})]
      ensures old(Consistent()) || blocking || reactivateAt.Some? ==> Consistent()
      ensures !blocking || reactivateAt.None? ==> BlockingHasNoDeadline()
    {
      var packages := if blockPackages.Some? then blockPackages.value else preferences.Current().blockedPackages;
      preferences.SetState(true, blocking, reactivateAt, Some(packages));
      if blocking {
        CancelAutoBlock();
      } else if reactivateAt.Some? {
        ScheduleAutoBlock(now, reactivateAt.value);
      }
      var includeBlockList := !blocking && reactivateAt.None? && packages != {};
      StartService(blocking, packages, includeBlockList);
    }

    /** updateBlockedPackages: nothing happens for the set already stored;
        otherwise only the set changes, even while disabled, and a start is
        sent only when the firewall is enabled. */
    method UpdateBlockedPackages(blockPackages: set<string>)
      modifies this, preferences
      ensures old(State()).blockedPackages == blockPackages ==>
        preferences.data == old(preferences.data) && sent == old(sent)
      ensures State() == old(State()).(blockedPackages := blockPackages)
      ensures autoBlock == old(autoBlock)
      ensures old(State()).blockedPackages != blockPackages ==>
        sent == old(sent) + (if old(State()).isEnabled
          then [StartOrUpdate(old(State()).isBlocking,
            if old(State()).isBlocking || IncludeWhenNotBlocking(old(State()).isBlocking, old(State()).reactivateAt, blockPackages)
            then blockPackages else {})]
          else [])
      ensures sent == old(sent) + UpdateCommands(old(State()), blockPackages)
      ensures old(Consistent()) ==> Consistent()
      ensures old(BlockingHasNoDeadline()) ==> BlockingHasNoDeadline()
    {
      var current := preferences.Current();
      if current.blockedPackages == blockPackages {
        return;
      }
      preferences.SetState(current.isEnabled, current.isBlocking, current.reactivateAt, Some(blockPackages));
      if current.isEnabled {
        var includeBlockList := !current.isBlocking && current.reactivateAt.None? && blockPackages != {};
        StartService(current.isBlocking, blockPackages, includeBlockList);
      }
    }

    /** The auto-block worker's run: blockNow with the persisted set. */
    method FireAutoBlock()
      modifies this, preferences
      ensures State() == FirewallPrefs(true, true, None, old(State()).blockedPackages)
      ensures autoBlock == None
      ensures sent == old(sent) + [StartOrUpdate(true, old(State()).blockedPackages)]
      ensures Consistent() && BlockingHasNoDeadline()
    {
      BlockNow(None);
    }
  }

  /** updateBlockedPackages persists a set while the firewall is disabled, so
      "disabled implies an empty set" does not hold: a concrete scenario. */
  method DisabledFirewallKeepsUpdatedSet() returns (state: FirewallPrefs, commands: seq<ServiceCommand>)
    ensures !state.isEnabled && state.blockedPackages == {"com.example.app"}
    ensures commands == [Stop]
  {
    var store := new FirewallPreferencesDataSource(map[]);
    var controller := new Controller(store);
    controller.DisableFirewall();
    controller.UpdateBlockedPackages({"com.example.app"});
    state := controller.State();
    commands := controller.sent;
  }
}
