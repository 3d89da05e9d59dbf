/** The older VpnFirewallService of com/example/batteryanalyzer: a tunnel
    exists only while blocking, and it routes the blocked packages (minus the
    app itself). An open tunnel is kept as it is by a later start, so a
    changed list reaches the tunnel only after a stop. Whether `establish()`
    returns an interface is an input. */
module LegacyVpnService {
  import opened Base
  import opened VpnService

  const LEGACY_ACTION_START_OR_UPDATE: string := "com.example.batteryanalyzer.firewall.START"
  const LEGACY_ACTION_STOP: string := "com.example.batteryanalyzer.firewall.STOP"

  /** The tunnel startVpn opens for a non-empty blocked set. */
  function Routed(blockedPackages: set<string>, selfPackage: string): (routed: set<string>)
    ensures selfPackage !in routed
    ensures forall p :: p in routed <==> p in blockedPackages && p != selfPackage
  {
    blockedPackages - {selfPackage}
  }

  /** The tunnel after updateVpn(blocking), given the one open before and
      whether establish() succeeds. */
  function AfterUpdate(blocking: bool, blockedPackages: set<string>, selfPackage: string,
                       before: Option<set<string>>, established: bool): (after: Option<set<string>>)
    ensures !blocking || blockedPackages == {} ==> after == None
    ensures blocking && blockedPackages != {} && before.Some? ==> after == before
    ensures after.Some? && before.None? ==> after == Some(Routed(blockedPackages, selfPackage))
  {
    if !blocking || blockedPackages == {} then None
    else if before.Some? then before
    else if established then Some(Routed(blockedPackages, selfPackage))
    else None
  }

  class LegacyVpnFirewallService {
    const selfPackage: string
    var blockedPackages: set<string>
    /** The packages the open interface routes, if one is open. */
    var vpnInterface: Option<set<string>>
    var inputStreamOpen: bool
    var drainThreadRunning: bool
    var stopRequested: bool

    /** The stream and the drain thread exist exactly while an interface is
        open. */
    predicate Valid()
      reads this
    {
      (inputStreamOpen <==> vpnInterface.Some?) && (drainThreadRunning <==> vpnInterface.Some?)
    }

    constructor (selfPackage: string)
      ensures Valid() && this.selfPackage == selfPackage
      ensures blockedPackages == {} && vpnInterface == None && !stopRequested
    {
      this.selfPackage := selfPackage;
      blockedPackages := {};
      vpnInterface := None;
      inputStreamOpen := false;
      drainThreadRunning := false;
      stopRequested := false;
    }

    /** stopVpn: thread, stream and interface are all released and cleared. */
    method StopVpn()
      modifies this
      ensures Valid() && vpnInterface == None && !inputStreamOpen && !drainThreadRunning
      ensures blockedPackages == old(blockedPackages) && stopRequested == old(stopRequested)
    {
      drainThreadRunning := false;
      inputStreamOpen := false;
      vpnInterface := None;
    }

    /** startVpn: nothing happens while an interface is open; an empty set
        stops; otherwise the routed set is built and establish() decides. */
    method StartVpn(established: bool)
      requires Valid()
      modifies this
      ensures Valid()
      ensures vpnInterface == if old(vpnInterface).Some? then old(vpnInterface)
        else AfterUpdate(true, blockedPackages, selfPackage, None, established)
      ensures blockedPackages == old(blockedPackages) && stopRequested == old(stopRequested)
    {
      if vpnInterface.Some? {
        return;
      }
      if blockedPackages == {} {
        StopVpn();
        return;
      }
      var allowed := RoutedApplications(blockedPackages, selfPackage);
      if established {
        vpnInterface := Some(allowed);
        inputStreamOpen := true;
        drainThreadRunning := true;
      }
    }

    /** updateVpn: only blocking with a non-empty set keeps or opens a
        tunnel. */
    method UpdateVpn(blocking: bool, established: bool)
      requires Valid()
      modifies this
      ensures Valid()
      ensures vpnInterface == AfterUpdate(blocking, blockedPackages, selfPackage, old(vpnInterface), established)
      ensures blockedPackages == old(blockedPackages) && stopRequested == old(stopRequested)
    {
      if blocking {
        if blockedPackages == {} {
          StopVpn();
        } else {
          StartVpn(established);
        }
      } else {
        StopVpn();
      }
    }

    /** onStartCommand: STOP asks the system to stop the service; START
        replaces the list (empty when absent) and updates the tunnel;
        anything else changes nothing. */
    method OnStartCommand(intent: Option<Intent>, established: bool) returns (mode: StartMode)
      requires Valid()
      modifies this
      ensures Valid()
      ensures var action := if intent.Some? then intent.value.action else None;
        if action == Some(LEGACY_ACTION_STOP) then
          mode == START_NOT_STICKY && stopRequested
          && blockedPackages == old(blockedPackages) && vpnInterface == old(vpnInterface)
        else if action == Some(LEGACY_ACTION_START_OR_UPDATE) then
          var provided := intent.value.blockListExtra;
          mode == START_STICKY
          && blockedPackages == (if provided.Some? then AsSet(provided.value) else {})
          && vpnInterface == AfterUpdate(intent.value.blockingExtra == Some(true), blockedPackages, selfPackage,
                                         old(vpnInterface), established)
          && stopRequested == old(stopRequested)
        else
          mode == START_STICKY && blockedPackages == old(blockedPackages)
          && vpnInterface == old(vpnInterface) && stopRequested == old(stopRequested)
    {
      var action := if intent.Some? then intent.value.action else None;
      if action == Some(LEGACY_ACTION_STOP) {
        stopRequested := true;
        return START_NOT_STICKY;
      }
      if action == Some(LEGACY_ACTION_START_OR_UPDATE) {
        var blocking := if intent.value.blockingExtra.Some? then intent.value.blockingExtra.value else false;
        var providedList := intent.value.blockListExtra;
        blockedPackages := if providedList.Some? then AsSet(providedList.value) else {};
        UpdateVpn(blocking, established);
        return START_STICKY;
      }
      return START_STICKY;
    }

    method OnDestroy()
      modifies this
      ensures Valid() && vpnInterface == None && !inputStreamOpen && !drainThreadRunning
      ensures blockedPackages == old(blockedPackages) && stopRequested == old(stopRequested)
    {
      StopVpn();
    }
  }

  /** Two blocking starts with different lists: the second leaves the
      tunnel routing the first list, while the service records the second. */
  method SecondListIsNotRouted() returns (recorded: set<string>, routed: Option<set<string>>)
    ensures recorded == {"com.example.b"}
    ensures routed == Some({"com.example.a"})
  {
    var service := new LegacyVpnFirewallService("com.example.batteryanalyzer");
    var first := Intent(Some(LEGACY_ACTION_START_OR_UPDATE), Some(true), Some(["com.example.a"]));
    var mode := service.OnStartCommand(Some(first), true);
    assert AsSet(["com.example.a"]) == {"com.example.a"};
    assert Routed({"com.example.a"}, "com.example.batteryanalyzer") == {"com.example.a"};
    var second := Intent(Some(LEGACY_ACTION_START_OR_UPDATE), Some(true), Some(["com.example.b"]));
    mode := service.OnStartCommand(Some(second), true);
    assert AsSet(["com.example.b"]) == {"com.example.b"};
    recorded := service.blockedPackages;
    routed := service.vpnInterface;
  }

  /** The legacy controller's allowing command stops the tunnel whatever the
      list, and a blocking one routes exactly its list minus the app. */
  lemma LegacyCommandTunnels(blockList: set<string>, selfPackage: string, before: Option<set<string>>, established: bool)
    ensures AfterUpdate(false, blockList, selfPackage, before, established) == None
    ensures blockList != {} && before.None? && established ==>
      AfterUpdate(true, blockList, selfPackage, before, established) == Some(blockList - {selfPackage})
  {
  }
}
