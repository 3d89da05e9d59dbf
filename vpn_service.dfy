/** VpnFirewallService: the command dispatch and the choice of tunnel. The
    tunnel itself is not modelled, only which one is open: none, a global one
    that excludes the app itself, or a selective one that routes the blocked
    packages. Whether `establish()` returns an interface is an input. */
module VpnService {
  import opened Base

  const ACTION_START_OR_UPDATE: string := "com.privacyguard.batteryanalyzer.firewall.START"
  const ACTION_STOP: string := "com.privacyguard.batteryanalyzer.firewall.STOP"

  /** The intent's action and its two extras; an absent extra is None. */
  datatype Intent = Intent(action: Option<string>, blockingExtra: Option<bool>, blockListExtra: Option<seq<string>>)

  datatype StartMode = START_STICKY | START_NOT_STICKY

  datatype Tunnel =
    | GlobalBlock(disallowed: set<string>)
    /** The packages routed into the tunnel. When the blocked set is just the
        app itself this is empty: no addAllowedApplication call is made, and
        Android then routes every application into the tunnel, so the
        selective tunnel blocks everything. */
    | SelectiveBlock(allowed: set<string>)

  function AsSet(list: seq<string>): (s: set<string>)
    ensures forall p :: p in s <==> p in list
  {
    set p | p in list
  }

  /** The tunnel updateVpn asks for: global while blocking, selective for a
      non-empty set otherwise, none for an empty one. */
  function WantedTunnel(isBlockingMode: bool, blockedPackages: set<string>, selfPackage: string): (t: Option<Tunnel>)
    ensures t.None? <==> !isBlockingMode && blockedPackages == {}
    ensures isBlockingMode ==> t == Some(GlobalBlock({selfPackage}))
    ensures !isBlockingMode && t.Some? ==> (t.value.SelectiveBlock? && selfPackage !in t.value.allowed
      && forall p :: p in t.value.allowed <==> p in blockedPackages && p != selfPackage)
  {
    if isBlockingMode then Some(GlobalBlock({selfPackage}))
    else if blockedPackages != {} then Some(SelectiveBlock(blockedPackages - {selfPackage}))
    else None
  }

  /** The blockedPackages.forEach of startSelectiveBlockVpn: every blocked
      package except the app itself is added as an allowed application. */
  method RoutedApplications(blockedPackages: set<string>, selfPackage: string) returns (allowed: set<string>)
    ensures allowed == blockedPackages - {selfPackage}
  {
    allowed := {};
    var pending := blockedPackages;
    while pending != {}
      invariant pending <= blockedPackages
      invariant forall p :: p in allowed <==> p in blockedPackages && p !in pending && p != selfPackage
      decreases |pending|
    {
      var pkg :| pkg in pending;
      if pkg != selfPackage {
        allowed := allowed + {pkg};
      }
      pending := pending - {pkg};
    }
    assert allowed == blockedPackages - {selfPackage};
  }

  class VpnFirewallService {
    const selfPackage: string
    var isBlockingMode: bool
    var blockedPackages: set<string>
    var vpnInterface: Option<Tunnel>
    var inputStreamOpen: bool
    var drainThreadRunning: bool
    /** stopSelf has been called. */
    var stopRequested: bool
    /** Interfaces established and closed so far. */
    var interfacesOpened: nat
    var interfacesClosed: nat

    /** At most one interface is open at a time, and the stream and the
        drain thread exist exactly while it is. */
    predicate Valid()
      reads this
    {
      interfacesOpened == interfacesClosed + (if vpnInterface.Some? then 1 else 0)
      && (inputStreamOpen <==> vpnInterface.Some?)
      && (drainThreadRunning <==> vpnInterface.Some?)
    }

    constructor (selfPackage: string)
      ensures Valid() && this.selfPackage == selfPackage
      ensures !isBlockingMode && blockedPackages == {} && vpnInterface == None && !stopRequested
    {
      this.selfPackage := selfPackage;
      isBlockingMode := false;
      blockedPackages := {};
      vpnInterface := None;
      inputStreamOpen := false;
      drainThreadRunning := false;
      stopRequested := false;
      interfacesOpened := 0;
      interfacesClosed := 0;
    }

    /** stopVpn: the thread is interrupted, the stream and the interface are
        closed, and all three fields are cleared. */
    method StopVpn()
      requires Valid()
      modifies this
      ensures Valid() && vpnInterface == None && !inputStreamOpen && !drainThreadRunning
      ensures interfacesOpened == old(interfacesOpened)
      ensures isBlockingMode == old(isBlockingMode) && blockedPackages == old(blockedPackages)
      ensures stopRequested == old(stopRequested)
    {
      drainThreadRunning := false;
      inputStreamOpen := false;
      if vpnInterface.Some? {
        interfacesClosed := interfacesClosed + 1;
      }
      vpnInterface := None;
    }

    /** establishVpn after a stopVpn: on success the interface, its stream
        and a drain thread exist; on failure none of them does. */
    method EstablishVpn(tunnel: Tunnel, established: bool)
      requires Valid() && vpnInterface == None
      modifies this
      ensures Valid()
      ensures vpnInterface == (if established then Some(tunnel) else None)
      ensures isBlockingMode == old(isBlockingMode) && blockedPackages == old(blockedPackages)
      ensures stopRequested == old(stopRequested)
    {
      if established {
        vpnInterface := Some(tunnel);
        interfacesOpened := interfacesOpened + 1;
        inputStreamOpen := true;
        drainThreadRunning := true;
      }
    }

    method StartGlobalBlockVpn(established: bool)
      requires Valid()
      modifies this
      ensures Valid() && vpnInterface == (if established then Some(GlobalBlock({selfPackage})) else None)
      ensures isBlockingMode == old(isBlockingMode) && blockedPackages == old(blockedPackages)
      ensures stopRequested == old(stopRequested)
    {
      StopVpn();
      EstablishVpn(GlobalBlock({selfPackage}), established);
    }

    method StartSelectiveBlockVpn(established: bool)
      requires Valid()
      modifies this
      ensures Valid()
      ensures vpnInterface == (if established && blockedPackages != {} then Some(SelectiveBlock(blockedPackages - {selfPackage})) else None)
      ensures isBlockingMode == old(isBlockingMode) && blockedPackages == old(blockedPackages)
      ensures stopRequested == old(stopRequested)
    {
      if blockedPackages == {} {
        StopVpn();
        return;
      }
      StopVpn();
      var allowed := RoutedApplications(blockedPackages, selfPackage);
      EstablishVpn(SelectiveBlock(allowed), established);
    }

    /** updateVpn: the tunnel becomes the wanted one, or none when
        establishing it fails. */
    method UpdateVpn(established: bool)
      requires Valid()
      modifies this
      ensures Valid()
      ensures vpnInterface == (if established then WantedTunnel(isBlockingMode, blockedPackages, selfPackage) else None)
      ensures isBlockingMode == old(isBlockingMode) && blockedPackages == old(blockedPackages)
      ensures stopRequested == old(stopRequested)
    {
      if isBlockingMode {
        StartGlobalBlockVpn(established);
      } else if blockedPackages != {} {
        StartSelectiveBlockVpn(established);
      } else {
        StopVpn();
      }
    }

    /** onStartCommand: STOP asks the system to stop the service and changes
        nothing else; START_OR_UPDATE records the mode and the list (empty
        when absent) and updates the tunnel; anything else changes nothing. */
    method OnStartCommand(intent: Option<Intent>, established: bool) returns (mode: StartMode)
      requires Valid()
      modifies this
      ensures Valid()
      ensures var action := if intent.Some? then intent.value.action else None;
        if action == Some(ACTION_STOP) then
          mode == START_NOT_STICKY && stopRequested
          && isBlockingMode == old(isBlockingMode) && blockedPackages == old(blockedPackages)
          && vpnInterface == old(vpnInterface)
        else if action == Some(ACTION_START_OR_UPDATE) then
          var blocking := intent.value.blockingExtra == Some(true);
          var provided := intent.value.blockListExtra;
          mode == START_STICKY && isBlockingMode == blocking
          && blockedPackages == (if provided.Some? then AsSet(provided.value) else {})
          && vpnInterface == (if established then WantedTunnel(blocking, blockedPackages, selfPackage) else None)
          && stopRequested == old(stopRequested)
        else
          mode == START_STICKY && isBlockingMode == old(isBlockingMode) && blockedPackages == old(blockedPackages)
          && vpnInterface == old(vpnInterface) && stopRequested == old(stopRequested)
    {
      var action := if intent.Some? then intent.value.action else None;
      if action == Some(ACTION_STOP) {
        stopRequested := true;
        return START_NOT_STICKY;
      }
      if action == Some(ACTION_START_OR_UPDATE) {
        var blocking := if intent.value.blockingExtra.Some? then intent.value.blockingExtra.value else false;
        isBlockingMode := blocking;
        var providedList := intent.value.blockListExtra;
        blockedPackages :=
          if blocking then (if providedList.Some? then AsSet(providedList.value) else {})
          else if providedList.Some? then AsSet(providedList.value)
          else {};
        UpdateVpn(established);
        return START_STICKY;
      }
      return START_STICKY;
    }

    /** onDestroy, which follows stopSelf: the tunnel is torn down. */
    method OnDestroy()
      requires Valid()
      modifies this
      ensures Valid() && vpnInterface == None && !inputStreamOpen && !drainThreadRunning
      ensures interfacesOpened == old(interfacesOpened)
      ensures isBlockingMode == old(isBlockingMode) && blockedPackages == old(blockedPackages)
      ensures stopRequested == old(stopRequested)
    {
      StopVpn();
    }
  }

  /** The controller's commands as the service sees them (the list arrives
      as an ArrayList extra): blockNow's command opens the global tunnel,
      an allowing command with an empty list closes the tunnel, and one with
      a non-empty list routes exactly that list minus the app itself. */
  lemma CommandTunnels(blockList: set<string>, selfPackage: string)
    ensures WantedTunnel(true, blockList, selfPackage) == Some(GlobalBlock({selfPackage}))
    ensures WantedTunnel(false, {}, selfPackage) == None
    ensures blockList != {} ==> WantedTunnel(false, blockList, selfPackage) == Some(SelectiveBlock(blockList - {selfPackage}))
  {
  }
}
