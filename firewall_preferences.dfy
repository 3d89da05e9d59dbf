/** FirewallPreferencesDataSource: the firewall record in a preferences
    store, a map from key names to typed values. An absent key reads as its
    default; writing "no deadline" or an empty set removes the key. */
module FirewallPreferences {
  import opened Base

  datatype PrefValue =
    | BoolValue(b: bool)
    | LongValue(n: int)
    | StringSetValue(strings: set<string>)

  type Store = map<string, PrefValue>

  const FIREWALL_ENABLED: string := "firewall_enabled"
  const IS_BLOCKING: string := "firewall_is_blocking"
  const REACTIVATE_AT: string := "firewall_reactivate_at"
  const BLOCKED_PACKAGES: string := "firewall_blocked_packages"

  predicate IsFirewallKey(key: string) {
    key == FIREWALL_ENABLED || key == IS_BLOCKING || key == REACTIVATE_AT || key == BLOCKED_PACKAGES
  }

  /** The record the flow emits. */
  datatype FirewallPrefs = FirewallPrefs(
    isEnabled: bool,
    isBlocking: bool,
    reactivateAt: Option<int>,
    blockedPackages: set<string>)

  const DEFAULT_PREFS: FirewallPrefs := FirewallPrefs(false, false, None, {})

  function GetBool(store: Store, key: string): Option<bool> {
    if key in store && store[key].BoolValue? then Some(store[key].b) else None
  }

  function GetLong(store: Store, key: string): Option<int> {
    if key in store && store[key].LongValue? then Some(store[key].n) else None
  }

  function GetStringSet(store: Store, key: string): Option<set<string>> {
    if key in store && store[key].StringSetValue? then Some(store[key].strings) else None
  }

  /** The preferencesFlow mapping: each key read with its default. */
  function Read(store: Store): (p: FirewallPrefs)
    ensures p.isEnabled <==> GetBool(store, FIREWALL_ENABLED) == Some(true)
    ensures p.isBlocking <==> GetBool(store, IS_BLOCKING) == Some(true)
    ensures p.reactivateAt == GetLong(store, REACTIVATE_AT)
    ensures GetStringSet(store, BLOCKED_PACKAGES).None? ==> p.blockedPackages == {}
    ensures GetStringSet(store, BLOCKED_PACKAGES).Some? ==> p.blockedPackages == GetStringSet(store, BLOCKED_PACKAGES).value
  {
    var enabled := GetBool(store, FIREWALL_ENABLED);
    var blocking := GetBool(store, IS_BLOCKING);
    var blocked := GetStringSet(store, BLOCKED_PACKAGES);
    FirewallPrefs(
      if enabled.Some? then enabled.value else false,
      if blocking.Some? then blocking.value else false,
      GetLong(store, REACTIVATE_AT),
      if blocked.Some? then blocked.value else {})
  }

  /** One emission of the flow: a store read that fails with an IOException
      (None) is replaced by the empty store, so every field has its default. */
  function ReadFlow(data: Option<Store>): (p: FirewallPrefs)
    ensures data.None? ==> p == DEFAULT_PREFS
    ensures data.Some? ==> p == Read(data.value)
  {
    Read(if data.Some? then data.value else map[])
  }

  /** The set key after writing `blockedPackages`: removed when empty. */
  function PutBlockedPackages(store: Store, blockedPackages: set<string>): (s: Store)
    ensures Read(s).blockedPackages == blockedPackages
    ensures blockedPackages == {} <==> BLOCKED_PACKAGES !in s
    ensures forall k :: k != BLOCKED_PACKAGES ==> (k in s <==> k in store) && (k in store ==> s[k] == store[k])
  {
    if blockedPackages == {} then store - {BLOCKED_PACKAGES}
    else store[BLOCKED_PACKAGES := StringSetValue(blockedPackages)]
  }

  /** The deadline key after writing `reactivateAt`: removed when None. */
  function PutReactivateAt(store: Store, reactivateAt: Option<int>): (s: Store)
    ensures Read(s).reactivateAt == reactivateAt
    ensures reactivateAt.None? <==> REACTIVATE_AT !in s
    ensures forall k :: k != REACTIVATE_AT ==> (k in s <==> k in store) && (k in store ==> s[k] == store[k])
  {
    if reactivateAt.None? then store - {REACTIVATE_AT} else store[REACTIVATE_AT := LongValue(reactivateAt.value)]
  }

  /** The edit setState performs. A None set argument leaves the set key as
      it was. */
  function PutState(store: Store, isEnabled: bool, isBlocking: bool, reactivateAt: Option<int>,
    blockedPackages: Option<set<string>>): (s: Store)
    ensures Read(s).isEnabled == isEnabled && Read(s).isBlocking == isBlocking
    ensures Read(s).reactivateAt == reactivateAt
    ensures Read(s).blockedPackages == if blockedPackages.Some? then blockedPackages.value else Read(store).blockedPackages
    ensures reactivateAt.None? <==> REACTIVATE_AT !in s
    ensures blockedPackages == Some({}) ==> BLOCKED_PACKAGES !in s
    ensures blockedPackages.None? ==>
      (BLOCKED_PACKAGES in s <==> BLOCKED_PACKAGES in store)
      && (BLOCKED_PACKAGES in store ==> s[BLOCKED_PACKAGES] == store[BLOCKED_PACKAGES])
    ensures forall k :: !IsFirewallKey(k) ==> (k in s <==> k in store) && (k in store ==> s[k] == store[k])
  {
    var withFlags := store[FIREWALL_ENABLED := BoolValue(isEnabled)][IS_BLOCKING := BoolValue(isBlocking)];
    var withDeadline := PutReactivateAt(withFlags, reactivateAt);
    if blockedPackages.Some? then PutBlockedPackages(withDeadline, blockedPackages.value) else withDeadline
  }

  /** The edit setBlocking performs: only the blocking key changes. */
  function PutBlocking(store: Store, blocking: bool): (s: Store)
    ensures Read(s) == Read(store).(isBlocking := blocking)
    ensures forall k :: k != IS_BLOCKING ==> (k in s <==> k in store) && (k in store ==> s[k] == store[k])
  {
    store[IS_BLOCKING := BoolValue(blocking)]
  }

  /** setState with a set argument is idempotent: writing the same record
      twice leaves the store as writing it once. */
  lemma PutStateIdempotent(store: Store, isEnabled: bool, isBlocking: bool, reactivateAt: Option<int>,
    blockedPackages: set<string>)
    ensures var once := PutState(store, isEnabled, isBlocking, reactivateAt, Some(blockedPackages));
      PutState(once, isEnabled, isBlocking, reactivateAt, Some(blockedPackages)) == once
  {
    var once := PutState(store, isEnabled, isBlocking, reactivateAt, Some(blockedPackages));
    var twice := PutState(once, isEnabled, isBlocking, reactivateAt, Some(blockedPackages));
    assert forall k :: k in twice <==> k in once;
    assert forall k :: k in twice ==> twice[k] == once[k];
  }

  class FirewallPreferencesDataSource {
    var data: Store

    constructor (initial: Store)
      ensures data == initial
    {
      data := initial;
    }

    /** preferencesFlow.first() on a store that reads successfully. */
    function Current(): FirewallPrefs
      reads this
    {
      Read(data)
    }

    method SetState(isEnabled: bool, isBlocking: bool, reactivateAt: Option<int>, blockedPackages: Option<set<string>>)
      modifies this
      ensures data == PutState(old(data), isEnabled, isBlocking, reactivateAt, blockedPackages)
    {
      var edited := data[FIREWALL_ENABLED := BoolValue(isEnabled)][IS_BLOCKING := BoolValue(isBlocking)];
      if reactivateAt.None? {
        edited := edited - {REACTIVATE_AT};
      } else {
        edited := edited[REACTIVATE_AT := LongValue(reactivateAt.value)];
      }
      if blockedPackages.Some? {
        if blockedPackages.value == {} {
          edited := edited - {BLOCKED_PACKAGES};
        } else {
          edited := edited[BLOCKED_PACKAGES := StringSetValue(blockedPackages.value)];
        }
      }
      data := edited;
    }

    method SetBlocking(blocking: bool)
      modifies this
      ensures data == PutBlocking(old(data), blocking)
    {
      data := data[IS_BLOCKING := BoolValue(blocking)];
    }

    method SetBlockedPackages(blockedPackages: set<string>)
      modifies this
      ensures data == PutBlockedPackages(old(data), blockedPackages)
    {
      if blockedPackages == {} {
        data := data - {BLOCKED_PACKAGES};
      } else {
        data := data[BLOCKED_PACKAGES := StringSetValue(blockedPackages)];
      }
    }
  }
}
