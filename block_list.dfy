/** The block-list resolver of the three MainViewModel copies: from the RARE
    and DISABLED lists, the currently applied set and the manual-unblock
    cooldown table, the set of packages to block and the swept table. The
    copies differ in their allowlist, their threshold, and whether manual
    mode forgets the cooldowns of DISABLED packages; a `Variant` names those
    differences. */
module BlockList {
  import opened Base
  import opened Local

  /** firewallAllowlist of com/privacyguard/batteryanalyzer. */
  const PRIMARY_ALLOWLIST: set<string> := {"com.google.android.youtube"}

  /** firewallAllowlist of com/privacyguard/privacyguard: YouTube, three
      Sparkasse apps and BK Secure. */
  const PRIVACYGUARD_ALLOWLIST: set<string> := {
    "com.google.android.youtube",
    "com.starfinanz.mobile.android.pushtan",
    "de.starfinanz.smob.android.sfinanzstatus",
    "de.starfinanz.smob.android.sfinanzstatus.tablet",
    "biz.first_financial.bk01_2fa"
  }

  /** The fixed blockThresholdMillis of com/example/batteryanalyzer. */
  const LEGACY_BLOCK_THRESHOLD_MILLIS: int := 4 * DAY_MILLIS

  /** What distinguishes one copy of computeBlockList from another. */
  datatype Variant = Variant(allowlist: set<string>, clearsDisabledCooldowns: bool)

  const PRIMARY: Variant := Variant(PRIMARY_ALLOWLIST, true)
  const PRIVACYGUARD: Variant := Variant(PRIVACYGUARD_ALLOWLIST, true)
  const LEGACY: Variant := Variant({}, false)

  /** The threshold the two newer copies use: blockThresholdMillisRef, at
      least one minute. */
  function EffectiveThreshold(blockThresholdMillis: int): (t: int)
    ensures t >= MINUTE_MILLIS && t >= blockThresholdMillis
    ensures blockThresholdMillis >= MINUTE_MILLIS ==> t == blockThresholdMillis
  {
    AtLeast(blockThresholdMillis, MINUTE_MILLIS)
  }

  predicate IsStale(app: AppUsageInfo, cutoff: int) {
    app.lastUsedAt.None? || app.lastUsedAt.value <= cutoff
  }

  /** rarePackages: RARE apps unused since the cut-off, or never seen used. */
  function StaleRare(rareApps: seq<AppUsageInfo>, cutoff: int): set<string> {
    set a | a in rareApps && IsStale(a, cutoff) :: a.packageName
  }

  /** disabledPackages. */
  function DisabledNames(disabledApps: seq<AppUsageInfo>): set<string> {
    set a | a in disabledApps :: a.packageName
  }

  /** The cooldown table after the iterator pass: entries with an expiry at
      or before `now` are gone. */
  function Swept(cooldown: map<string, int>, now: int): map<string, int> {
    map p | p in cooldown && cooldown[p] > now :: cooldown[p]
  }

  /** The table without the given packages' entries. */
  function Forget(cooldown: map<string, int>, packages: set<string>): map<string, int> {
    map p | p in cooldown && p !in packages :: cooldown[p]
  }

  /** The additions filter: candidates without a pending cooldown. */
  function Admitted(candidates: set<string>, cooldown: map<string, int>, now: int): set<string> {
    set p | p in candidates && (p !in cooldown || cooldown[p] <= now)
  }

  /** The result of computeBlockList and the table it leaves behind. */
  datatype Resolution = Resolution(blockList: set<string>, cooldown: map<string, int>)

  /** computeBlockList as a function of its inputs. `thresholdMillis` is the
      threshold the copy uses (EffectiveThreshold, or the fixed four days). */
  function Resolve(variant: Variant, manual: bool, applied: set<string>, rareApps: seq<AppUsageInfo>,
    disabledApps: seq<AppUsageInfo>, cooldown: map<string, int>, now: int, thresholdMillis: int,
    selfPackage: string): Resolution
  {
    var candidates := StaleRare(rareApps, now - thresholdMillis) + DisabledNames(disabledApps);
    var swept := Swept(cooldown, now);
    if manual then
      var kept := if variant.clearsDisabledCooldowns then Forget(swept, DisabledNames(disabledApps)) else swept;
      Resolution((applied + Admitted(candidates, kept, now)) - {selfPackage} - variant.allowlist, kept)
    else
      Resolution(candidates - {selfPackage} - variant.allowlist, swept)
  }

  /** A package the resolver may pick: a RARE app unused since the cut-off
      (or never seen used), or any DISABLED app. */
  ghost predicate IsCandidate(p: string, rareApps: seq<AppUsageInfo>, disabledApps: seq<AppUsageInfo>, cutoff: int) {
    (exists a :: a in rareApps && a.packageName == p && (a.lastUsedAt.None? || a.lastUsedAt.value <= cutoff))
    || (exists a :: a in disabledApps && a.packageName == p)
  }

  lemma CandidateSet(p: string, rareApps: seq<AppUsageInfo>, disabledApps: seq<AppUsageInfo>, cutoff: int)
    ensures p in StaleRare(rareApps, cutoff) + DisabledNames(disabledApps)
      <==> IsCandidate(p, rareApps, disabledApps, cutoff)
  {
    if p in StaleRare(rareApps, cutoff) {
      var a :| a in rareApps && IsStale(a, cutoff) && a.packageName == p;
    }
    if p in DisabledNames(disabledApps) {
      var a :| a in disabledApps && a.packageName == p;
    }
  }

  /** Neither mode ever blocks the app itself or an allowlisted package. */
  lemma NeverBlocksSelfOrAllowlisted(variant: Variant, manual: bool, applied: set<string>,
    rareApps: seq<AppUsageInfo>, disabledApps: seq<AppUsageInfo>, cooldown: map<string, int>, now: int,
    thresholdMillis: int, selfPackage: string)
    ensures var r := Resolve(variant, manual, applied, rareApps, disabledApps, cooldown, now, thresholdMillis, selfPackage);
      selfPackage !in r.blockList && r.blockList !! variant.allowlist
  {
  }

  /** The privacyguard copy never blocks YouTube, the three Sparkasse apps
      or BK Secure, in either mode. */
  lemma PrivacyGuardSparesAllowlist(manual: bool, applied: set<string>, rareApps: seq<AppUsageInfo>,
    disabledApps: seq<AppUsageInfo>, cooldown: map<string, int>, now: int, blockThresholdMillis: int,
    selfPackage: string)
    ensures var r := Resolve(PRIVACYGUARD, manual, applied, rareApps, disabledApps, cooldown, now,
        EffectiveThreshold(blockThresholdMillis), selfPackage);
      selfPackage !in r.blockList
      && "com.google.android.youtube" !in r.blockList
      && "com.starfinanz.mobile.android.pushtan" !in r.blockList
      && "de.starfinanz.smob.android.sfinanzstatus" !in r.blockList
      && "de.starfinanz.smob.android.sfinanzstatus.tablet" !in r.blockList
      && "biz.first_financial.bk01_2fa" !in r.blockList
  {
    NeverBlocksSelfOrAllowlisted(PRIVACYGUARD, manual, applied, rareApps, disabledApps, cooldown, now,
      EffectiveThreshold(blockThresholdMillis), selfPackage);
  }

  /** Automatic mode blocks exactly the candidates that are neither the app
      itself nor allowlisted, whatever the applied set. */
  lemma AutomaticIsExact(variant: Variant, applied: set<string>, rareApps: seq<AppUsageInfo>,
    disabledApps: seq<AppUsageInfo>, cooldown: map<string, int>, now: int, thresholdMillis: int,
    selfPackage: string, p: string)
    ensures p in Resolve(variant, false, applied, rareApps, disabledApps, cooldown, now, thresholdMillis, selfPackage).blockList
      <==> p != selfPackage && p !in variant.allowlist && IsCandidate(p, rareApps, disabledApps, now - thresholdMillis)
  {
    CandidateSet(p, rareApps, disabledApps, now - thresholdMillis);
  }

  lemma AutomaticIgnoresApplied(variant: Variant, applied1: set<string>, applied2: set<string>,
    rareApps: seq<AppUsageInfo>, disabledApps: seq<AppUsageInfo>, cooldown: map<string, int>, now: int,
    thresholdMillis: int, selfPackage: string)
    ensures Resolve(variant, false, applied1, rareApps, disabledApps, cooldown, now, thresholdMillis, selfPackage)
      == Resolve(variant, false, applied2, rareApps, disabledApps, cooldown, now, thresholdMillis, selfPackage)
  {
  }

  /** The sweep: every surviving entry kept its value and expires strictly
      after `now`; an entry that expires after `now` survives unless manual
      mode forgets it as the cooldown of a DISABLED package. */
  lemma SweepKeepsOnlyPending(variant: Variant, manual: bool, applied: set<string>,
    rareApps: seq<AppUsageInfo>, disabledApps: seq<AppUsageInfo>, cooldown: map<string, int>, now: int,
    thresholdMillis: int, selfPackage: string, p: string)
    ensures var r := Resolve(variant, manual, applied, rareApps, disabledApps, cooldown, now, thresholdMillis, selfPackage);
      p in r.cooldown <==> (p in cooldown && cooldown[p] > now
        && !(manual && variant.clearsDisabledCooldowns && exists a :: a in disabledApps && a.packageName == p))
    ensures var r := Resolve(variant, manual, applied, rareApps, disabledApps, cooldown, now, thresholdMillis, selfPackage);
      p in r.cooldown ==> r.cooldown[p] == cooldown[p] && r.cooldown[p] > now
  {
    if exists a :: a in disabledApps && a.packageName == p {
      var a :| a in disabledApps && a.packageName == p;
      assert p in DisabledNames(disabledApps);
    }
  }

  /** An entry expiring exactly at `now` is removed: the test is `<=`. */
  lemma ExpiryAtNowIsSwept(variant: Variant, manual: bool, applied: set<string>,
    rareApps: seq<AppUsageInfo>, disabledApps: seq<AppUsageInfo>, cooldown: map<string, int>, now: int,
    thresholdMillis: int, selfPackage: string, p: string)
    requires p in cooldown && cooldown[p] == now
    ensures p !in Resolve(variant, manual, applied, rareApps, disabledApps, cooldown, now, thresholdMillis, selfPackage).cooldown
  {
  }

  /** Manual mode only adds: the applied set (minus the app itself and the
      allowlist) stays, and nothing that is neither applied nor a candidate
      comes in. */
  lemma ManualIsSticky(variant: Variant, applied: set<string>, rareApps: seq<AppUsageInfo>,
    disabledApps: seq<AppUsageInfo>, cooldown: map<string, int>, now: int, thresholdMillis: int,
    selfPackage: string)
    ensures var r := Resolve(variant, true, applied, rareApps, disabledApps, cooldown, now, thresholdMillis, selfPackage);
      applied - {selfPackage} - variant.allowlist <= r.blockList
      && r.blockList <= applied + StaleRare(rareApps, now - thresholdMillis) + DisabledNames(disabledApps)
  {
  }

  /** In the newer copies a DISABLED package is blocked in manual mode
      whatever its cooldown, unless it is the app itself or allowlisted. */
  lemma DisabledOverridesCooldown(variant: Variant, applied: set<string>, rareApps: seq<AppUsageInfo>,
    disabledApps: seq<AppUsageInfo>, cooldown: map<string, int>, now: int, thresholdMillis: int,
    selfPackage: string, a: AppUsageInfo)
    requires variant.clearsDisabledCooldowns
    requires a in disabledApps && a.packageName != selfPackage && a.packageName !in variant.allowlist
    ensures a.packageName in Resolve(variant, true, applied, rareApps, disabledApps, cooldown, now, thresholdMillis, selfPackage).blockList
  {
    assert a.packageName in DisabledNames(disabledApps);
  }

  /** A candidate still cooling down is blocked in manual mode exactly when
      it was applied already; in the newer copies this concerns RARE
      candidates only, in the legacy copy DISABLED ones too. */
  lemma CooldownHoldsBack(variant: Variant, applied: set<string>, rareApps: seq<AppUsageInfo>,
    disabledApps: seq<AppUsageInfo>, cooldown: map<string, int>, now: int, thresholdMillis: int,
    selfPackage: string, p: string)
    requires p in cooldown && cooldown[p] > now
    requires variant.clearsDisabledCooldowns ==> forall a :: a in disabledApps ==> a.packageName != p
    ensures p in Resolve(variant, true, applied, rareApps, disabledApps, cooldown, now, thresholdMillis, selfPackage).blockList
      <==> p in applied && p != selfPackage && p !in variant.allowlist
  {
    var swept := Swept(cooldown, now);
    assert p in swept && swept[p] > now;
    if variant.clearsDisabledCooldowns {
      assert p !in DisabledNames(disabledApps);
    }
  }

  /** The legacy copy, for every input: in manual mode a DISABLED package
      that is cooling down and not applied stays unblocked, and its cooldown
      entry survives — the opposite of DisabledOverridesCooldown. */
  lemma LegacyCooldownBeatsDisabled(applied: set<string>, rareApps: seq<AppUsageInfo>,
    disabledApps: seq<AppUsageInfo>, cooldown: map<string, int>, now: int, thresholdMillis: int,
    selfPackage: string, a: AppUsageInfo)
    requires a in disabledApps && a.packageName in cooldown && cooldown[a.packageName] > now
    requires a.packageName !in applied
    ensures var r := Resolve(LEGACY, true, applied, rareApps, disabledApps, cooldown, now, thresholdMillis, selfPackage);
      a.packageName !in r.blockList && a.packageName in r.cooldown
  {
    CooldownHoldsBack(LEGACY, applied, rareApps, disabledApps, cooldown, now, thresholdMillis, selfPackage, a.packageName);
    SweepKeepsOnlyPending(LEGACY, true, applied, rareApps, disabledApps, cooldown, now, thresholdMillis, selfPackage,
      a.packageName);
  }

  /** The iterator pass over the cooldown entries: remove when expired. */
  method SweepExpired(cooldown: map<string, int>, now: int) returns (swept: map<string, int>)
    ensures swept == Swept(cooldown, now)
  {
    swept := cooldown;
    var keys := cooldown.Keys;
    while keys != {}
      invariant keys <= cooldown.Keys
      invariant forall p :: p in swept <==> p in cooldown && (p in keys || cooldown[p] > now)
      invariant forall p :: p in swept ==> swept[p] == cooldown[p]
      decreases |keys|
    {
      var key :| key in keys;
      if cooldown[key] <= now {
        swept := swept - {key};
      }
      keys := keys - {key};
    }
    assert swept == Swept(cooldown, now);
  }

  /** disabledPackages.forEach { manualUnblockCooldown.remove(it) }. */
  method ForgetDisabled(cooldown: map<string, int>, disabledApps: seq<AppUsageInfo>) returns (kept: map<string, int>)
    ensures kept == Forget(cooldown, DisabledNames(disabledApps))
  {
    kept := cooldown;
    for i := 0 to |disabledApps|
      invariant forall p :: p in kept <==> p in cooldown && p !in DisabledNames(disabledApps[..i])
      invariant forall p :: p in kept ==> kept[p] == cooldown[p]
    {
      assert DisabledNames(disabledApps[..i + 1]) == DisabledNames(disabledApps[..i]) + {disabledApps[i].packageName};
      kept := kept - {disabledApps[i].packageName};
    }
    assert disabledApps[..|disabledApps|] == disabledApps;
    assert kept == Forget(cooldown, DisabledNames(disabledApps));
  }
}
