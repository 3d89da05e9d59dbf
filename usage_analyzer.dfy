/** UsageAnalyzer.evaluateUsage: one pass over the installed user apps that
    resolves each app's last use, classifies it (RECENT / RARE / DISABLED) and
    decides whether a disable recommendation or a reminder is due. The package
    manager and the usage-events query are inputs: their answers (or their
    failure, as None) are passed in. */
module UsageAnalyzer {
  import opened Base
  import opened Local
  import UsagePolicy


  datatype EventType = MoveToForeground | ActivityResumed | OtherEvent

  datatype UsageEvent = UsageEvent(eventType: EventType, packageName: Option<string>, timeStamp: int)

  /** firstInstallTime and lastUpdateTime from getPackageInfo. */
  datatype PackageTimes = PackageTimes(firstInstallTime: int, lastUpdateTime: int)

  /** What the package manager reports about one installed application:
      `appLabel` is None when getApplicationLabel throws, `packageTimes` is None
      when getPackageInfo throws, `osDisabled` is the enabled-setting check
      (false when that query throws). */
  datatype InstalledApp = InstalledApp(
    packageName: string,
    appLabel: Option<string>,
    isSystem: bool,
    osDisabled: bool,
    packageTimes: Option<PackageTimes>)

  datatype UsageEvaluation = UsageEvaluation(
    updates: seq<TrackedAppEntity>,
    packagesToRemove: set<string>,
    appsToNotify: seq<TrackedAppEntity>,
    appsForDisableRecommendation: seq<TrackedAppEntity>)

  /** The outcome for one app: the row to write and the notifications due. */
  datatype AppDecision = AppDecision(
    entity: TrackedAppEntity,
    recommendation: Option<TrackedAppEntity>,
    reminder: Option<TrackedAppEntity>)

  // ---------------------------------------------------------------------------
  // Installed-app filter

  /** queryUserInstalledApps: a failed query gives no apps; the app itself and
      system apps are dropped; the order is kept. */
  function UserInstalledApps(query: Option<seq<InstalledApp>>, selfPackage: string): (apps: seq<InstalledApp>)
    ensures query.None? ==> apps == []
    ensures forall a :: a in apps ==> a.packageName != selfPackage && !a.isSystem
    ensures query.Some? ==> forall a :: a in query.value && a.packageName != selfPackage && !a.isSystem ==> a in apps
    ensures query.Some? ==> forall a :: a in apps ==> a in query.value
  {
    if query.None? then [] else FilterUserApps(query.value, selfPackage)
  }

  /** The filter of queryUserInstalledApps: the user apps of `all`, in the
      order of `all`. A one-app list is kept or dropped whole, and
      FilterUserAppsAppend shows the filter works piecewise, so the order is
      the order of the input. */
  function FilterUserApps(all: seq<InstalledApp>, selfPackage: string): (apps: seq<InstalledApp>)
    ensures forall a :: a in apps <==> a in all && a.packageName != selfPackage && !a.isSystem
    ensures |apps| <= |all|
    ensures |all| == 1 ==>
      apps == (if all[0].packageName != selfPackage && !all[0].isSystem then all else [])
  {
    if all == [] then []
    else
      var rest := FilterUserApps(all[1..], selfPackage);
      if all[0].packageName != selfPackage && !all[0].isSystem then [all[0]] + rest else rest
  }

  /** Filtering a concatenation filters each part and keeps them in order. */
  lemma {:induction false} FilterUserAppsAppend(a: seq<InstalledApp>, b: seq<InstalledApp>, selfPackage: string)
    ensures FilterUserApps(a + b, selfPackage) == FilterUserApps(a, selfPackage) + FilterUserApps(b, selfPackage)
    decreases |a|
  {
    if a != [] {
      assert (a + b)[1..] == a[1..] + b;
      FilterUserAppsAppend(a[1..], b, selfPackage);
    } else {
      assert a + b == b;
    }
  }

  // ---------------------------------------------------------------------------
  // Last-used timestamps from usage events

  predicate IsWhitespace(c: char) {
    c == ' ' || c == '\t' || c == '\n' || c == '\r'
  }

  /** Kotlin's isBlank: empty or whitespace only. */
  predicate IsBlank(s: string) {
    forall i :: 0 <= i < |s| ==> IsWhitespace(s[i])
  }

  /** A foreground event of a named, non-blank package other than the app itself. */
  predicate CountsFor(e: UsageEvent, selfPackage: string, pkg: string) {
    (e.eventType == MoveToForeground || e.eventType == ActivityResumed)
    && e.packageName == Some(pkg) && pkg != selfPackage && !IsBlank(pkg)
  }

  /** `lastUsed` is the latest positive foreground timestamp per package of
      `events`: a package is present iff it has a counted event with a
      positive time, its value is the time of one of its counted events, and
      no counted event is later. A failed query (None) gives the empty map. */
  ghost predicate LastUsedFrom(events: Option<seq<UsageEvent>>, selfPackage: string, lastUsed: map<string, int>) {
    if events.None? then lastUsed == map[]
    else
      (forall p :: p in lastUsed <==>
        exists i :: 0 <= i < |events.value| && CountsFor(events.value[i], selfPackage, p) && events.value[i].timeStamp > 0)
      && (forall p :: p in lastUsed ==>
        exists i :: 0 <= i < |events.value| && CountsFor(events.value[i], selfPackage, p)
          && events.value[i].timeStamp == lastUsed[p])
      && (forall p, i :: 0 <= i < |events.value| && CountsFor(events.value[i], selfPackage, p) ==>
        events.value[i].timeStamp <= (if p in lastUsed then lastUsed[p] else 0))
  }

  /** The events determine the last-used map: two maps that both satisfy
      LastUsedFrom are equal, and every timestamp in it is positive. */
  lemma LastUsedFromUnique(events: Option<seq<UsageEvent>>, selfPackage: string, m1: map<string, int>, m2: map<string, int>)
    requires LastUsedFrom(events, selfPackage, m1) && LastUsedFrom(events, selfPackage, m2)
    ensures m1 == m2
    ensures forall p :: p in m1 ==> m1[p] > 0
  {
    if events.Some? {
      var es := events.value;
      forall p | p in m1
        ensures p in m2 && m1[p] == m2[p] && m1[p] > 0
      {
        var i :| 0 <= i < |es| && CountsFor(es[i], selfPackage, p) && es[i].timeStamp == m1[p];
        var j :| 0 <= j < |es| && CountsFor(es[j], selfPackage, p) && es[j].timeStamp == m2[p];
        var k :| 0 <= k < |es| && CountsFor(es[k], selfPackage, p) && es[k].timeStamp > 0;
        assert es[j].timeStamp <= m1[p] && es[i].timeStamp <= m2[p] && es[k].timeStamp <= m1[p];
      }
      assert m1.Keys == m2.Keys;
    }
  }

  /** queryLastUsedTimestamps: the latest positive foreground timestamp per
      package. A failed query gives the empty map. */
  method QueryLastUsedTimestamps(events: Option<seq<UsageEvent>>, selfPackage: string)
    returns (lastUsed: map<string, int>)
    ensures LastUsedFrom(events, selfPackage, lastUsed)
  {
    lastUsed := map[];
    if events.None? {
      return;
    }
    var es := events.value;
    var i := 0;
    while i < |es|
      invariant 0 <= i <= |es|
      invariant forall p :: p in lastUsed <==>
        exists j :: 0 <= j < i && CountsFor(es[j], selfPackage, p) && es[j].timeStamp > 0
      invariant forall p :: p in lastUsed ==>
        exists j :: 0 <= j < i && CountsFor(es[j], selfPackage, p) && es[j].timeStamp == lastUsed[p]
      invariant forall p, j :: 0 <= j < i && CountsFor(es[j], selfPackage, p) ==>
        es[j].timeStamp <= (if p in lastUsed then lastUsed[p] else 0)
    {
      var e := es[i];
      if (e.eventType == MoveToForeground || e.eventType == ActivityResumed) && e.packageName.Some? {
        var pkg := e.packageName.value;
        if pkg != selfPackage && !IsBlank(pkg) {
          var previous := if pkg in lastUsed then lastUsed[pkg] else 0;
          if e.timeStamp > previous {
            lastUsed := lastUsed[pkg := e.timeStamp];
          }
        }
      }
      i := i + 1;
    }
  }

  // ---------------------------------------------------------------------------
  // Per-app decision

  /** resolveLastUsed: the observed timestamp, else the stored lastUsedAt when
      positive, else the later of the install and update times, else unknown. */
  function ResolveLastUsed(
    pkg: string, lastUsedMap: map<string, int>,
    existing: Option<TrackedAppEntity>, packageTimes: Option<PackageTimes>): (r: Option<int>)
    ensures pkg in lastUsedMap ==> r == Some(lastUsedMap[pkg])
    ensures pkg !in lastUsedMap && existing.Some? && existing.value.lastUsedAt > 0 ==>
      r == Some(existing.value.lastUsedAt)
    ensures r.None? <==>
      pkg !in lastUsedMap && !(existing.Some? && existing.value.lastUsedAt > 0) && packageTimes.None?
    ensures pkg !in lastUsedMap && !(existing.Some? && existing.value.lastUsedAt > 0) && packageTimes.Some? ==>
      r.Some? && r.value >= packageTimes.value.firstInstallTime && r.value >= packageTimes.value.lastUpdateTime
      && (r.value == packageTimes.value.firstInstallTime || r.value == packageTimes.value.lastUpdateTime)
  {
    if pkg in lastUsedMap then Some(lastUsedMap[pkg])
    else if existing.Some? && existing.value.lastUsedAt > 0 then Some(existing.value.lastUsedAt)
    else if packageTimes.Some? then
      var t := packageTimes.value;
      Some(if t.firstInstallTime >= t.lastUpdateTime then t.firstInstallTime else t.lastUpdateTime)
    else None
  }

  function OrZero(t: Option<int>): int {
    if t.Some? then t.value else 0
  }

  /** The status decision: DISABLED iff OS-disabled, else RECENT iff the last
      use is known and within the recent threshold, else RARE. */
  function ResolveStatus(now: int, lastUsed: Option<int>, isDisabled: bool, recentThreshold: int): (s: AppUsageStatus)
    ensures s == DISABLED <==> isDisabled
    ensures s == RECENT <==> !isDisabled && lastUsed.Some? && now - lastUsed.value <= recentThreshold
  {
    if isDisabled then DISABLED
    else if lastUsed.Some? && now - lastUsed.value <= recentThreshold then RECENT
    else RARE
  }

  /** Whether a stored notification time is absent or earlier than a crossing. */
  predicate NotNotifiedSince(notifiedAt: Option<int>, crossing: int) {
    notifiedAt.None? || notifiedAt.value < crossing
  }

  /** The body of evaluateUsage's loop for one app. `storedNotifiedAt` is the
      notifiedAt of the app's existing row, if any. */
  function EvaluateApp(
    now: int, pkg: string, appLabel: string, lastUsed: Option<int>, isDisabled: bool,
    storedNotifiedAt: Option<int>, th: UsagePolicy.Thresholds): (d: AppDecision)
    // the row written
    ensures d.entity.packageName == pkg && d.entity.appLabel == appLabel
    ensures d.entity.lastUsedAt == OrZero(lastUsed) && d.entity.isDisabled == isDisabled
    ensures d.entity.status == ResolveStatus(now, lastUsed, isDisabled, th.recent)
    ensures d.entity.isDisabled ==> d.entity.status == DISABLED
    // the recommendation
    ensures d.recommendation.Some? <==>
      !isDisabled && lastUsed.Some? && now >= lastUsed.value + th.disable
      && NotNotifiedSince(storedNotifiedAt, lastUsed.value + th.disable)
    ensures d.recommendation.Some? ==>
      d.recommendation.value == d.entity.(status := RARE)
      && d.entity.notifiedAt == Some(now) && d.entity.scheduledDisableAt == Some(lastUsed.value + th.disable)
    // the reminder
    ensures d.reminder.Some? <==>
      d.recommendation.None? && !isDisabled && lastUsed.Some? && now >= lastUsed.value + th.warning
      && NotNotifiedSince(storedNotifiedAt, lastUsed.value + th.warning) && now < lastUsed.value + th.disable
    ensures d.reminder.Some? ==>
      d.reminder.value == d.entity && d.entity.notifiedAt == Some(now)
      && d.entity.scheduledDisableAt == Some(lastUsed.value + th.disable)
    ensures !(d.recommendation.Some? && d.reminder.Some?)
    // disabled apps and unknown last use
    ensures isDisabled ==> d.entity.scheduledDisableAt == None && d.entity.notifiedAt == None
    ensures lastUsed.None? ==>
      d.entity.scheduledDisableAt == None && d.entity.notifiedAt == None && d.entity.lastUsedAt == 0
      && d.recommendation.None? && d.reminder.None?
    // nothing fires: the stored notification time is kept
    ensures !isDisabled && lastUsed.Some? && d.recommendation.None? && d.reminder.None? ==>
      d.entity.notifiedAt == storedNotifiedAt && d.entity.scheduledDisableAt == Some(lastUsed.value + th.disable)
  {
    var notifyAt := if lastUsed.Some? then Some(lastUsed.value + th.warning) else None;
    var disableAt := if lastUsed.Some? then Some(lastUsed.value + th.disable) else None;
    var scheduledDisableAt := if isDisabled then None else disableAt;
    var notifiedAt := if isDisabled then None else storedNotifiedAt;
    var shouldRecommendDisable :=
      !isDisabled && disableAt.Some? && now >= disableAt.value
      && (notifiedAt.None? || notifiedAt.value < disableAt.value);
    var resolvedStatus := ResolveStatus(now, lastUsed, isDisabled, th.recent);
    if shouldRecommendDisable then
      var rec := TrackedAppEntity(pkg, appLabel, OrZero(lastUsed), RARE, false, disableAt, Some(now));
      var entity := TrackedAppEntity(pkg, appLabel, OrZero(lastUsed), resolvedStatus, isDisabled, disableAt, Some(now));
      AppDecision(entity, Some(rec), None)
    else if !isDisabled && notifyAt.Some? && now >= notifyAt.value
      && (notifiedAt.None? || notifiedAt.value < notifyAt.value)
      && (disableAt.None? || now < disableAt.value)
    then
      var reminder := TrackedAppEntity(pkg, appLabel, OrZero(lastUsed), resolvedStatus, false, disableAt, Some(now));
      var entity := TrackedAppEntity(pkg, appLabel, OrZero(lastUsed), resolvedStatus, isDisabled, scheduledDisableAt, Some(now));
      AppDecision(entity, None, Some(reminder))
    else
      var entity := TrackedAppEntity(pkg, appLabel, OrZero(lastUsed), resolvedStatus, isDisabled, scheduledDisableAt,
        if disableAt.None? then None else notifiedAt);
      AppDecision(entity, None, None)
  }

  /** Notify-once: re-evaluating with the row a recommendation wrote, at any
      later time, with the same last use and thresholds, never recommends
      again; the same holds for a reminder. */
  lemma NotifyOnce(
    now: int, later: int, pkg: string, appLabel: string, lastUsed: Option<int>, isDisabled: bool,
    storedNotifiedAt: Option<int>, th: UsagePolicy.Thresholds)
    requires later >= now
    ensures var d := EvaluateApp(now, pkg, appLabel, lastUsed, isDisabled, storedNotifiedAt, th);
      var again := EvaluateApp(later, pkg, appLabel, lastUsed, isDisabled, d.entity.notifiedAt, th);
      (d.recommendation.Some? ==> again.recommendation.None? && again.reminder.None?)
      && (d.reminder.Some? ==> again.reminder.None?)
  {
  }

  // ---------------------------------------------------------------------------
  // The evaluation pass

  function LabelOf(app: InstalledApp): string {
    if app.appLabel.Some? then app.appLabel.value else app.packageName
  }

  function StoredRow(existing: map<string, TrackedAppEntity>, pkg: string): Option<TrackedAppEntity> {
    if pkg in existing then Some(existing[pkg]) else None
  }

  function StoredNotifiedAt(existing: map<string, TrackedAppEntity>, pkg: string): Option<int> {
    if pkg in existing then existing[pkg].notifiedAt else None
  }

  function Decide(
    now: int, existing: map<string, TrackedAppEntity>, lastUsedMap: map<string, int>,
    th: UsagePolicy.Thresholds, app: InstalledApp): AppDecision
  {
    EvaluateApp(now, app.packageName, LabelOf(app),
      ResolveLastUsed(app.packageName, lastUsedMap, StoredRow(existing, app.packageName), app.packageTimes),
      app.osDisabled, StoredNotifiedAt(existing, app.packageName), th)
  }

  function PackageNames(apps: seq<InstalledApp>): set<string> {
    set a | a in apps :: a.packageName
  }

  /** The effect of deciding one app on the accumulated result. */
  function Step(prev: UsageEvaluation, packageName: string, d: AppDecision): UsageEvaluation {
    UsageEvaluation(
      prev.updates + [d.entity],
      prev.packagesToRemove - {packageName},
      prev.appsToNotify + (if d.recommendation.None? && d.reminder.Some? then [d.reminder.value] else []),
      prev.appsForDisableRecommendation + (if d.recommendation.Some? then [d.recommendation.value] else []))
  }

  /** The result evaluateUsage accumulates over `apps`, one app at a time:
      the specification its loop is proved against. */
  function Evaluate(
    now: int, existing: map<string, TrackedAppEntity>, lastUsedMap: map<string, int>,
    th: UsagePolicy.Thresholds, apps: seq<InstalledApp>): UsageEvaluation
    decreases |apps|
  {
    if apps == [] then UsageEvaluation([], existing.Keys, [], [])
    else
      var app := apps[|apps| - 1];
      Step(Evaluate(now, existing, lastUsedMap, th, apps[..|apps| - 1]), app.packageName,
        Decide(now, existing, lastUsedMap, th, app))
  }

  lemma EvaluateExtend(
    now: int, existing: map<string, TrackedAppEntity>, lastUsedMap: map<string, int>,
    th: UsagePolicy.Thresholds, apps: seq<InstalledApp>, i: int)
    requires 0 <= i < |apps|
    ensures Evaluate(now, existing, lastUsedMap, th, apps[..i + 1])
      == Step(Evaluate(now, existing, lastUsedMap, th, apps[..i]), apps[i].packageName,
           Decide(now, existing, lastUsedMap, th, apps[i]))
  {
    assert apps[..i + 1][..i] == apps[..i];
  }

  /** evaluateUsage: the installed user apps and the last-used map are
      queried, then every app is decided in installation-list order. */
  method EvaluateUsage(
    now: int, existing: map<string, TrackedAppEntity>, installedQuery: Option<seq<InstalledApp>>,
    events: Option<seq<UsageEvent>>, selfPackage: string, th: UsagePolicy.Thresholds)
    returns (ev: UsageEvaluation)
    ensures exists lastUsedMap: map<string, int> ::
      LastUsedFrom(events, selfPackage, lastUsedMap)
      && ev == Evaluate(now, existing, lastUsedMap, th, UserInstalledApps(installedQuery, selfPackage))
  {
    var installedApps := UserInstalledApps(installedQuery, selfPackage);
    var lastUsedMap := QueryLastUsedTimestamps(events, selfPackage);

    ev := UsageEvaluation([], existing.Keys, [], []);
    var i := 0;
    while i < |installedApps|
      invariant 0 <= i <= |installedApps|
      invariant ev == Evaluate(now, existing, lastUsedMap, th, installedApps[..i])
    {
      var appInfo := installedApps[i];
      // shouldSkip admits every package (UsagePolicy.ShouldSkip), so the
      // loop's skip branch is never taken and is not written here.
      var d := Decide(now, existing, lastUsedMap, th, appInfo);
      EvaluateExtend(now, existing, lastUsedMap, th, installedApps, i);
      ev := Record(ev, appInfo.packageName, d);
      i := i + 1;
    }
    assert installedApps[..i] == installedApps;
  }

  /** Records one app's decision: its row is appended, its package leaves the
      removal set, and a recommendation, or else a reminder, is listed. */
  method Record(acc: UsageEvaluation, packageName: string, d: AppDecision) returns (next: UsageEvaluation)
    ensures next == Step(acc, packageName, d)
  {
    var updates := acc.updates + [d.entity];
    var packagesToRemove := acc.packagesToRemove - {packageName};
    var appsToNotify := acc.appsToNotify;
    var appsForDisableRecommendation := acc.appsForDisableRecommendation;
    if d.recommendation.Some? {
      appsForDisableRecommendation := appsForDisableRecommendation + [d.recommendation.value];
    } else if d.reminder.Some? {
      appsToNotify := appsToNotify + [d.reminder.value];
    }
    next := UsageEvaluation(updates, packagesToRemove, appsToNotify, appsForDisableRecommendation);
  }

  /** One row per app, in order, each the app's decision, and the removal
      set is the stored packages that are no longer installed. */
  lemma {:induction false} EvaluateRows(
    now: int, existing: map<string, TrackedAppEntity>, lastUsedMap: map<string, int>,
    th: UsagePolicy.Thresholds, apps: seq<InstalledApp>)
    ensures var ev := Evaluate(now, existing, lastUsedMap, th, apps);
      |ev.updates| == |apps|
      && (forall i :: 0 <= i < |apps| ==> ev.updates[i] == Decide(now, existing, lastUsedMap, th, apps[i]).entity)
      && ev.packagesToRemove == existing.Keys - PackageNames(apps)
    decreases |apps|
  {
    if apps != [] {
      var front := apps[..|apps| - 1];
      EvaluateRows(now, existing, lastUsedMap, th, front);
      assert apps == front + [apps[|apps| - 1]];
    }
  }

  /** The recommendation list holds exactly the decisions' recommendations. */
  lemma {:induction false} EvaluateRecommendations(
    now: int, existing: map<string, TrackedAppEntity>, lastUsedMap: map<string, int>,
    th: UsagePolicy.Thresholds, apps: seq<InstalledApp>)
    ensures var ev := Evaluate(now, existing, lastUsedMap, th, apps);
      forall e :: e in ev.appsForDisableRecommendation <==>
        exists i :: 0 <= i < |apps| && Decide(now, existing, lastUsedMap, th, apps[i]).recommendation == Some(e)
    decreases |apps|
  {
    if apps != [] {
      var front := apps[..|apps| - 1];
      EvaluateRecommendations(now, existing, lastUsedMap, th, front);
      assert forall i :: 0 <= i < |front| ==> front[i] == apps[i];
    }
  }

  /** The reminder list holds exactly the decisions' reminders. */
  lemma {:induction false} EvaluateReminders(
    now: int, existing: map<string, TrackedAppEntity>, lastUsedMap: map<string, int>,
    th: UsagePolicy.Thresholds, apps: seq<InstalledApp>)
    ensures var ev := Evaluate(now, existing, lastUsedMap, th, apps);
      forall e :: e in ev.appsToNotify <==>
        exists i :: 0 <= i < |apps| && Decide(now, existing, lastUsedMap, th, apps[i]).reminder == Some(e)
    decreases |apps|
  {
    if apps != [] {
      var front := apps[..|apps| - 1];
      EvaluateReminders(now, existing, lastUsedMap, th, front);
      assert forall i :: 0 <= i < |front| ==> front[i] == apps[i];
    }
  }

  /** Every row written describes its app: same package, and an OS-disabled
      app is stored as DISABLED. */
  lemma RowsDescribeApps(
    now: int, existing: map<string, TrackedAppEntity>, lastUsedMap: map<string, int>,
    th: UsagePolicy.Thresholds, apps: seq<InstalledApp>)
    ensures var ev := Evaluate(now, existing, lastUsedMap, th, apps);
      |ev.updates| == |apps|
      && (forall i :: 0 <= i < |apps| ==>
        ev.updates[i].packageName == apps[i].packageName
        && ev.updates[i].isDisabled == apps[i].osDisabled
        && (apps[i].osDisabled <==> ev.updates[i].status == DISABLED))
  {
    EvaluateRows(now, existing, lastUsedMap, th, apps);
  }

  /** No app is in both notification lists of one evaluation (installed
      package names are distinct). */
  lemma NoAppInBothLists(
    now: int, existing: map<string, TrackedAppEntity>, lastUsedMap: map<string, int>,
    th: UsagePolicy.Thresholds, apps: seq<InstalledApp>)
    requires forall i, j :: 0 <= i < j < |apps| ==> apps[i].packageName != apps[j].packageName
    ensures var ev := Evaluate(now, existing, lastUsedMap, th, apps);
      forall r, m :: r in ev.appsForDisableRecommendation && m in ev.appsToNotify ==> r.packageName != m.packageName
  {
    var ev := Evaluate(now, existing, lastUsedMap, th, apps);
    EvaluateRecommendations(now, existing, lastUsedMap, th, apps);
    EvaluateReminders(now, existing, lastUsedMap, th, apps);
    forall r, m | r in ev.appsForDisableRecommendation && m in ev.appsToNotify
      ensures r.packageName != m.packageName
    {
      var i :| 0 <= i < |apps| && Decide(now, existing, lastUsedMap, th, apps[i]).recommendation == Some(r);
      var j :| 0 <= j < |apps| && Decide(now, existing, lastUsedMap, th, apps[j]).reminder == Some(m);
      assert r.packageName == apps[i].packageName;
      assert m.packageName == apps[j].packageName;
      assert i != j;
    }
  }
}
