/** UsageRepository over the tracked_apps table. The table is a map keyed by
    package name (the primary key); `calls` records the DAO calls made, so
    "no call for an empty list" can be stated. */
module UsageRepository {
  import opened Base
  import opened Local
  import UsagePolicy
  import UsageAnalyzer

  datatype DaoCall =
    | UpsertAll(apps: seq<TrackedAppEntity>)
    | DeleteAll(packageNames: set<string>)

  /** toDomain: a stored lastUsedAt that is not positive means "never seen". */
  function ToDomain(e: TrackedAppEntity): (info: AppUsageInfo)
    ensures info.packageName == e.packageName && info.appLabel == e.appLabel
    ensures info.status == e.status && info.isDisabled == e.isDisabled
    ensures info.scheduledDisableAt == e.scheduledDisableAt && info.notifiedAt == e.notifiedAt
    ensures info.lastUsedAt.Some? <==> e.lastUsedAt > 0
    ensures info.lastUsedAt.Some? ==> info.lastUsedAt.value == e.lastUsedAt
  {
    AppUsageInfo(e.packageName, e.appLabel, if e.lastUsedAt > 0 then Some(e.lastUsedAt) else None,
      e.status, e.isDisabled, e.scheduledDisableAt, e.notifiedAt)
  }

  /** The evaluation stores an unknown last use as 0, which reads back as
      unknown; a known positive one reads back unchanged. */
  lemma StoredLastUsedReadsBack(now: int, existing: map<string, TrackedAppEntity>,
    lastUsedMap: map<string, int>, th: UsagePolicy.Thresholds, app: UsageAnalyzer.InstalledApp)
    ensures var lastUsed := UsageAnalyzer.ResolveLastUsed(app.packageName, lastUsedMap,
        UsageAnalyzer.StoredRow(existing, app.packageName), app.packageTimes);
      var info := ToDomain(UsageAnalyzer.Decide(now, existing, lastUsedMap, th, app).entity);
      (lastUsed.None? ==> info.lastUsedAt.None?)
      && (lastUsed.Some? && lastUsed.value > 0 ==> info.lastUsedAt == lastUsed)
  {
  }

  /** upsertAll with REPLACE: the entities are written in list order, so a
      later entity with the same key wins. */
  function Upserted(table: map<string, TrackedAppEntity>, apps: seq<TrackedAppEntity>): map<string, TrackedAppEntity>
    decreases |apps|
  {
    if apps == [] then table else Upserted(table[apps[0].packageName := apps[0]], apps[1..])
  }

  /** The keys after an upsert are the old keys and the written ones; a key
      written is mapped to its last entity in the list; other keys keep
      their rows. */
  lemma {:induction false} UpsertedLookup(table: map<string, TrackedAppEntity>, apps: seq<TrackedAppEntity>)
    ensures forall k :: k in Upserted(table, apps) <==>
      k in table || exists i :: 0 <= i < |apps| && apps[i].packageName == k
    ensures forall i :: 0 <= i < |apps| && (forall j :: i < j < |apps| ==> apps[j].packageName != apps[i].packageName) ==>
      apps[i].packageName in Upserted(table, apps) && Upserted(table, apps)[apps[i].packageName] == apps[i]
    ensures forall k :: k in table && (forall i :: 0 <= i < |apps| ==> apps[i].packageName != k) ==>
      k in Upserted(table, apps) && Upserted(table, apps)[k] == table[k]
    decreases |apps|
  {
    if apps != [] {
      var next := table[apps[0].packageName := apps[0]];
      UpsertedLookup(next, apps[1..]);
      assert forall i :: 1 <= i < |apps| ==> apps[1..][i - 1] == apps[i];
      forall k | k in Upserted(table, apps)
        ensures k in table || exists i :: 0 <= i < |apps| && apps[i].packageName == k
      {
        if k !in next {
        } else if k !in table {
          assert k == apps[0].packageName;
        }
      }
      forall i | 0 <= i < |apps| && (forall j :: i < j < |apps| ==> apps[j].packageName != apps[i].packageName)
        ensures apps[i].packageName in Upserted(table, apps) && Upserted(table, apps)[apps[i].packageName] == apps[i]
      {
        if i > 0 {
          assert apps[1..][i - 1] == apps[i];
          assert forall j :: i - 1 < j < |apps| - 1 ==> apps[1..][j] == apps[j + 1];
        }
      }
    }
  }

  /** The primary key: every row is stored under its own package name. */
  predicate Keyed(table: map<string, TrackedAppEntity>) {
    forall k :: k in table ==> table[k].packageName == k
  }

  lemma {:induction false} UpsertedKeyed(table: map<string, TrackedAppEntity>, apps: seq<TrackedAppEntity>)
    requires Keyed(table)
    ensures Keyed(Upserted(table, apps))
    decreases |apps|
  {
    if apps != [] {
      UpsertedKeyed(table[apps[0].packageName := apps[0]], apps[1..]);
    }
  }

  class Repository {
    var rows: map<string, TrackedAppEntity>
    var calls: seq<DaoCall>

    predicate Valid()
      reads this
    {
      Keyed(rows)
    }

    constructor (initial: map<string, TrackedAppEntity>)
      requires Keyed(initial)
      ensures Valid() && rows == initial && calls == []
    {
      rows := initial;
      calls := [];
    }

    /** applyEvaluation: upsert the updates, then delete the removed
        packages; an empty list makes no DAO call. */
    method ApplyEvaluation(evaluation: UsageAnalyzer.UsageEvaluation)
      requires Valid()
      modifies this
      ensures Valid()
      ensures rows == Upserted(old(rows), evaluation.updates) - evaluation.packagesToRemove
      ensures calls == old(calls)
        + (if |evaluation.updates| > 0 then [UpsertAll(evaluation.updates)] else [])
        + (if evaluation.packagesToRemove != {} then [DeleteAll(evaluation.packagesToRemove)] else [])
      ensures forall k :: k in evaluation.packagesToRemove ==> k !in rows
      ensures forall k :: (k in old(rows) && k !in evaluation.packagesToRemove
        && (forall e :: e in evaluation.updates ==> e.packageName != k)) ==> k in rows && rows[k] == old(rows)[k]
    {
      UpsertedLookup(rows, evaluation.updates);
      UpsertedKeyed(rows, evaluation.updates);
      if |evaluation.updates| > 0 {
        rows := Upserted(rows, evaluation.updates);
        calls := calls + [UpsertAll(evaluation.updates)];
      }
      if evaluation.packagesToRemove != {} {
        rows := rows - evaluation.packagesToRemove;
        calls := calls + [DeleteAll(evaluation.packagesToRemove)];
      }
    }

    /** The keys of the rows with the given status, each once, ordered by
        stored lastUsedAt descending (the query's ORDER BY). */
    method LatestFirst(status: AppUsageStatus) returns (keys: seq<string>)
      ensures forall i :: 0 <= i < |keys| ==> keys[i] in rows && rows[keys[i]].status == status
      ensures forall k :: k in rows && rows[k].status == status ==> k in keys
      ensures forall i, j :: 0 <= i < j < |keys| ==> keys[i] != keys[j]
      ensures forall i, j :: 0 <= i < j < |keys| ==> rows[keys[i]].lastUsedAt >= rows[keys[j]].lastUsedAt
    {
      var table := rows;
      var remaining := set k | k in table && table[k].status == status;
      keys := [];
      while remaining != {}
        invariant forall k :: k in remaining ==> k in table && table[k].status == status
        invariant forall i :: 0 <= i < |keys| ==>
          keys[i] in table && table[keys[i]].status == status && keys[i] !in remaining
        invariant forall k :: k in table && table[k].status == status ==> k in remaining || k in keys
        invariant forall i, j :: 0 <= i < j < |keys| ==> keys[i] != keys[j]
        invariant forall i, j :: 0 <= i < j < |keys| ==> table[keys[i]].lastUsedAt >= table[keys[j]].lastUsedAt
        invariant forall i, k :: 0 <= i < |keys| && k in remaining ==> table[keys[i]].lastUsedAt >= table[k].lastUsedAt
        decreases |remaining|
      {
        var k := Latest(table, remaining);
        keys := keys + [k];
        remaining := remaining - {k};
      }
    }

    /** observeStatus (one emission): the rows with the given status as
        domain values, each once, latest stored use first. */
    method ObserveStatus(status: AppUsageStatus) returns (infos: seq<AppUsageInfo>)
      requires Valid()
      ensures forall i :: 0 <= i < |infos| ==>
        infos[i].packageName in rows && rows[infos[i].packageName].status == status
        && infos[i] == ToDomain(rows[infos[i].packageName])
      ensures forall k :: k in rows && rows[k].status == status ==>
        exists i :: 0 <= i < |infos| && infos[i].packageName == k
      ensures forall i, j :: 0 <= i < j < |infos| ==> infos[i].packageName != infos[j].packageName
      ensures forall i, j :: 0 <= i < j < |infos| ==>
        rows[infos[i].packageName].lastUsedAt >= rows[infos[j].packageName].lastUsedAt
    {
      var keys := LatestFirst(status);
      infos := [];
      var i := 0;
      while i < |keys|
        invariant 0 <= i <= |keys|
        invariant |infos| == i
        invariant forall j :: 0 <= j < i ==> infos[j] == ToDomain(rows[keys[j]]) && infos[j].packageName == keys[j]
      {
        infos := infos + [ToDomain(rows[keys[i]])];
        i := i + 1;
      }
      forall k | k in rows && rows[k].status == status
        ensures exists i :: 0 <= i < |infos| && infos[i].packageName == k
      {
        var j :| 0 <= j < |keys| && keys[j] == k;
        assert infos[j].packageName == k;
      }
    }
  }

  /** A key of `keys` whose row has the latest lastUsedAt. */
  method Latest(table: map<string, TrackedAppEntity>, keys: set<string>) returns (k: string)
    requires keys != {} && keys <= table.Keys
    ensures k in keys && forall k2 :: k2 in keys ==> table[k].lastUsedAt >= table[k2].lastUsedAt
  {
    LatestExists(table, keys);
    k :| k in keys && forall k2 :: k2 in keys ==> table[k].lastUsedAt >= table[k2].lastUsedAt;
  }

  /** A non-empty set of stored keys has one with the latest lastUsedAt. */
  lemma {:induction false} LatestExists(table: map<string, TrackedAppEntity>, keys: set<string>)
    requires keys != {} && keys <= table.Keys
    ensures exists k :: k in keys && forall k2 :: k2 in keys ==> table[k].lastUsedAt >= table[k2].lastUsedAt
    decreases |keys|
  {
    var x :| x in keys;
    if keys != {x} {
      var rest := keys - {x};
      LatestExists(table, rest);
      var y :| y in rest && forall k2 :: k2 in rest ==> table[y].lastUsedAt >= table[k2].lastUsedAt;
      if table[x].lastUsedAt >= table[y].lastUsedAt {
        assert forall k2 :: k2 in keys ==> table[x].lastUsedAt >= table[k2].lastUsedAt;
      } else {
        assert forall k2 :: k2 in keys ==> table[y].lastUsedAt >= table[k2].lastUsedAt;
      }
    }
  }

  /** One sync (evaluate, then apply to the table the evaluation read) leaves
      exactly the installed user apps in the table. */
  lemma SyncKeepsInstalledKeys(
    now: int, existing: map<string, TrackedAppEntity>, lastUsedMap: map<string, int>,
    th: UsagePolicy.Thresholds, apps: seq<UsageAnalyzer.InstalledApp>)
    ensures var ev := UsageAnalyzer.Evaluate(now, existing, lastUsedMap, th, apps);
      (Upserted(existing, ev.updates) - ev.packagesToRemove).Keys == UsageAnalyzer.PackageNames(apps)
  {
    var ev := UsageAnalyzer.Evaluate(now, existing, lastUsedMap, th, apps);
    UsageAnalyzer.EvaluateRows(now, existing, lastUsedMap, th, apps);
    UsageAnalyzer.RowsDescribeApps(now, existing, lastUsedMap, th, apps);
    UpsertedLookup(existing, ev.updates);
    var after := Upserted(existing, ev.updates) - ev.packagesToRemove;
    forall k | k in UsageAnalyzer.PackageNames(apps)
      ensures k in after
    {
      var a :| a in apps && a.packageName == k;
      var i :| 0 <= i < |apps| && apps[i] == a;
      assert ev.updates[i].packageName == k;
    }
  }

  /** After one sync each installed app's row is the one its decision wrote
      (installed package names are distinct). */
  lemma SyncWritesDecidedRows(
    now: int, existing: map<string, TrackedAppEntity>, lastUsedMap: map<string, int>,
    th: UsagePolicy.Thresholds, apps: seq<UsageAnalyzer.InstalledApp>)
    requires forall i, j :: 0 <= i < j < |apps| ==> apps[i].packageName != apps[j].packageName
    ensures var ev := UsageAnalyzer.Evaluate(now, existing, lastUsedMap, th, apps);
      var after := Upserted(existing, ev.updates) - ev.packagesToRemove;
      forall i :: 0 <= i < |apps| ==> (apps[i].packageName in after
        && after[apps[i].packageName] == UsageAnalyzer.Decide(now, existing, lastUsedMap, th, apps[i]).entity)
  {
    var ev := UsageAnalyzer.Evaluate(now, existing, lastUsedMap, th, apps);
    UsageAnalyzer.EvaluateRows(now, existing, lastUsedMap, th, apps);
    UsageAnalyzer.RowsDescribeApps(now, existing, lastUsedMap, th, apps);
    UpsertedLookup(existing, ev.updates);
    forall i | 0 <= i < |apps|
      ensures apps[i].packageName !in ev.packagesToRemove
    {
      assert apps[i] in apps;
    }
  }
}
