/** The sliding-window traffic accumulator shared by the three MainViewModel
    copies: per package, the last byte-counter snapshot and a deque of
    (time, positive delta) samples, trimmed from the front to the window.
    The byte counters of TrafficStats are inputs. */
module TrafficWindow {
  import opened Base

  /** One deque entry: the sample time and the bytes seen since the last one. */
  datatype Sample = Sample(timestamp: int, bytes: int)

  /** TrafficStats.getUidRxBytes / getUidTxBytes for one uid; a negative
      value means the counter is unsupported. */
  datatype Counters = Counters(rxBytes: int, txBytes: int)

  /** sumOf over the deque's byte deltas. */
  function Total(h: seq<Sample>): int
  {
    if h == [] then 0 else h[0].bytes + Total(h[1..])
  }

  predicate AllPositive(h: seq<Sample>) {
    forall i :: 0 <= i < |h| ==> h[i].bytes > 0
  }

  /** The samples' times never decrease, as they do when the clock does not
      run backwards. */
  predicate Chronological(h: seq<Sample>) {
    forall i, j :: 0 <= i <= j < |h| ==> h[i].timestamp <= h[j].timestamp
  }

  predicate Expired(now: int, windowMillis: int, s: Sample) {
    now - s.timestamp > windowMillis
  }

  /** The delta recorded for a new total: zero on the first sample and when
      the counter went backwards, otherwise the growth. */
  function Delta(previousTotal: Option<int>, totalBytes: int): (d: int)
    ensures d >= 0
    ensures previousTotal.None? ==> d == 0
    ensures previousTotal.Some? && totalBytes >= previousTotal.value ==> d == totalBytes - previousTotal.value
    ensures previousTotal.Some? && totalBytes < previousTotal.value ==> d == 0
  {
    if previousTotal.None? || totalBytes < previousTotal.value then 0 else totalBytes - previousTotal.value
  }

  /** The deque after removing expired entries from its front. */
  function DropExpired(h: seq<Sample>, now: int, windowMillis: int): seq<Sample>
    decreases |h|
  {
    if h != [] && Expired(now, windowMillis, h[0]) then DropExpired(h[1..], now, windowMillis) else h
  }

  /** Trimming keeps a suffix whose front is inside the window, and every
      entry it dropped had expired. */
  lemma {:induction false} DropExpiredSuffix(h: seq<Sample>, now: int, windowMillis: int)
    ensures var r := DropExpired(h, now, windowMillis);
      |r| <= |h| && r == h[|h| - |r|..]
      && (r == [] || !Expired(now, windowMillis, r[0]))
      && (forall i :: 0 <= i < |h| - |r| ==> Expired(now, windowMillis, h[i]))
    decreases |h|
  {
    if h != [] && Expired(now, windowMillis, h[0]) {
      DropExpiredSuffix(h[1..], now, windowMillis);
      var r := DropExpired(h, now, windowMillis);
      forall i | 0 < i < |h| - |r|
        ensures Expired(now, windowMillis, h[i])
      {
        assert h[i] == h[1..][i - 1];
      }
    }
  }

  /** Byte deltas are never negative, so neither is a window's sum. */
  lemma {:induction false} TotalOfPositive(h: seq<Sample>)
    requires AllPositive(h)
    ensures Total(h) >= 0
    ensures h != [] ==> Total(h) > 0
    decreases |h|
  {
    if h != [] {
      TotalOfPositive(h[1..]);
    }
  }

  /** Queueing only a positive delta keeps every entry positive. */
  lemma AppendPositive(queued: seq<Sample>, delta: int, now: int)
    requires AllPositive(queued)
    ensures AllPositive(queued + (if delta > 0 then [Sample(now, delta)] else []))
  {
    if delta <= 0 {
      assert queued + [] == queued;
    }
  }

  /** Trimming keeps a suffix, so it keeps every entry positive. */
  lemma {:induction false} DropKeepsPositive(h: seq<Sample>, now: int, windowMillis: int)
    requires AllPositive(h)
    ensures AllPositive(DropExpired(h, now, windowMillis))
    decreases |h|
  {
    if h != [] && Expired(now, windowMillis, h[0]) {
      DropKeepsPositive(h[1..], now, windowMillis);
    }
  }

  /** For a chronological deque the front test is enough: after trimming,
      every remaining entry lies inside the window. */
  lemma WithinWindowWhenChronological(h: seq<Sample>, now: int, windowMillis: int)
    requires Chronological(h)
    ensures var r := DropExpired(h, now, windowMillis);
      forall i :: 0 <= i < |r| ==> now - r[i].timestamp <= windowMillis
  {
    var r := DropExpired(h, now, windowMillis);
    DropExpiredSuffix(h, now, windowMillis);
    var k := |h| - |r|;
    forall i | 0 <= i < |r|
      ensures now - r[i].timestamp <= windowMillis
    {
      assert r[0] == h[k] && r[i] == h[k + i];
    }
  }

  /** An out-of-order deque shows why: the front is in the window, a later
      entry is not, and trimming stops at the front. */
  lemma FrontTestOnly()
    ensures var h := [Sample(100, 1), Sample(0, 1)];
      DropExpired(h, 100, 50) == h && Expired(100, 50, h[1])
  {
  }

  /** The `while` of collectTrafficFromSnapshots: removeFirst while the
      front entry is older than the window. */
  method TrimWindow(queue: seq<Sample>, now: int, windowMillis: int) returns (trimmed: seq<Sample>)
    ensures trimmed == DropExpired(queue, now, windowMillis)
  {
    trimmed := queue;
    while trimmed != [] && now - trimmed[0].timestamp > windowMillis
      invariant DropExpired(trimmed, now, windowMillis) == DropExpired(queue, now, windowMillis)
      decreases |trimmed|
    {
      trimmed := trimmed[1..];
    }
  }

  /** The deque of `packageName` after one sample with the given total,
      computed from the snapshot and deque maps before the sample. */
  function UpdatedDeque(snapshots: map<string, int>, history: map<string, seq<Sample>>,
                        packageName: string, totalBytes: int, now: int, windowMillis: int): seq<Sample>
  {
    var previous := if packageName in snapshots then Some(snapshots[packageName]) else None;
    var queued := if packageName in history then history[packageName] else [];
    var delta := Delta(previous, totalBytes);
    DropExpired(queued + (if delta > 0 then [Sample(now, delta)] else []), now, windowMillis)
  }

  function CounterTotal(c: Counters): int {
    c.rxBytes + c.txBytes
  }

  predicate Supported(c: Counters) {
    c.rxBytes >= 0 && c.txBytes >= 0
  }

  predicate Distinct(names: seq<string>) {
    forall i, j :: 0 <= i < j < |names| ==> names[i] != names[j]
  }

  /** distinctBy on the package name: the first occurrence of every name,
      in order. */
  function DistinctPackages(names: seq<string>): (r: seq<string>)
    ensures forall x :: x in r <==> x in names
    ensures Distinct(r)
    ensures Distinct(names) ==> r == names
    decreases |names|
  {
    if names == [] then []
    else
      var front := names[..|names| - 1];
      var last := names[|names| - 1];
      var r := DistinctPackages(front);
      assert forall x :: x in front ==> x in names;
      if last in r then r else r + [last]
  }

  /** In the maps `snapshots` and `history`, package `p` has the snapshot
      and the deque it had in `s0` and `h0`. */
  predicate Untouched(snapshots: map<string, int>, history: map<string, seq<Sample>>,
                      p: string, s0: map<string, int>, h0: map<string, seq<Sample>>)
  {
    (p in snapshots <==> p in s0) && (p in snapshots ==> snapshots[p] == s0[p])
    && (p in history <==> p in h0) && (p in history ==> history[p] == h0[p])
  }

  /** In the maps `snapshots` and `history`, package `p` holds one sample
      with counters `c` taken from `s0` and `h0`. */
  predicate Sampled(snapshots: map<string, int>, history: map<string, seq<Sample>>,
                    p: string, c: Counters, s0: map<string, int>, h0: map<string, seq<Sample>>,
                    now: int, windowMillis: int)
  {
    p in snapshots && snapshots[p] == CounterTotal(c)
    && p in history && history[p] == UpdatedDeque(s0, h0, p, CounterTotal(c), now, windowMillis)
  }

  /** A sample depends only on the package's own snapshot and deque. */
  lemma UpdatedDequeIsLocal(snapshots: map<string, int>, history: map<string, seq<Sample>>,
                            p: string, s0: map<string, int>, h0: map<string, seq<Sample>>,
                            totalBytes: int, now: int, windowMillis: int)
    requires Untouched(snapshots, history, p, s0, h0)
    ensures UpdatedDeque(snapshots, history, p, totalBytes, now, windowMillis)
      == UpdatedDeque(s0, h0, p, totalBytes, now, windowMillis)
  {
  }

  /** The loop state of collectAll after the first `i` tracked packages,
      in three parts. First: `sums` holds exactly the sampled packages. */
  ghost predicate SumsDomain(trackedPackages: seq<string>, i: int, counters: map<string, Counters>,
                             sums: map<string, int>)
    requires 0 <= i <= |trackedPackages|
  {
    forall p :: p in sums <==> (p in trackedPackages[..i] && p in counters && Supported(counters[p]))
  }

  /** Second: each sampled package was sampled once from `s0` and `h0`, and
      its sum is its window's total. */
  ghost predicate SumsSampled(counters: map<string, Counters>, sums: map<string, int>,
                              snapshots: map<string, int>, history: map<string, seq<Sample>>,
                              s0: map<string, int>, h0: map<string, seq<Sample>>, now: int, windowMillis: int)
  {
    forall p :: p in sums ==>
      p in counters && Sampled(snapshots, history, p, counters[p], s0, h0, now, windowMillis)
      && sums[p] == Total(history[p]) && sums[p] >= 0
  }

  /** Third: every other package is untouched. */
  ghost predicate RestUntouched(sums: map<string, int>, snapshots: map<string, int>, history: map<string, seq<Sample>>,
                                s0: map<string, int>, h0: map<string, seq<Sample>>)
  {
    forall p :: p !in sums ==> Untouched(snapshots, history, p, s0, h0)
  }

  /** One iteration of collectAll for a package with a resolved uid and
      supported counters: the package is sampled from the state before it,
      which for that package is still the state before the loop, and its sum
      is recorded. */
  lemma SampleStep(trackedPackages: seq<string>, i: int, counters: map<string, Counters>,
                   sums: map<string, int>, sB: map<string, int>, hB: map<string, seq<Sample>>,
                   snapshots: map<string, int>, history: map<string, seq<Sample>>, sum: int,
                   s0: map<string, int>, h0: map<string, seq<Sample>>, now: int, windowMillis: int)
    requires 0 <= i < |trackedPackages| && trackedPackages[i] !in trackedPackages[..i]
    requires SumsDomain(trackedPackages, i, counters, sums)
    requires SumsSampled(counters, sums, sB, hB, s0, h0, now, windowMillis)
    requires RestUntouched(sums, sB, hB, s0, h0)
    requires trackedPackages[i] in counters && Supported(counters[trackedPackages[i]])
    requires forall p :: p != trackedPackages[i] ==> Untouched(snapshots, history, p, sB, hB)
    requires Sampled(snapshots, history, trackedPackages[i], counters[trackedPackages[i]], sB, hB, now, windowMillis)
    requires sum == Total(history[trackedPackages[i]]) && sum >= 0
    ensures SumsDomain(trackedPackages, i + 1, counters, sums[trackedPackages[i] := sum])
    ensures SumsSampled(counters, sums[trackedPackages[i] := sum], snapshots, history, s0, h0, now, windowMillis)
    ensures RestUntouched(sums[trackedPackages[i] := sum], snapshots, history, s0, h0)
  {
    var pkg := trackedPackages[i];
    assert pkg !in sums;
    UpdatedDequeIsLocal(sB, hB, pkg, s0, h0, CounterTotal(counters[pkg]), now, windowMillis);
    var next := sums[pkg := sum];
    assert Sampled(snapshots, history, pkg, counters[pkg], s0, h0, now, windowMillis);
    forall p | p in sums
      ensures Sampled(snapshots, history, p, counters[p], s0, h0, now, windowMillis)
        && sums[p] == Total(history[p]) && sums[p] >= 0
    {
      assert Sampled(sB, hB, p, counters[p], s0, h0, now, windowMillis);
      assert Untouched(snapshots, history, p, sB, hB);
    }
    forall p | p !in next
      ensures Untouched(snapshots, history, p, s0, h0)
    {
      assert Untouched(sB, hB, p, s0, h0);
      assert Untouched(snapshots, history, p, sB, hB);
    }
    forall p
      ensures p in next <==> (p in trackedPackages[..i + 1] && p in counters && Supported(counters[p]))
    {
      assert trackedPackages[..i + 1] == trackedPackages[..i] + [pkg];
    }
  }

  /** One iteration of collectAll for a package that is not sampled (no uid,
      or an unsupported counter): the prefix grows and `sums` does not. */
  lemma SkipStep(trackedPackages: seq<string>, i: int, counters: map<string, Counters>, sums: map<string, int>)
    requires 0 <= i < |trackedPackages|
    requires SumsDomain(trackedPackages, i, counters, sums)
    requires trackedPackages[i] !in counters || !Supported(counters[trackedPackages[i]])
    ensures SumsDomain(trackedPackages, i + 1, counters, sums)
  {
    assert trackedPackages[..i + 1] == trackedPackages[..i] + [trackedPackages[i]];
  }

  class TrafficMonitor {
    var snapshots: map<string, int>
    var history: map<string, seq<Sample>>

    /** A snapshot and a deque are created and dropped together, and only
        positive deltas are ever queued. */
    predicate Valid()
      reads this
    {
      snapshots.Keys == history.Keys
      && forall p :: p in history ==> AllPositive(history[p])
    }

    constructor ()
      ensures Valid() && snapshots == map[] && history == map[]
    {
      snapshots := map[];
      history := map[];
    }

    /** The deque of `packageName` after one sample with the given total. */
    function Updated(packageName: string, totalBytes: int, now: int, windowMillis: int): seq<Sample>
      reads this
    {
      UpdatedDeque(snapshots, history, packageName, totalBytes, now, windowMillis)
    }

    /** collectTrafficFromSnapshots: an unsupported counter changes nothing
        and yields None; otherwise the snapshot becomes the new total, a
        positive delta is queued, the front is trimmed to the window, and the
        result is the sum of what remains. */
    method CollectTrafficFromSnapshots(packageName: string, counters: Counters, now: int, windowMillis: int)
      returns (sum: Option<int>)
      requires Valid()
      modifies this
      ensures Valid()
      ensures counters.rxBytes < 0 || counters.txBytes < 0 ==>
        sum.None? && snapshots == old(snapshots) && history == old(history)
      ensures counters.rxBytes >= 0 && counters.txBytes >= 0 ==>
        snapshots == old(snapshots)[packageName := counters.rxBytes + counters.txBytes]
        && history == old(history)[packageName := old(Updated(packageName, counters.rxBytes + counters.txBytes, now, windowMillis))]
        && sum == Some(Total(history[packageName])) && sum.value >= 0
      ensures forall p :: p != packageName ==> Untouched(snapshots, history, p, old(snapshots), old(history))
      ensures Supported(counters) ==>
        Sampled(snapshots, history, packageName, counters, old(snapshots), old(history), now, windowMillis)
      ensures !Supported(counters) ==> Untouched(snapshots, history, packageName, old(snapshots), old(history))
    {
      if counters.rxBytes < 0 || counters.txBytes < 0 {
        return None;
      }
      var totalBytes := counters.rxBytes + counters.txBytes;
      var previousTotal := if packageName in snapshots then Some(snapshots[packageName]) else None;
      var queued := if packageName in history then history[packageName] else [];
      var delta := Delta(previousTotal, totalBytes);
      var queue := queued + (if delta > 0 then [Sample(now, delta)] else []);
      AppendPositive(queued, delta, now);
      var trimmed := TrimWindow(queue, now, windowMillis);
      DropKeepsPositive(queue, now, windowMillis);
      snapshots := snapshots[packageName := totalBytes];
      history := history[packageName := trimmed];
      TotalOfPositive(trimmed);
      sum := Some(Total(trimmed));
    }

    /** The fallback path's pruning: every package that is not tracked loses
        its deque and its snapshot; tracked ones are untouched. */
    method PruneUntracked(tracked: set<string>)
      requires Valid()
      modifies this
      ensures Valid()
      ensures forall p :: p in history <==> p in old(history) && p in tracked
      ensures forall p :: p in history ==> history[p] == old(history)[p]
      ensures forall p :: p in snapshots ==> snapshots[p] == old(snapshots)[p]
    {
      var keys := history.Keys;
      while keys != {}
        invariant Valid()
        invariant keys <= history.Keys
        invariant forall p :: p in history <==> p in old(history) && (p in tracked || p in keys)
        invariant forall p :: p in history ==> history[p] == old(history)[p]
        invariant forall p :: p in snapshots ==> snapshots[p] == old(snapshots)[p]
        decreases |keys|
      {
        var key :| key in keys;
        if key !in tracked {
          history := history - {key};
          snapshots := snapshots - {key};
        }
        keys := keys - {key};
      }
    }

    /** trafficHistory.clear() and trafficSnapshots.clear(). */
    method Clear()
      modifies this
      ensures Valid() && snapshots == map[] && history == map[]
    {
      history := map[];
      snapshots := map[];
    }

    /** The per-package loop of sampleAppTraffic over the distinct tracked
        packages: a package with a resolved uid and supported counters is
        sampled once from the state before the loop and gets its window's
        sum; every other package keeps its snapshot and deque. */
    method CollectAll(trackedPackages: seq<string>, counters: map<string, Counters>, now: int, windowMillis: int)
      returns (sums: map<string, int>)
      requires Valid() && Distinct(trackedPackages)
      modifies this
      ensures Valid()
      ensures forall p :: p in sums <==> (p in trackedPackages && p in counters && Supported(counters[p]))
      ensures forall p :: p in sums ==>
        Sampled(snapshots, history, p, counters[p], old(snapshots), old(history), now, windowMillis)
        && sums[p] == Total(history[p]) && sums[p] >= 0
      ensures forall p :: p !in sums ==> Untouched(snapshots, history, p, old(snapshots), old(history))
    {
      ghost var s0, h0 := snapshots, history;
      sums := map[];
      for i := 0 to |trackedPackages|
        invariant Valid()
        invariant SumsDomain(trackedPackages, i, counters, sums)
        invariant SumsSampled(counters, sums, snapshots, history, s0, h0, now, windowMillis)
        invariant RestUntouched(sums, snapshots, history, s0, h0)
      {
        var packageName := trackedPackages[i];
        if packageName in counters {
          ghost var sBefore, hBefore := snapshots, history;
          var sum := CollectTrafficFromSnapshots(packageName, counters[packageName], now, windowMillis);
          if sum.Some? {
            assert packageName !in trackedPackages[..i];
            SampleStep(trackedPackages, i, counters, sums, sBefore, hBefore, snapshots, history, sum.value,
              s0, h0, now, windowMillis);
            sums := sums[packageName := sum.value];
          } else {
            SkipStep(trackedPackages, i, counters, sums);
          }
        } else {
          SkipStep(trackedPackages, i, counters, sums);
        }
      }
      assert trackedPackages[..|trackedPackages|] == trackedPackages;
    }

    /** sampleAppTraffic as in the two copies without network statistics:
        the tracked packages (the RECENT, RARE and DISABLED lists' names) are
        made distinct; none clears everything; otherwise each tracked package
        is sampled and the untracked ones are pruned. */
    method SampleAppTraffic(trackedApps: seq<string>, counters: map<string, Counters>, now: int, windowMillis: int)
      returns (sums: map<string, int>)
      requires Valid()
      modifies this
      ensures Valid()
      ensures trackedApps == [] ==> sums == map[] && history == map[] && snapshots == map[]
      ensures forall p :: p in sums <==> (p in trackedApps && p in counters && Supported(counters[p]))
      ensures forall p :: p in sums ==>
        Sampled(snapshots, history, p, counters[p], old(snapshots), old(history), now, windowMillis)
        && sums[p] == Total(history[p]) && sums[p] >= 0
      ensures forall p :: p in trackedApps && p !in sums ==> Untouched(snapshots, history, p, old(snapshots), old(history))
      ensures forall p :: p in history ==> p in trackedApps
    {
      var trackedPackages := DistinctPackages(trackedApps);
      if trackedPackages == [] {
        Clear();
        return map[];
      }
      sums := CollectAll(trackedPackages, counters, now, windowMillis);
      PruneUntracked(set p | p in trackedPackages);
    }

    /** The privacyguard copy's sampleAppTraffic: a successful network-stats
        query (Some) clears the snapshot path's state and is the result;
        otherwise the snapshot path runs as in the other copies. */
    method SampleWithNetworkStats(trackedApps: seq<string>, counters: map<string, Counters>,
      networkStatsSums: Option<map<string, int>>, now: int, windowMillis: int)
      returns (sums: map<string, int>)
      requires Valid()
      modifies this
      ensures Valid()
      ensures trackedApps == [] ==> sums == map[] && history == map[] && snapshots == map[]
      ensures trackedApps != [] && networkStatsSums.Some? ==>
        sums == networkStatsSums.value && history == map[] && snapshots == map[]
      ensures trackedApps != [] && networkStatsSums.None? ==>
        (forall p :: p in sums <==> (p in trackedApps && p in counters && Supported(counters[p])))
        && (forall p :: p in sums ==>
          Sampled(snapshots, history, p, counters[p], old(snapshots), old(history), now, windowMillis)
          && sums[p] == Total(history[p]) && sums[p] >= 0)
        && (forall p :: p in trackedApps && p !in sums ==> Untouched(snapshots, history, p, old(snapshots), old(history)))
      ensures forall p :: p in history ==> p in trackedApps
    {
      var trackedPackages := DistinctPackages(trackedApps);
      if trackedPackages == [] {
        Clear();
        return map[];
      }
      if networkStatsSums.Some? {
        Clear();
        return networkStatsSums.value;
      }
      sums := CollectAll(trackedPackages, counters, now, windowMillis);
      PruneUntracked(set p | p in trackedPackages);
    }
  }
}
