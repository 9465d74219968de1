/**
 * `DepartureFetcher`: one fetch cycle turns the settled per-direction query
 * results into a bounded, deduplicated, time-ordered list of records marked
 * reachable or not, and adapts the lead time for the next cycle.
 *
 * The queries themselves are not modelled: a cycle receives their settled
 * results and the current time as parameters.
 */
module Fetcher {
  import opened Options
  import opened Seqs
  import opened Departures
  import opened Sorting
  import opened Dedup
  import opened Filters
  import opened Reachability
  import opened LeadTime
  import opened Results

  /** The configured directions, or a single unfiltered (`null`) query when there are none. */
  function QueryDirections(c: FetcherConfig): (r: seq<Option<string>>)
    ensures |c.directions| == 0 ==> r == [None]
    ensures |c.directions| > 0 ==> |r| == |c.directions|
    ensures forall i :: 0 <= i < |c.directions| ==> r[i] == Some(c.directions[i])
  {
    if |c.directions| > 0 then seq(|c.directions|, i requires 0 <= i < |c.directions| => Some(c.directions[i]))
    else [None]
  }

  /** Merged, sorted and deduplicated records: the input of `applyAllFilters`. */
  function Candidates(results: seq<Settled>): seq<Departure> {
    KeepFirst(SortDepartures(MergedDepartures(results)))
  }

  /** The five filters, then reachability marking against `now + timeToStation`. */
  function Refined(c: FetcherConfig, ds: seq<Departure>, now: int): seq<Departure> {
    MarkAll(FilterChain(c, ds), ReachableTime(now, c.timeToStation))
  }

  /** What one fetch cycle returns. */
  function Pipeline(c: FetcherConfig, results: seq<Settled>, now: int): seq<Departure> {
    Cap(TrimSurplus(Refined(c, Candidates(results), now), c.maxUnreachableDepartures),
        c.maxReachableDepartures + c.maxUnreachableDepartures)
  }

  class DepartureFetcher {
    var config: FetcherConfig
    var leadTime: int   // minutes

    /** The range the lead time never leaves once it starts at 20. */
    ghost predicate Valid()
      reads this
    {
      1 <= leadTime <= 50
    }

    constructor (config: FetcherConfig)
      ensures this.config == config && leadTime == InitialLeadTime
      ensures Valid()
    {
      this.config := config;
      leadTime := InitialLeadTime;
    }

    /** What `init` computes besides the client: the included types are the profile's types minus the excluded ones. */
    method Init(possibleTransportationTypes: seq<string>)
      modifies this`config
      ensures config == old(config).(includedTransportationTypes :=
                          ArrayDiff(possibleTransportationTypes, old(config).excludedTransportationTypes))
    {
      config := config.(includedTransportationTypes :=
                  ArrayDiff(possibleTransportationTypes, config.excludedTransportationTypes));
    }

    /** Query duration in minutes: lengthened by the lead time when unreachable records are wanted. */
    function GetTimeInFuture(): (r: int)
      reads this
      ensures config.maxUnreachableDepartures <= 0 ==> r == config.timeInFuture
      ensures config.maxUnreachableDepartures > 0 ==> r - config.timeInFuture == leadTime
      ensures config.maxUnreachableDepartures > 0 && Valid() ==> r > config.timeInFuture
    {
      if config.maxUnreachableDepartures > 0 then config.timeInFuture + leadTime else config.timeInFuture
    }

    /** Query start: moved back by the lead time when unreachable records are wanted. */
    function GetDepartureTime(now: int): (r: int)
      reads this
      ensures Valid() ==> r <= ReachableTime(now, config.timeToStation)
      ensures config.maxUnreachableDepartures <= 0 ==> r == ReachableTime(now, config.timeToStation)
      ensures r + GetTimeInFuture() * MsPerMinute
           == ReachableTime(now, config.timeToStation) + config.timeInFuture * MsPerMinute
    {
      var reachableTime := ReachableTime(now, config.timeToStation);
      if config.maxUnreachableDepartures > 0 then reachableTime - leadTime * MsPerMinute else reachableTime
    }

    method AdjustLeadTime(unreachableCount: nat)
      modifies this`leadTime
      ensures leadTime == NextLeadTime(old(leadTime), unreachableCount, config.maxUnreachableDepartures)
      ensures old(Valid()) ==> Valid()
    {
      if unreachableCount > config.maxUnreachableDepartures {
        leadTime := HalfRounded(leadTime) + 1;
      } else if leadTime <= 45 {
        leadTime := leadTime + 5;
      }
    }

    /** `departuresMarkedWithReachability` */
    method MarkReachability(ds: seq<Departure>, now: int) returns (r: seq<Departure>)
      ensures r == MarkAll(ds, ReachableTime(now, config.timeToStation))
    {
      var reachableTime := ReachableTime(now, config.timeToStation);
      r := [];
      for i := 0 to |ds|
        invariant |r| == i
        invariant forall k :: 0 <= k < i ==> r[k] == Marked(ds[k], reachableTime)
      {
        r := r + [ds[i].(isReachable := Some(IsReachable(ds[i], reachableTime)))];
      }
    }

    /** `departuresRemovedSurplusUnreachableDepartures` */
    method RemoveSurplusUnreachable(ds: seq<Departure>) returns (r: seq<Departure>)
      modifies this`leadTime
      ensures r == TrimSurplus(ds, config.maxUnreachableDepartures)
      ensures leadTime == NextLeadTime(old(leadTime), |Unreachables(ds)|, config.maxUnreachableDepartures)
      ensures old(Valid()) ==> Valid()
    {
      var unreachable := Unreachables(ds);
      AdjustLeadTime(|unreachable|);
      unreachable := unreachable[SurplusCount(|unreachable|, config.maxUnreachableDepartures)..];
      var reachable := Reachables(ds);
      r := unreachable + reachable;
    }

    method ApplyAllFilters(ds: seq<Departure>, now: int) returns (r: seq<Departure>)
      modifies this`leadTime
      ensures r == TrimSurplus(Refined(config, ds, now), config.maxUnreachableDepartures)
      ensures leadTime == NextLeadTime(old(leadTime), |Unreachables(Refined(config, ds, now))|,
                                       config.maxUnreachableDepartures)
      ensures old(Valid()) ==> Valid()
    {
      var filtered := FilterByTransportationTypes(ds, config.includedTransportationTypes);
      filtered := FilterByIgnoredLines(filtered, config.ignoredLines);
      if config.ignoreRelatedStations {
        filtered := FilterByStopId(filtered, config.stationId);
      }
      filtered := FilterByExcludedDirections(filtered, config.excludeDirections);
      filtered := FilterByPlatforms(filtered, config.platformsToShow);
      filtered := MarkReachability(filtered, now);
      r := RemoveSurplusUnreachable(filtered);
    }

    /**
     * One cycle. Failed directions are only counted (and logged): when every
     * direction fails the cycle carries on with no records.
     */
    method FetchDepartures(results: seq<Settled>, now: int) returns (departures: seq<Departure>)
      modifies this`leadTime
      ensures departures == Pipeline(config, results, now)
      ensures leadTime == NextLeadTime(old(leadTime), |Unreachables(Refined(config, Candidates(results), now))|,
                                       config.maxUnreachableDepartures)
      ensures old(Valid()) ==> Valid()
      ensures config.maxReachableDepartures + config.maxUnreachableDepartures >= 0 ==>
                |departures| <= config.maxReachableDepartures + config.maxUnreachableDepartures
      ensures config.maxUnreachableDepartures >= 0 ==>
                |Unreachables(departures)| <= config.maxUnreachableDepartures
      ensures UniqueKeys(departures)
    {
      var directions := QueryDirections(config);
      var merged, failures := ProcessResults(results, directions);
      var sorted := SortDepartures(merged);
      var unique := RemoveDuplicates(sorted);
      var filtered := ApplyAllFilters(unique, now);
      var maxElements := config.maxReachableDepartures + config.maxUnreachableDepartures;
      departures := Cap(filtered, maxElements);
      PipelineBounds(config, results, now);
      PipelineUniqueKeys(config, results, now);
    }
  }

  /**
   * Moving the query start back by the lead time lengthens the query by the
   * same amount, so the far edge of the window stays where it was.
   */
  lemma QueryWindow(f: DepartureFetcher, now: int)
    ensures f.GetDepartureTime(now) + f.GetTimeInFuture() * MsPerMinute
         == ReachableTime(now, f.config.timeToStation) + f.config.timeInFuture * MsPerMinute
    ensures f.config.maxUnreachableDepartures > 0 ==>
              f.GetDepartureTime(now) == ReachableTime(now, f.config.timeToStation) - f.leadTime * MsPerMinute
    ensures f.config.maxUnreachableDepartures <= 0 ==>
              f.GetDepartureTime(now) == ReachableTime(now, f.config.timeToStation)
              && f.GetTimeInFuture() == f.config.timeInFuture
  {
  }

  lemma SubsequenceSorted(a: seq<Departure>, b: seq<Departure>)
    requires IsSubsequence(a, b) && Sorted(b)
    ensures Sorted(a)
  {
    SubsequencePairwise(a, b, TimeOrdered);
  }

  lemma SubsequenceUniqueKeys(a: seq<Departure>, b: seq<Departure>)
    requires IsSubsequence(a, b) && UniqueKeys(b)
    ensures UniqueKeys(a)
  {
    SubsequencePairwise(a, b, DistinctKeys);
  }

  /** Before trimming, the records are sorted by time and unique on their keys. */
  lemma RefinedSortedUnique(c: FetcherConfig, results: seq<Settled>, now: int)
    ensures Sorted(Refined(c, Candidates(results), now))
    ensures UniqueKeys(Refined(c, Candidates(results), now))
  {
    var sorted := SortDepartures(MergedDepartures(results));
    var unique := Candidates(results);
    KeepFirstSubsequence(sorted);
    KeepFirstUnique(sorted);
    SubsequenceSorted(unique, sorted);
    var filtered := FilterChain(c, unique);
    FilterChainSpec(c, unique);
    SubsequenceSorted(filtered, unique);
    SubsequenceUniqueKeys(filtered, unique);
    MarkAllKeepsKeys(filtered, ReachableTime(now, c.timeToStation));
  }

  /** Two different records of a key-unique sequence have different keys. */
  lemma UniqueKeysDistinct(s: seq<Departure>, x: Departure, y: Departure)
    requires UniqueKeys(s) && x in s && y in s && x != y
    ensures Key(x) != Key(y)
  {
    var i :| 0 <= i < |s| && s[i] == x;
    var j :| 0 <= j < |s| && s[j] == y;
  }

  /**
   * An unreachable block followed by a reachable block, each ordered by `R`,
   * relates every pair of positions that lie in the same block.
   */
  lemma ConcatBlocks(a: seq<Departure>, b: seq<Departure>, R: (Departure, Departure) -> bool)
    requires Pairwise(a, R) && Pairwise(b, R)
    requires forall x <- a :: !MarkedReachable(x)
    requires forall x <- b :: MarkedReachable(x)
    ensures var t := a + b;
            forall i, j :: 0 <= i < j < |t| && MarkedReachable(t[i]) == MarkedReachable(t[j]) ==> R(t[i], t[j])
  {
    var t := a + b;
    assert forall i :: 0 <= i < |a| ==> t[i] == a[i] && !MarkedReachable(t[i]);
    assert forall j :: |a| <= j < |t| ==> t[j] == b[j - |a|] && MarkedReachable(t[j]);
  }

  lemma SuffixPairwise(s: seq<Departure>, n: nat, R: (Departure, Departure) -> bool)
    requires n <= |s| && Pairwise(s, R)
    ensures Pairwise(s[n..], R)
  {
    forall i, j | 0 <= i < j < |s[n..]| ensures R(s[n..][i], s[n..][j]) {
      assert s[n..][i] == s[n + i] && s[n..][j] == s[n + j];
    }
  }

  /** Within the unreachable block and within the reachable block, trimming keeps any pairwise order. */
  lemma TrimSurplusBlocks(ds: seq<Departure>, maxUnreachable: int, R: (Departure, Departure) -> bool)
    requires Pairwise(ds, R)
    ensures var t := TrimSurplus(ds, maxUnreachable);
            forall i, j :: 0 <= i < j < |t| && MarkedReachable(t[i]) == MarkedReachable(t[j]) ==> R(t[i], t[j])
  {
    var u, r := Unreachables(ds), Reachables(ds);
    var tail := u[SurplusCount(|u|, maxUnreachable)..];
    FilterIsSubsequence(ds, MarkedUnreachable);
    FilterIsSubsequence(ds, MarkedReachable);
    SubsequencePairwise(u, ds, R);
    SubsequencePairwise(r, ds, R);
    SuffixPairwise(u, SurplusCount(|u|, maxUnreachable), R);
    assert forall x <- tail :: x in u;
    ConcatBlocks(tail, r, R);
  }

  /** Trimming a key-unique sequence leaves it key-unique. */
  lemma TrimSurplusUniqueKeys(ds: seq<Departure>, maxUnreachable: int)
    requires UniqueKeys(ds)
    ensures UniqueKeys(TrimSurplus(ds, maxUnreachable))
  {
    var t := TrimSurplus(ds, maxUnreachable);
    TrimSurplusBlocks(ds, maxUnreachable, DistinctKeys);
    TrimSurplusMultiset(ds, maxUnreachable);
    forall i, j | 0 <= i < j < |t| ensures Key(t[i]) != Key(t[j]) {
      if MarkedReachable(t[i]) != MarkedReachable(t[j]) {
        assert t[i] in multiset(ds) && t[j] in multiset(ds);
        UniqueKeysDistinct(ds, t[i], t[j]);
      }
    }
  }

  /**
   * The output holds at most `maxReachable + maxUnreachable` records, of
   * which at most `maxUnreachable` are unreachable.
   */
  lemma PipelineBounds(c: FetcherConfig, results: seq<Settled>, now: int)
    ensures var out := Pipeline(c, results, now);
            && (c.maxReachableDepartures + c.maxUnreachableDepartures >= 0 ==>
                  |out| <= c.maxReachableDepartures + c.maxUnreachableDepartures)
            && (c.maxUnreachableDepartures >= 0 ==> |Unreachables(out)| <= c.maxUnreachableDepartures)
  {
    var k := Refined(c, Candidates(results), now);
    var t := TrimSurplus(k, c.maxUnreachableDepartures);
    var n := c.maxReachableDepartures + c.maxUnreachableDepartures;
    var out := Cap(t, n);
    assert out == Pipeline(c, results, now);
    TrimSurplusKeeps(k, c.maxUnreachableDepartures);
    CapUnreachables(t, n);
    assert n >= 0 ==> |out| <= n;
  }

  /** No reachable record before an unreachable one. */
  predicate UnreachableFirst(a: Departure, b: Departure) {
    MarkedReachable(a) ==> MarkedReachable(b)
  }

  /** Two records of the same block are in time order. */
  predicate BlockOrdered(a: Departure, b: Departure) {
    MarkedReachable(a) == MarkedReachable(b) ==> SortKey(a) <= SortKey(b)
  }

  /** Trimming a time-sorted list gives the unreachable block, then the reachable block, each time-sorted. */
  lemma TrimSurplusSortedBlocks(ds: seq<Departure>, maxUnreachable: int)
    requires Sorted(ds)
    ensures Pairwise(TrimSurplus(ds, maxUnreachable), UnreachableFirst)
    ensures Pairwise(TrimSurplus(ds, maxUnreachable), BlockOrdered)
  {
    TrimSurplusBlocks(ds, maxUnreachable, TimeOrdered);
    TrimSurplusOrder(ds, maxUnreachable);
  }

  /**
   * Unreachable records come first; within each of the two blocks the records
   * are in non-decreasing order of `when || plannedWhen || 0`.
   */
  lemma PipelineOrder(c: FetcherConfig, results: seq<Settled>, now: int)
    ensures var out := Pipeline(c, results, now);
            && (forall i, j :: 0 <= i < j < |out| && MarkedReachable(out[i]) ==> MarkedReachable(out[j]))
            && (forall i, j :: 0 <= i < j < |out| && MarkedReachable(out[i]) == MarkedReachable(out[j]) ==>
                  SortKey(out[i]) <= SortKey(out[j]))
  {
    var k := Refined(c, Candidates(results), now);
    var t := TrimSurplus(k, c.maxUnreachableDepartures);
    var out := Pipeline(c, results, now);
    RefinedSortedUnique(c, results, now);
    TrimSurplusSortedBlocks(k, c.maxUnreachableDepartures);
    assert out == t[..|out|];
    PrefixPairwise(t, |out|, UnreachableFirst);
    PrefixPairwise(t, |out|, BlockOrdered);
    assert Pairwise(out, UnreachableFirst) && Pairwise(out, BlockOrdered);
  }

  /** No two output records share a (trip-or-line, effective time, stop) key. */
  lemma PipelineUniqueKeys(c: FetcherConfig, results: seq<Settled>, now: int)
    ensures UniqueKeys(Pipeline(c, results, now))
  {
    var k := Refined(c, Candidates(results), now);
    var t := TrimSurplus(k, c.maxUnreachableDepartures);
    var out := Pipeline(c, results, now);
    RefinedSortedUnique(c, results, now);
    TrimSurplusUniqueKeys(k, c.maxUnreachableDepartures);
    assert out == t[..|out|];
  }

  /** Every marked record is an input record with only `isReachable` set. */
  lemma MarkAllOrigin(ds: seq<Departure>, reachableTime: int, d: Departure)
    requires d in MarkAll(ds, reachableTime)
    ensures exists e :: e in ds && d == Marked(e, reachableTime)
  {
    var i :| 0 <= i < |MarkAll(ds, reachableTime)| && MarkAll(ds, reachableTime)[i] == d;
    assert ds[i] in ds;
  }

  /** Every candidate is one of the merged records. */
  lemma CandidatesAreMerged(results: seq<Settled>, e: Departure)
    requires e in Candidates(results)
    ensures e in MergedDepartures(results)
  {
    var sorted := SortDepartures(MergedDepartures(results));
    KeepFirstSubsequence(sorted);
    SubsequenceMultiset(Candidates(results), sorted);
    assert e in multiset(Candidates(results));
    assert e in multiset(sorted);
  }

  /**
   * Every output record is a merged upstream record that passed all five
   * filters, with `isReachable` set from its effective time.
   */
  lemma PipelineProvenance(c: FetcherConfig, results: seq<Settled>, now: int)
    ensures forall d <- Pipeline(c, results, now) ::
              exists e :: && e in MergedDepartures(results) && PassesFilters(c, e)
                          && d == Marked(e, ReachableTime(now, c.timeToStation))
  {
    var reachableTime := ReachableTime(now, c.timeToStation);
    var unique := Candidates(results);
    var filtered := FilterChain(c, unique);
    var k := MarkAll(filtered, reachableTime);
    var t := TrimSurplus(k, c.maxUnreachableDepartures);
    var out := Pipeline(c, results, now);
    assert out == t[..|out|];
    TrimSurplusMultiset(k, c.maxUnreachableDepartures);
    FilterChainSpec(c, unique);
    forall d | d in out
      ensures exists e :: && e in MergedDepartures(results) && PassesFilters(c, e)
                          && d == Marked(e, reachableTime)
    {
      assert d in t;
      assert d in multiset(t);
      assert d in k;
      MarkAllOrigin(filtered, reachableTime, d);
      var e :| e in filtered && d == Marked(e, reachableTime);
      assert multiset(filtered)[e] > 0;
      assert PassesFilters(c, e) && e in unique;
      CandidatesAreMerged(results, e);
    }
  }
}
