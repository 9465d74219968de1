/**
 * The fetcher's configuration and the five filters `applyAllFilters` runs,
 * in this order: transportation type, ignored lines, related stations (only
 * when `ignoreRelatedStations` is set), excluded directions, platforms.
 * Each keeps the order of its input and drops whole records.
 */
module Filters {
  import opened Options
  import opened Seqs
  import opened Departures

  /**
   * The part of the module configuration the fetcher reads. A list the
   * configuration leaves out (`excludeDirections`, `platformsToShow`) is
   * the empty list, which every stage treats the same way.
   */
  datatype FetcherConfig = FetcherConfig(
    stationId: string,
    directions: seq<string>,
    ignoredLines: seq<string>,
    excludedTransportationTypes: seq<string>,
    includedTransportationTypes: seq<string>,
    ignoreRelatedStations: bool,
    excludeDirections: seq<string>,
    platformsToShow: seq<string>,
    timeToStation: int,           // minutes
    timeInFuture: int,            // minutes
    maxReachableDepartures: int,
    maxUnreachableDepartures: int)

  /** `getArrayDiff`: the elements of `a` not in `b`, in the order of `a`. */
  function ArrayDiff(a: seq<string>, b: seq<string>): (r: seq<string>)
    ensures IsSubsequence(r, a)
    ensures forall x :: multiset(r)[x] == if x in b then 0 else multiset(a)[x]
  {
    var keep := x => x !in b;
    FilterSpec(a, keep);
    Filter(a, keep)
  }

  predicate HasIncludedType(included: seq<string>, d: Departure) {
    d.line.product in included
  }

  /** Exact, case- and whitespace-sensitive match of the line's display name. */
  predicate OnIgnoredLine(ignored: seq<string>, d: Departure) {
    d.line.name in ignored
  }

  predicate AtStation(stationId: string, d: Departure) {
    d.stop.id == Some(stationId)
  }

  predicate HasExcludedDirection(excluded: seq<string>, d: Departure) {
    d.direction.Some? && d.direction.value in excluded
  }

  /** `platform ?? plannedPlatform`: falls back only when the real-time platform is absent. */
  function PlatformOf(d: Departure): Option<string> {
    if d.platform.Some? then d.platform else d.plannedPlatform
  }

  /** `platform && platformsToShow.includes(platform)`: an empty platform is never shown. */
  predicate OnShownPlatform(platforms: seq<string>, d: Departure) {
    PlatformOf(d).Some? && PlatformOf(d).value != "" && PlatformOf(d).value in platforms
  }

  function FilterByTransportationTypes(ds: seq<Departure>, included: seq<string>): (r: seq<Departure>)
    ensures IsSubsequence(r, ds)
    ensures forall d :: multiset(r)[d] == if HasIncludedType(included, d) then multiset(ds)[d] else 0
  {
    var keep := d => HasIncludedType(included, d);
    FilterSpec(ds, keep);
    Filter(ds, keep)
  }

  function FilterByIgnoredLines(ds: seq<Departure>, ignored: seq<string>): (r: seq<Departure>)
    ensures IsSubsequence(r, ds)
    ensures forall d :: multiset(r)[d] == if OnIgnoredLine(ignored, d) then 0 else multiset(ds)[d]
  {
    var keep := d => !OnIgnoredLine(ignored, d);
    FilterSpec(ds, keep);
    Filter(ds, keep)
  }

  function FilterByStopId(ds: seq<Departure>, stationId: string): (r: seq<Departure>)
    ensures IsSubsequence(r, ds)
    ensures forall d :: multiset(r)[d] == if AtStation(stationId, d) then multiset(ds)[d] else 0
  {
    var keep := d => AtStation(stationId, d);
    FilterSpec(ds, keep);
    Filter(ds, keep)
  }

  function FilterByExcludedDirections(ds: seq<Departure>, excluded: seq<string>): (r: seq<Departure>)
    ensures excluded == [] ==> r == ds
    ensures IsSubsequence(r, ds)
    ensures forall d :: multiset(r)[d] == if HasExcludedDirection(excluded, d) then 0 else multiset(ds)[d]
  {
    if excluded == [] then
      FilterSpec(ds, d => true);
      FilterAll(ds, d => true);
      ds
    else
      var keep := d => !HasExcludedDirection(excluded, d);
      FilterSpec(ds, keep);
      Filter(ds, keep)
  }

  function FilterByPlatforms(ds: seq<Departure>, platforms: seq<string>): (r: seq<Departure>)
    ensures platforms == [] ==> r == ds
    ensures IsSubsequence(r, ds)
    ensures forall d :: multiset(r)[d]
                     == if platforms == [] || OnShownPlatform(platforms, d) then multiset(ds)[d] else 0
  {
    if platforms == [] then
      FilterSpec(ds, d => true);
      FilterAll(ds, d => true);
      ds
    else
      var keep := d => OnShownPlatform(platforms, d);
      FilterSpec(ds, keep);
      Filter(ds, keep)
  }

  /** The five filters of `applyAllFilters`, in the source's order. */
  function FilterChain(c: FetcherConfig, ds: seq<Departure>): seq<Departure> {
    var byType := FilterByTransportationTypes(ds, c.includedTransportationTypes);
    var byLine := FilterByIgnoredLines(byType, c.ignoredLines);
    var byStop := if c.ignoreRelatedStations then FilterByStopId(byLine, c.stationId) else byLine;
    var byDirection := FilterByExcludedDirections(byStop, c.excludeDirections);
    FilterByPlatforms(byDirection, c.platformsToShow)
  }

  /** A record survives the chain exactly when it passes every configured stage. */
  predicate PassesFilters(c: FetcherConfig, d: Departure) {
    && HasIncludedType(c.includedTransportationTypes, d)
    && !OnIgnoredLine(c.ignoredLines, d)
    && (c.ignoreRelatedStations ==> AtStation(c.stationId, d))
    && !HasExcludedDirection(c.excludeDirections, d)
    && (c.platformsToShow == [] || OnShownPlatform(c.platformsToShow, d))
  }

  /**
   * The chain is one order-preserving filter by the conjunction of its
   * stages: its output is a subsequence of its input holding every
   * occurrence of each record that passes all of them, and nothing else.
   */
  lemma FilterChainSpec(c: FetcherConfig, ds: seq<Departure>)
    ensures IsSubsequence(FilterChain(c, ds), ds)
    ensures forall d :: multiset(FilterChain(c, ds))[d]
                     == if PassesFilters(c, d) then multiset(ds)[d] else 0
  {
    var byType := FilterByTransportationTypes(ds, c.includedTransportationTypes);
    var byLine := FilterByIgnoredLines(byType, c.ignoredLines);
    var byStop := if c.ignoreRelatedStations then FilterByStopId(byLine, c.stationId) else byLine;
    var byDirection := FilterByExcludedDirections(byStop, c.excludeDirections);
    var out := FilterByPlatforms(byDirection, c.platformsToShow);
    SubsequenceTransitive(byLine, byType, ds);
    if c.ignoreRelatedStations {
      SubsequenceTransitive(byStop, byLine, ds);
    }
    SubsequenceTransitive(byDirection, byStop, ds);
    SubsequenceTransitive(out, byDirection, ds);
  }
}
