# Departure fetching core of MMM-PublicTransportHafas, in Dafny

This project models the data pipeline behind the MagicMirror² module
MMM-PublicTransportHafas: one fetch cycle of `DepartureFetcher`, plus the
configuration clamp `sanitizeConfig`.

A fetch cycle queries one station for each configured direction. It then:

- merges the settled results;
- sorts the records by their effective departure time (`when || plannedWhen`);
- drops duplicates on the (trip-or-line, time, stop) key;
- applies the configured filters (transport type, ignored lines, related stations, excluded directions, platforms);
- marks each record reachable or unreachable, given the walking time to the station;
- keeps only the latest few unreachable records ahead of the reachable ones, and caps the list;
- adjusts the adaptive lead time that sets how far back the next query starts.

Modules, one per concern:

- `Options`: the `Option` datatype.
- `Seqs`: order-preserving filtering, the subsequence relation and pairwise order.
- `Departures`: the record, its effective time, sort key and deduplication key.
- `Results`: merging settled per-direction results (`processResults`).
- `Sorting`: `sortDepartures`.
- `Dedup`: `removeDuplicates`.
- `Filters`: the configuration the fetcher reads, `getArrayDiff` and the five `filterBy*` stages.
- `Reachability`: `isReachable`, marking, trimming surplus unreachable records, the final cap.
- `LeadTime`: `adjustLeadTime`'s rule.
- `Fetcher`: the `DepartureFetcher` class (mutable `config` and `leadTime`) and the whole-cycle properties.
- `ConfigValidator`: `sanitizeConfig`.

Timestamps are integers (epoch milliseconds). `None` stands for a timestamp
that is null, undefined or the empty string; all of those are falsy in
JavaScript. The current time is a parameter `now`. The upstream queries are
not modelled: a cycle receives their settled outcomes (`Fulfilled` payload or
`Rejected` reason) in direction order.

When every direction fails the cycle does not fail:
core/DepartureFetcher.mjs:101-103 only logs the failures and the cycle
carries on with an empty list (`Results.AllRejectedYieldsNoDepartures`).

## Model

| member | source | states |
|---|---|---|
| Filters.ArrayDiff | core/DepartureFetcher.mjs:24-26 | the result keeps the order of the first list and holds exactly the occurrences of its elements that are not in the second list |
| Fetcher.DepartureFetcher.constructor | core/DepartureFetcher.mjs:46-49 | the fetcher keeps the configuration it was given and starts with a lead time of 20 minutes, inside the range 1..50 |
| Fetcher.DepartureFetcher.Init | core/DepartureFetcher.mjs:79-82 | `includedTransportationTypes` becomes the profile's transport types minus the excluded ones; no other setting changes |
| Fetcher.QueryDirections | core/DepartureFetcher.mjs:94-96 | one query per configured direction, in order; with no directions, a single unfiltered query |
| Fetcher.DepartureFetcher.FetchDepartures | core/DepartureFetcher.mjs:93-111 | the cycle returns merge, sort, dedupe, filters, marking, trimming and cap applied in that order; the lead time is adjusted once from the number of unreachable records; for non-negative settings (which `sanitizeConfig` guarantees) the result holds at most maxReachable + maxUnreachable records, at most maxUnreachable of them unreachable; no two records share a key |
| Results.ProcessResults | core/DepartureFetcher.mjs:139-164 | the loop returns the concatenation, in result order, of every fulfilled payload's records (a bare list, else `.departures`, else nothing), and one failure per rejected result |
| Results.MergedMembership | core/DepartureFetcher.mjs:143-153 | a record is in the merged list if and only if some fulfilled result's payload holds it |
| Results.FailuresAreRejections | core/DepartureFetcher.mjs:154-160 | every rejected result yields a failure carrying its direction and reason; every failure comes from a rejected result |
| Results.NoRejectionNoFailure | core/DepartureFetcher.mjs:143-161 | when every result is fulfilled there are no failures, even if some payloads are empty |
| Results.AllRejectedYieldsNoDepartures | core/DepartureFetcher.mjs:99-107 | when every direction fails, the cycle goes on with no records and one failure per direction; it does not fail |
| Sorting.SortDepartures | core/DepartureFetcher.mjs:173-179 | the result is a permutation of the input, non-decreasing in the effective time (`when`, else `plannedWhen`, else 0); the input is a value and is left as it was |
| Sorting.SortStable | core/DepartureFetcher.mjs:174-178 | records with equal sort keys keep their relative order |
| Departures.SortKeyFallback | core/DepartureFetcher.mjs:175-176 | the sort key is `when` when present, else `plannedWhen`, else 0 |
| Departures.KeyParts | core/DepartureFetcher.mjs:190 | the key is (non-empty trip id, else non-empty line id, else "unknown"; the effective time; the stop id, or "" when it has no non-empty one) |
| Departures.PlannedWhenStandsInForWhen | core/DepartureFetcher.mjs:175-190 | a record without a real-time time sorts and deduplicates exactly as if its scheduled time were the real-time one |
| Dedup.RemoveDuplicates | core/DepartureFetcher.mjs:187-198 | the loop with its `seen` set computes the first-occurrence reference `KeepFirst`; the result is an order-preserving subsequence with pairwise distinct keys |
| Dedup.KeepFirstUnique | core/DepartureFetcher.mjs:190-196 | no two kept records share a (trip-or-line, effective time, stop) key |
| Dedup.KeepFirstSubsequence | core/DepartureFetcher.mjs:189-197 | deduplication only deletes records and keeps the order |
| Dedup.KeepFirstKeys | core/DepartureFetcher.mjs:189-197 | every key of the input still has a record in the output |
| Dedup.FirstOccurrenceKept | core/DepartureFetcher.mjs:191-196 | the first record carrying a key is kept |
| Dedup.KeptIsFirstOccurrence | core/DepartureFetcher.mjs:191-196 | every kept record is the first occurrence of its key in the input |
| Dedup.KeepFirstFixpoint | core/DepartureFetcher.mjs:187-198 | a list whose keys are already distinct comes back unchanged |
| Dedup.RemoveDuplicatesIdempotent | core/DepartureFetcher.mjs:187-198 | deduplicating twice equals deduplicating once |
| Filters.FilterByTransportationTypes | core/DepartureFetcher.mjs:237-243 | order-preserving subsequence that keeps a record exactly when its line's product is among the included types |
| Filters.FilterByIgnoredLines | core/DepartureFetcher.mjs:245-252 | order-preserving subsequence that drops a record exactly when its line name equals an ignored entry |
| Filters.FilterByStopId | core/DepartureFetcher.mjs:264-266 | order-preserving subsequence that keeps a record exactly when its stop id is the station id |
| Filters.FilterByExcludedDirections | core/DepartureFetcher.mjs:268-274 | identity for an empty list; otherwise drops a record exactly when its direction is excluded, keeping order |
| Filters.FilterByPlatforms | core/DepartureFetcher.mjs:276-285 | identity for an empty list; otherwise keeps a record exactly when `platform ?? plannedPlatform` is non-empty and listed, keeping order |
| Filters.FilterChainSpec | core/DepartureFetcher.mjs:200-209 | the chained filters (stop filter only when related stations are ignored) give an order-preserving subsequence holding exactly the records that pass every stage |
| Fetcher.DepartureFetcher.ApplyAllFilters | core/DepartureFetcher.mjs:200-212 | filters, marks and trims in the source's order, and adjusts the lead time from the unreachable records after filtering |
| Fetcher.QueryWindow | core/DepartureFetcher.mjs:214-235 | with unreachable records wanted, the query starts `leadTime` minutes before the reachable time and lasts `leadTime` minutes longer, so its far edge stays at reachable time + timeInFuture; otherwise the window is the plain one |
| Reachability.ReachableTime | core/DepartureFetcher.mjs:224-226 | the reachable time lies exactly `timeToStation` whole minutes after now, never before now for a non-negative walking time |
| Reachability.IsReachable | core/DepartureFetcher.mjs:333-346 | a record without any time is unreachable; otherwise it is reachable exactly when its effective time is at or after the reachable time |
| Fetcher.DepartureFetcher.GetTimeInFuture | core/DepartureFetcher.mjs:228-235 | the configured duration when no unreachable records are wanted; otherwise exactly `leadTime` minutes longer, hence longer for a lead time in 1..50 |
| Fetcher.DepartureFetcher.GetDepartureTime | core/DepartureFetcher.mjs:214-222 | the reachable time when no unreachable records are wanted; never after it for a lead time in 1..50; start + duration always equals reachable time + `timeInFuture` |
| Reachability.ReachabilityBoundary | core/DepartureFetcher.mjs:333-346 | a record is reachable exactly when it has a time and that time is not before now + timeToStation; the boundary itself is reachable |
| Reachability.ReachabilityUsesEffectiveTime | core/DepartureFetcher.mjs:335-341 | the real-time value decides when present, the scheduled one otherwise; with neither the record is unreachable |
| Fetcher.DepartureFetcher.MarkReachability | core/DepartureFetcher.mjs:287-293 | the loop returns every record, in order, with `isReachable` set from its effective time and nothing else changed |
| Reachability.MarkAll | core/DepartureFetcher.mjs:287-293 | same length; each record gets `isReachable` = its reachability, every other field is kept |
| Reachability.MarkAllKeepsKeys | core/DepartureFetcher.mjs:287-293 | marking keeps sort order and key uniqueness, and the marked flag agrees with reachability |
| Fetcher.DepartureFetcher.RemoveSurplusUnreachable | core/DepartureFetcher.mjs:295-317 | returns the kept unreachable records followed by all reachable ones; adjusts the lead time from the unreachable count before trimming |
| Reachability.TrimSurplusKeeps | core/DepartureFetcher.mjs:297-314 | the LAST min(count, maxUnreachable) unreachable records survive in order (none when maxUnreachable ≤ 0); every reachable record survives in order |
| Reachability.TrimSurplusOrder | core/DepartureFetcher.mjs:314 | no reachable record precedes an unreachable one |
| Reachability.TrimSurplusMultiset | core/DepartureFetcher.mjs:295-317 | trimming only drops records |
| Reachability.PartitionMultiset | core/DepartureFetcher.mjs:297-308 | the unreachable and reachable selections together are exactly the input records |
| Reachability.SurplusCount | core/DepartureFetcher.mjs:302-305 | the splice removes `len - max` records clamped to `[0, len]`, leaving min(len, max) when max ≥ 0 and nothing when max < 0 |
| Reachability.Cap | core/DepartureFetcher.mjs:109-110 | `slice(0, n)` gives a prefix of length min(len, n), or of len + n (at least 0) when n is negative |
| Reachability.CapUnreachables | core/DepartureFetcher.mjs:109-110 | the cap never adds unreachable records |
| LeadTime.HalfRounded | core/DepartureFetcher.mjs:327 | `Math.round(x / 2)` is the integer r with x ≤ 2r ≤ x + 1 |
| Fetcher.DepartureFetcher.AdjustLeadTime | core/DepartureFetcher.mjs:319-331 | more unreachable records than wanted: lead time becomes round(leadTime/2) + 1; otherwise it grows by 5 while at most 45; the range 1..50 is kept |
| LeadTime.NextLeadTimeDirection | core/DepartureFetcher.mjs:326-330 | too many unreachable records shrink a lead time of 4 or more; otherwise it never shrinks |
| LeadTime.NextLeadTimeExamples | core/DepartureFetcher.mjs:326-330 | 20 → 11 when over the limit; 20 → 25, 46 → 46 and 45 → 50 when not |
| LeadTime.NextLeadTimeInRange | core/DepartureFetcher.mjs:326-330 | one adjustment keeps a lead time in 1..50 inside 1..50 |
| LeadTime.LeadTimeBounded | core/DepartureFetcher.mjs:319-331 | any sequence of adjustments keeps a lead time in 1..50 inside 1..50 |
| LeadTime.InitialLeadTimeBounded | core/DepartureFetcher.mjs:47 | from the initial 20 minutes, no sequence of cycles drives the lead time out of 1..50 |
| Fetcher.RefinedSortedUnique | core/DepartureFetcher.mjs:105-107 | after sorting, deduplication, filtering and marking the records are still sorted by time and unique on their keys |
| Fetcher.TrimSurplusUniqueKeys | core/DepartureFetcher.mjs:295-317 | trimming a key-unique list leaves it key-unique |
| Fetcher.TrimSurplusSortedBlocks | core/DepartureFetcher.mjs:295-317 | trimming a time-sorted list gives no reachable record before an unreachable one, and each block stays time-sorted |
| Fetcher.PipelineBounds | core/DepartureFetcher.mjs:105-110 | for non-negative settings (which `sanitizeConfig` guarantees) a cycle returns at most maxReachable + maxUnreachable records, of which at most maxUnreachable are unreachable |
| Fetcher.PipelineOrder | core/DepartureFetcher.mjs:105-110 | unreachable records come first; within each block the records are in non-decreasing time order |
| Fetcher.PipelineUniqueKeys | core/DepartureFetcher.mjs:105-110 | no two records of a cycle's result share a key |
| Fetcher.PipelineProvenance | core/DepartureFetcher.mjs:99-110 | every record of a cycle's result is a merged upstream record that passed every filter, with only `isReachable` set |
| ConfigValidator.SanitizeConfig | core/ConfigValidator.mjs:9-39 | the result is a copy: every setting the validator does not read is copied through; the four clamped settings are present afterwards exactly when they were before; a negative `maxReachableDepartures` takes the default's presence (absent when the default has none), any other value keeps its own |
| ConfigValidator.SanitizeUpdatesEvery | core/ConfigValidator.mjs:13-15 | an update interval below 30 seconds becomes 30; 30 and above are kept; an absent one stays absent |
| ConfigValidator.SanitizeTimeToStation | core/ConfigValidator.mjs:18-20 | a negative walking time becomes 0; other values are kept |
| ConfigValidator.SanitizeTimeInFuture | core/ConfigValidator.mjs:24-26 | the query duration is raised to the clamped walking time + 30 when below it and kept otherwise; without a walking time it is left alone |
| ConfigValidator.SanitizeMaxUnreachable | core/ConfigValidator.mjs:29-31 | a negative number of unreachable records becomes 0; other values are kept |
| ConfigValidator.SanitizeMaxReachable | core/ConfigValidator.mjs:34-36 | a negative number of reachable records is replaced by the default's; zero and positive values are kept |
| ConfigValidator.SanitizeInRange | core/ConfigValidator.mjs:9-39 | with a non-negative default, every present setting ends up in its range |
| ConfigValidator.SanitizeKeepsInRange | core/ConfigValidator.mjs:9-39 | a configuration already in range comes back unchanged |
| ConfigValidator.SanitizeIdempotent | core/ConfigValidator.mjs:9-39 | sanitising twice equals sanitising once, for any defaults |
| ConfigValidator.SanitizeAllInvalid | core/ConfigValidator.mjs:9-39 | all five settings out of range (-5, -10, 5, -3, -1) against defaults with 7 reachable give 30, 0, 30, 0, 7 |
| ConfigValidator.SanitizeAllValid | core/ConfigValidator.mjs:9-39 | valid settings and an extra setting pass through untouched |

## Left out

- The upstream queries (`fetchAllDirections`, `Promise.allSettled`, the HAFAS or vendo client) are network I/O; a cycle takes their settled outcomes as a parameter.
- `init`'s dynamic imports and client construction are I/O; only the `getArrayDiff` computation of the included transport types is modelled.
- Fetcher.DepartureFetcher.Init: the source keeps a reference to the caller's config object and writes `includedTransportationTypes` onto it, so the caller sees the change; the model's config is a value, so that aliasing is not captured.
- The clock: the source reads `Temporal.Now` separately for the query window and for every record in `isReachable`; the model uses one `now` per cycle.
- ISO timestamp parsing and `new Date(...)` are replaced by integer milliseconds; unparsable strings are not modelled.
- Departures.Key: the source joins the three key parts into one string with `-`. The model compares the triple, so two different triples that happen to join to the same string are not merged by the model.
- Departures.Key: the time part uses the raw timestamp string in the source; two different strings naming the same instant count as different keys there and as equal here.
- Departures.Key: for a record with no time the source's time part is the text of the falsy value `plannedWhen` holds ("null", "undefined" or ""), so two such records that differ only in that are both kept there; the model maps all three to `None` and keeps only the first.
- Fetcher.DepartureFetcher.MarkReachability: the source writes `isReachable` onto the caller's record objects in place and keeps the last one in `this.departure`; records here are values, so that aliasing is not captured.
- A record without a `line` or `stop` object makes the source throw a TypeError in the type, line and stop filters; the model's records always have both.
- Settings are taken to have the types the module documents; JavaScript's coercion of strings or other values in comparisons is not modelled (ConfigValidator keeps other settings' values abstracted as strings).
- `getIdentifier`, `getStationID` and logging have no effect on the results.
- MMM-PublicTransportHafas.js (frontend, timers, its in-place copy of `sanitizeConfig`), core/TemporalHelper.mjs (date formatting) and the station-query CLI are not part of this model.
- Sorting.SortDepartures: the engine's stable sort is modelled as a stable insertion sort; the result is the same (permutation, sorted, stable), not the engine's algorithm.
