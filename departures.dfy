/**
 * Departure records as the upstream transit client returns them, and the
 * derived values the pipeline reads from them: the effective time, the sort
 * key and the deduplication key.
 *
 * Timestamps are epoch milliseconds. `Some(t)` stands for a present, non-empty
 * ISO string (truthy in JavaScript); `None` for null, undefined or "".
 */
module Departures {
  import opened Options
  import opened Seqs

  const MsPerMinute: int := 60000

  datatype Line = Line(id: Option<string>, name: string, product: string)

  datatype Stop = Stop(id: Option<string>, name: string)

  datatype Departure = Departure(
    tripId: Option<string>,
    when: Option<int>,            // real-time departure
    plannedWhen: Option<int>,     // scheduled departure
    line: Line,
    direction: Option<string>,    // destination name
    stop: Stop,
    platform: Option<string>,     // real-time platform
    plannedPlatform: Option<string>,
    isReachable: Option<bool>)    // absent until the reachability stage marks it

  /** JavaScript truthiness of an optional string: absent and "" are falsy. */
  predicate Truthy(s: Option<string>) {
    s.Some? && s.value != ""
  }

  /** `when || plannedWhen`: the real-time value if present, else the scheduled one. */
  function EffectiveTime(d: Departure): Option<int> {
    if d.when.Some? then d.when else d.plannedWhen
  }

  /** `when || plannedWhen || 0`: the value departures are sorted by. */
  function SortKey(d: Departure): int {
    EffectiveTime(d).GetOr(0)
  }

  /** Identity part of the deduplication key: `tripId || line.id || "unknown"`. */
  function Identity(d: Departure): string {
    if Truthy(d.tripId) then d.tripId.value
    else if Truthy(d.line.id) then d.line.id.value
    else "unknown"
  }

  /** Stop part of the deduplication key: `stop.id || ""`. */
  function StopIdOrEmpty(d: Departure): string {
    if Truthy(d.stop.id) then d.stop.id.value else ""
  }

  datatype DedupeKey = DedupeKey(identity: string, time: Option<int>, stopId: string)

  /** The (trip-or-line, effective time, stop) triple two records are duplicates on. */
  function Key(d: Departure): DedupeKey {
    DedupeKey(Identity(d), EffectiveTime(d), StopIdOrEmpty(d))
  }

  /**
   * The sort key is the real-time departure when present, else the scheduled
   * one, else 0 (the epoch).
   */
  lemma SortKeyFallback(d: Departure)
    ensures d.when.Some? ==> SortKey(d) == d.when.value
    ensures d.when.None? && d.plannedWhen.Some? ==> SortKey(d) == d.plannedWhen.value
    ensures d.when.None? && d.plannedWhen.None? ==> SortKey(d) == 0
  {
  }

  /**
   * The identity part of the key is never empty and prefers a non-empty trip
   * id, then a non-empty line id; the time part is the effective time; the
   * stop part is empty exactly when the stop has no non-empty id.
   */
  lemma KeyParts(d: Departure)
    ensures Key(d).identity != ""
    ensures Truthy(d.tripId) ==> Key(d).identity == d.tripId.value
    ensures !Truthy(d.tripId) && Truthy(d.line.id) ==> Key(d).identity == d.line.id.value
    ensures !Truthy(d.tripId) && !Truthy(d.line.id) ==> Key(d).identity == "unknown"
    ensures Key(d).time == EffectiveTime(d)
    ensures Key(d).stopId == "" <==> !Truthy(d.stop.id)
    ensures Truthy(d.stop.id) ==> Key(d).stopId == d.stop.id.value
  {
  }

  /** `!!departure.isReachable`: only an explicit `true` counts as reachable. */
  predicate MarkedReachable(d: Departure) {
    d.isReachable == Some(true)
  }

  predicate TimeOrdered(a: Departure, b: Departure) {
    SortKey(a) <= SortKey(b)
  }

  predicate DistinctKeys(a: Departure, b: Departure) {
    Key(a) != Key(b)
  }

  /** Non-decreasing in `when || plannedWhen || 0`. */
  ghost predicate Sorted(s: seq<Departure>) {
    Pairwise(s, TimeOrdered)
  }

  /** No two records share a deduplication key. */
  ghost predicate UniqueKeys(s: seq<Departure>) {
    Pairwise(s, DistinctKeys)
  }

  /**
   * A record whose real-time field is missing is treated exactly like one
   * carrying its scheduled time in the real-time field: same sort key, same
   * deduplication key.
   */
  lemma PlannedWhenStandsInForWhen(d: Departure)
    requires d.when.None?
    ensures SortKey(d) == SortKey(d.(when := d.plannedWhen))
    ensures Key(d) == Key(d.(when := d.plannedWhen))
  {
  }
}
