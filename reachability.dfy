/**
 * The last three stages of a fetch cycle: marking each record reachable or
 * not (`isReachable`, `departuresMarkedWithReachability`), trimming surplus
 * unreachable records (`departuresRemovedSurplusUnreachableDepartures`) and
 * the final cap (`slice(0, maxReachable + maxUnreachable)`).
 */
module Reachability {
  import opened Options
  import opened Seqs
  import opened Departures

  /** `now + timeToStation` minutes: the earliest instant the station can be reached. */
  function ReachableTime(now: int, timeToStation: int): (r: int)
    ensures (r - now) % MsPerMinute == 0 && (r - now) / MsPerMinute == timeToStation
    ensures timeToStation >= 0 ==> r >= now
  {
    now + timeToStation * MsPerMinute
  }

  /**
   * A record with neither `when` nor `plannedWhen` is unreachable; otherwise
   * it is reachable when its effective time is not before `reachableTime`.
   */
  function IsReachable(d: Departure, reachableTime: int): (b: bool)
    ensures EffectiveTime(d).None? ==> !b
    ensures b <==> SortKey(d) >= reachableTime && (d.when.Some? || d.plannedWhen.Some?)
  {
    match EffectiveTime(d)
    case None => false
    case Some(t) => t >= reachableTime
  }

  /** The reachability boundary is inclusive, and later records stay reachable. */
  lemma ReachabilityBoundary(d: Departure, reachableTime: int)
    ensures EffectiveTime(d) == Some(reachableTime) ==> IsReachable(d, reachableTime)
    ensures IsReachable(d, reachableTime) <==> EffectiveTime(d).Some? && SortKey(d) >= reachableTime
  {
  }

  /** Only the real-time value is consulted when present; the scheduled one stands in otherwise. */
  lemma ReachabilityUsesEffectiveTime(d: Departure, reachableTime: int)
    ensures d.when.None? ==> IsReachable(d, reachableTime) == IsReachable(d.(when := d.plannedWhen), reachableTime)
    ensures d.when.Some? ==> IsReachable(d, reachableTime) == IsReachable(d.(plannedWhen := None), reachableTime)
  {
  }

  function Marked(d: Departure, reachableTime: int): Departure {
    d.(isReachable := Some(IsReachable(d, reachableTime)))
  }

  /** Every record, with `isReachable` set and nothing else changed. */
  function MarkAll(ds: seq<Departure>, reachableTime: int): (r: seq<Departure>)
    ensures |r| == |ds|
    ensures forall i :: 0 <= i < |ds| ==>
              && r[i].isReachable == Some(IsReachable(ds[i], reachableTime))
              && r[i].(isReachable := ds[i].isReachable) == ds[i]
  {
    seq(|ds|, i requires 0 <= i < |ds| => Marked(ds[i], reachableTime))
  }

  /** Marking changes neither the sort key nor the deduplication key. */
  lemma MarkAllKeepsKeys(ds: seq<Departure>, reachableTime: int)
    ensures Sorted(ds) ==> Sorted(MarkAll(ds, reachableTime))
    ensures UniqueKeys(ds) ==> UniqueKeys(MarkAll(ds, reachableTime))
    ensures forall i :: 0 <= i < |ds| ==>
              MarkedReachable(MarkAll(ds, reachableTime)[i]) == IsReachable(ds[i], reachableTime)
  {
    var r := MarkAll(ds, reachableTime);
    assert forall i :: 0 <= i < |ds| ==> r[i] == Marked(ds[i], reachableTime);
    assert forall i :: 0 <= i < |ds| ==> Key(r[i]) == Key(ds[i]) && SortKey(r[i]) == SortKey(ds[i]);
  }

  predicate MarkedUnreachable(d: Departure) {
    !MarkedReachable(d)
  }

  /** `departures.filter((departure) => !departure.isReachable)` */
  function Unreachables(ds: seq<Departure>): seq<Departure> {
    Filter(ds, MarkedUnreachable)
  }

  /** `departures.filter((departure) => departure.isReachable)` */
  function Reachables(ds: seq<Departure>): seq<Departure> {
    Filter(ds, MarkedReachable)
  }

  function Min(a: int, b: int): int {
    if a <= b then a else b
  }

  /**
   * The number of records `splice(0, len - max)` removes: JavaScript clamps
   * the delete count to `[0, len]`.
   */
  function SurplusCount(len: nat, max: int): (k: nat)
    ensures k <= len
    ensures max >= 0 ==> len - k == Min(len, max)
    ensures max < 0 ==> k == len
  {
    if len - max < 0 then 0 else if len - max > len then len else len - max
  }

  /**
   * The unreachable records, without their `SurplusCount` earliest ones,
   * followed by all reachable records.
   */
  function TrimSurplus(ds: seq<Departure>, maxUnreachable: int): seq<Departure> {
    var u := Unreachables(ds);
    u[SurplusCount(|u|, maxUnreachable)..] + Reachables(ds)
  }

  /**
   * Trimming keeps the LAST `min(u, maxUnreachable)` unreachable records in
   * order, then every reachable record in order.
   */
  lemma TrimSurplusKeeps(ds: seq<Departure>, maxUnreachable: int)
    ensures var u := Unreachables(ds);
            var kept := if maxUnreachable <= 0 then 0 else Min(|u|, maxUnreachable);
            Unreachables(TrimSurplus(ds, maxUnreachable)) == u[|u| - kept..]
    ensures Reachables(TrimSurplus(ds, maxUnreachable)) == Reachables(ds)
    ensures maxUnreachable >= 0 ==> |Unreachables(TrimSurplus(ds, maxUnreachable))| <= maxUnreachable
  {
    var u, r := Unreachables(ds), Reachables(ds);
    var k := SurplusCount(|u|, maxUnreachable);
    var tail := u[k..];
    var kept := if maxUnreachable <= 0 then 0 else Min(|u|, maxUnreachable);
    assert k == |u| - kept;
    assert TrimSurplus(ds, maxUnreachable) == tail + r;
    assert forall x <- tail :: x in u;
    FilterAppend(tail, r, MarkedUnreachable);
    FilterAll(tail, MarkedUnreachable);
    FilterNone(r, MarkedUnreachable);
    assert Unreachables(tail + r) == tail;
    FilterAppend(tail, r, MarkedReachable);
    FilterNone(tail, MarkedReachable);
    FilterAll(r, MarkedReachable);
    assert Reachables(tail + r) == r;
  }

  /** No reachable record comes before an unreachable one. */
  lemma TrimSurplusOrder(ds: seq<Departure>, maxUnreachable: int)
    ensures var t := TrimSurplus(ds, maxUnreachable);
            forall i, j :: 0 <= i < j < |t| && MarkedReachable(t[i]) ==> MarkedReachable(t[j])
  {
    var u, r := Unreachables(ds), Reachables(ds);
    var tail := u[SurplusCount(|u|, maxUnreachable)..];
    var t := tail + r;
    assert TrimSurplus(ds, maxUnreachable) == t;
    forall i, j | 0 <= i < j < |t| && MarkedReachable(t[i]) ensures MarkedReachable(t[j]) {
      assert t[j] == r[j - |tail|] && t[j] in r;
    }
  }

  /** Trimming only drops records. */
  lemma TrimSurplusMultiset(ds: seq<Departure>, maxUnreachable: int)
    ensures multiset(TrimSurplus(ds, maxUnreachable)) <= multiset(ds)
  {
    var u, r := Unreachables(ds), Reachables(ds);
    var k := SurplusCount(|u|, maxUnreachable);
    PartitionMultiset(ds);
    assert u == u[..k] + u[k..];
    assert multiset(u) == multiset(u[..k]) + multiset(u[k..]);
  }

  /** The unreachable and reachable records together are all the records. */
  lemma {:induction false} PartitionMultiset(ds: seq<Departure>)
    ensures multiset(Unreachables(ds)) + multiset(Reachables(ds)) == multiset(ds)
  {
    if ds != [] {
      PartitionMultiset(ds[1..]);
      assert ds == [ds[0]] + ds[1..];
    }
  }

  /** `slice(0, n)`: the first `n` records, where a negative `n` counts from the end. */
  function Cap(s: seq<Departure>, n: int): (r: seq<Departure>)
    ensures |r| <= |s| && r == s[..|r|]
    ensures n >= 0 ==> |r| == Min(|s|, n)
    ensures n < 0 ==> |r| == if |s| + n < 0 then 0 else |s| + n
  {
    var end := if n < 0 then (if |s| + n < 0 then 0 else |s| + n) else Min(|s|, n);
    s[..end]
  }

  /** Capping keeps no more unreachable records than it was given. */
  lemma CapUnreachables(s: seq<Departure>, n: int)
    ensures |Unreachables(Cap(s, n))| <= |Unreachables(s)|
  {
    var r := Cap(s, n);
    assert s == r + s[|r|..];
    FilterAppend(r, s[|r|..], MarkedUnreachable);
  }
}
