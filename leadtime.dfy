/**
 * The adaptive lead time: how many minutes before the reachable time a
 * query starts, tuned after every cycle by `adjustLeadTime`.
 */
module LeadTime {

  const InitialLeadTime: int := 20

  /** `Math.round(x / 2)`: the integer nearest to x/2, halves rounded up. */
  function HalfRounded(x: int): (r: int)
    ensures x <= 2 * r <= x + 1
  {
    (x + 1) / 2
  }

  /**
   * Too many unreachable records: shrink to `round(leadTime / 2) + 1`.
   * Otherwise grow by 5 while the lead time is at most 45.
   */
  function NextLeadTime(leadTime: int, unreachableCount: nat, maxUnreachable: int): int {
    if unreachableCount > maxUnreachable then HalfRounded(leadTime) + 1
    else if leadTime <= 45 then leadTime + 5
    else leadTime
  }

  /** Shrinking narrows the window once it is longer than three minutes; growing widens it. */
  lemma NextLeadTimeDirection(leadTime: int, unreachableCount: nat, maxUnreachable: int)
    ensures unreachableCount > maxUnreachable && leadTime >= 4 ==>
              NextLeadTime(leadTime, unreachableCount, maxUnreachable) < leadTime
    ensures unreachableCount <= maxUnreachable ==>
              NextLeadTime(leadTime, unreachableCount, maxUnreachable) >= leadTime
  {
  }

  lemma NextLeadTimeExamples()
    ensures NextLeadTime(20, 5, 3) == 11
    ensures NextLeadTime(20, 2, 3) == 25
    ensures NextLeadTime(46, 2, 3) == 46
    ensures NextLeadTime(45, 2, 3) == 50
  {
  }

  /** One adjustment keeps the lead time within `[1, 50]`. */
  lemma NextLeadTimeInRange(leadTime: int, unreachableCount: nat, maxUnreachable: int)
    requires 1 <= leadTime <= 50
    ensures 1 <= NextLeadTime(leadTime, unreachableCount, maxUnreachable) <= 50
  {
  }

  /** The lead time after one adjustment per cycle, given each cycle's unreachable count. */
  function LeadTimeAfter(leadTime: int, unreachableCounts: seq<nat>, maxUnreachable: int): int
    decreases |unreachableCounts|
  {
    if unreachableCounts == [] then leadTime
    else LeadTimeAfter(NextLeadTime(leadTime, unreachableCounts[0], maxUnreachable),
                       unreachableCounts[1..], maxUnreachable)
  }

  /** Starting from 20, no sequence of cycles drives the lead time out of `[1, 50]`. */
  lemma {:induction false} LeadTimeBounded(leadTime: int, unreachableCounts: seq<nat>, maxUnreachable: int)
    requires 1 <= leadTime <= 50
    ensures 1 <= LeadTimeAfter(leadTime, unreachableCounts, maxUnreachable) <= 50
    decreases |unreachableCounts|
  {
    if unreachableCounts != [] {
      NextLeadTimeInRange(leadTime, unreachableCounts[0], maxUnreachable);
      LeadTimeBounded(NextLeadTime(leadTime, unreachableCounts[0], maxUnreachable),
                      unreachableCounts[1..], maxUnreachable);
    }
  }

  lemma InitialLeadTimeBounded(unreachableCounts: seq<nat>, maxUnreachable: int)
    ensures 1 <= LeadTimeAfter(InitialLeadTime, unreachableCounts, maxUnreachable) <= 50
  {
    LeadTimeBounded(InitialLeadTime, unreachableCounts, maxUnreachable);
  }
}
