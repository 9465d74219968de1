/**
 * `sanitizeConfig`: a copy of the module configuration with five numeric
 * settings clamped into range. A setting that is absent (`undefined`) stays
 * absent: every JavaScript comparison with `undefined` is false, so no clamp
 * fires on it.
 */
module ConfigValidator {
  import opened Options

  const MinUpdatesEvery: int := 30        // seconds
  const MinTimeInFutureMargin: int := 30  // minutes beyond the walk to the station

  /**
   * The five settings the validator reads; every other setting is carried in
   * `otherFields` (its values abstracted to strings).
   */
  datatype ModuleConfig = ModuleConfig(
    updatesEvery: Option<int>,
    timeToStation: Option<int>,
    timeInFuture: Option<int>,
    maxUnreachableDepartures: Option<int>,
    maxReachableDepartures: Option<int>,
    otherFields: map<string, string>)

  /** `if (v < lo) v = lo`, where an absent `v` compares false. */
  function AtLeast(v: Option<int>, lo: int): (r: Option<int>)
    ensures r.Some? <==> v.Some?
    ensures v.Some? ==> r.value >= lo && r.value >= v.value
    ensures v.Some? ==> (r.value == v.value || r.value == lo)
  {
    if v.Some? && v.value < lo then Some(lo) else v
  }

  /** A copy of `c` with the five settings clamped; every setting the validator does not read is copied through. */
  function SanitizeConfig(c: ModuleConfig, defaults: ModuleConfig): (r: ModuleConfig)
    ensures r.otherFields == c.otherFields
    ensures r.updatesEvery.Some? <==> c.updatesEvery.Some?
    ensures r.timeToStation.Some? <==> c.timeToStation.Some?
    ensures r.maxUnreachableDepartures.Some? <==> c.maxUnreachableDepartures.Some?
    ensures r.timeInFuture.Some? <==> c.timeInFuture.Some?
    ensures c.maxReachableDepartures.Some? && c.maxReachableDepartures.value < 0 ==>
              (r.maxReachableDepartures.Some? <==> defaults.maxReachableDepartures.Some?)
    ensures c.maxReachableDepartures.None? || c.maxReachableDepartures.value >= 0 ==>
              (r.maxReachableDepartures.Some? <==> c.maxReachableDepartures.Some?)
  {
    var updatesEvery := AtLeast(c.updatesEvery, MinUpdatesEvery);
    var timeToStation := AtLeast(c.timeToStation, 0);
    var timeInFuture :=
      if timeToStation.Some? then AtLeast(c.timeInFuture, timeToStation.value + MinTimeInFutureMargin)
      else c.timeInFuture;
    var maxUnreachable := AtLeast(c.maxUnreachableDepartures, 0);
    var maxReachable :=
      if c.maxReachableDepartures.Some? && c.maxReachableDepartures.value < 0 then defaults.maxReachableDepartures
      else c.maxReachableDepartures;
    c.(updatesEvery := updatesEvery, timeToStation := timeToStation, timeInFuture := timeInFuture,
       maxUnreachableDepartures := maxUnreachable, maxReachableDepartures := maxReachable)
  }

  /** The update interval is raised to 30 seconds; 30 and above are kept. */
  lemma SanitizeUpdatesEvery(c: ModuleConfig, defaults: ModuleConfig)
    ensures var r := SanitizeConfig(c, defaults);
            && (c.updatesEvery.None? ==> r.updatesEvery.None?)
            && (c.updatesEvery.Some? && c.updatesEvery.value < 30 ==> r.updatesEvery == Some(30))
            && (c.updatesEvery.Some? && c.updatesEvery.value >= 30 ==> r.updatesEvery == c.updatesEvery)
  {
  }

  /** A negative walking time becomes 0; other values are kept. */
  lemma SanitizeTimeToStation(c: ModuleConfig, defaults: ModuleConfig)
    ensures var r := SanitizeConfig(c, defaults);
            && (c.timeToStation.None? ==> r.timeToStation.None?)
            && (c.timeToStation.Some? && c.timeToStation.value < 0 ==> r.timeToStation == Some(0))
            && (c.timeToStation.Some? && c.timeToStation.value >= 0 ==> r.timeToStation == c.timeToStation)
  {
  }

  /**
   * The query duration is at least the (clamped) walking time plus 30
   * minutes, and a duration that already reaches it is kept. Without a
   * walking time the duration is left alone.
   */
  lemma SanitizeTimeInFuture(c: ModuleConfig, defaults: ModuleConfig)
    ensures var r := SanitizeConfig(c, defaults);
            && (r.timeInFuture.Some? <==> c.timeInFuture.Some?)
            && (c.timeToStation.None? ==> r.timeInFuture == c.timeInFuture)
            && (c.timeToStation.Some? && c.timeInFuture.Some? ==>
                  && r.timeInFuture.value >= r.timeToStation.value + 30
                  && (c.timeInFuture.value >= r.timeToStation.value + 30 ==> r.timeInFuture == c.timeInFuture)
                  && (c.timeInFuture.value < r.timeToStation.value + 30 ==>
                        r.timeInFuture == Some(r.timeToStation.value + 30)))
  {
  }

  /** A negative number of unreachable records becomes 0; other values are kept. */
  lemma SanitizeMaxUnreachable(c: ModuleConfig, defaults: ModuleConfig)
    ensures var r := SanitizeConfig(c, defaults);
            && (c.maxUnreachableDepartures.None? ==> r.maxUnreachableDepartures.None?)
            && (c.maxUnreachableDepartures.Some? && c.maxUnreachableDepartures.value < 0 ==>
                  r.maxUnreachableDepartures == Some(0))
            && (c.maxUnreachableDepartures.Some? && c.maxUnreachableDepartures.value >= 0 ==>
                  r.maxUnreachableDepartures == c.maxUnreachableDepartures)
  {
  }

  /** A negative number of reachable records is replaced by the default; other values are kept. */
  lemma SanitizeMaxReachable(c: ModuleConfig, defaults: ModuleConfig)
    ensures var r := SanitizeConfig(c, defaults);
            && (c.maxReachableDepartures.Some? && c.maxReachableDepartures.value < 0 ==>
                  r.maxReachableDepartures == defaults.maxReachableDepartures)
            && (c.maxReachableDepartures.None? || c.maxReachableDepartures.value >= 0 ==>
                  r.maxReachableDepartures == c.maxReachableDepartures)
  {
  }

  /** Every present clamped setting lies in its range. */
  predicate InRange(c: ModuleConfig) {
    && (c.updatesEvery.Some? ==> c.updatesEvery.value >= MinUpdatesEvery)
    && (c.timeToStation.Some? ==> c.timeToStation.value >= 0)
    && (c.timeToStation.Some? && c.timeInFuture.Some? ==>
          c.timeInFuture.value >= c.timeToStation.value + MinTimeInFutureMargin)
    && (c.maxUnreachableDepartures.Some? ==> c.maxUnreachableDepartures.value >= 0)
    && (c.maxReachableDepartures.Some? ==> c.maxReachableDepartures.value >= 0)
  }

  /** With a non-negative default, the result is in range whatever the input. */
  lemma SanitizeInRange(c: ModuleConfig, defaults: ModuleConfig)
    requires defaults.maxReachableDepartures.Some? ==> defaults.maxReachableDepartures.value >= 0
    ensures InRange(SanitizeConfig(c, defaults))
  {
  }

  /** A configuration already in range comes back unchanged. */
  lemma SanitizeKeepsInRange(c: ModuleConfig, defaults: ModuleConfig)
    requires InRange(c)
    ensures SanitizeConfig(c, defaults) == c
  {
  }

  /**
   * Sanitising twice is sanitising once. This holds even for a negative
   * default: the second pass resets the (negative) default to the default.
   */
  lemma SanitizeIdempotent(c: ModuleConfig, defaults: ModuleConfig)
    ensures SanitizeConfig(SanitizeConfig(c, defaults), defaults) == SanitizeConfig(c, defaults)
  {
  }

  /** All five settings out of range at once, against the defaults 120/10/40/0/7. */
  lemma SanitizeAllInvalid()
    ensures var defaults := ModuleConfig(Some(120), Some(10), Some(40), Some(0), Some(7), map[]);
            var c := ModuleConfig(Some(-5), Some(-10), Some(5), Some(-3), Some(-1), map[]);
            SanitizeConfig(c, defaults) == ModuleConfig(Some(30), Some(0), Some(30), Some(0), Some(7), map[])
  {
  }

  /** Valid settings and an unrelated setting pass through untouched. */
  lemma SanitizeAllValid()
    ensures var defaults := ModuleConfig(Some(120), Some(10), Some(40), Some(0), Some(7), map[]);
            var c := ModuleConfig(Some(120), Some(10), Some(60), Some(3), Some(10), map["customField" := "preserved"]);
            SanitizeConfig(c, defaults) == c
  {
  }
}
