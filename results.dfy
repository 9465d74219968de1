/**
 * `DepartureFetcher.processResults`: merging the settled outcome of one
 * upstream query per direction. A fulfilled query carries either a bare list
 * of records or an object with an optional `departures` list; a rejected one
 * becomes a failure tagged with its direction. An empty fulfilled list is
 * only logged, never a failure.
 */
module Results {
  import opened Options
  import opened Departures

  /** The two response shapes of the upstream client. `DepartureObject(None)` also stands for a null value. */
  datatype Payload = DepartureList(items: seq<Departure>) | DepartureObject(departures: Option<seq<Departure>>)

  /** The outcome of one query, as `Promise.allSettled` reports it. */
  datatype Settled = Fulfilled(value: Payload) | Rejected(reason: string)

  datatype Failure = Failure(direction: Option<string>, error: string)

  /** `Array.isArray(value) ? value : value?.departures || []` */
  function PayloadDepartures(p: Payload): seq<Departure> {
    match p
    case DepartureList(items) => items
    case DepartureObject(departures) => departures.GetOr([])
  }

  /** `directions[index]`, which is undefined past the end. */
  function DirectionAt(directions: seq<Option<string>>, i: nat): Option<string> {
    if i < |directions| then directions[i] else None
  }

  /** The records of every fulfilled result, concatenated in result order. */
  function MergedDepartures(results: seq<Settled>): seq<Departure>
    decreases |results|
  {
    if results == [] then []
    else
      var last := results[|results| - 1];
      MergedDepartures(results[..|results| - 1])
        + (if last.Fulfilled? then PayloadDepartures(last.value) else [])
  }

  /** One failure per rejected result, in result order, tagged with that result's direction. */
  function Failures(results: seq<Settled>, directions: seq<Option<string>>): seq<Failure>
    decreases |results|
  {
    if results == [] then []
    else
      var i := |results| - 1;
      Failures(results[..i], directions)
        + (if results[i].Rejected? then [Failure(DirectionAt(directions, i), results[i].reason)] else [])
  }

  method ProcessResults(results: seq<Settled>, directions: seq<Option<string>>)
    returns (departures: seq<Departure>, failures: seq<Failure>)
    ensures departures == MergedDepartures(results)
    ensures failures == Failures(results, directions)
  {
    departures, failures := [], [];
    var index := 0;
    while index < |results|
      invariant 0 <= index <= |results|
      invariant departures == MergedDepartures(results[..index])
      invariant failures == Failures(results[..index], directions)
    {
      assert results[..index + 1][..index] == results[..index];
      var result := results[index];
      match result {
        case Fulfilled(value) =>
          var data := PayloadDepartures(value);
          if |data| > 0 {
            departures := departures + data;
          }
        case Rejected(reason) =>
          failures := failures + [Failure(DirectionAt(directions, index), reason)];
      }
      index := index + 1;
    }
    assert results[..|results|] == results;
  }

  /** A record is merged exactly when some fulfilled result carries it. */
  lemma {:induction false} MergedMembership(results: seq<Settled>, d: Departure)
    ensures d in MergedDepartures(results) <==>
              exists i :: 0 <= i < |results| && results[i].Fulfilled? && d in PayloadDepartures(results[i].value)
    decreases |results|
  {
    if results != [] {
      var init := results[..|results| - 1];
      MergedMembership(init, d);
      if exists i :: 0 <= i < |init| && init[i].Fulfilled? && d in PayloadDepartures(init[i].value) {
        var i :| 0 <= i < |init| && init[i].Fulfilled? && d in PayloadDepartures(init[i].value);
        assert results[i] == init[i];
      }
      if exists i :: 0 <= i < |results| && results[i].Fulfilled? && d in PayloadDepartures(results[i].value) {
        var i :| 0 <= i < |results| && results[i].Fulfilled? && d in PayloadDepartures(results[i].value);
        if i < |init| {
          assert init[i] == results[i];
        }
      }
    }
  }

  /** Every rejected result yields its failure, and every failure comes from a rejected result. */
  lemma {:induction false} FailuresAreRejections(results: seq<Settled>, directions: seq<Option<string>>)
    ensures forall i :: 0 <= i < |results| && results[i].Rejected? ==>
              Failure(DirectionAt(directions, i), results[i].reason) in Failures(results, directions)
    ensures forall f <- Failures(results, directions) :: exists i ::
              0 <= i < |results| && results[i].Rejected? && f == Failure(DirectionAt(directions, i), results[i].reason)
    decreases |results|
  {
    if results != [] {
      var n := |results| - 1;
      var init := results[..n];
      FailuresAreRejections(init, directions);
      forall i | 0 <= i < n ensures results[i] == init[i] {
      }
    }
  }

  /** When no query is rejected there is no failure, even if every list is empty. */
  lemma {:induction false} NoRejectionNoFailure(results: seq<Settled>, directions: seq<Option<string>>)
    requires forall i :: 0 <= i < |results| ==> results[i].Fulfilled?
    ensures Failures(results, directions) == []
    decreases |results|
  {
    if results != [] {
      NoRejectionNoFailure(results[..|results| - 1], directions);
    }
  }

  /**
   * When every query is rejected the merge does not fail: it yields no
   * records and one failure per query.
   */
  lemma {:induction false} AllRejectedYieldsNoDepartures(results: seq<Settled>, directions: seq<Option<string>>)
    requires forall i :: 0 <= i < |results| ==> results[i].Rejected?
    ensures MergedDepartures(results) == []
    ensures |Failures(results, directions)| == |results|
    decreases |results|
  {
    if results != [] {
      AllRejectedYieldsNoDepartures(results[..|results| - 1], directions);
    }
  }
}
