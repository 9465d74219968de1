/**
 * `DepartureFetcher.sortDepartures`: a sorted copy of the merged records,
 * ordered by `when || plannedWhen || 0`. The source copies the array and uses
 * the engine's sort, which is stable; here that is a stable insertion sort on
 * values, so the input is never changed.
 */
module Sorting {
  import opened Seqs
  import opened Departures

  /** Puts `d` before the first element whose sort key is not smaller than its own. */
  function Insert(d: Departure, s: seq<Departure>): (r: seq<Departure>)
    ensures multiset(r) == multiset(s) + multiset{d}
  {
    if s == [] || SortKey(d) <= SortKey(s[0]) then [d] + s
    else
      assert s == [s[0]] + s[1..];
      [s[0]] + Insert(d, s[1..])
  }

  lemma {:induction false} InsertSorted(d: Departure, s: seq<Departure>)
    requires Sorted(s)
    ensures Sorted(Insert(d, s))
  {
    if s != [] && SortKey(d) > SortKey(s[0]) {
      var rest := Insert(d, s[1..]);
      InsertSorted(d, s[1..]);
      var r := Insert(d, s);
      assert r == [s[0]] + rest;
      forall x | x in rest ensures SortKey(s[0]) <= SortKey(x) {
        assert x in multiset(rest);
        if x != d {
          assert x in multiset(s[1..]);
          var k :| 0 <= k < |s[1..]| && s[1..][k] == x;
          assert s[k + 1] == x;
        }
      }
      forall i, j | 0 <= i < j < |r| ensures SortKey(r[i]) <= SortKey(r[j]) {
        assert r[j] == rest[j - 1];
        if i > 0 {
          assert r[i] == rest[i - 1];
        } else {
          assert rest[j - 1] in rest;
        }
      }
    }
  }

  function SortDepartures(ds: seq<Departure>): (r: seq<Departure>)
    ensures multiset(r) == multiset(ds)
    ensures Sorted(r)
  {
    if ds == [] then []
    else
      assert ds == [ds[0]] + ds[1..];
      InsertSorted(ds[0], SortDepartures(ds[1..]));
      Insert(ds[0], SortDepartures(ds[1..]))
  }

  /** Selects the records whose sort key is `k`. */
  function HasSortKey(k: int): Departure -> bool {
    d => SortKey(d) == k
  }

  /** Inserting `d` puts it ahead of every record with the same key. */
  lemma {:induction false} InsertStable(d: Departure, s: seq<Departure>, k: int)
    ensures Filter(Insert(d, s), HasSortKey(k))
         == Filter([d], HasSortKey(k)) + Filter(s, HasSortKey(k))
  {
    var p := HasSortKey(k);
    if s != [] && SortKey(d) > SortKey(s[0]) {
      var rest := Insert(d, s[1..]);
      InsertStable(d, s[1..], k);
      var head := if p(s[0]) then [s[0]] else [];
      var mine := if p(d) then [d] else [];
      assert Filter([d], p) == mine;
      assert head == [] || mine == [];
      assert Insert(d, s) == [s[0]] + rest;
      assert ([s[0]] + rest)[1..] == rest;
      assert Filter(Insert(d, s), p) == head + Filter(rest, p);
      assert Filter(s, p) == head + Filter(s[1..], p);
    } else {
      FilterAppend([d], s, p);
    }
  }

  /**
   * Sorting is stable: the records sharing a sort key keep their relative
   * order. With `Sorted` and the permutation property this fixes the result.
   */
  lemma {:induction false} SortStable(ds: seq<Departure>, k: int)
    ensures Filter(SortDepartures(ds), HasSortKey(k)) == Filter(ds, HasSortKey(k))
  {
    if ds != [] {
      var rest := SortDepartures(ds[1..]);
      SortStable(ds[1..], k);
      InsertStable(ds[0], rest, k);
      FilterAppend([ds[0]], ds[1..], HasSortKey(k));
      assert [ds[0]] + ds[1..] == ds;
      assert SortDepartures(ds) == Insert(ds[0], rest);
    }
  }
}
