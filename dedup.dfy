/**
 * `DepartureFetcher.removeDuplicates`: drops every record whose
 * (trip-or-line, effective time, stop) key was already seen, keeping the
 * first occurrence. `KeepFirst` is the reference definition; the method
 * is the source's filter with a growing `seen` set.
 */
module Dedup {
  import opened Seqs
  import opened Departures

  /** The keys of the records in `s`. */
  function KeysOf(s: seq<Departure>): set<DedupeKey>
    decreases |s|
  {
    if s == [] then {} else KeysOf(s[..|s| - 1]) + {Key(s[|s| - 1])}
  }

  /** The records of `s` whose key does not occur earlier in `s`, in order. */
  function KeepFirst(s: seq<Departure>): seq<Departure>
    decreases |s|
  {
    if s == [] then []
    else
      var init, last := s[..|s| - 1], s[|s| - 1];
      KeepFirst(init) + (if Key(last) in KeysOf(init) then [] else [last])
  }

  method RemoveDuplicates(ds: seq<Departure>) returns (r: seq<Departure>)
    ensures r == KeepFirst(ds)
    ensures UniqueKeys(r)
    ensures IsSubsequence(r, ds)
  {
    var seen: set<DedupeKey> := {};
    r := [];
    var i := 0;
    while i < |ds|
      invariant 0 <= i <= |ds|
      invariant seen == KeysOf(ds[..i])
      invariant r == KeepFirst(ds[..i])
    {
      var id := Key(ds[i]);
      assert ds[..i + 1][..i] == ds[..i];
      if id !in seen {
        seen := seen + {id};
        r := r + [ds[i]];
      }
      i := i + 1;
    }
    assert ds[..|ds|] == ds;
    KeepFirstUnique(ds);
    KeepFirstSubsequence(ds);
  }

  lemma KeysOfSnoc(s: seq<Departure>, x: Departure)
    ensures KeysOf(s + [x]) == KeysOf(s) + {Key(x)}
  {
    assert (s + [x])[..|s|] == s;
  }

  /** A key is among `KeysOf(s)` exactly when some record of `s` carries it. */
  lemma {:induction false} KeysOfMembership(s: seq<Departure>, k: DedupeKey)
    ensures k in KeysOf(s) <==> exists i :: 0 <= i < |s| && Key(s[i]) == k
    decreases |s|
  {
    if s != [] {
      var init := s[..|s| - 1];
      KeysOfMembership(init, k);
      if k in KeysOf(init) {
        var i :| 0 <= i < |init| && Key(init[i]) == k;
        assert s[i] == init[i];
      }
      if exists i :: 0 <= i < |s| && Key(s[i]) == k {
        var i :| 0 <= i < |s| && Key(s[i]) == k;
        if i < |s| - 1 {
          assert init[i] == s[i];
        }
      }
    }
  }

  /** Every key of the input is represented in the output. */
  lemma {:induction false} KeepFirstKeys(s: seq<Departure>)
    ensures KeysOf(KeepFirst(s)) == KeysOf(s)
    decreases |s|
  {
    if s != [] {
      var init, last := s[..|s| - 1], s[|s| - 1];
      KeepFirstKeys(init);
      assert s == init + [last];
      KeysOfSnoc(init, last);
      if Key(last) !in KeysOf(init) {
        assert KeepFirst(s) == KeepFirst(init) + [last];
        KeysOfSnoc(KeepFirst(init), last);
      } else {
        assert KeepFirst(s) == KeepFirst(init);
      }
    }
  }

  /** No two records of the output share a key. */
  lemma {:induction false} KeepFirstUnique(s: seq<Departure>)
    ensures UniqueKeys(KeepFirst(s))
    decreases |s|
  {
    if s != [] {
      var init, last := s[..|s| - 1], s[|s| - 1];
      KeepFirstUnique(init);
      KeepFirstKeys(init);
      var prev := KeepFirst(init);
      if Key(last) !in KeysOf(init) {
        var r := prev + [last];
        forall i, j | 0 <= i < j < |r| ensures Key(r[i]) != Key(r[j]) {
          if j == |r| - 1 {
            assert r[i] == prev[i];
            KeysOfMembership(prev, Key(r[i]));
          } else {
            assert r[i] == prev[i] && r[j] == prev[j];
          }
        }
      } else {
        assert KeepFirst(s) == prev;
      }
    }
  }

  /** The output is the input with records deleted, never reordered. */
  lemma {:induction false} KeepFirstSubsequence(s: seq<Departure>)
    ensures IsSubsequence(KeepFirst(s), s)
    decreases |s|
  {
    if s != [] {
      var init, last := s[..|s| - 1], s[|s| - 1];
      KeepFirstSubsequence(init);
      assert s == init + [last];
      if Key(last) in KeysOf(init) {
        assert KeepFirst(s) == KeepFirst(init);
        SubsequenceExtend(KeepFirst(init), init, last);
      } else {
        assert KeepFirst(s) == KeepFirst(init) + [last];
        SubsequenceSnoc(KeepFirst(init), init, last);
      }
    }
  }

  /** A sequence without duplicate keys is left as it is. */
  lemma {:induction false} KeepFirstFixpoint(s: seq<Departure>)
    requires UniqueKeys(s)
    ensures KeepFirst(s) == s
    decreases |s|
  {
    if s != [] {
      var init, last := s[..|s| - 1], s[|s| - 1];
      assert UniqueKeys(init) by {
        forall i, j | 0 <= i < j < |init| ensures Key(init[i]) != Key(init[j]) {
          assert init[i] == s[i] && init[j] == s[j];
        }
      }
      KeepFirstFixpoint(init);
      KeysOfMembership(init, Key(last));
      assert s == init + [last];
    }
  }

  /** Removing duplicates twice is the same as removing them once. */
  lemma RemoveDuplicatesIdempotent(s: seq<Departure>)
    ensures KeepFirst(KeepFirst(s)) == KeepFirst(s)
  {
    KeepFirstUnique(s);
    KeepFirstFixpoint(KeepFirst(s));
  }

  /** The first record carrying each key is kept. */
  lemma {:induction false} FirstOccurrenceKept(s: seq<Departure>, i: nat)
    requires i < |s| && Key(s[i]) !in KeysOf(s[..i])
    ensures s[i] in KeepFirst(s)
    decreases |s|
  {
    var init, last := s[..|s| - 1], s[|s| - 1];
    if i < |s| - 1 {
      assert init[..i] == s[..i] && init[i] == s[i];
      FirstOccurrenceKept(init, i);
    } else {
      assert s[..i] == init;
    }
  }

  /** Every record kept is the first one carrying its key. */
  lemma {:induction false} KeptIsFirstOccurrence(s: seq<Departure>, x: Departure)
    requires x in KeepFirst(s)
    ensures exists i :: 0 <= i < |s| && s[i] == x && Key(x) !in KeysOf(s[..i])
    decreases |s|
  {
    var init, last := s[..|s| - 1], s[|s| - 1];
    if x in KeepFirst(init) {
      KeptIsFirstOccurrence(init, x);
      var i :| 0 <= i < |init| && init[i] == x && Key(x) !in KeysOf(init[..i]);
      assert s[i] == x && s[..i] == init[..i];
    } else {
      assert x == last && Key(last) !in KeysOf(init);
      assert s[..|s| - 1] == init;
    }
  }
}
