/**
 The byte-range lock of a block mirror: held ranges are a map from the start of
 a range to its exclusive end, and one lookup decides whether a new range
 overlaps any of them.
 */
module RangeLocks {
  import opened Bytes

  /** Start to exclusive end. */
  type Ranges = map<nat, nat>

  /** Every held range is non-empty and no two of them share a byte. */
  ghost predicate WellFormed(m: Ranges) {
    && (forall x | x in m :: x < m[x])
    && (forall x, y | x in m && y in m && x < y :: m[x] <= y)
  }

  /** Some held range shares a byte with `[lo, hi)`. */
  ghost predicate SomeOverlap(m: Ranges, lo: nat, hi: nat) {
    exists x | x in m :: x < hi && lo < m[x]
  }

  /** The greatest key below `bound`: the last entry of an ordered range scan. */
  function LastBelow(m: Ranges, bound: nat): (r: Option<nat>)
    ensures r.Some? ==> r.value in m && r.value < bound
    ensures r.Some? ==> forall x | x in m && x < bound :: x <= r.value
    ensures r.None? ==> forall x | x in m :: bound <= x
  {
    if bound == 0 then None
    else if bound - 1 in m then Some(bound - 1)
    else LastBelow(m, bound - 1)
  }

  /** The lock's overlap test, which looks at a single held range. */
  predicate OverlapsAny(m: Ranges, lo: nat, hi: nat) {
    var last := LastBelow(m, hi);
    last.Some? && lo < m[last.value]
  }

  /** One lookup is an exact test on the maps the lock can hold. */
  lemma OverlapsAnyExact(m: Ranges, lo: nat, hi: nat)
    requires WellFormed(m)
    ensures OverlapsAny(m, lo, hi) <==> SomeOverlap(m, lo, hi)
  {
    var last := LastBelow(m, hi);
    if last.Some? && lo >= m[last.value] {
      forall x | x in m && x < hi ensures m[x] <= lo {
        if x != last.value {
          assert m[x] <= last.value;
        }
      }
    }
  }

  /**
   On a map with nested ranges the single lookup can miss an overlap, so the
   test depends on the disjointness the lock itself maintains.
   */
  lemma OverlapsAnyNeedsDisjointness(lo: nat, hi: nat)
    requires 20 <= lo < hi <= 100
    ensures var m: Ranges := map[0 := 100, 10 := 20];
            SomeOverlap(m, lo, hi) && !OverlapsAny(m, lo, hi)
  {
    var m: Ranges := map[0 := 100, 10 := 20];
    assert 0 in m && 0 < hi && lo < m[0];
    assert 10 in m;
  }

  /** Inserting a range that passed the test overwrites nothing and stays well formed. */
  lemma InsertKeeps(m: Ranges, lo: nat, hi: nat)
    requires WellFormed(m) && lo < hi && !OverlapsAny(m, lo, hi)
    ensures lo !in m
    ensures WellFormed(m[lo := hi])
  {
    OverlapsAnyExact(m, lo, hi);
    assert forall x | x in m :: x < hi ==> m[x] <= lo;
    var n := m[lo := hi];
    forall x, y | x in n && y in n && x < y ensures n[x] <= y {
      if x == lo {
        assert lo < y < m[y];
      }
    }
  }

  /** Releasing a range by its start undoes exactly the insertion that added it. */
  lemma RemoveUndoesInsert(m: Ranges, lo: nat, hi: nat)
    requires WellFormed(m) && lo < hi && !OverlapsAny(m, lo, hi)
    ensures m[lo := hi] - {lo} == m
  {
    InsertKeeps(m, lo, hi);
  }
}
