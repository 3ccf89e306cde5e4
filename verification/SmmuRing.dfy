/**
 A queue pointer as the image of an ever-growing count, and the slots that a
 window of at most one queue size occupies.
 */
module SmmuRing {
  import opened Arithmetic
  import opened Bits
  import opened SmmuQueue

  /** Advancing a pointer follows the count. */
  lemma NextFollows(l: Layout, pointer: nat, count: nat)
    requires l.log2size <= Q_MAX_LOG2SIZE && U32(pointer) && Pos(l, pointer) == Pos(l, count)
    ensures U32(NextPointer(l, pointer)) && Pos(l, NextPointer(l, pointer)) == Pos(l, count + 1)
  {
    NextPointerIs(l, pointer);
    PosIsMod(l, count);
    PosIsMod(l, count + 1);
    Fundamental(count, Period(l));
    AddMultiple(Pos(l, count) + 1, count / Period(l), Period(l));
  }

  /** Counts at most one queue size apart with the same position are equal. */
  lemma SamePos(l: Layout, a: nat, b: nat)
    requires a <= b <= a + Entries(l) && Pos(l, a) == Pos(l, b)
    ensures a == b
  {
    PosIsMod(l, a);
    PosIsMod(l, b);
    Fundamental(a, Period(l));
    Fundamental(b, Period(l));
    CloseMultiples(Period(l), a / Period(l), b / Period(l));
  }

  lemma CloseMultiples(m: nat, q: int, q': int)
    requires m > 0 && 0 <= m * q' - m * q < m
    ensures q == q'
  {
    if q' > q {
      MulLe(m, q + 1, q');
      Distribute(m, q, 1);
    } else if q' < q {
      MulLe(m, q' + 1, q);
      Distribute(m, q', 1);
    }
  }

  /** Pointers at the same position name the same entry. */
  lemma SameSlot(l: Layout, p: nat, q: nat, size: nat)
    requires Pos(l, p) == Pos(l, q)
    ensures EntryAddress(l, p, size) == EntryAddress(l, q, size)
  {
    PosParts(l, p);
    PosParts(l, q);
    LowLow(p, l.log2size, l.log2size + 1);
    LowLow(q, l.log2size, l.log2size + 1);
  }

  /** Distinct counts less than one queue size apart name entries that do not overlap. */
  lemma DistinctEntries(l: Layout, a: nat, b: nat, size: nat)
    requires a < b < a + Entries(l)
    ensures EntryAddress(l, a, size) + size <= EntryAddress(l, b, size) ||
            EntryAddress(l, b, size) + size <= EntryAddress(l, a, size)
  {
    var n := l.log2size;
    PosParts(l, a);
    PosParts(l, b);
    LowIsMod(a, n);
    LowIsMod(b, n);
    if Low(a, n) == Low(b, n) {
      Fundamental(a, Pow2(n));
      Fundamental(b, Pow2(n));
      CloseMultiples(Pow2(n), a / Pow2(n), b / Pow2(n));
    }
    Apart(Low(a, n), Low(b, n), size);
  }

  lemma Apart(i: nat, j: nat, size: nat)
    requires i != j
    ensures i * size + size <= j * size || j * size + size <= i * size
  {
    if i < j {
      MulLe(size, i + 1, j);
    } else {
      MulLe(size, j + 1, i);
    }
  }
}
