/**
 Circular queues with a wrap bit, as in section 3.5.1 of Arm IHI 0070: the mask
 operations of the device and what they mean modulo twice the queue size.
 */
module SmmuQueue {
  import opened Bytes
  import opened Arithmetic
  import opened Bits

  const Q_BASE_LOG2SIZE_MASK: nat := 0x1f
  const Q_BASE_ADDR_MASK: nat := 0x000f_ffff_ffff_ffe0
  const Q_MAX_LOG2SIZE: nat := 19

  datatype Layout = Layout(base: nat, log2size: nat)

  function LayoutOf(base: nat): (l: Layout)
    ensures l.log2size <= Q_MAX_LOG2SIZE
  {
    var log2size := And(base, Q_BASE_LOG2SIZE_MASK);
    Layout(And(base, Q_BASE_ADDR_MASK), if log2size < Q_MAX_LOG2SIZE then log2size else Q_MAX_LOG2SIZE)
  }

  function Entries(l: Layout): nat {
    Pow2(l.log2size)
  }

  function EntryAddress(l: Layout, pointer: nat, entrySize: nat): nat {
    l.base + And(pointer, Entries(l) - 1) * entrySize
  }

  function WrappedIndex(l: Layout, pointer: nat): nat {
    And(pointer, Pow2(l.log2size + 1) - 1)
  }

  predicate U32(x: nat) {
    x < U32_LIMIT
  }

  /** Every bit above the wrap bit. */
  function StatusMask(l: Layout): nat
    requires l.log2size <= Q_MAX_LOG2SIZE
  {
    Pow2Le(l.log2size + 1, 32);
    Not(Pow2(l.log2size + 1) - 1, 32)
  }

  function NextPointer(l: Layout, pointer: nat): nat
    requires l.log2size <= Q_MAX_LOG2SIZE
  {
    var entries := Entries(l);
    Compose(entries, And(pointer, entries - 1), And(pointer, entries), And(pointer, StatusMask(l)))
  }

  /** The successor of a pointer given as index, wrap bit and status bits. */
  function Compose(entries: nat, index: nat, wrap: nat, status: nat): nat {
    if index + 1 == entries then Or(status, Xor(wrap, entries)) else Or(Or(status, wrap), index + 1)
  }

  predicate IsEmpty(l: Layout, producer: nat, consumer: nat) {
    WrappedIndex(l, producer) == WrappedIndex(l, consumer)
  }

  predicate IsFull(l: Layout, producer: nat, consumer: nat) {
    var entries := Entries(l);
    && And(producer, entries - 1) == And(consumer, entries - 1)
    && And(producer, entries) != And(consumer, entries)
  }

  // ---- Arithmetic meaning -----------------------------------------------------------

  /** Twice the number of entries: the period of a pointer. */
  function Period(l: Layout): (r: nat)
    ensures r > 0
  {
    2 * Pow2(l.log2size)
  }

  /** Position of a pointer on the doubled ring. */
  function Pos(l: Layout, pointer: nat): (r: nat)
    ensures r < Period(l)
  {
    Low(pointer, l.log2size + 1)
  }

  /** How far the producer is ahead of the consumer, modulo the period. */
  function Ahead(l: Layout, producer: nat, consumer: nat): nat {
    (Pos(l, producer) - Pos(l, consumer)) % Period(l)
  }

  lemma PosIsMod(l: Layout, pointer: nat)
    ensures Pos(l, pointer) == pointer % Period(l)
    ensures WrappedIndex(l, pointer) == Pos(l, pointer)
  {
    LowIsMod(pointer, l.log2size + 1);
    AndMask(pointer, l.log2size + 1);
  }

  lemma PosParts(l: Layout, pointer: nat)
    ensures And(pointer, Entries(l) - 1) == Low(pointer, l.log2size) < Entries(l)
    ensures And(pointer, Entries(l)) == if Bit(pointer, l.log2size) then Entries(l) else 0
    ensures Pos(l, pointer) == And(pointer, Entries(l) - 1) + And(pointer, Entries(l))
  {
    AndMask(pointer, l.log2size);
    AndBit(pointer, l.log2size);
    LowTop(pointer, l.log2size);
  }

  lemma ModSmall(d: int, m: nat)
    requires m > 0 && d < m && 0 < d + m
    ensures d % m == if d >= 0 then d else d + m
  {
    if d >= 0 {
      DivModIs(d, m, 0, d);
    } else {
      DivModIs(d, m, -1, d + m);
    }
  }

  lemma NextPos(l: Layout, pointer: nat)
    ensures (Pos(l, pointer) + 1) % Period(l) ==
            if Pos(l, pointer) + 1 == Period(l) then 0 else Pos(l, pointer) + 1
  {
    var pos := Pos(l, pointer);
    if pos + 1 == Period(l) {
      DivModIs(pos + 1, Period(l), 1, 0);
    } else {
      ModSmall(pos + 1, Period(l));
    }
  }

  lemma ComposeWraps(status: nat, wrap: nat, n: nat)
    requires Low(status, n + 1) == 0 && (wrap == 0 || wrap == Pow2(n))
    ensures Or(status, Xor(wrap, Pow2(n))) == status + (if wrap == 0 then Pow2(n) else 0)
  {
    XorZero(Pow2(n));
    var x := Xor(wrap, Pow2(n));
    assert x == if wrap == 0 then Pow2(n) else 0;
    OrDisjoint(status, x, n + 1);
  }

  lemma ComposeSteps(status: nat, wrap: nat, index: nat, n: nat)
    requires Low(status, n + 1) == 0 && Low(status + wrap, n) == 0
    requires (wrap == 0 || wrap == Pow2(n)) && index + 1 < Pow2(n)
    ensures Or(Or(status, wrap), index + 1) == status + wrap + index + 1
  {
    OrDisjoint(status, wrap, n + 1);
    OrDisjoint(status + wrap, index + 1, n);
  }

  lemma ComposeIs(status: nat, wrap: nat, index: nat, n: nat)
    requires Low(status, n + 1) == 0 && Low(status + wrap, n) == 0
    requires (wrap == 0 || wrap == Pow2(n)) && index < Pow2(n)
    ensures Compose(Pow2(n), index, wrap, status) ==
            status + (if wrap + index + 1 == 2 * Pow2(n) then 0 else wrap + index + 1)
  {
    if index + 1 == Pow2(n) {
      ComposeWraps(status, wrap, n);
    } else {
      ComposeSteps(status, wrap, index, n);
    }
  }

  /** The fields the device takes a pointer apart into. */
  lemma PointerFields(l: Layout, pointer: nat) returns (index: nat, wrap: nat, status: nat)
    requires l.log2size <= Q_MAX_LOG2SIZE && U32(pointer)
    ensures NextPointer(l, pointer) == Compose(Pow2(l.log2size), index, wrap, status)
    ensures index < Pow2(l.log2size) && (wrap == 0 || wrap == Pow2(l.log2size))
    ensures Pos(l, pointer) == index + wrap && status + Pos(l, pointer) == pointer
    ensures Low(status, l.log2size + 1) == 0 && Low(status + wrap, l.log2size) == 0
  {
    var n := l.log2size;
    index, wrap, status := And(pointer, Pow2(n) - 1), And(pointer, Pow2(n)), And(pointer, StatusMask(l));
    FieldFacts(l, pointer);
    StatusBits(l, pointer);
  }

  lemma StatusBits(l: Layout, pointer: nat)
    requires l.log2size <= Q_MAX_LOG2SIZE && U32(pointer)
    ensures And(pointer, StatusMask(l)) == pointer - Pos(l, pointer)
  {
    Pow2Values();
    AndHigh(pointer, l.log2size + 1, 32);
  }

  lemma FieldFacts(l: Layout, pointer: nat)
    ensures var index, wrap := And(pointer, Pow2(l.log2size) - 1), And(pointer, Pow2(l.log2size));
            && index < Pow2(l.log2size) && (wrap == 0 || wrap == Pow2(l.log2size))
            && Pos(l, pointer) == index + wrap <= pointer
            && Low(pointer - Pos(l, pointer), l.log2size + 1) == 0
            && Low(pointer - Pos(l, pointer) + wrap, l.log2size) == 0
  {
    PosParts(l, pointer);
    LowCleared(pointer, l.log2size + 1);
    NoLowBits(l, pointer);
  }

  lemma NextPointerSum(l: Layout, pointer: nat)
    requires l.log2size <= Q_MAX_LOG2SIZE && U32(pointer)
    ensures Pos(l, pointer) <= pointer
    ensures NextPointer(l, pointer) == pointer - Pos(l, pointer) + (Pos(l, pointer) + 1) % Period(l)
  {
    var index, wrap, status := PointerFields(l, pointer);
    ComposeIs(status, wrap, index, l.log2size);
    NextPos(l, pointer);
  }

  /** For every size and every 32-bit pointer: one step forward on the ring, all other bits kept. */
  lemma NextPointerIs(l: Layout, pointer: nat)
    requires l.log2size <= Q_MAX_LOG2SIZE && U32(pointer)
    ensures U32(NextPointer(l, pointer))
    ensures Pos(l, NextPointer(l, pointer)) == (Pos(l, pointer) + 1) % Period(l)
    ensures Shr(NextPointer(l, pointer), l.log2size + 1) == Shr(pointer, l.log2size + 1)
  {
    NextPointerSum(l, pointer);
    NextPos(l, pointer);
    SamePage(pointer, NextPointer(l, pointer), l.log2size + 1, (Pos(l, pointer) + 1) % Period(l));
  }

  /** Replacing the low bits of a pointer leaves the others alone. */
  lemma SamePage(x: nat, y: nat, k: nat, low: nat)
    requires k <= 32 && U32(x) && low < Pow2(k) && Low(x, k) <= x && y == x - Low(x, k) + low
    ensures Low(y, k) == low && Shr(y, k) == Shr(x, k) && U32(y)
  {
    Pow2Values();
    Split(x, k);
    DivModIs(y, Pow2(k), Shr(x, k), low);
    LowIsMod(y, k);
    Pow2Sum(k, 32 - k);
    InPage(Pow2(k), Shr(x, k), Pow2(32 - k), Low(x, k), low);
  }

  lemma InPage(m: nat, q: nat, t: nat, lo: nat, lo': nat)
    requires lo' < m && m * q + lo < m * t
    ensures m * q + lo' < m * t
  {
    if q >= t {
      MulLe(m, t, q);
    } else {
      MulLe(m, q + 1, t);
      Distribute(m, q, 1);
    }
  }

  /** Status and wrap bits lie above the index. */
  lemma NoLowBits(l: Layout, pointer: nat)
    ensures Pos(l, pointer) <= pointer
    ensures Low(pointer - Pos(l, pointer) + And(pointer, Entries(l)), l.log2size) == 0
  {
    var n := l.log2size;
    PosParts(l, pointer);
    LowCleared(pointer, n + 1);
    Split(pointer, n);
    Split(pointer, n + 1);
    LowTop(pointer, n);
    LowCleared(pointer, n);
  }

  /** Empty exactly at distance zero. */
  lemma IsEmptyIff(l: Layout, producer: nat, consumer: nat)
    ensures IsEmpty(l, producer, consumer) <==> Ahead(l, producer, consumer) == 0
  {
    PosIsMod(l, producer);
    PosIsMod(l, consumer);
    ModSmall(Pos(l, producer) - Pos(l, consumer), Period(l));
  }

  /** Full exactly at a distance of one queue size. */
  lemma IsFullIff(l: Layout, producer: nat, consumer: nat)
    ensures IsFull(l, producer, consumer) <==> Ahead(l, producer, consumer) == Entries(l)
  {
    PosParts(l, producer);
    PosParts(l, consumer);
    ModSmall(Pos(l, producer) - Pos(l, consumer), Period(l));
  }
}
