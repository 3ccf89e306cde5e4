/**
 The stream table walk, linear or two-level, as in sections 3.3.1 and 5.1 of
 Arm IHI 0070.
 */
module SmmuStreamTable {
  import opened Bytes
  import opened Arithmetic
  import opened Bits

  const STRTAB_BASE_ADDR_MASK: nat := 0x000f_ffff_ffff_ffc0
  const L1STD_L2PTR_MASK: nat := 0x00ff_ffff_ffff_ffc0
  const STE_SIZE: nat := 64
  const L1STD_SIZE: nat := 8

  /** Guest memory as aligned 64-bit words; an address without a word faults. */
  type Memory = map<nat, nat>

  datatype Lookup = At(addr: nat) | NoEntry | Fault

  /** Clears the low `bits` bits of a 64-bit address; a shift by the word size or more clears all. */
  function AlignDown(value: nat, bits: nat): nat {
    if bits < 64 then
      Pow2Le(bits, 64);
      And(value, Not(Pow2(bits) - 1, 64))
    else 0
  }

  lemma AlignDownIs(value: nat, bits: nat)
    requires value < Pow2(64)
    ensures AlignDown(value, bits) == value - value % Pow2(bits)
    ensures AlignDown(value, bits) % Pow2(bits) == 0
    ensures AlignDown(value, bits) <= value < AlignDown(value, bits) + Pow2(bits)
  {
    hide And, Low, Shr;
    LowIsMod(value, bits);
    LowCleared(value, bits);
    LowIsMod(value - Low(value, bits), bits);
    if bits < 64 {
      AndHigh(value, bits, 64);
    } else {
      Pow2Le(64, bits);
      LowSmall(value, bits);
    }
  }

  // ---- Registers and descriptors, taken apart -------------------------------------------

  /** STRTAB_BASE_CFG and STRTAB_BASE as the walk uses them. */
  datatype Table = Table(twoLevel: bool, log2size: nat, split: nat, root: nat)

  function TableOf(cfg: nat, base: nat): (t: Table)
    ensures t.split == 6 || t.split == 8 || t.split == 10
  {
    var split := And(cfg / 64, 0x1f);
    Table(And(cfg / 0x1_0000, 0x3) == 1,
          And(cfg, 0x3f),
          if split == 8 then 8 else if split == 10 then 10 else 6,
          And(base, STRTAB_BASE_ADDR_MASK))
  }

  /** A level-1 descriptor. */
  datatype Descriptor = Descriptor(span: nat, ptr: nat)

  function DescriptorOf(word: nat): Descriptor {
    Descriptor(And(word, 0x1f), And(word, L1STD_L2PTR_MASK))
  }

  // ---- The walk -------------------------------------------------------------------------

  /** Number of stream identifiers covered: the table size, capped by the advertised SIDSIZE. */
  function Streams(t: Table, sidSize: nat): nat {
    Pow2(if t.log2size < sidSize then t.log2size else sidSize)
  }

  /** Number of index bits that select a level-1 descriptor. */
  function L1IndexBits(t: Table): nat {
    if t.log2size < t.split then 0 else t.log2size - t.split
  }

  /** Alignment of the level-1 table, in bits. */
  function L1Bits(t: Table): nat {
    if L1IndexBits(t) + 3 < 6 then 6 else L1IndexBits(t) + 3
  }

  function FlatBase(t: Table): nat {
    AlignDown(t.root, t.log2size + 6)
  }

  function L1Base(t: Table): nat {
    AlignDown(t.root, L1Bits(t))
  }

  function L1Address(t: Table, sid: nat): nat {
    L1Base(t) + Shr(sid, t.split) * L1STD_SIZE
  }

  /** Entry selected by a level-1 descriptor. */
  function L2Lookup(d: Descriptor, split: nat, index: nat): Lookup {
    if d.span == 0 || d.span > split + 1 then NoEntry
    else if index >= Pow2(d.span - 1) then NoEntry
    else At(AlignDown(d.ptr, d.span + 5) + index * STE_SIZE)
  }

  function SteAddress(mem: Memory, t: Table, sidSize: nat, sid: nat): Lookup {
    if sid >= Streams(t, sidSize) then NoEntry
    else if !t.twoLevel then At(FlatBase(t) + sid * STE_SIZE)
    else if L1Address(t, sid) !in mem then Fault
    else L2Lookup(DescriptorOf(mem[L1Address(t, sid)]), t.split, And(sid, Pow2(t.split) - 1))
  }

  // ---- Bounds -----------------------------------------------------------------------

  /** Addresses taken from registers and descriptors fit in 64 bits. */
  lemma AddressesFit(cfg: nat, base: nat, word: nat)
    ensures TableOf(cfg, base).root < Pow2(64) && DescriptorOf(word).ptr < Pow2(64)
  {
    Pow2Values();
    AndLe(base, STRTAB_BASE_ADDR_MASK);
    AndLe(word, L1STD_L2PTR_MASK);
  }

  lemma SidBelowTable(t: Table, sidSize: nat, sid: nat)
    requires sid < Streams(t, sidSize)
    ensures sid < Pow2(t.log2size)
  {
    if t.log2size >= sidSize {
      Pow2Le(sidSize, t.log2size);
    }
  }

  lemma ShrBound(x: nat, j: nat, k: nat)
    requires x < Pow2(k)
    ensures Shr(x, j) < Pow2(if k < j then 0 else k - j)
  {
    Split(x, j);
    if k < j {
      Pow2Le(k, j);
      LowSmall(x, j);
    } else {
      Pow2Sum(j, k - j);
      if Shr(x, j) >= Pow2(k - j) {
        MulLe(Pow2(j), Pow2(k - j), Shr(x, j));
      }
    }
  }

  /** The `i`-th of `n` items of `size` bytes ends inside the table. */
  lemma ItemInTable(i: nat, n: nat, size: nat)
    requires i < n
    ensures i * size + size <= n * size
  {
    MulLe(size, i + 1, n);
  }

  /** Every level-1 access stays inside the aligned level-1 table. */
  lemma L1InTable(t: Table, sidSize: nat, sid: nat)
    requires t.root < Pow2(64) && sid < Streams(t, sidSize)
    ensures L1Base(t) % Pow2(L1Bits(t)) == 0
    ensures L1Base(t) <= L1Address(t, sid)
    ensures L1Address(t, sid) + L1STD_SIZE <= L1Base(t) + Pow2(L1Bits(t))
  {
    AlignDownIs(t.root, L1Bits(t));
    SidBelowTable(t, sidSize, sid);
    ShrBound(sid, t.split, t.log2size);
    var bits := L1IndexBits(t);
    ItemInTable(Shr(sid, t.split), Pow2(bits), L1STD_SIZE);
    Pow2Values();
    Pow2Sum(bits, 3);
    Pow2Le(bits + 3, L1Bits(t));
  }

  /** A level-2 entry lies inside the aligned level-2 table that its descriptor names. */
  lemma L2InTable(d: Descriptor, split: nat, index: nat)
    requires d.ptr < Pow2(64) && L2Lookup(d, split, index).At?
    ensures var table := AlignDown(d.ptr, d.span + 5);
            && table % Pow2(d.span + 5) == 0
            && table <= L2Lookup(d, split, index).addr
            && L2Lookup(d, split, index).addr + STE_SIZE <= table + Pow2(d.span + 5)
  {
    hide AlignDown, Pow2;
    AlignDownIs(d.ptr, d.span + 5);
    ItemInTable(index, Pow2(d.span - 1), STE_SIZE);
    Pow2Values();
    Pow2Sum(d.span - 1, 6);
  }

  /** Different indices under one descriptor give disjoint entries. */
  lemma L2Disjoint(d: Descriptor, split: nat, i: nat, j: nat)
    requires L2Lookup(d, split, i).At? && L2Lookup(d, split, j).At? && i < j
    ensures L2Lookup(d, split, i).addr + STE_SIZE <= L2Lookup(d, split, j).addr
  {
    ItemInTable(i, j, STE_SIZE);
  }

  // ---- The two formats agree ----------------------------------------------------------

  /** Index bits resolved by one level-2 table of full span. */
  function PieceBits(t: Table): nat {
    if t.log2size < t.split then t.log2size else t.split
  }

  /** The `i`-th level-1 descriptor names the `i`-th piece of a linear table at `flat`, at full span. */
  ghost predicate NamesPiece(mem: Memory, t: Table, flat: nat, i: nat) {
    var addr := L1Base(t) + i * L1STD_SIZE;
    && addr in mem
    && DescriptorOf(mem[addr]).span == PieceBits(t) + 1
    && DescriptorOf(mem[addr]).ptr == flat + i * (Pow2(PieceBits(t)) * STE_SIZE)
  }

  /** The level-1 descriptors cut one linear table into consecutive pieces. */
  ghost predicate Tiles(mem: Memory, t: Table, flat: nat) {
    forall i | 0 <= i < Pow2(L1IndexBits(t)) :: NamesPiece(mem, t, flat, i)
  }

  lemma ShiftedMultiple(table: nat, i: nat, m: nat, t: nat)
    requires m > 0 && t > 0 && m * t > 0 && table % (m * t) == 0
    ensures (table + i * m) % m == 0
  {
    Fundamental(table, m * t);
    var q := t * (table / (m * t));
    assert table == m * q;
    Distribute(m, q, i);
    DivModIs(table + i * m, m, q + i, 0);
  }

  /** Every piece of an aligned table is aligned to its own size. */
  lemma PieceAligned(table: nat, i: nat, bits: nat, log2size: nat)
    requires bits <= log2size && table % Pow2(log2size + 6) == 0
    requires table + i * (Pow2(bits) * STE_SIZE) < Pow2(64)
    ensures AlignDown(table + i * (Pow2(bits) * STE_SIZE), bits + 6) == table + i * (Pow2(bits) * STE_SIZE)
  {
    hide AlignDown, Pow2;
    Pow2Values();
    Pow2Sum(bits, 6);
    Pow2Sum(bits + 6, log2size - bits);
    ShiftedMultiple(table, i, Pow2(bits + 6), Pow2(log2size - bits));
    AlignDownIs(table + i * (Pow2(bits) * STE_SIZE), bits + 6);
  }

  lemma Regroup(q: nat, m: nat, s: nat)
    ensures q * (m * s) == (m * q) * s
  {
  }

  lemma EntrySum(q: nat, r: nat, m: nat)
    ensures q * (m * STE_SIZE) + r * STE_SIZE == (m * q + r) * STE_SIZE
  {
    Regroup(q, m, STE_SIZE);
  }

  /** The piece and the index inside it add up to the linear position. */
  lemma SameEntry(sid: nat, split: nat)
    ensures Shr(sid, split) * (Pow2(split) * STE_SIZE) + Low(sid, split) * STE_SIZE == sid * STE_SIZE
  {
    Split(sid, split);
    EntrySum(Shr(sid, split), Low(sid, split), Pow2(split));
  }

  /** A piece that covers the index finds the linear entry. */
  lemma PieceEntry(t: Table, d: Descriptor, flat: nat, sid: nat)
    requires sid < Pow2(t.log2size) && flat % Pow2(t.log2size + 6) == 0 && d.ptr < Pow2(64)
    requires d == Descriptor(PieceBits(t) + 1, flat + Shr(sid, t.split) * (Pow2(PieceBits(t)) * STE_SIZE))
    ensures L2Lookup(d, t.split, Low(sid, t.split)) == At(flat + sid * STE_SIZE)
  {
    hide AlignDown, Low, Shr;
    PieceAligned(flat, Shr(sid, t.split), PieceBits(t), t.log2size);
    assert AlignDown(d.ptr, d.span + 5) == d.ptr;
    IndexInPiece(t, sid);
  }

  lemma IndexInPiece(t: Table, sid: nat)
    requires sid < Pow2(t.log2size)
    ensures Low(sid, t.split) < Pow2(PieceBits(t))
    ensures Shr(sid, t.split) * (Pow2(PieceBits(t)) * STE_SIZE) + Low(sid, t.split) * STE_SIZE == sid * STE_SIZE
  {
    if t.log2size < t.split {
      Pow2Le(t.log2size, t.split);
      LowSmall(sid, t.split);
    } else {
      SameEntry(sid, t.split);
    }
  }

  /**
   Two-level lookup refines the linear one: when the level-1 descriptors tile one
   aligned table at full span, both formats find the same entry for every stream
   identifier.
   */
  lemma TwoLevelRefinesLinear(mem: Memory, t: Table, flat: Table, sidSize: nat, sid: nat)
    requires t.twoLevel && !flat.twoLevel && flat.log2size == t.log2size && flat.root < Pow2(64)
    requires Tiles(mem, t, FlatBase(flat))
    ensures SteAddress(mem, t, sidSize, sid) == SteAddress(mem, flat, sidSize, sid)
  {
    hide AlignDown, And, Low, Shr, Pow2;
    if sid < Streams(t, sidSize) {
      SidBelowTable(t, sidSize, sid);
      AlignDownIs(flat.root, t.log2size + 6);
      ShrBound(sid, t.split, t.log2size);
      assert NamesPiece(mem, t, FlatBase(flat), Shr(sid, t.split));
      AddressesFit(0, 0, mem[L1Address(t, sid)]);
      PieceEntry(t, DescriptorOf(mem[L1Address(t, sid)]), FlatBase(flat), sid);
      AndMask(sid, t.split);
    }
  }
}
