/** What commands, stream table entries and register halves mean, field by field. */
module SmmuDecoding {
  import opened Bytes
  import opened Arithmetic
  import opened Bits
  import opened SmmuQueue
  import opened SmmuStreamTable
  import opened SmmuDevice
  import opened SmmuRegisters

  // ---- Fields ------------------------------------------------------------------------------

  /** A flag is one binary digit. */
  lemma FlagIs(x: nat, k: nat)
    ensures Set(x, k) <==> x / Pow2(k) % 2 == 1
  {
    SetIs(x, k);
    LowIsMod(x, k);
  }

  /** A low mask is a remainder. */
  lemma LowFieldIs(x: nat, k: nat)
    ensures And(x, Pow2(k) - 1) == x % Pow2(k)
  {
    AndMask(x, k);
    LowIsMod(x, k);
  }

  /** A mask of `w` ones from bit `k` on selects that field. */
  lemma FieldIs(x: nat, mask: nat, k: nat, w: nat)
    requires mask % Pow2(k) == 0 && mask / Pow2(k) == Pow2(w) - 1
    ensures And(x, mask) == Pow2(k) * (x / Pow2(k) % Pow2(w))
  {
    hide And, Low, Shr;
    LowIsMod(mask, k);
    LowIsMod(x, k);
    LowAnd(x, mask, k);
    AndZero(Low(x, k));
    ShrOps(x, mask, k);
    LowFieldIs(Shr(x, k), w);
    Split(And(x, mask), k);
  }

  // ---- Commands ------------------------------------------------------------------------------

  const FORWARDED: set<nat> := {0x05, 0x06, 0x10, 0x11, 0x12, 0x13, 0x30}
  const WITHOUT_EFFECT: set<nat> := {0x01, 0x02, 0x04}

  /** The opcode is the low byte. */
  function Op(c: Command): nat {
    c.word0 % 0x100
  }

  /** A configuration or prefetch command that claims to be secure. */
  predicate ClaimsSecure(c: Command) {
    c.word0 / 0x400 % 2 == 1 && 0x01 <= Op(c) <= 0x06
  }

  /** The completion signal field of a synchronisation command. */
  function Signal(c: Command): nat {
    c.word0 / 0x1000 % 4
  }

  lemma CommandFields(c: Command)
    ensures Opcode(c) == Op(c)
    ensures Set(c.word0, CMD_SSEC) <==> c.word0 / 0x400 % 2 == 1
    ensures And(c.word0, 0x3000) == 0x3000 <==> Signal(c) == 3
  {
    assert Pow2(8) == 0x100 && Pow2(10) == 0x400 && Pow2(12) == 0x1000 && Pow2(2) == 4;
    LowFieldIs(c.word0, 8);
    FlagIs(c.word0, CMD_SSEC);
    FieldIs(c.word0, 0x3000, 12, 2);
  }

  lemma UpperHalf(word: nat)
    ensures word < U64_LIMIT ==> word / U32_LIMIT % U32_LIMIT * U32_LIMIT + word % U32_LIMIT == word
  {
    if word < U64_LIMIT {
      Fundamental(word, U32_LIMIT);
      assert word / U32_LIMIT < U32_LIMIT;
    }
  }

  /**
   Streams are configured by CFGI_STE alone, and it is the stream in the upper half of
   the first word; only invalidations reach the physical IOMMU,
   those of address translation caches only if ATS is advertised and translation enabled;
   secure, unknown and reserved commands are illegal.
   */
  lemma DecodeExactly(c: Command, ats: bool, enabled: bool)
    ensures var r := Decode(c, ats, enabled);
            && (r.Configure? <==> Op(c) == 0x03 && !ClaimsSecure(c))
            && (r.Forward? <==> !ClaimsSecure(c) && (Op(c) in FORWARDED || (Op(c) == 0x40 && ats && enabled)))
            && (r.Nothing? <==>
                  || (Op(c) in WITHOUT_EFFECT && !ClaimsSecure(c))
                  || (Op(c) == 0x40 && ats && !enabled)
                  || (Op(c) == 0x46 && Signal(c) != 3))
            && (r.Configure? && c.word0 < U64_LIMIT ==> r.sid * U32_LIMIT + c.word0 % U32_LIMIT == c.word0)
  {
    UpperHalf(c.word0);
    CommandFields(c);
    hide And, Pow2;
  }

  // ---- Stream table entries ----------------------------------------------------------------------

  /** An entry is used only if it was found, is readable and valid; its configuration is bits 1 to 3. */
  lemma EntryExactly(d: Dev, sid: nat)
    ensures var found := SteAddress(d.mem, TableOf(d.strtabCfg, d.strtabBase), And(d.idr1, 0x3f), sid);
            var e := FetchSte(d, sid);
            && (e.SteFault? <==> found.Fault? || (found.At? && !Readable(d.mem, found.addr, 8)))
            && (e.Entry? ==> found.At? && Readable(d.mem, found.addr, 8) && e.words == ReadWords(d.mem, found.addr, 8))
            && (e.Entry? ==> e.words[0] % 2 == 1 && e.config == e.words[0] / 2 % 8)
            && (found.At? && Readable(d.mem, found.addr, 8) && d.mem[found.addr] % 2 == 1 ==> e.Entry?)
  {
    var found := SteAddress(d.mem, TableOf(d.strtabCfg, d.strtabBase), And(d.idr1, 0x3f), sid);
    if found.At? && Readable(d.mem, found.addr, 8) {
      EntryBits(ReadWords(d.mem, found.addr, 8)[0]);
      assert ReadWords(d.mem, found.addr, 8)[0] == d.mem[found.addr + 0 * 8];
    }
    hide And, SteAddress, TableOf;
  }

  lemma EntryBits(word: nat)
    ensures And(word, 1) == word % 2 && And(word / 2, 0x7) == word / 2 % 8
  {
    assert Pow2(1) == 2 && Pow2(3) == 8;
    LowFieldIs(word, 1);
    LowFieldIs(word / 2, 3);
  }

  /**
   The mode a stream gets while translation is enabled, read off the low four bits of
   its entry in guest memory, which are the valid bit and the configuration field. An
   unreadable table changes nothing; a stream without an entry is blocked.
   */
  lemma ModeExactly(d: Dev, sid: nat)
    requires Set(d.cr0, CR0_SMMUEN) && d.calls !in d.refused
    ensures var found := SteAddress(d.mem, TableOf(d.strtabCfg, d.strtabBase), And(d.idr1, 0x3f), sid);
            var (d', ok) := ConfigureStream(d, sid);
            if found.Fault? || (found.At? && !Readable(d.mem, found.addr, 8)) then !ok && d' == d
            else
              && ok
              && (found.NoEntry? ==> d'.modes == d.modes[sid := Blocking])
              && (found.At? ==>
                    d'.modes == d.modes[sid :=
                      if d.mem[found.addr + 0 * 8] % 16 == 9 then Passthrough
                      else if d.mem[found.addr + 0 * 8] % 16 in {11, 13, 15} then Installed(ReadWords(d.mem, found.addr, 8))
                      else Blocking])
  {
    hide FetchSte, SteAddress, TableOf, And, Set;
    EntryExactly(d, sid);
    var found := SteAddress(d.mem, TableOf(d.strtabCfg, d.strtabBase), And(d.idr1, 0x3f), sid);
    if found.At? && Readable(d.mem, found.addr, 8) {
      FourBits(d.mem[found.addr + 0 * 8]);
      assert ReadWords(d.mem, found.addr, 8)[0] == d.mem[found.addr + 0 * 8];
    }
  }

  lemma FourBits(word: nat)
    ensures word % 16 == 2 * (word / 2 % 8) + word % 2
  {
  }

  /** With translation disabled, bit 20 of GBPA decides. */
  lemma BypassModeExactly(d: Dev)
    ensures GbpaMode(d) == if d.gbpa / 0x10_0000 % 2 == 1 then Blocking else Passthrough
  {
    Pow2Of20();
    FlagIs(d.gbpa, GBPA_ABORT);
  }

  // ---- Halves of 64-bit registers ----------------------------------------------------------------

  /** A 32-bit write to the low half replaces it and keeps the high half. */
  lemma MergeLowIs(cur: nat, val: nat)
    requires cur < U64_LIMIT
    ensures MergeLow(cur, val, 4) == cur / U32_LIMIT * U32_LIMIT + val % U32_LIMIT
  {
    hide And, Or, Pow2;
    Pow2Of32();
    HighHalf(cur);
    LowFieldIs(val, 32);
    var high := cur / U32_LIMIT * U32_LIMIT;
    DivModIs(high, Pow2(32), cur / U32_LIMIT, 0);
    JoinHalves(high, val % U32_LIMIT, 32);
  }

  /** A 32-bit write to the high half replaces it and keeps the low half. */
  lemma MergeHighIs(cur: nat, val: nat)
    requires cur < U64_LIMIT
    ensures MergeHigh(cur, val, 4) == cur % U32_LIMIT + val % U32_LIMIT * U32_LIMIT
  {
    hide And, Or, Pow2;
    Pow2Of32();
    LowFieldIs(cur, 32);
    ShiftedHalf(val);
    var high := val % U32_LIMIT * U32_LIMIT;
    DivModIs(high, Pow2(32), val % U32_LIMIT, 0);
    JoinHalves(high, cur % U32_LIMIT, 32);
    OrCommutes(high, cur % U32_LIMIT);
  }

  /** So the two halves, written in either order, are the 64-bit write. */
  lemma HalvesAreWhole(cur: nat, val: nat)
    requires cur < U64_LIMIT && val < U64_LIMIT
    ensures MergeHigh(MergeLow(cur, val % U32_LIMIT, 4), val / U32_LIMIT, 4) == val
    ensures MergeLow(MergeHigh(cur, val / U32_LIMIT, 4), val % U32_LIMIT, 4) == val
  {
    hide MergeLow, MergeHigh;
    Fundamental(val, U32_LIMIT);
    MergeLowIs(cur, val % U32_LIMIT);
    HalvesOf(cur / U32_LIMIT, val % U32_LIMIT);
    MergeHighIs(MergeLow(cur, val % U32_LIMIT, 4), val / U32_LIMIT);
    MergeHighIs(cur, val / U32_LIMIT);
    HalvesOf(val / U32_LIMIT, cur % U32_LIMIT);
    MergeLowIs(MergeHigh(cur, val / U32_LIMIT, 4), val % U32_LIMIT);
  }

  lemma HalvesOf(high: nat, low: nat)
    requires high < U32_LIMIT && low < U32_LIMIT
    ensures high * U32_LIMIT + low < U64_LIMIT
    ensures (high * U32_LIMIT + low) / U32_LIMIT == high && (high * U32_LIMIT + low) % U32_LIMIT == low
  {
    DivModIs(high * U32_LIMIT + low, U32_LIMIT, high, low);
  }

  lemma HighHalf(cur: nat)
    requires cur < U64_LIMIT
    ensures And(cur, 0xffff_ffff_0000_0000) == cur / U32_LIMIT * U32_LIMIT
  {
    hide And, Pow2;
    Pow2Of32();
    FieldIs(cur, 0xffff_ffff_0000_0000, 32, 32);
    var q := cur / U32_LIMIT;
    assert q < U32_LIMIT;
    ModSmall(q, U32_LIMIT);
  }

  lemma ShiftedHalf(val: nat)
    ensures val * U32_LIMIT % U64_LIMIT == val % U32_LIMIT * U32_LIMIT
  {
    Fundamental(val, U32_LIMIT);
    var q, r := val / U32_LIMIT, val % U32_LIMIT;
    assert val * U32_LIMIT == U64_LIMIT * q + r * U32_LIMIT;
    DivModIs(val * U32_LIMIT, U64_LIMIT, q, r * U32_LIMIT);
  }

  lemma JoinHalves(high: nat, low: nat, k: nat)
    requires high % Pow2(k) == 0 && low < Pow2(k)
    ensures Or(high, low) == high + low
  {
    LowIsMod(high, k);
    OrDisjoint(high, low, k);
  }

  lemma {:induction false} OrCommutes(x: nat, y: nat)
    ensures Or(x, y) == Or(y, x)
    decreases x + y
  {
    if x != 0 || y != 0 {
      OrCommutes(x / 2, y / 2);
    }
  }
}
