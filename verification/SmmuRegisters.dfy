/**
 What the masked updates of the error and queue registers mean, field by field.
 */
module SmmuRegisters {
  import opened Bytes
  import opened Arithmetic
  import opened Bits
  import opened SmmuQueue
  import opened SmmuDevice

  /** A mask that is all ones below bit `k` keeps the low bits. */
  lemma MaskLow(x: nat, mask: nat, k: nat)
    requires mask % Pow2(k) == Pow2(k) - 1
    ensures And(x, mask) % Pow2(k) == x % Pow2(k)
  {
    LowIsMod(mask, k);
    LowAnd(x, mask, k);
    AndMask(Low(x, k), k);
    LowLow(x, k, k);
    LowIsMod(x, k);
    LowIsMod(And(x, mask), k);
  }

  /** A mask that is zero in the `w` bits from bit `k` clears that field. */
  lemma MaskField(x: nat, mask: nat, k: nat, w: nat)
    requires mask / Pow2(k) % Pow2(w) == 0
    ensures Low(Shr(And(x, mask), k), w) == 0
  {
    LowIsMod(mask, k);
    LowIsMod(Shr(mask, k), w);
    ShrOps(x, mask, k);
    LowAnd(Shr(x, k), Shr(mask, k), w);
    AndZero(Low(Shr(x, k), w));
  }

  /** Replacing the field of `w` bits from bit `k`. */
  lemma PutField(x: nat, mask: nat, code: nat, k: nat, w: nat)
    requires mask % Pow2(k) == Pow2(k) - 1 && mask / Pow2(k) % Pow2(w) == 0 && code < Pow2(w)
    ensures var c := Or(And(x, mask), code * Pow2(k));
            c % Pow2(k) == x % Pow2(k) && c / Pow2(k) % Pow2(w) == code
  {
    var a, b := And(x, mask), code * Pow2(k);
    MaskLow(x, mask, k);
    MaskField(x, mask, k, w);
    DivModIs(b, Pow2(k), code, 0);
    LowIsMod(b, k);
    PutFieldLow(a, b, k);
    PutFieldCode(a, b, k, w);
    LowSmall(code, w);
  }

  lemma PutFieldLow(a: nat, b: nat, k: nat)
    requires Low(b, k) == 0
    ensures Or(a, b) % Pow2(k) == a % Pow2(k)
  {
    LowOr(a, b, k);
    OrZero(Low(a, k));
    LowIsMod(a, k);
    LowIsMod(Or(a, b), k);
  }

  lemma PutFieldCode(a: nat, b: nat, k: nat, w: nat)
    requires Low(Shr(a, k), w) == 0
    ensures Or(a, b) / Pow2(k) % Pow2(w) == Low(Shr(b, k), w)
  {
    ShrOps(a, b, k);
    LowOr(Shr(a, k), Shr(b, k), w);
    OrZero(Low(Shr(b, k), w));
    LowIsMod(Or(a, b), k);
    LowIsMod(Shr(Or(a, b), k), w);
  }

  /** The position of a pointer depends on its low bits only. */
  lemma SamePosition(l: Layout, p: nat, q: nat, k: nat)
    requires l.log2size + 1 <= k && p % Pow2(k) == q % Pow2(k)
    ensures Pos(l, p) == Pos(l, q)
  {
    LowIsMod(p, k);
    LowIsMod(q, k);
    LowLow(p, l.log2size + 1, k);
    LowLow(q, l.log2size + 1, k);
  }

  lemma ModMod(val: nat)
    ensures val % U32_LIMIT % 0x10_0000 == val % 0x10_0000
  {
  }

  /** A write mask that keeps the low 20 bits keeps the position. */
  lemma MaskKeepsPosition(val: nat, mask: nat, l: Layout)
    requires l.log2size <= Q_MAX_LOG2SIZE && mask % 0x10_0000 == 0xf_ffff
    ensures Pos(l, And(val % U32_LIMIT, mask)) == Pos(l, val)
  {
    hide And, Pos, Pow2;
    Pow2Of20();
    ModMod(val);
    MaskLow(val % U32_LIMIT, mask, 20);
    SamePosition(l, And(val % U32_LIMIT, mask), val, 20);
  }

  /** The write mask of the producer register keeps the position. */
  lemma ProducerMask(val: nat, l: Layout)
    requires l.log2size <= Q_MAX_LOG2SIZE
    ensures Pos(l, And(val % U32_LIMIT, CMDQ_PROD_WRITE_MASK)) == Pos(l, val)
  {
    MaskKeepsPosition(val, CMDQ_PROD_WRITE_MASK, l);
  }

  /** Clearing the error code keeps the index. */
  lemma ErrorCleared(cons: nat, l: Layout)
    requires U32(cons) && l.log2size <= Q_MAX_LOG2SIZE
    ensures var c := And(cons, CMDQ_CONS_ERR_CLEAR);
            U32(c) && c % ERR_UNIT == cons % ERR_UNIT && Pos(l, c) == Pos(l, cons)
  {
    Pow2Of24();
    MaskLow(cons, CMDQ_CONS_ERR_CLEAR, 24);
    AndLe(cons, CMDQ_CONS_ERR_CLEAR);
    SamePosition(l, And(cons, CMDQ_CONS_ERR_CLEAR), cons, 24);
  }

  lemma ErrorCode(cons: nat, cerror: nat, l: Layout)
    requires U32(cons) && cerror < 128 && l.log2size <= Q_MAX_LOG2SIZE
    ensures var c := Or(And(cons, CMDQ_CONS_ERR_CLEAR), cerror * ERR_UNIT);
            U32(c) && c % ERR_UNIT == cons % ERR_UNIT && c / ERR_UNIT % 128 == cerror && Pos(l, c) == Pos(l, cons)
  {
    Pow2Values();
    PutField(cons, CMDQ_CONS_ERR_CLEAR, cerror, 24, 7);
    AndLe(cons, CMDQ_CONS_ERR_CLEAR);
    OrBound(And(cons, CMDQ_CONS_ERR_CLEAR), cerror * ERR_UNIT, 32);
    SamePosition(l, Or(And(cons, CMDQ_CONS_ERR_CLEAR), cerror * ERR_UNIT), cons, 24);
  }

  lemma ActiveIs(d: Dev, bit: nat)
    ensures Active(d, bit) <==> Bit(d.gerror, bit) != Bit(d.gerrorn, bit)
  {
    AndBit(Xor(d.gerror, d.gerrorn), bit);
    BitOps(d.gerror, d.gerrorn, bit);
  }

  /** Raising an error makes it active, if it was not, and touches no other error. */
  lemma RaiseGerrorIs(d: Dev, bit: nat, other: nat)
    ensures RaiseGerror(d, bit) == d.(gerror := RaiseGerror(d, bit).gerror)
    ensures Active(RaiseGerror(d, bit), bit)
    ensures other != bit ==> Active(RaiseGerror(d, bit), other) == Active(d, other)
  {
    ActiveIs(d, bit);
    ActiveIs(d, other);
    ActiveIs(RaiseGerror(d, bit), bit);
    ActiveIs(RaiseGerror(d, bit), other);
    BitOps(d.gerror, Pow2(bit), bit);
    BitOps(d.gerror, Pow2(bit), other);
    BitPow2(bit, bit);
    BitPow2(bit, other);
  }

  /** A command error records its code, becomes active, and does not move the consumer. */
  lemma SetCmdqErrorIs(d: Dev, cerror: nat)
    requires U32(d.cmdqCons) && cerror < 128
    ensures var d' := SetCmdqError(d, cerror);
            && d' == d.(gerror := d'.gerror, cmdqCons := d'.cmdqCons)
            && U32(d'.cmdqCons)
            && d'.cmdqCons % ERR_UNIT == d.cmdqCons % ERR_UNIT
            && d'.cmdqCons / ERR_UNIT % 128 == cerror
            && Pos(LayoutOf(d.cmdqBase), d'.cmdqCons) == Pos(LayoutOf(d.cmdqBase), d.cmdqCons)
            && Active(d', GERROR_CMDQ_ERR)
  {
    ErrorCode(d.cmdqCons, cerror, LayoutOf(d.cmdqBase));
    RaiseGerrorIs(d.(cmdqCons := Or(And(d.cmdqCons, CMDQ_CONS_ERR_CLEAR), cerror * ERR_UNIT)), GERROR_CMDQ_ERR, 0);
  }

  // ---- Flags -------------------------------------------------------------------------

  lemma SetIs(x: nat, k: nat)
    ensures Set(x, k) <==> Bit(x, k)
  {
    AndBit(x, k);
  }

  /** Toggling the top flag of a register flips it and keeps everything below. */
  lemma ToggleIs(x: nat, k: nat)
    requires x < 2 * Pow2(k)
    ensures var y := Xor(x, Pow2(k));
            y < 2 * Pow2(k) && Set(y, k) != Set(x, k) && y % Pow2(k) == x % Pow2(k)
  {
    var y := Xor(x, Pow2(k));
    XorBit(x, k);
    TopBit(x, k);
    TopBit(y, k);
    SetIs(x, k);
    SetIs(y, k);
    AddMultiple(x, if Bit(x, k) then -1 else 1, Pow2(k));
  }

  /** A mask whose top bit is the flag keeps it. */
  lemma MaskKeepsFlag(x: nat, mask: nat, k: nat)
    requires Pow2(k) <= mask < 2 * Pow2(k)
    ensures Set(And(x, mask), k) == Set(x, k)
  {
    TopBit(mask, k);
    BitOps(x, mask, k);
    SetIs(x, k);
    SetIs(And(x, mask), k);
  }

  /** Flags above the wrap bit survive an advance. */
  lemma NextKeepsFlag(l: Layout, pointer: nat, k: nat)
    requires l.log2size < k && l.log2size <= Q_MAX_LOG2SIZE && U32(pointer)
    ensures Set(NextPointer(l, pointer), k) == Set(pointer, k)
  {
    var j, next := l.log2size + 1, NextPointer(l, pointer);
    NextPointerIs(l, pointer);
    ShrSum(pointer, j, k - j);
    ShrSum(next, j, k - j);
    SetIs(pointer, k);
    SetIs(next, k);
  }

  /** The event queue registers keep position and overflow flag under their write mask. */
  lemma EventMask(val: nat, l: Layout)
    requires l.log2size <= Q_MAX_LOG2SIZE
    ensures var c := And(val % U32_LIMIT, EVENTQ_WRITE_MASK);
            U32(c) && Pos(l, c) == Pos(l, val) && Set(c, OVFLG) == Set(val % U32_LIMIT, OVFLG)
  {
    MaskKeepsPosition(val, EVENTQ_WRITE_MASK, l);
    Pow2Of31();
    AndLe(val % U32_LIMIT, EVENTQ_WRITE_MASK);
    MaskKeepsFlag(val % U32_LIMIT, EVENTQ_WRITE_MASK, OVFLG);
  }

  /** An overflow becomes visible, once, and does not move the producer. */
  lemma SetEventOverflowIs(d: Dev)
    requires U32(d.eventqProd)
    ensures var d' := SetEventOverflow(d);
            && d' == d.(eventqProd := d'.eventqProd)
            && U32(d'.eventqProd)
            && Set(d'.eventqProd, OVFLG) != Set(d'.eventqCons, OVFLG)
            && Pos(LayoutOf(d.eventqBase), d'.eventqProd) == Pos(LayoutOf(d.eventqBase), d.eventqProd)
  {
    Pow2Of31();
    ToggleIs(d.eventqProd, OVFLG);
    var d' := SetEventOverflow(d);
    SamePosition(LayoutOf(d.eventqBase), d'.eventqProd, d.eventqProd, OVFLG);
  }
}
