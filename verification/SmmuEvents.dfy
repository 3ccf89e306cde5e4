/**
 Every run of device and guest on the event queue: records are read in the order
 they were queued, none is overwritten before it is read, and the overflow flags
 differ exactly when a record has been dropped since the last acknowledgement.
 */
module SmmuEvents {
  import opened Bytes
  import opened Arithmetic
  import opened Bits
  import opened SmmuQueue
  import opened SmmuRing
  import opened SmmuStreamTable
  import opened SmmuDevice
  import opened SmmuRegisters
  import opened SmmuCommands

  const WORDS: nat := 4

  /** A device with the records queued, the records the guest has read, and whether one was lost unnoticed. */
  datatype Events = Events(d: Dev, start: nat, queued: seq<seq<nat>>, seen: seq<seq<nat>>, lost: bool)

  function EventRing(e: Events): Layout {
    LayoutOf(e.d.eventqBase)
  }

  function EventSlot(l: Layout, count: nat): nat {
    EntryAddress(l, count, EVENTQ_ENTRY_SIZE)
  }

  predicate Stored(mem: Memory, addr: nat, words: seq<nat>) {
    forall j | 0 <= j < |words| :: addr + j * 8 in mem && mem[addr + j * 8] == words[j]
  }

  /** Unread records are in memory. */
  predicate Intact(mem: Memory, l: Layout, start: nat, queued: seq<seq<nat>>, from: nat) {
    forall i | from <= i < |queued| :: |queued[i]| == WORDS && Stored(mem, EventSlot(l, start + i), queued[i])
  }

  predicate EventInv(e: Events) {
    var l := EventRing(e);
    && U32(e.d.eventqProd)
    && |e.seen| <= |e.queued| <= |e.seen| + Entries(l)
    && e.seen == e.queued[..|e.seen|]
    && Pos(l, e.d.eventqProd) == Pos(l, e.start + |e.queued|)
    && Pos(l, e.d.eventqCons) == Pos(l, e.start + |e.seen|)
    && Intact(e.d.mem, l, e.start, e.queued, |e.seen|)
    && (e.lost <==> Set(e.d.eventqProd, OVFLG) != Set(e.d.eventqCons, OVFLG))
  }

  // ---- Protocol ---------------------------------------------------------------------------

  datatype EventStep =
    | Raise(record: seq<nat>)                 // the device pushes a record
    | Take(count: nat, val: nat, len: nat)    // the guest reads records and moves EVENTQ_CONS
    | Other(reg: Reg, val: nat, len: nat)     // any write outside the event queue registers
    | Change(mem: Memory)                     // any change of memory outside unread slots

  predicate EventEnabled(e: Events, t: EventStep) {
    match t
    case Raise(record) => |record| == WORDS
    case Take(count, val, len) =>
      && |e.seen| <= count <= |e.queued|
      && Pos(EventRing(e), val) == Pos(EventRing(e), e.start + count)
      && (len == 4 || len == 8)
      // acknowledges the overflow seen in EVENTQ_PROD, or leaves the acknowledgement as it was
      && (|| Set(val % U32_LIMIT, OVFLG) == Set(e.d.eventqProd, OVFLG)
          || Set(val % U32_LIMIT, OVFLG) == Set(e.d.eventqCons, OVFLG))
    case Other(reg, _, _) => reg !in {EVENTQ_BASE, EVENTQ_BASE_HI, EVENTQ_PROD, EVENTQ_CONS}
    case Change(mem) => Intact(mem, EventRing(e), e.start, e.queued, |e.seen|)
  }

  /** What the guest finds in `n` slots. */
  function ReadSlots(mem: Memory, l: Layout, first: nat, n: nat): seq<seq<nat>>
    decreases n
  {
    if n == 0 then []
    else
      var addr := EventSlot(l, first);
      [if Readable(mem, addr, WORDS) then ReadWords(mem, addr, WORDS) else []] + ReadSlots(mem, l, first + 1, n - 1)
  }

  function Newly(e: Events, count: nat): nat {
    if count < |e.seen| then 0 else count - |e.seen|
  }

  function EventApply(e: Events, t: EventStep): Events {
    match t
    case Raise(record) =>
      var (d, outcome) := PushEvent(e.d, record);
      e.(d := d,
         queued := if outcome.Queued? then e.queued + [record] else e.queued,
         lost := e.lost || outcome.QueueFull?)
    case Take(count, val, len) =>
      e.(d := WriteReg(e.d, EVENTQ_CONS, val, len).dev,
         seen := e.seen + ReadSlots(e.d.mem, EventRing(e), e.start + |e.seen|, Newly(e, count)),
         lost := e.lost && Set(val % U32_LIMIT, OVFLG) != Set(e.d.eventqProd, OVFLG))
    case Other(reg, val, len) => e.(d := WriteReg(e.d, reg, val, len).dev)
    case Change(mem) => e.(d := e.d.(mem := mem))
  }

  // ---- Memory -------------------------------------------------------------------------------

  lemma ReadableTail(mem: Memory, addr: nat, words: nat)
    requires words > 0
    ensures Readable(mem, addr, words) <==> addr in mem && Readable(mem, addr + 8, words - 1)
  {
    if addr in mem && Readable(mem, addr + 8, words - 1) {
      forall j | 0 <= j < words ensures addr + j * 8 in mem {
        assert j > 0 ==> addr + j * 8 == addr + 8 + (j - 1) * 8;
      }
    }
    if Readable(mem, addr, words) {
      assert addr + 0 * 8 in mem;
      forall j | 0 <= j < words - 1 ensures addr + 8 + j * 8 in mem {
        assert addr + (j + 1) * 8 in mem;
      }
    }
  }

  lemma StoredTail(mem: Memory, addr: nat, words: seq<nat>)
    requires words != [] && addr in mem && mem[addr] == words[0] && Stored(mem, addr + 8, words[1..])
    ensures Stored(mem, addr, words)
  {
    forall j | 0 <= j < |words| ensures addr + j * 8 in mem && mem[addr + j * 8] == words[j] {
      if j > 0 {
        assert words[1..][j - 1] == words[j] && addr + 8 + (j - 1) * 8 == addr + j * 8;
      }
    }
  }

  /** A store succeeds exactly when every word is backed, and touches nothing outside the record. */
  lemma {:induction false} StoreWordsIs(mem: Memory, addr: nat, words: seq<nat>)
    ensures var (mem', ok) := StoreWords(mem, addr, words);
            && mem'.Keys == mem.Keys
            && (ok <==> Readable(mem, addr, |words|))
            && (ok ==> Stored(mem', addr, words))
            && (forall a | a in mem && (a < addr || addr + 8 * |words| <= a) :: mem'[a] == mem[a])
    decreases |words|
  {
    if words != [] {
      ReadableTail(mem, addr, |words|);
      if addr in mem {
        var mem1 := mem[addr := words[0]];
        assert mem1.Keys == mem.Keys;
        StoreWordsIs(mem1, addr + 8, words[1..]);
        assert Readable(mem1, addr + 8, |words| - 1) <==> Readable(mem, addr + 8, |words| - 1);
        if StoreWords(mem1, addr + 8, words[1..]).1 {
          StoredTail(StoreWords(mem1, addr + 8, words[1..]).0, addr, words);
        }
      }
    }
  }

  /** Writing one slot leaves the unread ones intact. */
  lemma IntactAcrossStore(mem: Memory, l: Layout, start: nat, queued: seq<seq<nat>>, from: nat, record: seq<nat>)
    requires |record| == WORDS && from <= |queued| < from + Entries(l) && Intact(mem, l, start, queued, from)
    ensures var (mem', ok) := StoreWords(mem, EventSlot(l, start + |queued|), record);
            && Intact(mem', l, start, queued, from)
            && (ok ==> Intact(mem', l, start, queued + [record], from))
  {
    var n := |queued|;
    var addr := EventSlot(l, start + n);
    var (mem', ok) := StoreWords(mem, addr, record);
    StoreWordsIs(mem, addr, record);
    forall i | from <= i < n ensures Stored(mem', EventSlot(l, start + i), queued[i]) {
      DistinctEntries(l, start + i, start + n, EVENTQ_ENTRY_SIZE);
      assert Stored(mem, EventSlot(l, start + i), queued[i]);
    }
  }

  lemma {:induction false} ReadSlotsAre(mem: Memory, l: Layout, start: nat, queued: seq<seq<nat>>, from: nat, n: nat)
    requires from + n <= |queued| && Intact(mem, l, start, queued, from)
    ensures ReadSlots(mem, l, start + from, n) == queued[from..from + n]
    decreases n
  {
    if n > 0 {
      var addr := EventSlot(l, start + from);
      assert Stored(mem, addr, queued[from]);
      assert ReadWords(mem, addr, WORDS) == queued[from];
      ReadSlotsAre(mem, l, start, queued, from + 1, n - 1);
      assert queued[from..from + n] == [queued[from]] + queued[from + 1..from + n];
    }
  }

  // ---- What command processing leaves alone ---------------------------------------------------

  ghost predicate EventsUntouched(d: Dev, d': Dev) {
    && d'.eventqBase == d.eventqBase && d'.eventqProd == d.eventqProd && d'.eventqCons == d.eventqCons
    && d'.mem == d.mem
  }

  lemma CmdqFrame(d: Dev, d1: Dev)
    requires EventsUntouched(d, d1)
    ensures EventsUntouched(d, AfterConsume(d1).dev)
  {
    ConsumeFrame(d1, Entries(LayoutOf(d1.cmdqBase)));
  }

  lemma Cr0Frame(d: Dev, val: nat)
    ensures EventsUntouched(d, WriteCr0(d, val).dev)
  {
    var d1 := d.(cr0 := And(val, CR0_WRITE_MASK));
    CmdqFrame(d, d1);
    var w := if !Set(d.cr0, CR0_CMDQEN) then AfterConsume(d1) else Plain(d1);
    ConfigureStreamsFrame(w.dev, w.dev.streams);
  }

  lemma WriteFrame(d: Dev, reg: Reg, val: nat, len: nat)
    requires reg !in {EVENTQ_BASE, EVENTQ_BASE_HI, EVENTQ_PROD, EVENTQ_CONS}
    ensures EventsUntouched(d, WriteReg(d, reg, val, len).dev)
  {
    var v32 := val % U32_LIMIT;
    if reg == CR0 {
      Cr0Frame(d, v32);
    } else if reg == GBPA {
      var d1 := d.(gbpa := And(v32, GBPA_WRITE_MASK));
      ConfigureStreamsFrame(d1, d1.streams);
    } else if reg == GERRORN {
      var d1 := d.(gerrorn := And(v32, GERRORN_WRITE_MASK), cmdqCons := And(d.cmdqCons, CMDQ_CONS_ERR_CLEAR));
      CmdqFrame(d, d1);
    } else if reg == CMDQ_PROD {
      CmdqFrame(d, d.(cmdqProd := And(v32, CMDQ_PROD_WRITE_MASK)));
    }
  }

  // ---- Every step --------------------------------------------------------------------------

  lemma FullPositions(l: Layout, p: nat, c: nat)
    ensures IsFull(l, p, c) <==> Pos(l, p) - Pos(l, c) == Entries(l) || Pos(l, c) - Pos(l, p) == Entries(l)
  {
    PosParts(l, p);
    PosParts(l, c);
  }

  lemma FullMeansNoRoom(e: Events)
    requires EventInv(e)
    ensures IsFull(EventRing(e), e.d.eventqProd, e.d.eventqCons) <==> |e.queued| == |e.seen| + Entries(EventRing(e))
  {
    FullPositions(EventRing(e), e.d.eventqProd, e.d.eventqCons);
    HalfPeriod(EventRing(e), e.start + |e.seen|, e.start + |e.queued|);
  }

  /** Within one queue size, half a period apart means exactly one queue size apart. */
  lemma HalfPeriod(l: Layout, a: nat, b: nat)
    requires a <= b <= a + Entries(l)
    ensures (Pos(l, b) - Pos(l, a) == Entries(l) || Pos(l, a) - Pos(l, b) == Entries(l)) <==> b == a + Entries(l)
  {
    var n := Entries(l);
    PosShift(l, a);
    if b < a + n && (Pos(l, b) - Pos(l, a) == n || Pos(l, a) - Pos(l, b) == n) {
      SamePos(l, b, a + n);
    }
  }

  lemma PosShift(l: Layout, a: nat)
    ensures Pos(l, a + Entries(l)) == if Pos(l, a) < Entries(l) then Pos(l, a) + Entries(l) else Pos(l, a) - Entries(l)
  {
    var m := Period(l);
    PosIsMod(l, a);
    PosIsMod(l, a + Entries(l));
    Fundamental(a, m);
    if Pos(l, a) < Entries(l) {
      DivModIs(a + Entries(l), m, a / m, Pos(l, a) + Entries(l));
    } else {
      Distribute(m, a / m, 1);
      DivModIs(a + Entries(l), m, a / m + 1, Pos(l, a) - Entries(l));
    }
  }

  /** The slot a push writes to is free. */
  lemma PushSlot(e: Events, record: seq<nat>)
    requires EventInv(e) && |record| == WORDS && !IsFull(EventRing(e), e.d.eventqProd, e.d.eventqCons)
    ensures |e.queued| < |e.seen| + Entries(EventRing(e))
    ensures var (mem, ok) := StoreWords(e.d.mem, EventSlot(EventRing(e), e.d.eventqProd), record);
            && Intact(mem, EventRing(e), e.start, e.queued, |e.seen|)
            && (ok ==> Intact(mem, EventRing(e), e.start, e.queued + [record], |e.seen|))
  {
    FullMeansNoRoom(e);
    SameSlot(EventRing(e), e.d.eventqProd, e.start + |e.queued|, EVENTQ_ENTRY_SIZE);
    IntactAcrossStore(e.d.mem, EventRing(e), e.start, e.queued, |e.seen|, record);
  }

  lemma QueuedKeeps(e: Events, record: seq<nat>, mem: Memory)
    requires EventInv(e) && |e.queued| < |e.seen| + Entries(EventRing(e))
    requires Intact(mem, EventRing(e), e.start, e.queued + [record], |e.seen|)
    ensures EventInv(e.(d := e.d.(mem := mem, eventqProd := NextPointer(EventRing(e), e.d.eventqProd)),
                        queued := e.queued + [record]))
  {
    NextFollows(EventRing(e), e.d.eventqProd, e.start + |e.queued|);
    NextKeepsFlag(EventRing(e), e.d.eventqProd, OVFLG);
  }

  /** The outcome of a push, case by case. */
  lemma PushOutcome(d: Dev, record: seq<nat>)
    ensures var (mem, ok) := StoreWords(d.mem, EventSlot(LayoutOf(d.eventqBase), d.eventqProd), record);
            var (d', outcome) := PushEvent(d, record);
            match outcome
            case Queued => !IsFull(LayoutOf(d.eventqBase), d.eventqProd, d.eventqCons) && ok &&
                           d' == d.(mem := mem, eventqProd := NextPointer(LayoutOf(d.eventqBase), d.eventqProd))
            case WriteFault => !IsFull(LayoutOf(d.eventqBase), d.eventqProd, d.eventqCons) &&
                               d' == d.(mem := mem, gerror := d'.gerror)
            case QueueFull => d' == SetEventOverflow(d)
            case Disabled => d' == d
            case AbortPending => d' == d
  {
  }

  /** Each outcome exactly under its condition; a fault is reported and moves nothing. */
  lemma PushExactly(d: Dev, record: seq<nat>)
    ensures var (d', outcome) := PushEvent(d, record);
            var l := LayoutOf(d.eventqBase);
            var on := Set(d.cr0, CR0_EVENTQEN);
            var open := on && !Active(d, GERROR_EVENTQ_ABT_ERR);
            var room := open && !IsFull(l, d.eventqProd, d.eventqCons);
            && (outcome.Disabled? <==> !on)
            && (outcome.AbortPending? <==> on && Active(d, GERROR_EVENTQ_ABT_ERR))
            && (outcome.QueueFull? <==> open && IsFull(l, d.eventqProd, d.eventqCons))
            && (outcome.Queued? <==> room && Readable(d.mem, EventSlot(l, d.eventqProd), |record|))
            && (outcome.WriteFault? ==> Active(d', GERROR_EVENTQ_ABT_ERR) && d'.eventqProd == d.eventqProd)
  {
    hide Active, IsFull, LayoutOf, Set, StoreWords, NextPointer;
    var addr := EventSlot(LayoutOf(d.eventqBase), d.eventqProd);
    StoreWordsIs(d.mem, addr, record);
    RaiseGerrorIs(d.(mem := StoreWords(d.mem, addr, record).0), GERROR_EVENTQ_ABT_ERR, 0);
  }

  lemma LossKeeps(e: Events)
    requires EventInv(e)
    ensures EventInv(e.(d := SetEventOverflow(e.d), lost := true))
  {
    SetEventOverflowIs(e.d);
  }

  lemma FaultKeeps(e: Events, d: Dev)
    requires EventInv(e) && Intact(d.mem, EventRing(e), e.start, e.queued, |e.seen|)
    requires d == e.d.(mem := d.mem, gerror := d.gerror)
    ensures EventInv(e.(d := d))
  {
  }

  lemma RaiseKeeps(e: Events, record: seq<nat>)
    requires EventInv(e) && |record| == WORDS
    ensures EventInv(EventApply(e, Raise(record)))
  {
    PushOutcome(e.d, record);
    var (d, outcome) := PushEvent(e.d, record);
    match outcome
    case Queued =>
      PushSlot(e, record);
      QueuedKeeps(e, record, d.mem);
    case WriteFault =>
      PushSlot(e, record);
      FaultKeeps(e, d);
    case QueueFull => LossKeeps(e);
    case Disabled =>
    case AbortPending =>
  }

  /** The guest moves its consumer over records it has read. */
  lemma ConsumerKeeps(e: Events, count: nat, cons: nat, lost: bool)
    requires EventInv(e) && |e.seen| <= count <= |e.queued|
    requires Pos(EventRing(e), cons) == Pos(EventRing(e), e.start + count)
    requires lost <==> Set(e.d.eventqProd, OVFLG) != Set(cons, OVFLG)
    ensures EventInv(e.(d := e.d.(eventqCons := cons), seen := e.queued[..count], lost := lost))
  {
    IntactLater(e.d.mem, EventRing(e), e.start, e.queued, |e.seen|, count);
    hide Intact, Pos, Set, LayoutOf, Entries;
    var e' := e.(d := e.d.(eventqCons := cons), seen := e.queued[..count], lost := lost);
    assert EventRing(e') == EventRing(e) && |e'.seen| == count;
  }

  lemma IntactLater(mem: Memory, l: Layout, start: nat, queued: seq<seq<nat>>, from: nat, to: nat)
    requires Intact(mem, l, start, queued, from) && from <= to
    ensures Intact(mem, l, start, queued, to)
  {
  }

  lemma TakeSeen(mem: Memory, l: Layout, start: nat, queued: seq<seq<nat>>, seen: seq<seq<nat>>, n: nat)
    requires |seen| + n <= |queued| && seen == queued[..|seen|] && Intact(mem, l, start, queued, |seen|)
    ensures seen + ReadSlots(mem, l, start + |seen|, n) == queued[..|seen| + n]
  {
    ReadSlotsAre(mem, l, start, queued, |seen|, n);
    assert queued[..|seen|] + queued[|seen|..|seen| + n] == queued[..|seen| + n];
  }

  lemma TakeFlags(e: Events, count: nat, val: nat, len: nat)
    requires EventEnabled(e, Take(count, val, len))
    requires e.lost <==> Set(e.d.eventqProd, OVFLG) != Set(e.d.eventqCons, OVFLG)
    ensures EventApply(e, Take(count, val, len)).lost
            <==> Set(e.d.eventqProd, OVFLG) != Set(And(val % U32_LIMIT, EVENTQ_WRITE_MASK), OVFLG)
    ensures Pos(EventRing(e), And(val % U32_LIMIT, EVENTQ_WRITE_MASK)) == Pos(EventRing(e), e.start + count)
  {
    EventMask(val, EventRing(e));
  }

  lemma WriteEventCons(d: Dev, val: nat, len: nat)
    requires len == 4 || len == 8
    ensures WriteReg(d, EVENTQ_CONS, val, len).dev == d.(eventqCons := And(val % U32_LIMIT, EVENTQ_WRITE_MASK))
  {
  }

  lemma TakeResult(e: Events, count: nat, val: nat, len: nat, cons: nat)
    requires count <= |e.queued| && (len == 4 || len == 8) && cons == And(val % U32_LIMIT, EVENTQ_WRITE_MASK)
    requires e.seen + ReadSlots(e.d.mem, EventRing(e), e.start + |e.seen|, Newly(e, count)) == e.queued[..count]
    ensures var e' := EventApply(e, Take(count, val, len));
            e' == e.(d := e.d.(eventqCons := cons), seen := e.queued[..count], lost := e'.lost)
  {
    WriteEventCons(e.d, val, len);
  }

  lemma TakeKeeps(e: Events, count: nat, val: nat, len: nat)
    requires EventInv(e) && EventEnabled(e, Take(count, val, len))
    ensures EventInv(EventApply(e, Take(count, val, len)))
  {
    var cons := And(val % U32_LIMIT, EVENTQ_WRITE_MASK);
    TakeSeen(e.d.mem, EventRing(e), e.start, e.queued, e.seen, Newly(e, count));
    TakeResult(e, count, val, len, cons);
    TakeFlags(e, count, val, len);
    ConsumerKeeps(e, count, cons, EventApply(e, Take(count, val, len)).lost);
  }

  lemma UntouchedKeeps(e: Events, d: Dev)
    requires EventInv(e) && EventsUntouched(e.d, d)
    ensures EventInv(e.(d := d))
  {
  }

  lemma EventStepKeeps(e: Events, t: EventStep)
    requires EventInv(e) && EventEnabled(e, t)
    ensures EventInv(EventApply(e, t))
  {
    match t
    case Raise(record) => RaiseKeeps(e, record);
    case Take(count, val, len) => TakeKeeps(e, count, val, len);
    case Other(reg, val, len) =>
      WriteFrame(e.d, reg, val, len);
      UntouchedKeeps(e, WriteReg(e.d, reg, val, len).dev);
    case Change(mem) =>
  }

  // ---- Runs ----------------------------------------------------------------------------------

  predicate CanRunEvents(e: Events, run: seq<EventStep>)
    decreases |run|
  {
    run == [] || (EventEnabled(e, run[0]) && CanRunEvents(EventApply(e, run[0]), run[1..]))
  }

  function RunEvents(e: Events, run: seq<EventStep>): Events
    decreases |run|
  {
    if run == [] then e else RunEvents(EventApply(e, run[0]), run[1..])
  }

  /** An empty event queue without a pending overflow. */
  predicate Drained(e: Events) {
    && e.queued == [] && e.seen == [] && !e.lost
    && U32(e.d.eventqProd)
    && e.start == e.d.eventqProd
    && Pos(EventRing(e), e.d.eventqCons) == Pos(EventRing(e), e.d.eventqProd)
    && Set(e.d.eventqProd, OVFLG) == Set(e.d.eventqCons, OVFLG)
  }

  lemma {:induction false} RunEventsKeeps(e: Events, run: seq<EventStep>)
    requires EventInv(e) && CanRunEvents(e, run)
    ensures EventInv(RunEvents(e, run))
    decreases |run|
  {
    if run != [] {
      EventStepKeeps(e, run[0]);
      RunEventsKeeps(EventApply(e, run[0]), run[1..]);
    }
  }

  /**
   On every run: what the guest has read is exactly what was queued, in order; at most
   one queue of records is unread and all of them are intact; and the overflow flags
   tell exactly whether a record was lost since the guest last acknowledged.
   */
  lemma EventsInOrder(e: Events, run: seq<EventStep>)
    requires Drained(e) && CanRunEvents(e, run)
    ensures var e' := RunEvents(e, run);
            && |e'.seen| <= |e'.queued| <= |e'.seen| + Entries(EventRing(e'))
            && e'.seen == e'.queued[..|e'.seen|]
            && Intact(e'.d.mem, EventRing(e'), e'.start, e'.queued, |e'.seen|)
            && (e'.lost <==> Set(e'.d.eventqProd, OVFLG) != Set(e'.d.eventqCons, OVFLG))
  {
    RunEventsKeeps(e, run);
  }
}
