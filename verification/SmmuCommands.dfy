/**
 Every run of guest and device on the command queue: commands are executed in
 submission order, each exactly once; execution halts at a failure until the guest
 acknowledges it and then resumes at the failed slot, which the guest may have
 rewritten.
 */
module SmmuCommands {
  import opened Bytes
  import opened Bits
  import opened SmmuQueue
  import opened SmmuRing
  import opened SmmuStreamTable
  import opened SmmuDevice
  import opened SmmuRegisters

  // ---- Histories -------------------------------------------------------------------------

  /** The commands that were executed, in order. */
  function Executed(log: seq<Attempt>): seq<Command> {
    if log == [] then []
    else
      var last := log[|log| - 1];
      Executed(log[..|log| - 1]) + if last.ok && last.cmd.Some? then [last.cmd.value] else []
  }

  /** What held when an attempt was made: the commands in the slots, the errors acknowledged so far, and CR0.SMMUEN. */
  datatype Moment = Moment(submitted: seq<Command>, acks: nat, enabled: bool)

  /** After a failure the queue waits for an acknowledgement. */
  predicate MayTry(log: seq<Attempt>, past: seq<Moment>, acks: nat)
    requires |past| == |log|
  {
    log == [] || log[|log| - 1].ok || past[|log| - 1].acks < acks
  }

  /**
   Each attempt was at the slot of the first command not executed before, and what
   it fetched is what that slot held at the time; an unreadable command fails; and
   between a failed attempt and the next one an error was acknowledged.
   */
  predicate Faithful(log: seq<Attempt>, past: seq<Moment>)
    requires |past| == |log|
  {
    log == [] ||
    (var n := |log| - 1;
     var done, now := |Executed(log[..n])|, past[n];
     && Faithful(log[..n], past[..n])
     && MayTry(log[..n], past[..n], now.acks)
     && done < |now.submitted|
     && (log[n].ok ==> log[n].cmd.Some?)
     && (log[n].cmd.Some? ==> log[n].cmd.value == now.submitted[done]))
  }

  lemma Attempted(log: seq<Attempt>, a: Attempt)
    ensures Executed(log + [a]) == Executed(log) + (if a.ok && a.cmd.Some? then [a.cmd.value] else [])
    ensures (log + [a])[..|log|] == log
  {
    assert (log + [a])[..|log|] == log;
  }

  lemma FaithfulOnce(log: seq<Attempt>, past: seq<Moment>, a: Attempt, now: Moment)
    requires |past| == |log| && Faithful(log, past) && MayTry(log, past, now.acks)
    requires |Executed(log)| < |now.submitted| && (a.ok ==> a.cmd.Some?)
    requires a.cmd.Some? ==> a.cmd.value == now.submitted[|Executed(log)|]
    ensures Faithful(log + [a], past + [now])
  {
    assert (log + [a])[..|log|] == log && (past + [now])[..|log|] == past;
  }

  /**
   A device with what the guest has placed in the ring, how much of it has been
   announced, the errors acknowledged, and the attempts with their moments.
   */
  datatype History = History(
    d: Dev, start: nat, submitted: seq<Command>, announced: nat, acks: nat, log: seq<Attempt>, past: seq<Moment>)

  function Repeat(m: Moment, n: nat): (r: seq<Moment>)
    ensures |r| == n
    ensures forall i | 0 <= i < n :: r[i] == m
  {
    if n == 0 then [] else Repeat(m, n - 1) + [m]
  }

  /** The moment of the attempts made on the way to device `d`. */
  function Now(h: History, d: Dev): Moment {
    Moment(h.submitted, h.acks, Set(d.cr0, CR0_SMMUEN))
  }

  /** The history after a batch of attempts. */
  function Grow(h: History, d: Dev, log: seq<Attempt>): History {
    h.(d := d, log := h.log + log, past := h.past + Repeat(Now(h, d), |log|))
  }

  lemma GrowNone(h: History, d: Dev)
    ensures Grow(h, d, []) == h.(d := d)
  {
    assert h.log + [] == h.log && h.past + [] == h.past;
  }

  lemma GrowOne(h: History, d: Dev, a: Attempt)
    ensures Grow(h, d, [a]) == h.(d := d, log := h.log + [a], past := h.past + [Now(h, d)])
  {
    assert Repeat(Now(h, d), 1) == [Now(h, d)];
  }

  lemma GrowMore(h: History, d1: Dev, a: Attempt, d: Dev, rest: seq<Attempt>)
    requires d.cr0 == d1.cr0
    ensures Grow(Grow(h, d1, [a]), d, rest) == Grow(h, d, [a] + rest)
  {
    var m, n := Now(h, d), |rest|;
    GrowOne(h, d1, a);
    assert (h.log + [a]) + rest == h.log + ([a] + rest);
    assert (h.past + [m]) + Repeat(m, n) == h.past + Repeat(m, n + 1);
  }

  function Ring(h: History): Layout {
    LayoutOf(h.d.cmdqBase)
  }

  function Slot(l: Layout, count: nat): nat {
    EntryAddress(l, count, CMDQ_ENTRY_SIZE)
  }

  /** If the slot is readable it holds the command. */
  predicate Holds(mem: Memory, addr: nat, c: Command) {
    addr in mem && addr + 8 in mem ==> mem[addr] == c.word0 && mem[addr + 8] == c.word1
  }

  predicate Placed(mem: Memory, l: Layout, start: nat, submitted: seq<Command>, done: nat) {
    forall i | done <= i < |submitted| :: Holds(mem, Slot(l, start + i), submitted[i])
  }

  /** A failure that nobody has acknowledged is still reported. */
  predicate Halting(h: History)
    requires |h.past| == |h.log|
  {
    h.log != [] ==>
      && h.past[|h.log| - 1].acks <= h.acks
      && (Active(h.d, GERROR_CMDQ_ERR) || MayTry(h.log, h.past, h.acks))
  }

  /** The ring between the command executed last and the one placed last. */
  ghost predicate RingAt(d: Dev, start: nat, submitted: seq<Command>, announced: nat, done: nat) {
    var l := LayoutOf(d.cmdqBase);
    && U32(d.cmdqCons)
    && done <= announced <= |submitted| <= done + Entries(l)
    && Pos(l, d.cmdqCons) == Pos(l, start + done)
    && Pos(l, d.cmdqProd) == Pos(l, start + announced)
    && Placed(d.mem, l, start, submitted, done)
  }

  /** The attempts so far. */
  ghost predicate LogOk(h: History) {
    var done := |Executed(h.log)|;
    && done <= |h.submitted| && Executed(h.log) == h.submitted[..done]
    && |h.past| == |h.log| && Faithful(h.log, h.past) && Halting(h)
  }

  /** The state of the ring, apart from whether work is pending. */
  ghost predicate RingInv(h: History) {
    RingAt(h.d, h.start, h.submitted, h.announced, |Executed(h.log)|) && LogOk(h)
  }

  /** The next attempt is allowed. */
  ghost predicate Ready(h: History) {
    RingInv(h) && MayTry(h.log, h.past, h.acks)
  }

  predicate Running(d: Dev) {
    Set(d.cr0, CR0_CMDQEN) && !Active(d, GERROR_CMDQ_ERR)
  }

  /** Moreover nothing announced is left undone while the queue runs. */
  ghost predicate Inv(h: History) {
    RingInv(h) && (Running(h.d) ==> |Executed(h.log)| == h.announced)
  }

  // ---- Guest protocol --------------------------------------------------------------------

  datatype Step =
    | Place(cmd: Command)                       // the guest fills the next slot
    | Replace(i: nat, cmd: Command)             // or rewrites one that was not executed, a failed one say
    | Announce(count: nat, val: nat, len: nat)  // and moves CMDQ_PROD over filled slots
    | Write(reg: Reg, val: nat, len: nat)       // any write outside the command queue registers
    | Touch(mem: Memory)                        // any change of memory outside pending slots
    | Push(record: seq<nat>)                    // an event, with its queue placed elsewhere

  /** The commands not executed yet are in their slots. */
  predicate PendingPlaced(h: History, mem: Memory) {
    Placed(mem, Ring(h), h.start, h.submitted, |Executed(h.log)|)
  }

  predicate Enabled(h: History, t: Step) {
    match t
    case Place(_) => |h.submitted| < |Executed(h.log)| + Entries(Ring(h))
    case Replace(i, _) => |Executed(h.log)| <= i < |h.submitted|
    case Announce(count, val, len) =>
      && h.announced <= count <= |h.submitted|
      && Pos(Ring(h), val) == Pos(Ring(h), h.start + count)
      && (len == 4 || len == 8)
    case Write(reg, _, _) => reg !in {CMDQ_BASE, CMDQ_BASE_HI, CMDQ_PROD, CMDQ_CONS}
    case Touch(mem) => PendingPlaced(h, mem)
    case Push(record) => PendingPlaced(h, PushEvent(h.d, record).0.mem)
  }

  function StoreCommand(mem: Memory, addr: nat, c: Command): Memory {
    var mem1 := if addr in mem then mem[addr := c.word0] else mem;
    if addr + 8 in mem1 then mem1[addr + 8 := c.word1] else mem1
  }

  /** A write to GERRORN that acknowledges a command error. */
  predicate Acknowledges(d: Dev, reg: Reg, val: nat, len: nat) {
    && reg == GERRORN && (len == 4 || len == 8) && Active(d, GERROR_CMDQ_ERR)
    && !Active(d.(gerrorn := And(val % U32_LIMIT, GERRORN_WRITE_MASK)), GERROR_CMDQ_ERR)
  }

  function After(h: History, w: Written): History {
    Grow(h, w.dev, w.log)
  }

  function Apply(h: History, t: Step): History
    requires Enabled(h, t)
  {
    match t
    case Place(cmd) =>
      h.(d := h.d.(mem := StoreCommand(h.d.mem, Slot(Ring(h), h.start + |h.submitted|), cmd)),
         submitted := h.submitted + [cmd])
    case Replace(i, cmd) =>
      h.(d := h.d.(mem := StoreCommand(h.d.mem, Slot(Ring(h), h.start + i), cmd)), submitted := h.submitted[i := cmd])
    case Announce(count, val, len) => After(h, WriteReg(h.d, CMDQ_PROD, val, len)).(announced := count)
    case Write(reg, val, len) =>
      After(if Acknowledges(h.d, reg, val, len) then h.(acks := h.acks + 1) else h, WriteReg(h.d, reg, val, len))
    case Touch(mem) => h.(d := h.d.(mem := mem))
    case Push(record) => h.(d := PushEvent(h.d, record).0)
  }

  // ---- What the device does not touch ------------------------------------------------------

  /** Stream configuration and commands act on streams and the physical IOMMU only. */
  ghost predicate StreamsOnly(d: Dev, d': Dev) {
    d' == d.(streams := d'.streams, modes := d'.modes, issued := d'.issued, calls := d'.calls, fetched := d'.fetched)
  }

  lemma ConfigureStreamFrame(d: Dev, sid: nat)
    ensures StreamsOnly(d, ConfigureStream(d, sid).0)
  {
    hide FetchSte, SteMode, GbpaMode, Set;
  }

  lemma {:induction false} ConfigureStreamsFrame(d: Dev, sids: seq<nat>)
    ensures StreamsOnly(d, ConfigureStreams(d, sids).0)
    decreases |sids|
  {
    if sids != [] {
      ConfigureStreamFrame(d, sids[0]);
      if ConfigureStream(d, sids[0]).1 {
        ConfigureStreamsFrame(ConfigureStream(d, sids[0]).0, sids[1..]);
      }
    }
  }

  lemma DispatchFrame(d: Dev, c: Command)
    ensures StreamsOnly(d, Dispatch(d, c).0)
  {
    hide Decode, ConfigureStream, InsertStream, Set;
    if RequestOf(d, c).Configure? {
      var sid := RequestOf(d, c).sid;
      ConfigureStreamFrame(d.(streams := InsertStream(d.streams, sid)), sid);
    }
  }

  /** An event acts on its own queue, memory and one error bit. */
  lemma PushEventFrame(d: Dev, record: seq<nat>)
    ensures var d' := PushEvent(d, record).0;
            && d' == d.(mem := d'.mem, gerror := d'.gerror, eventqProd := d'.eventqProd)
            && Active(d', GERROR_CMDQ_ERR) == Active(d, GERROR_CMDQ_ERR)
  {
    hide StoreWords, IsFull, NextPointer, And, Xor, Pow2;
    if PushEvent(d, record).1.WriteFault? {
      var addr := EntryAddress(LayoutOf(d.eventqBase), d.eventqProd, EVENTQ_ENTRY_SIZE);
      RaiseGerrorIs(d.(mem := StoreWords(d.mem, addr, record).0), GERROR_EVENTQ_ABT_ERR, GERROR_CMDQ_ERR);
    }
  }

  // ---- Consumption -----------------------------------------------------------------------------

  /** The fetched command is the first one not executed. */
  lemma FetchIsHead(h: History)
    requires RingInv(h) && |Executed(h.log)| < h.announced
    ensures FetchCommand(h.d).Some? ==> FetchCommand(h.d).value == h.submitted[|Executed(h.log)|]
  {
    hide And, Executed, Faithful, Halting, Pos, LayoutOf;
    var done := |Executed(h.log)|;
    SameSlot(Ring(h), h.d.cmdqCons, h.start + done, CMDQ_ENTRY_SIZE);
    assert Holds(h.d.mem, Slot(Ring(h), h.start + done), h.submitted[done]);
  }

  lemma EmptyMeansDone(h: History)
    requires RingInv(h)
    ensures IsEmpty(Ring(h), h.d.cmdqProd, h.d.cmdqCons) <==> |Executed(h.log)| == h.announced
  {
    var done := |Executed(h.log)|;
    PosIsMod(Ring(h), h.d.cmdqProd);
    PosIsMod(Ring(h), h.d.cmdqCons);
    if Pos(Ring(h), h.start + done) == Pos(Ring(h), h.start + h.announced) {
      SamePos(Ring(h), h.start + done, h.start + h.announced);
    }
  }

  /** A failed attempt is logged, raises the error and moves nothing. */
  lemma FailKeeps(h: History, d: Dev, cmd: Option<Command>, cerror: nat)
    requires Ready(h) && |Executed(h.log)| < h.announced && StreamsOnly(h.d, d) && cerror < 128
    requires cmd.Some? ==> cmd.value == h.submitted[|Executed(h.log)|]
    ensures var h' := Grow(h, SetCmdqError(d, cerror), [Attempt(cmd, false)]);
            RingInv(h') && Active(h'.d, GERROR_CMDQ_ERR) && Executed(h'.log) == Executed(h.log)
  {
    hide Faithful, Placed, Pos, LayoutOf;
    SetCmdqErrorIs(d, cerror);
    Attempted(h.log, Attempt(cmd, false));
    GrowOne(h, SetCmdqError(d, cerror), Attempt(cmd, false));
    FaithfulOnce(h.log, h.past, Attempt(cmd, false), Now(h, SetCmdqError(d, cerror)));
  }

  /** A successful attempt advances the consumer by one. */
  lemma SuccessKeeps(h: History, d: Dev, cmd: Command)
    requires Ready(h) && |Executed(h.log)| < h.announced && StreamsOnly(h.d, d)
    requires cmd == h.submitted[|Executed(h.log)|]
    ensures var h' := Grow(h, d.(cmdqCons := NextPointer(Ring(h), d.cmdqCons)), [Attempt(Some(cmd), true)]);
            Ready(h') && |Executed(h'.log)| == |Executed(h.log)| + 1
  {
    var a := Attempt(Some(cmd), true);
    var d' := d.(cmdqCons := NextPointer(Ring(h), d.cmdqCons));
    SuccessLogged(h, d', a);
    SuccessMoves(h.d, d', h.start, h.submitted, h.announced, |Executed(h.log)|);
    hide RingAt, LogOk, Executed;
  }

  lemma SuccessLogged(h: History, d: Dev, a: Attempt)
    requires LogOk(h) && MayTry(h.log, h.past, h.acks) && |Executed(h.log)| < |h.submitted|
    requires a.ok && a.cmd == Some(h.submitted[|Executed(h.log)|])
    ensures var h' := Grow(h, d, [a]);
            LogOk(h') && MayTry(h'.log, h'.past, h'.acks) && |Executed(h'.log)| == |Executed(h.log)| + 1
  {
    hide Faithful, Executed, Set, Active;
    GrowOne(h, d, a);
    ExecutedMore(h.log, a, h.submitted);
    FaithfulOnce(h.log, h.past, a, Now(h, d));
  }

  lemma SuccessMoves(d: Dev, d': Dev, start: nat, submitted: seq<Command>, announced: nat, done: nat)
    requires RingAt(d, start, submitted, announced, done) && done < announced
    requires d'.cmdqBase == d.cmdqBase && d'.cmdqProd == d.cmdqProd && d'.mem == d.mem
    requires d'.cmdqCons == NextPointer(LayoutOf(d.cmdqBase), d.cmdqCons)
    ensures RingAt(d', start, submitted, announced, done + 1)
  {
    hide Placed, Pos, LayoutOf, NextPointer, Entries;
    NextFollows(LayoutOf(d.cmdqBase), d.cmdqCons, start + done);
    PlacedFewer(d.mem, LayoutOf(d.cmdqBase), start, submitted, done);
  }

  lemma ExecutedMore(log: seq<Attempt>, a: Attempt, submitted: seq<Command>)
    requires |Executed(log)| < |submitted| && Executed(log) == submitted[..|Executed(log)|]
    requires a.ok && a.cmd == Some(submitted[|Executed(log)|])
    ensures |Executed(log + [a])| == |Executed(log)| + 1
    ensures Executed(log + [a]) == submitted[..|Executed(log)| + 1]
  {
    Attempted(log, a);
    TakeOneMore(submitted, |Executed(log)|);
  }

  lemma PlacedFewer(mem: Memory, l: Layout, start: nat, submitted: seq<Command>, done: nat)
    requires Placed(mem, l, start, submitted, done)
    ensures Placed(mem, l, start, submitted, done + 1)
  {
  }

  lemma TakeOneMore(s: seq<Command>, n: nat)
    requires n < |s|
    ensures s[..n] + [s[n]] == s[..n + 1]
  {
  }

  /** A batch of attempts that ends with nothing pending or with an error. */
  ghost predicate Batch(h: History, d: Dev, log: seq<Attempt>) {
    && RingInv(Grow(h, d, log)) && d.cr0 == h.d.cr0
    && (AllOk(log) ==> |Executed(h.log + log)| == h.announced)
    && (!AllOk(log) ==> Active(d, GERROR_CMDQ_ERR))
  }

  lemma EmptyBatch(h: History)
    requires RingInv(h) && |Executed(h.log)| == h.announced
    ensures Batch(h, h.d, [])
  {
    GrowNone(h, h.d);
  }

  lemma FailedBatch(h: History, d: Dev, cmd: Option<Command>, cerror: nat)
    requires Ready(h) && |Executed(h.log)| < h.announced && StreamsOnly(h.d, d) && cerror < 128
    requires cmd.Some? ==> cmd.value == h.submitted[|Executed(h.log)|]
    ensures Batch(h, SetCmdqError(d, cerror), [Attempt(cmd, false)])
  {
    FailKeeps(h, d, cmd, cerror);
    assert !([Attempt(cmd, false)][0].ok);
  }

  lemma AllOkTail(a: Attempt, rest: seq<Attempt>)
    requires a.ok
    ensures AllOk([a] + rest) <==> AllOk(rest)
  {
    assert forall i | 0 <= i < |rest| :: ([a] + rest)[i + 1] == rest[i];
  }

  lemma LongerBatch(h: History, d1: Dev, a: Attempt, d: Dev, rest: seq<Attempt>)
    requires d1.cr0 == h.d.cr0 && a.ok && Batch(Grow(h, d1, [a]), d, rest)
    ensures Batch(h, d, [a] + rest)
  {
    hide RingInv, Executed;
    AllOkTail(a, rest);
    GrowMore(h, d1, a, d, rest);
    assert (h.log + [a]) + rest == h.log + ([a] + rest);
  }

  /** Whether the loop executes one more command, and the history after it. */
  predicate Advances(d: Dev, fuel: nat) {
    && fuel > 0 && !IsEmpty(LayoutOf(d.cmdqBase), d.cmdqProd, d.cmdqCons)
    && FetchCommand(d).Some? && Dispatch(d, FetchCommand(d).value).1
  }

  function Advanced(h: History): History
    requires FetchCommand(h.d).Some?
  {
    Grow(h, Follow(h.d), [Attempt(FetchCommand(h.d), true)])
  }

  /** The device after executing the command at the head. */
  function Follow(d: Dev): Dev
    requires FetchCommand(d).Some?
  {
    var d1 := Dispatch(d, FetchCommand(d).value).0;
    d1.(cmdqCons := NextPointer(LayoutOf(d1.cmdqBase), d1.cmdqCons))
  }

  lemma ConsumeAdvances(d: Dev, fuel: nat)
    requires Advances(d, fuel)
    ensures Consume(d, fuel).0 == Consume(Follow(d), fuel - 1).0
    ensures Consume(d, fuel).1 == [Attempt(FetchCommand(d), true)] + Consume(Follow(d), fuel - 1).1
  {
  }

  /** Command processing moves the consumer and may raise an error; the rest is the streams' and the physical IOMMU's. */
  ghost predicate CommandsOnly(d: Dev, d': Dev) {
    StreamsOnly(d.(cmdqCons := d'.cmdqCons, gerror := d'.gerror), d')
  }

  lemma {:induction false} ConsumeFrame(d: Dev, fuel: nat)
    ensures CommandsOnly(d, Consume(d, fuel).0)
    decreases fuel
  {
    hide Dispatch, FetchCommand, IsEmpty, NextPointer, Xor, And, Or, Pow2;
    if FetchCommand(d).Some? {
      DispatchFrame(d, FetchCommand(d).value);
      if Advances(d, fuel) {
        ConsumeFrame(Follow(d), fuel - 1);
      }
    }
  }

  lemma AdvanceKeeps(h: History, fuel: nat)
    requires Ready(h) && Advances(h.d, fuel)
    ensures Ready(Advanced(h)) && |Executed(Advanced(h).log)| == |Executed(h.log)| + 1
    ensures Advanced(h).d == Follow(h.d) && Advanced(h).announced == h.announced && Follow(h.d).cr0 == h.d.cr0
  {
    EmptyMeansDone(h);
    FetchIsHead(h);
    DispatchFrame(h.d, FetchCommand(h.d).value);
    SuccessKeeps(h, Dispatch(h.d, FetchCommand(h.d).value).0, FetchCommand(h.d).value);
  }

  lemma StopKeeps(h: History, fuel: nat)
    requires Ready(h) && h.announced <= |Executed(h.log)| + fuel && !Advances(h.d, fuel)
    ensures Batch(h, Consume(h.d, fuel).0, Consume(h.d, fuel).1)
  {
    EmptyMeansDone(h);
    if |Executed(h.log)| == h.announced {
      EmptyBatch(h);
    } else {
      FetchIsHead(h);
      var cmd := FetchCommand(h.d);
      if cmd.None? {
        FailedBatch(h, h.d, None, CERROR_ABT);
      } else {
        DispatchFrame(h.d, cmd.value);
        FailedBatch(h, Dispatch(h.d, cmd.value).0, cmd, CERROR_ILL);
      }
    }
  }

  /** With room for everything pending, the loop completes a batch. */
  lemma {:induction false} ConsumeKeeps(h: History, fuel: nat)
    requires Ready(h) && h.announced <= |Executed(h.log)| + fuel
    ensures Batch(h, Consume(h.d, fuel).0, Consume(h.d, fuel).1)
    decreases fuel
  {
    hide Ready, Batch, Grow, Follow, Consume, FetchCommand, Dispatch, IsEmpty, Executed;
    if Advances(h.d, fuel) {
      AdvanceKeeps(h, fuel);
      ConsumeAdvances(h.d, fuel);
      var h1 := Advanced(h);
      ConsumeKeeps(h1, fuel - 1);
      LongerBatch(h, h1.d, Attempt(FetchCommand(h.d), true), Consume(h1.d, fuel - 1).0, Consume(h1.d, fuel - 1).1);
    } else {
      StopKeeps(h, fuel);
    }
  }

  lemma ConsumeCmdqKeeps(h: History)
    requires RingInv(h)
    ensures Inv(After(h, AfterConsume(h.d)))
  {
    if Running(h.d) {
      ConsumeKeeps(h, Entries(Ring(h)));
    } else {
      GrowNone(h, h.d);
    }
  }

  // ---- Every step --------------------------------------------------------------------------

  /** Changes that leave ring registers and memory alone. */
  lemma Elsewhere(h: History, d: Dev)
    requires Inv(h) && (Running(d) ==> Running(h.d)) && (Active(h.d, GERROR_CMDQ_ERR) ==> Active(d, GERROR_CMDQ_ERR))
    requires d.cmdqBase == h.d.cmdqBase && d.cmdqProd == h.d.cmdqProd && d.cmdqCons == h.d.cmdqCons && d.mem == h.d.mem
    ensures Inv(h.(d := d)) && Inv(After(h, Written(d, true, []))) && Inv(After(h, Written(d, false, [])))
  {
    GrowNone(h, d);
  }

  lemma StoreHolds(mem: Memory, addr: nat, c: Command, other: nat, c': Command)
    requires Holds(mem, other, c')
    requires addr + CMDQ_ENTRY_SIZE <= other || other + CMDQ_ENTRY_SIZE <= addr
    ensures Holds(StoreCommand(mem, addr, c), other, c') && Holds(StoreCommand(mem, addr, c), addr, c)
  {
  }

  lemma PlacedOneMore(mem: Memory, l: Layout, start: nat, submitted: seq<Command>, done: nat, c: Command)
    requires done <= |submitted| < done + Entries(l) && Placed(mem, l, start, submitted, done)
    ensures Placed(StoreCommand(mem, Slot(l, start + |submitted|), c), l, start, submitted + [c], done)
  {
    var n := |submitted|;
    forall i | done <= i < n + 1
      ensures Holds(StoreCommand(mem, Slot(l, start + n), c), Slot(l, start + i), (submitted + [c])[i])
    {
      if i < n {
        DistinctEntries(l, start + i, start + n, CMDQ_ENTRY_SIZE);
        StoreHolds(mem, Slot(l, start + n), c, Slot(l, start + i), submitted[i]);
      }
    }
  }

  lemma PlacedAfresh(mem: Memory, l: Layout, start: nat, submitted: seq<Command>, done: nat, k: nat, c: Command)
    requires done <= k < |submitted| <= done + Entries(l) && Placed(mem, l, start, submitted, done)
    ensures Placed(StoreCommand(mem, Slot(l, start + k), c), l, start, submitted[k := c], done)
  {
    var after := submitted[k := c];
    forall i | done <= i < |after|
      ensures Holds(StoreCommand(mem, Slot(l, start + k), c), Slot(l, start + i), after[i])
    {
      if i < k {
        DistinctEntries(l, start + i, start + k, CMDQ_ENTRY_SIZE);
        StoreHolds(mem, Slot(l, start + k), c, Slot(l, start + i), submitted[i]);
      } else if k < i {
        DistinctEntries(l, start + k, start + i, CMDQ_ENTRY_SIZE);
        StoreHolds(mem, Slot(l, start + k), c, Slot(l, start + i), submitted[i]);
      }
    }
  }

  lemma ReplaceKeeps(h: History, k: nat, cmd: Command)
    requires Inv(h) && Enabled(h, Replace(k, cmd))
    ensures Inv(Apply(h, Replace(k, cmd)))
  {
    hide StoreCommand, Executed, Faithful, Placed, Pos, LayoutOf, Slot;
    var h' := Apply(h, Replace(k, cmd));
    PlacedAfresh(h.d.mem, Ring(h), h.start, h.submitted, |Executed(h.log)|, k, cmd);
    assert Ring(h') == Ring(h) && h'.log == h.log && |h'.submitted| == |h.submitted|;
    assert h'.submitted[..|Executed(h.log)|] == h.submitted[..|Executed(h.log)|];
  }

  lemma PlaceKeepsRing(h: History, cmd: Command)
    requires RingInv(h) && Enabled(h, Place(cmd))
    ensures RingInv(Apply(h, Place(cmd)))
  {
    hide StoreCommand, Executed, Faithful, Placed, Pos, LayoutOf, Slot;
    var h' := Apply(h, Place(cmd));
    PlacedOneMore(h.d.mem, Ring(h), h.start, h.submitted, |Executed(h.log)|, cmd);
    assert h'.submitted[..|Executed(h.log)|] == h.submitted[..|Executed(h.log)|];
    assert Ring(h') == Ring(h) && h'.log == h.log && |h'.submitted| == |h.submitted| + 1;
    assert Placed(h'.d.mem, Ring(h'), h'.start, h'.submitted, |Executed(h'.log)|);
  }

  lemma PlaceKeeps(h: History, cmd: Command)
    requires Inv(h) && Enabled(h, Place(cmd))
    ensures Inv(Apply(h, Place(cmd)))
  {
    PlaceKeepsRing(h, cmd);
  }

  lemma AnnounceKeeps(h: History, count: nat, val: nat, len: nat)
    requires Inv(h) && Enabled(h, Announce(count, val, len))
    ensures Inv(Apply(h, Announce(count, val, len)))
  {
    hide Faithful, Executed, Placed, AfterConsume, LayoutOf, Pos, Entries;
    ProducerMask(val, Ring(h));
    var h1 := h.(d := h.d.(cmdqProd := And(val % U32_LIMIT, CMDQ_PROD_WRITE_MASK)), announced := count);
    ConsumeCmdqKeeps(h1);
  }

  /** Reconfiguring streams afterwards changes nothing here. */
  lemma ReconfigureKeeps(h: History, w: Written)
    requires Inv(After(h, w))
    ensures Inv(After(h, Written(ConfigureStreams(w.dev, w.dev.streams).0, ConfigureStreams(w.dev, w.dev.streams).1, w.log)))
  {
    var d := ConfigureStreams(w.dev, w.dev.streams).0;
    ConfigureStreamsFrame(w.dev, w.dev.streams);
    Elsewhere(After(h, w), d);
    assert Grow(h, d, w.log) == After(h, w).(d := d);
  }

  lemma Cr0Keeps(h: History, val: nat)
    requires Inv(h)
    ensures Inv(After(h, WriteCr0(h.d, val)))
  {
    var d1 := h.d.(cr0 := And(val, CR0_WRITE_MASK));
    if !Set(h.d.cr0, CR0_CMDQEN) {
      ConsumeCmdqKeeps(h.(d := d1));
      ReconfigureKeeps(h, AfterConsume(d1));
    } else {
      Elsewhere(h, d1);
      ReconfigureKeeps(h, Plain(d1));
    }
  }

  lemma GbpaKeeps(h: History, val: nat)
    requires Inv(h)
    ensures Inv(After(h, WriteGbpa(h.d, val)))
  {
    var d1 := h.d.(gbpa := And(val, GBPA_WRITE_MASK));
    ConfigureStreamsFrame(d1, d1.streams);
    Elsewhere(h, d1);
    Elsewhere(h, ConfigureStreams(d1, d1.streams).0);
  }

  lemma GerrornKeeps(h: History, val: nat)
    requires Inv(h)
    ensures var acked := Active(h.d, GERROR_CMDQ_ERR)
                         && !Active(h.d.(gerrorn := And(val, GERRORN_WRITE_MASK)), GERROR_CMDQ_ERR);
            Inv(After(if acked then h.(acks := h.acks + 1) else h, WriteGerrorn(h.d, val)))
  {
    var d1 := h.d.(gerrorn := And(val, GERRORN_WRITE_MASK));
    if Active(h.d, GERROR_CMDQ_ERR) && !Active(d1, GERROR_CMDQ_ERR) {
      ErrorCleared(d1.cmdqCons, Ring(h));
      ConsumeCmdqKeeps(h.(d := d1.(cmdqCons := And(d1.cmdqCons, CMDQ_CONS_ERR_CLEAR)), acks := h.acks + 1));
    } else {
      Elsewhere(h, d1);
    }
  }

  lemma StoredKeeps(h: History, r: Reg, val: nat, len: nat)
    requires Inv(h) && Enabled(h, Write(r, val, len)) && r !in {CR0, GBPA, GERRORN} && (len == 4 || len == 8)
    ensures Inv(After(h, WriteReg(h.d, r, val, len)))
  {
    hide Inv, And, MergeLow, MergeHigh, Grow;
    Elsewhere(h, WriteReg(h.d, r, val, len).dev);
  }

  lemma WriteKeeps(h: History, r: Reg, val: nat, len: nat)
    requires Inv(h) && Enabled(h, Write(r, val, len))
    ensures Inv(Apply(h, Write(r, val, len)))
  {
    hide Inv, Grow, Active, WriteCr0, WriteGbpa, WriteGerrorn, AfterConsume, MergeLow, MergeHigh, And;
    if len != 4 && len != 8 {
      Elsewhere(h, h.d);
    } else {
      match r
      case CR0 => Cr0Keeps(h, val % U32_LIMIT);
      case GBPA => GbpaKeeps(h, val % U32_LIMIT);
      case GERRORN => GerrornKeeps(h, val % U32_LIMIT);
      case _ => StoredKeeps(h, r, val, len);
    }
  }

  /** Any change of memory that leaves the pending slots alone. */
  lemma MemoryKeeps(h: History, d: Dev)
    requires Inv(h) && (Running(d) ==> Running(h.d)) && PendingPlaced(h, d.mem)
    requires Active(h.d, GERROR_CMDQ_ERR) ==> Active(d, GERROR_CMDQ_ERR)
    requires d.cmdqBase == h.d.cmdqBase && d.cmdqProd == h.d.cmdqProd && d.cmdqCons == h.d.cmdqCons
    ensures Inv(h.(d := d))
  {
  }

  lemma PushKeeps(h: History, record: seq<nat>)
    requires Inv(h) && Enabled(h, Push(record))
    ensures Inv(Apply(h, Push(record)))
  {
    PushEventFrame(h.d, record);
    MemoryKeeps(h, PushEvent(h.d, record).0);
  }

  lemma StepKeeps(h: History, t: Step)
    requires Inv(h) && Enabled(h, t)
    ensures Inv(Apply(h, t))
  {
    match t
    case Place(cmd) => PlaceKeeps(h, cmd);
    case Replace(k, cmd) => ReplaceKeeps(h, k, cmd);
    case Announce(count, val, len) => AnnounceKeeps(h, count, val, len);
    case Write(reg, val, len) => WriteKeeps(h, reg, val, len);
    case Touch(mem) => MemoryKeeps(h, h.d.(mem := mem));
    case Push(record) => PushKeeps(h, record);
  }

  /** The step acknowledges the command error. */
  predicate Acks(h: History, t: Step) {
    t.Write? && Acknowledges(h.d, t.reg, t.val, t.len)
  }

  /** While a command error is active, a step that does not acknowledge it attempts nothing. */
  lemma StepHalted(h: History, t: Step)
    requires Enabled(h, t) && Active(h.d, GERROR_CMDQ_ERR) && !Acks(h, t)
    ensures Apply(h, t).log == h.log && Apply(h, t).past == h.past && Active(Apply(h, t).d, GERROR_CMDQ_ERR)
    ensures Apply(h, t).acks == h.acks && Apply(h, t).start == h.start
  {
    match t
    case Place(_) =>
    case Replace(_, _) =>
    case Announce(_, val, len) => GrowNone(h, WriteReg(h.d, CMDQ_PROD, val, len).dev);
    case Write(reg, val, len) =>
      WriteHalted(h.d, reg, val, len);
      GrowNone(h, WriteReg(h.d, reg, val, len).dev);
    case Touch(_) =>
    case Push(record) => PushEventFrame(h.d, record);
  }

  lemma WriteHalted(d: Dev, reg: Reg, val: nat, len: nat)
    requires Active(d, GERROR_CMDQ_ERR) && !Acknowledges(d, reg, val, len)
    ensures WriteReg(d, reg, val, len).log == [] && Active(WriteReg(d, reg, val, len).dev, GERROR_CMDQ_ERR)
  {
    hide Consume, ConfigureStreams, And, Xor, Or;
    if reg == CR0 {
      var d1 := d.(cr0 := And(val % U32_LIMIT, CR0_WRITE_MASK));
      ConfigureStreamsFrame(d1, d1.streams);
    } else if reg == GBPA {
      var d1 := d.(gbpa := And(val % U32_LIMIT, GBPA_WRITE_MASK));
      ConfigureStreamsFrame(d1, d1.streams);
    }
  }

  lemma StopCode(d: Dev, fuel: nat)
    requires U32(d.cmdqCons) && !Advances(d, fuel)
    ensures CodeTells(Consume(d, fuel).0, Consume(d, fuel).1)
  {
    if FetchCommand(d).None? {
      SetCmdqErrorIs(d, CERROR_ABT);
    } else {
      DispatchFrame(d, FetchCommand(d).value);
      SetCmdqErrorIs(Dispatch(d, FetchCommand(d).value).0, CERROR_ILL);
    }
  }

  lemma LongerTells(d: Dev, a: Attempt, rest: seq<Attempt>)
    requires a.ok && CodeTells(d, rest)
    ensures CodeTells(d, [a] + rest)
  {
    assert rest != [] ==> ([a] + rest)[|rest|] == rest[|rest| - 1];
  }

  /** If the last attempt failed, the error code says whether the command could be fetched. */
  predicate CodeTells(d: Dev, log: seq<Attempt>) {
    log != [] && !log[|log| - 1].ok ==>
      d.cmdqCons / ERR_UNIT % 128 == if log[|log| - 1].cmd.None? then CERROR_ABT else CERROR_ILL
  }

  /** A batch that stops at a failure leaves the right error code in CMDQ_CONS. */
  lemma {:induction false} ErrorCodeExactly(d: Dev, fuel: nat)
    requires U32(d.cmdqCons)
    ensures CodeTells(Consume(d, fuel).0, Consume(d, fuel).1)
    decreases fuel
  {
    hide Consume, Dispatch, FetchCommand, NextPointer;
    if Advances(d, fuel) {
      DispatchFrame(d, FetchCommand(d).value);
      NextPointerIs(LayoutOf(d.cmdqBase), d.cmdqCons);
      ConsumeAdvances(d, fuel);
      ErrorCodeExactly(Follow(d), fuel - 1);
      LongerTells(Consume(d, fuel).0, Attempt(FetchCommand(d), true), Consume(Follow(d), fuel - 1).1);
    } else {
      StopCode(d, fuel);
    }
  }

  // ---- Runs ------------------------------------------------------------------------------------

  predicate CanRun(h: History, run: seq<Step>)
    decreases |run|
  {
    run == [] || (Enabled(h, run[0]) && CanRun(Apply(h, run[0]), run[1..]))
  }

  function Run(h: History, run: seq<Step>): History
    requires CanRun(h, run)
    decreases |run|
  {
    if run == [] then h else Run(Apply(h, run[0]), run[1..])
  }

  /** An idle ring, with whatever else the device holds. */
  predicate Idle(h: History) {
    && h.submitted == [] && h.announced == 0 && h.log == [] && h.past == []
    && U32(h.d.cmdqCons)
    && h.start == h.d.cmdqCons
    && Pos(Ring(h), h.d.cmdqProd) == Pos(Ring(h), h.d.cmdqCons)
  }

  lemma IdleInv(h: History)
    requires Idle(h)
    ensures Inv(h)
  {
  }

  lemma {:induction false} RunKeeps(h: History, run: seq<Step>)
    requires Inv(h) && CanRun(h, run)
    ensures Inv(Run(h, run))
    decreases |run|
  {
    if run != [] {
      StepKeeps(h, run[0]);
      RunKeeps(Apply(h, run[0]), run[1..]);
    }
  }

  /**
   The commands executed are a prefix of those submitted, all of the announced ones
   while the queue runs; the consumer register names the first command not executed;
   every attempt was made in turn, at what its slot held at the time; and after a
   failure nothing was attempted before an acknowledgement.
   */
  ghost predicate Orderly(h: History) {
    var done := |Executed(h.log)|;
    && done <= h.announced <= |h.submitted|
    && Executed(h.log) == h.submitted[..done]
    && (Running(h.d) ==> Executed(h.log) == h.submitted[..h.announced])
    && Pos(Ring(h), h.d.cmdqCons) == Pos(Ring(h), h.start + done)
    && |h.past| == |h.log| && Faithful(h.log, h.past)
  }

  lemma InOrder(h: History)
    requires Inv(h)
    ensures Orderly(h)
  {
    hide Faithful, Executed, Placed, Pos, LayoutOf, Entries;
  }

  /**
   Every run of the guest protocol from an idle ring is orderly throughout, however
   often the guest rewrites a command that failed or was not executed yet.
   */
  lemma CommandsInOrder(h: History, run: seq<Step>)
    requires Idle(h) && CanRun(h, run)
    ensures var h' := Run(h, run);
            Orderly(h') && h'.start == h.start
  {
    hide Inv, Orderly, Idle;
    IdleInv(h);
    RunKeeps(h, run);
    RunStart(h, run);
    InOrder(Run(h, run));
  }

  lemma {:induction false} RunStart(h: History, run: seq<Step>)
    requires CanRun(h, run)
    ensures Run(h, run).start == h.start
    decreases |run|
  {
    if run != [] {
      RunStart(Apply(h, run[0]), run[1..]);
    }
  }

  // ---- Halt and recovery -------------------------------------------------------------------------

  /** No step of the run acknowledges the command error. */
  predicate Unacknowledged(h: History, run: seq<Step>)
    requires CanRun(h, run)
    decreases |run|
  {
    run == [] || (!Acks(h, run[0]) && Unacknowledged(Apply(h, run[0]), run[1..]))
  }

  /** Over any run without an acknowledgement, however long, a command error stays and nothing is attempted. */
  lemma {:induction false} HaltedUntilAcknowledged(h: History, run: seq<Step>)
    requires Active(h.d, GERROR_CMDQ_ERR) && CanRun(h, run) && Unacknowledged(h, run)
    ensures var h' := Run(h, run);
            && h'.log == h.log && h'.past == h.past && h'.acks == h.acks && h'.start == h.start
            && Active(h'.d, GERROR_CMDQ_ERR)
    decreases |run|
  {
    if run != [] {
      StepHalted(h, run[0]);
      HaltedUntilAcknowledged(Apply(h, run[0]), run[1..]);
    }
  }

  /** The command that the slot of `i` holds for the device: none if it cannot be read. */
  function Readout(h: History, i: nat): Option<Command>
    requires i < |h.submitted|
  {
    var addr := Slot(Ring(h), h.start + i);
    if addr in h.d.mem && addr + 8 in h.d.mem then Some(h.submitted[i]) else None
  }

  /**
   An attempt at slot `i`: it fetched what the slot holds; an unreadable or illegal
   command failed, and one that asks for nothing more succeeded.
   */
  predicate AttemptAt(h: History, i: nat, a: Attempt)
    requires i < |h.submitted|
  {
    && a.cmd == Readout(h, i)
    && (a.cmd.None? || RequestOf(h.d, a.cmd.value).Illegal? ==> !a.ok)
    && (a.cmd.Some? && RequestOf(h.d, a.cmd.value).Nothing? ==> a.ok)
  }

  /** The first attempt of a batch is at the head of the queue. */
  lemma FirstAttempt(h: History)
    requires RingInv(h) && Running(h.d) && |Executed(h.log)| < h.announced
    ensures var log := AfterConsume(h.d).log;
            log != [] && AttemptAt(h, |Executed(h.log)|, log[0])
  {
    hide And, Executed, Faithful, Halting, Pos, LayoutOf, Decode, ConfigureStream;
    EmptyMeansDone(h);
    FetchIsHead(h);
    SameSlot(Ring(h), h.d.cmdqCons, h.start + |Executed(h.log)|, CMDQ_ENTRY_SIZE);
  }

  /**
   Recovery from a command error, over runs: from an idle ring the queue comes to an
   error, the guest does whatever it likes without acknowledging, and then
   acknowledges. Nothing is attempted in between, and the first attempt afterwards is
   at the very slot that was the first one not executed when the queue halted, with
   what the guest has meanwhile put there: a command that is still illegal fails
   again, a repaired one is executed.
   */
  lemma ResumesAtTheHaltedSlot(h0: History, pre: seq<Step>, repair: seq<Step>, ack: Step)
    requires Idle(h0) && CanRun(h0, pre)
    requires var h := Run(h0, pre);
             && Active(h.d, GERROR_CMDQ_ERR) && CanRun(h, repair) && Unacknowledged(h, repair)
             && Enabled(Run(h, repair), ack) && Acks(Run(h, repair), ack)
    ensures var h := Run(h0, pre);
            var h1 := Run(h, repair);
            var h2, slot := Apply(h1, ack), |Executed(h.log)|;
            && h1.log == h.log
            && (Set(h1.d.cr0, CR0_CMDQEN) && slot < h1.announced ==>
                  && slot < |h1.submitted| && |h.log| < |h2.log| && h2.log[..|h.log|] == h.log
                  && AttemptAt(h1, slot, h2.log[|h.log|]))
            && (!(Set(h1.d.cr0, CR0_CMDQEN) && slot < h1.announced) ==> h2.log == h.log)
  {
    hide Inv, Idle, Enabled, Acks, Apply, Active;
    IdleInv(h0);
    RunKeeps(h0, pre);
    var h := Run(h0, pre);
    HaltedUntilAcknowledged(h, repair);
    RunKeeps(h, repair);
    AckResumes(Run(h, repair), ack);
  }

  /** The ring after an acknowledgement, before the device goes on. */
  function Cleared(h: History, val: nat): History {
    h.(d := h.d.(gerrorn := And(val % U32_LIMIT, GERRORN_WRITE_MASK),
                 cmdqCons := And(h.d.cmdqCons, CMDQ_CONS_ERR_CLEAR)),
       acks := h.acks + 1)
  }

  lemma AckIs(h: History, ack: Step)
    requires Enabled(h, ack) && Acks(h, ack)
    ensures Apply(h, ack).log == h.log + AfterConsume(Cleared(h, ack.val).d).log
    ensures !Active(Cleared(h, ack.val).d, GERROR_CMDQ_ERR)
  {
    hide And, Xor, ConsumeCmdq;
  }

  lemma ClearedKeeps(h: History, val: nat)
    requires Inv(h)
    ensures RingInv(Cleared(h, val)) && |Executed(h.log)| <= h.announced <= |h.submitted|
  {
    hide Faithful, Placed, Executed;
    ErrorCleared(h.d.cmdqCons, Ring(h));
  }

  lemma NothingPending(h: History)
    requires RingInv(h) && (|Executed(h.log)| == h.announced || !Set(h.d.cr0, CR0_CMDQEN))
    ensures AfterConsume(h.d).log == []
  {
    hide RingInv, Executed, IsEmpty, Active, Set;
    EmptyMeansDone(h);
  }

  lemma AckResumes(h: History, ack: Step)
    requires Inv(h) && Enabled(h, ack) && Acks(h, ack)
    ensures var h2, slot := Apply(h, ack), |Executed(h.log)|;
            if Set(h.d.cr0, CR0_CMDQEN) && slot < h.announced then
              slot < |h.submitted| && |h.log| < |h2.log| && h2.log[..|h.log|] == h.log && AttemptAt(h, slot, h2.log[|h.log|])
            else h2.log == h.log
  {
    hide Inv, RingInv, Apply, Enabled, Acknowledges, AfterConsume, And, Xor, Executed;
    var h1 := Cleared(h, ack.val);
    AckIs(h, ack);
    ClearedKeeps(h, ack.val);
    if Set(h.d.cr0, CR0_CMDQEN) && |Executed(h.log)| < h.announced {
      FirstAttempt(h1);
    } else {
      NothingPending(h1);
    }
  }
}
