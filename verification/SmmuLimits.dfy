/**
 A run on a reliable platform that leaves a stream in the wrong mode even after repair and
 acknowledgement: a write to CR0 that turns on both the command queue and translation, with
 an illegal command pending, never reaches the reconfiguration of the streams.
 */
module SmmuLimits {
  import opened Bytes
  import opened Bits
  import opened SmmuQueue
  import opened SmmuRing
  import opened SmmuStreamTable
  import opened SmmuDevice
  import opened SmmuRegisters
  import opened SmmuCommands
  import opened SmmuStreams

  const ILLEGAL: nat := 0x00
  const PREFETCH: nat := 0x01
  const CFGI_STE: nat := 0x03
  const ENABLE: nat := 0x09

  /**
   A ring of two commands at address 0, the configuration of stream 0 and another one,
   and one valid stream table entry asking for an abort at address 64.
   */
  function Contents(opcode: nat): Memory {
    map[0 := CFGI_STE, 8 := 0, 16 := opcode, 24 := 0,
        64 := 1, 72 := 0, 80 := 0, 88 := 0, 96 := 0, 104 := 0, 112 := 0, 120 := 0]
  }

  /** Stream 0 has been configured, an illegal command is pending, everything is switched off. */
  function Before(): Dev {
    Dev(cr0 := 0, gbpa := 0, gerror := 0, gerrorn := 0,
        strtabBase := 64, strtabCfg := 0,
        cmdqBase := 1, cmdqProd := 2, cmdqCons := 1,
        eventqBase := 0, eventqProd := 0, eventqCons := 0,
        idr0 := 0, idr1 := 16,
        streams := [0], mem := Contents(ILLEGAL),
        modes := map[0 := Passthrough], issued := [], calls := 1, refused := {}, fetched := map[])
  }

  lemma RingIs()
    ensures LayoutOf(1) == Layout(0, 1)
  {
    assert And(1, Q_BASE_LOG2SIZE_MASK) == 1;
    assert And(1, Q_BASE_ADDR_MASK) == 0;
  }

  lemma TableIs()
    ensures TableOf(0, 64) == Table(false, 0, 6, 64) && FlatBase(Table(false, 0, 6, 64)) == 64
  {
    Pow2Values();
    LowIsMod(STRTAB_BASE_ADDR_MASK, 6);
    BitAnd(STRTAB_BASE_ADDR_MASK, 6);
    AlignDownIs(64, 6);
  }

  lemma EntryAt(mem: Memory, sidSize: nat, sid: nat)
    ensures SteAddress(mem, Table(false, 0, 6, 64), sidSize, sid) == if sid == 0 then At(64) else NoEntry
  {
    TableIs();
  }

  lemma EntryWords(mem: Memory)
    requires mem.Keys == Contents(PREFETCH).Keys && mem[64] == 1
    ensures Readable(mem, 64, 8) && ReadWords(mem, 64, 8)[0] == 1
  {
  }

  lemma EntryAborts(d: Dev, sid: nat)
    requires d.mem.Keys == Contents(PREFETCH).Keys && d.mem[64] == 1
    requires d.strtabBase == 64 && d.strtabCfg == 0
    ensures !FetchSte(d, sid).SteFault?
    ensures sid == 0 ==> SteMode(FetchSte(d, sid)) == Blocking
  {
    hide SteAddress, TableOf, Readable, ReadWords, Contents;
    TableIs();
    EntryAt(d.mem, And(d.idr1, 0x3f), sid);
    EntryWords(d.mem);
    assert And(1, 1) == 1;
  }

  lemma ContentsAre(opcode: nat)
    ensures Contents(opcode).Keys == Contents(PREFETCH).Keys && Contents(opcode)[64] == 1
  {
  }

  lemma BeforeIsFine()
    ensures Configured(Before()) && Reliable(Before())
  {
    hide FetchSte, Contents;
    ContentsAre(ILLEGAL);
    assert GbpaMode(Before()) == Passthrough && !Set(0, CR0_SMMUEN);
    forall sid: nat ensures !FetchSte(Before(), sid).SteFault? {
      EntryAborts(Before(), sid);
    }
  }

  // ---- Consuming the one pending command ---------------------------------------------------

  /** The ring holds one command, at index 1. */
  predicate OnePending(d: Dev, opcode: nat) {
    d.cmdqBase == 1 && d.cmdqProd == 2 && d.mem == Contents(opcode) && U32(d.cmdqCons) && Pos(Layout(0, 1), d.cmdqCons) == 1
  }

  lemma PendingPositions(cons: nat)
    requires U32(cons) && Pos(Layout(0, 1), cons) == 1
    ensures !IsEmpty(Layout(0, 1), 2, cons) && Pos(Layout(0, 1), 1) == 1
    ensures U32(NextPointer(Layout(0, 1), cons)) && IsEmpty(Layout(0, 1), 2, NextPointer(Layout(0, 1), cons))
  {
    var l := Layout(0, 1);
    assert Pos(l, 1) == 1 && Pos(l, 2) == 2;
    PosIsMod(l, 2);
    PosIsMod(l, cons);
    NextFollows(l, cons, 1);
    PosIsMod(l, NextPointer(l, cons));
  }

  lemma PendingHead(d: Dev, opcode: nat)
    requires OnePending(d, opcode)
    ensures LayoutOf(d.cmdqBase) == Layout(0, 1) && !IsEmpty(Layout(0, 1), d.cmdqProd, d.cmdqCons)
    ensures FetchCommand(d) == Some(Command(opcode, 0))
    ensures U32(NextPointer(Layout(0, 1), d.cmdqCons)) && IsEmpty(Layout(0, 1), d.cmdqProd, NextPointer(Layout(0, 1), d.cmdqCons))
  {
    hide Pos, NextPointer, IsEmpty, LayoutOf;
    var l := Layout(0, 1);
    RingIs();
    PendingPositions(d.cmdqCons);
    SameSlot(l, d.cmdqCons, 1, CMDQ_ENTRY_SIZE);
    assert EntryAddress(l, 1, CMDQ_ENTRY_SIZE) == 16;
  }

  lemma Opcodes(ats: bool, enabled: bool)
    ensures Decode(Command(ILLEGAL, 0), ats, enabled) == Illegal
    ensures Decode(Command(PREFETCH, 0), ats, enabled) == Nothing
  {
    assert And(1, 0xff) == 1;
    AndBit(1, CMD_SSEC);
    ShrOne(CMD_SSEC);
  }

  lemma IllegalStops(d: Dev)
    requires OnePending(d, ILLEGAL)
    ensures Consume(d, 2) == (SetCmdqError(d, CERROR_ILL), [Attempt(Some(Command(ILLEGAL, 0)), false)])
  {
    PendingHead(d, ILLEGAL);
    Opcodes(Set(d.idr0, IDR0_ATS), Set(d.cr0, CR0_SMMUEN));
  }

  lemma PrefetchPasses(d: Dev)
    requires OnePending(d, PREFETCH)
    ensures Consume(d, 2) == (d.(cmdqCons := NextPointer(Layout(0, 1), d.cmdqCons)), [Attempt(Some(Command(PREFETCH, 0)), true)])
    ensures IsEmpty(Layout(0, 1), d.cmdqProd, NextPointer(Layout(0, 1), d.cmdqCons))
  {
    PendingHead(d, PREFETCH);
    Opcodes(Set(d.idr0, IDR0_ATS), Set(d.cr0, CR0_SMMUEN));
    var next := d.(cmdqCons := NextPointer(Layout(0, 1), d.cmdqCons));
    assert Dispatch(d, Command(PREFETCH, 0)) == (d, true);
    assert Consume(next, 1) == (next, []);
    assert [Attempt(Some(Command(PREFETCH, 0)), true)] + [] == [Attempt(Some(Command(PREFETCH, 0)), true)];
  }

  // ---- From reset to the pending command -----------------------------------------------------

  function Fresh(): Dev {
    Reset(0, 16, Contents(ILLEGAL), {})
  }

  /** The guest has set up queue and table, enabled the queue, and the configuration of stream 0 was executed. */
  function Known(): Dev {
    Before().(cr0 := 8, cmdqProd := 1)
  }

  lemma BaseBits()
    ensures And(1, Q_BASE_WRITE_MASK) == 1 && And(64, STRTAB_BASE_WRITE_MASK) == 64
  {
    assert Pow2(6) == 64;
    LowIsMod(STRTAB_BASE_WRITE_MASK, 6);
    BitAnd(STRTAB_BASE_WRITE_MASK, 6);
  }

  lemma SetupBits()
    ensures And(8, CR0_WRITE_MASK) == 8 && And(0, CR0_WRITE_MASK) == 0
    ensures And(1, CMDQ_PROD_WRITE_MASK) == 1 && And(2, CMDQ_PROD_WRITE_MASK) == 2
  {
  }

  lemma QueueBits()
    ensures !Set(0, CR0_SMMUEN) && !Set(0, CR0_CMDQEN) && !Set(0, GBPA_ABORT)
    ensures !Set(8, CR0_SMMUEN) && Set(8, CR0_CMDQEN)
  {
    assert And(8, 1) == 0;
    assert And(8, 8) == 8;
  }

  lemma SetupWrites(d: Dev)
    requires d == Fresh()
    ensures WriteReg(d, CMDQ_BASE, 1, 8).dev == d.(cmdqBase := 1)
    ensures WriteReg(d.(cmdqBase := 1), STRTAB_BASE, 64, 8).dev == d.(cmdqBase := 1, strtabBase := 64)
  {
    hide And, Contents;
    BaseBits();
  }

  lemma SetupEnables(d: Dev)
    requires d == Fresh().(cmdqBase := 1, strtabBase := 64)
    ensures WriteReg(d, CR0, 8, 4).dev == d.(cr0 := 8)
  {
    hide And, Contents, Consume, Set, AfterConsume, ConfigureStreams;
    SetupBits();
    QueueBits();
    EmptyRing(d.(cr0 := 8));
  }

  lemma SetupFromReset()
    ensures FromReset(Fresh().(cmdqBase := 1, strtabBase := 64, cr0 := 8))
  {
    hide WriteReg;
    var d := Fresh();
    assert ActAll(d, []) == d;
    hide FromReset, Fresh;
    SetupWrites(d);
    Onward(d, Register(CMDQ_BASE, 1, 8));
    Onward(d.(cmdqBase := 1), Register(STRTAB_BASE, 64, 8));
    SetupEnables(d.(cmdqBase := 1, strtabBase := 64));
    Onward(d.(cmdqBase := 1, strtabBase := 64), Register(CR0, 8, 4));
  }

  lemma EmptyRing(d: Dev)
    requires d.cmdqProd == d.cmdqCons
    ensures AfterConsume(d) == Plain(d)
  {
  }

  lemma ConfigureOpcode(ats: bool, enabled: bool)
    ensures Decode(Command(CFGI_STE, 0), ats, enabled) == Configure(0)
  {
    assert And(3, 0xff) == 3;
    AndBit(3, CMD_SSEC);
    assert Shr(3, CMD_SSEC) == 0;
  }

  lemma FirstPointers()
    ensures !IsEmpty(Layout(0, 1), 1, 0) && IsEmpty(Layout(0, 1), 1, 1) && NextPointer(Layout(0, 1), 0) == 1
    ensures EntryAddress(Layout(0, 1), 0, CMDQ_ENTRY_SIZE) == 0
  {
  }

  lemma FirstSlot(d: Dev)
    requires d.cmdqBase == 1 && d.cmdqCons == 0
    requires 0 in d.mem && 8 in d.mem && d.mem[0] == CFGI_STE && d.mem[8] == 0
    ensures FetchCommand(d) == Some(Command(CFGI_STE, 0))
  {
    hide LayoutOf, EntryAddress;
    RingIs();
    FirstPointers();
  }

  lemma FirstContents(mem: Memory)
    requires mem == Contents(ILLEGAL)
    ensures 0 in mem && 8 in mem && mem[0] == CFGI_STE && mem[8] == 0
  {
  }

  lemma FirstDispatch(d: Dev)
    requires d == Fresh().(cmdqBase := 1, strtabBase := 64, cr0 := 8, cmdqProd := 1)
    ensures Dispatch(d, Command(CFGI_STE, 0)) == (Known().(cmdqCons := 0), true)
  {
    hide Contents, Decode, Set, FetchSte;
    QueueBits();
    ConfigureOpcode(Set(d.idr0, IDR0_ATS), Set(d.cr0, CR0_SMMUEN));
    assert InsertStream(d.streams, 0) == [0];
    assert d.modes[0 := Passthrough] == map[0 := Passthrough];
  }

  lemma FirstBatch(d: Dev)
    requires d == Fresh().(cmdqBase := 1, strtabBase := 64, cr0 := 8, cmdqProd := 1)
    ensures AfterConsume(d).dev == Known()
  {
    hide FetchCommand, Dispatch, NextPointer, IsEmpty, LayoutOf, Contents, Set;
    RingIs();
    QueueBits();
    FirstPointers();
    FirstContents(d.mem);
    FirstSlot(d);
    FirstDispatch(d);
    ConsumeAdvances(d, 2);
    assert Follow(d) == Known();
    assert Consume(Known(), 1) == (Known(), []);
  }

  lemma KnownFromReset()
    ensures FromReset(Known())
  {
    hide FromReset, AfterConsume, Contents;
    var d := Fresh().(cmdqBase := 1, strtabBase := 64, cr0 := 8);
    SetupBits();
    SetupFromReset();
    Onward(d, Register(CMDQ_PROD, 1, 4));
    FirstBatch(d.(cmdqProd := 1));
  }

  lemma TurnOff()
    ensures WriteReg(Known(), CR0, 0, 4).dev == Known().(cr0 := 0)
  {
    hide AfterConsume, Contents;
    SetupBits();
    QueueBits();
  }

  lemma AnnounceSecond()
    ensures WriteReg(Known().(cr0 := 0), CMDQ_PROD, 2, 4).dev == Before()
  {
    hide Consume, Contents;
    SetupBits();
    QueueBits();
  }

  /** The device with the illegal command pending is reached by a run from reset. */
  lemma BeforeFromReset()
    ensures FromReset(Before())
  {
    hide FromReset, WriteReg, Known, Before;
    KnownFromReset();
    TurnOff();
    AnnounceSecond();
    Onward(Known(), Register(CR0, 0, 4));
    Onward(Known().(cr0 := 0), Register(CMDQ_PROD, 2, 4));
  }

  // ---- The run --------------------------------------------------------------------------------

  lemma EnableBits()
    ensures And(ENABLE, CR0_WRITE_MASK) == ENABLE && Set(ENABLE, CR0_SMMUEN) && Set(ENABLE, CR0_CMDQEN)
    ensures !Set(0, CR0_SMMUEN) && !Set(0, CR0_CMDQEN) && !Set(0, GBPA_ABORT)
  {
    assert And(9, 0x1df) == 9;
    assert And(9, 1) == 1;
    assert And(9, 8) == 8;
  }

  /** The write that enables everything stops at the illegal command. */
  lemma EnableFails()
    ensures var w := WriteReg(Before(), CR0, ENABLE, 4);
            && !w.ok && Skips(Before(), CR0, ENABLE, 4)
            && w.dev == SetCmdqError(Before().(cr0 := ENABLE), CERROR_ILL)
  {
    var d1 := Before().(cr0 := ENABLE);
    EnableBits();
    RingIs();
    assert Pos(Layout(0, 1), 1) == 1;
    IllegalStops(d1);
    assert !Active(d1, GERROR_CMDQ_ERR);
    assert !AllOk(Consume(d1, 2).1) by {
      assert !Consume(d1, 2).1[0].ok;
    }
  }

  lemma ErrorBits()
    ensures And(1, GERRORN_WRITE_MASK) == 1 && Xor(1, 1) == 0 && Xor(0, 1) == 1 && Xor(1, 0) == 1
    ensures And(0, 1) == 0 && And(1, 1) == 1
  {
  }

  lemma FirstError()
    ensures var d := SetCmdqError(Before().(cr0 := ENABLE), CERROR_ILL);
            && d == Before().(cr0 := ENABLE, gerror := 1, cmdqCons := d.cmdqCons)
            && OnePending(d, ILLEGAL)
  {
    ErrorBits();
    RingIs();
    assert Pos(Layout(0, 1), 1) == 1;
    SetCmdqErrorIs(Before().(cr0 := ENABLE), CERROR_ILL);
  }

  /** With the error acknowledged and the command replaced, the queue runs empty. */
  lemma QueueDrains(d: Dev)
    requires OnePending(d, PREFETCH) && d.cr0 == ENABLE && d.gerror == 1 && d.gerrorn == 1
    ensures var w := AfterConsume(d);
            && w.ok && Running(w.dev) && IsEmpty(LayoutOf(w.dev.cmdqBase), w.dev.cmdqProd, w.dev.cmdqCons)
            && w.dev == d.(cmdqCons := w.dev.cmdqCons)
  {
    hide Consume, Contents, LayoutOf, IsEmpty, And, Xor;
    ErrorBits();
    EnableBits();
    RingIs();
    assert Entries(Layout(0, 1)) == 2;
    PrefetchPasses(d);
  }

  lemma AcknowledgeResumes(d: Dev)
    requires OnePending(d, PREFETCH) && d.cr0 == ENABLE && d.gerror == 1 && d.gerrorn == 0
    ensures var w := WriteReg(d, GERRORN, 1, 4);
            && w.ok && Running(w.dev) && IsEmpty(LayoutOf(w.dev.cmdqBase), w.dev.cmdqProd, w.dev.cmdqCons)
            && w.dev == d.(gerrorn := 1, cmdqCons := w.dev.cmdqCons)
  {
    ErrorBits();
    ErrorCleared(d.cmdqCons, Layout(0, 1));
    QueueDrains(d.(gerrorn := 1, cmdqCons := And(d.cmdqCons, CMDQ_CONS_ERR_CLEAR)));
  }

  /** The device after the failed write, with the command replaced. */
  predicate Repaired(d: Dev) {
    && OnePending(d, PREFETCH) && d.cr0 == ENABLE && d.gerror == 1 && d.gerrorn == 0
    && d.strtabBase == 64 && d.strtabCfg == 0 && d.streams == [0] && d.modes == map[0 := Passthrough] && d.fetched == map[]
  }

  lemma EnableThenRepair(failed: Written)
    requires failed == WriteReg(Before(), CR0, ENABLE, 4)
    ensures !failed.ok && Repaired(failed.dev.(mem := Contents(PREFETCH)))
  {
    EnableFails();
    FirstError();
  }

  lemma StillWrong(d: Dev)
    requires d.mem == Contents(PREFETCH) && d.cr0 == ENABLE
    requires d.strtabBase == 64 && d.strtabCfg == 0 && d.streams == [0] && d.fetched == map[]
    ensures Set(d.cr0, CR0_SMMUEN) && SteMode(FetchSte(d, 0)) == Blocking && !Configured(d)
  {
    EnableBits();
    EntryAborts(d, 0);
    assert 0 in d.streams && !ConfiguredAt(d, 0);
  }

  lemma RepairedFromReset(d: Dev, failed: Written, repaired: Dev, acked: Written)
    requires FromReset(d) && failed == WriteReg(d, CR0, ENABLE, 4)
    requires repaired == failed.dev.(mem := Contents(PREFETCH)) && acked == WriteReg(repaired, GERRORN, 1, 4)
    ensures FromReset(acked.dev)
  {
    hide FromReset, WriteReg, Contents;
    Onward(d, Register(CR0, ENABLE, 4));
    Onward(failed.dev, Store(Contents(PREFETCH)));
    Onward(repaired, Register(GERRORN, 1, 4));
  }

  /**
   On a reliable platform, from a correctly configured device that a run from reset
   leads to: one failed write, one repair, one acknowledgement. Everything then reports success, yet the stream is still
   passed through while its entry asks for an abort.
   */
  lemma SkippedReconfigurationPersists(d: Dev, failed: Written, repaired: Dev, acked: Written)
    requires d == Before()
    requires failed == WriteReg(d, CR0, ENABLE, 4)
    requires repaired == failed.dev.(mem := Contents(PREFETCH))
    requires acked == WriteReg(repaired, GERRORN, 1, 4)
    ensures FromReset(d) && Configured(d) && Reliable(d) && Skips(d, CR0, ENABLE, 4) && !failed.ok
    ensures FromReset(acked.dev) && acked.ok && Running(acked.dev)
    ensures IsEmpty(LayoutOf(acked.dev.cmdqBase), acked.dev.cmdqProd, acked.dev.cmdqCons)
    ensures acked.dev.streams == [0] && acked.dev.modes == map[0 := Passthrough]
    ensures Set(acked.dev.cr0, CR0_SMMUEN) && SteMode(FetchSte(acked.dev, 0)) == Blocking
    ensures !Configured(acked.dev)
  {
    hide FromReset, Act;
    BeforeIsFine();
    BeforeFromReset();
    EnableFails();
    EnableThenRepair(failed);
    RepairedFromReset(d, failed, repaired, acked);
    AcknowledgeResumes(repaired);
    StillWrong(acked.dev);
  }

  // ---- Exactly which writes are safe ------------------------------------------------------------

  /** Writing `val` to CR0 over `was` keeps streams right on every reliable platform, in every state since reset. */
  ghost predicate AlwaysRight(was: nat, val: nat) {
    forall d: Dev | FromReset(d) && Reliable(d) && Configured(d) && d.cr0 == was :: Configured(WriteCr0(d, val).dev)
  }

  /** The write turns on the command queue and changes SMMUEN at once. */
  predicate Combined(was: nat, val: nat) {
    var now := And(val, CR0_WRITE_MASK);
    && !Set(was, CR0_CMDQEN) && Set(now, CR0_CMDQEN)
    && Set(was, CR0_SMMUEN) != Set(now, CR0_SMMUEN)
  }

  /** A value that CR0 can hold. */
  predicate Holdable(cr0: nat) {
    And(cr0, CR0_WRITE_MASK) == cr0
  }

  lemma {:induction false} AndTwice(x: nat, y: nat)
    ensures And(And(x, y), y) == And(x, y)
    decreases x
  {
    if x > 0 {
      AndTwice(x / 2, y / 2);
      var k, b := And(x / 2, y / 2), if x % 2 == 1 && y % 2 == 1 then 1 else 0;
      assert (b + 2 * k) / 2 == k && (b + 2 * k) % 2 == b;
    }
  }

  lemma WriteHolds(d: Dev, reg: Reg, val: nat, len: nat)
    requires Holdable(d.cr0)
    ensures Holdable(WriteReg(d, reg, val, len).dev.cr0)
  {
    hide Consume, ConfigureStreams, Active, Set, MergeLow, MergeHigh;
    var fuel := Entries(LayoutOf(d.cmdqBase));
    var v32 := val % U32_LIMIT;
    AndTwice(v32, CR0_WRITE_MASK);
    hide And;
    match reg
    case CR0 =>
      var d1 := d.(cr0 := And(v32, CR0_WRITE_MASK));
      ConsumeFrame(d1, fuel);
      ConfigureStreamsFrame(d1, d1.streams);
      ConfigureStreamsFrame(AfterConsume(d1).dev, AfterConsume(d1).dev.streams);
    case GBPA =>
      var d1 := d.(gbpa := And(v32, GBPA_WRITE_MASK));
      ConfigureStreamsFrame(d1, d1.streams);
    case GERRORN =>
      ConsumeFrame(d.(gerrorn := And(v32, GERRORN_WRITE_MASK), cmdqCons := And(d.cmdqCons, CMDQ_CONS_ERR_CLEAR)), fuel);
    case CMDQ_PROD => ConsumeFrame(d.(cmdqProd := And(v32, CMDQ_PROD_WRITE_MASK)), fuel);
    case _ =>
  }

  lemma ActHolds(d: Dev, a: Action)
    requires Holdable(d.cr0)
    ensures Holdable(Act(d, a).cr0)
  {
    hide WriteReg, Holdable;
    match a
    case Register(reg, val, len) => WriteHolds(d, reg, val, len);
    case Store(_) =>
    case Report(record) => PushEventFrame(d, record);
  }

  lemma {:induction false} RunHolds(d: Dev, run: seq<Action>)
    requires Holdable(d.cr0)
    ensures Holdable(ActAll(d, run).cr0)
    decreases |run|
  {
    hide Act, Holdable;
    if run != [] {
      ActHolds(d, run[0]);
      RunHolds(Act(d, run[0]), run[1..]);
    }
  }

  lemma ResetHolds(d: Dev)
    requires FromReset(d)
    ensures Holdable(d.cr0)
  {
    var idr0, idr1, mem, refused, run :| ActAll(Reset(idr0, idr1, mem, refused), run) == d;
    RunHolds(Reset(idr0, idr1, mem, refused), run);
  }

  /** The entry of stream 0 as fetched. */
  function Aborting(): Ste {
    Entry(0, [1, 0, 0, 0, 0, 0, 0, 0])
  }

  /** A correctly configured stream that a change of SMMUEN should move to another mode. */
  function Victim(was: nat): Dev {
    if Set(was, CR0_SMMUEN) then
      Before().(cr0 := was, modes := map[0 := Blocking], fetched := map[0 := Aborting()], calls := 2)
    else Before().(cr0 := was)
  }

  lemma AbortingWords(mem: Memory)
    requires mem == Contents(ILLEGAL)
    ensures Readable(mem, 64, 8) && ReadWords(mem, 64, 8) == [1, 0, 0, 0, 0, 0, 0, 0]
  {
    EntryWords(mem);
    var words := ReadWords(mem, 64, 8);
    assert words[1] == mem[72] && words[2] == mem[80] && words[3] == mem[88] && words[4] == mem[96];
    assert words[5] == mem[104] && words[6] == mem[112] && words[7] == mem[120];
  }

  lemma FetchesAborting(d: Dev)
    requires d.mem == Contents(ILLEGAL) && d.strtabBase == 64 && d.strtabCfg == 0
    ensures FetchSte(d, 0) == Aborting()
  {
    hide SteAddress, TableOf, Readable, ReadWords, Contents;
    TableIs();
    EntryAt(d.mem, And(d.idr1, 0x3f), 0);
    AbortingWords(d.mem);
    assert And(1, 1) == 1 && And(0, 0x7) == 0;
  }

  lemma VictimConfigured(was: nat)
    requires Set(was, CR0_SMMUEN)
    ensures ConfigureStreams(Before().(cr0 := was), [0]) == (Victim(was), true)
  {
    hide FetchSte, Contents, Set;
    var d1 := Before().(cr0 := was);
    FetchesAborting(d1);
    assert d1.fetched[0 := Aborting()] == map[0 := Aborting()] && d1.modes[0 := Blocking] == map[0 := Blocking];
    assert ConfigureStream(d1, 0) == (Victim(was), true);
    assert ConfigureStreams(d1, [0]) == ConfigureStreams(Victim(was), []);
  }

  lemma VictimWritten(was: nat)
    requires Holdable(was) && !Set(was, CR0_CMDQEN)
    ensures WriteReg(Before(), CR0, was, 4).dev == Victim(was)
  {
    hide Consume, ConfigureStreams, Contents, And;
    AndLe(was, CR0_WRITE_MASK);
    QueueBits();
    assert AfterConsume(Before().(cr0 := was)) == Plain(Before().(cr0 := was));
    if Set(was, CR0_SMMUEN) {
      VictimConfigured(was);
    }
  }

  /** It is reached by a run from reset, whatever CR0 is to hold without the queue. */
  lemma VictimFromReset(was: nat)
    requires Holdable(was) && !Set(was, CR0_CMDQEN)
    ensures FromReset(Victim(was))
  {
    hide FromReset, WriteReg, Before, Victim;
    BeforeFromReset();
    VictimWritten(was);
    Onward(Before(), Register(CR0, was, 4));
  }

  lemma VictimIsFine(was: nat)
    ensures Configured(Victim(was)) && Reliable(Victim(was)) && OnePending(Victim(was), ILLEGAL)
  {
    hide FetchSte, Contents, Set;
    ContentsAre(ILLEGAL);
    QueueBits();
    assert Pos(Layout(0, 1), 1) == 1;
    forall sid: nat ensures !FetchSte(Victim(was), sid).SteFault? {
      EntryAborts(Victim(was), sid);
    }
  }

  lemma VictimSuffers(was: nat, val: nat)
    requires Combined(was, val)
    ensures !Configured(WriteCr0(Victim(was), val).dev)
  {
    hide Consume, And, IsEmpty;
    var d1 := Victim(was).(cr0 := And(val, CR0_WRITE_MASK));
    VictimIsFine(was);
    RingIs();
    QueueBits();
    ErrorBits();
    IllegalStops(d1);
    assert !AllOk(Consume(d1, 2).1) by {
      assert !Consume(d1, 2).1[0].ok;
    }
    var d2 := SetCmdqError(d1, CERROR_ILL);
    assert WriteCr0(Victim(was), val).dev == d2;
    assert 0 in d2.streams && !ConfiguredAt(d2, 0);
  }

  /**
   Streams stay right in every state since reset if and only if the two switches are
   not thrown together, for every value that CR0 can hold.
   */
  lemma SafeExactly(was: nat, val: nat)
    ensures AlwaysRight(was, val) <==> !(Holdable(was) && Combined(was, val))
  {
    hide FromReset, Reliable, Configured, WriteCr0, Combined, Holdable;
    if Holdable(was) && Combined(was, val) {
      VictimIsFine(was);
      VictimSuffers(was, val);
      CombinedStartsOff(was, val);
      VictimFromReset(was);
      assert Victim(was).cr0 == was;
    } else {
      forall d: Dev | FromReset(d) && Reliable(d) && Configured(d) && d.cr0 == was ensures Configured(WriteCr0(d, val).dev) {
        ResetHolds(d);
        NotSkipped(d, val);
        Cr0Configures(d, val);
      }
    }
  }

  lemma CombinedStartsOff(was: nat, val: nat)
    requires Combined(was, val)
    ensures !Set(was, CR0_CMDQEN)
  {
  }

  lemma NotSkipped(d: Dev, val: nat)
    requires !Combined(d.cr0, val)
    ensures !SkipsAt(d, val)
  {
  }
}
