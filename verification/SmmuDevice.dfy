/**
 The SMMUv3 device as a function of its registers, guest memory and the answers
 of the physical IOMMU behind it.
 */
module SmmuDevice {
  import opened Bytes
  import opened Bits
  import opened SmmuQueue
  import opened SmmuStreamTable

  const CMDQ_ENTRY_SIZE: nat := 16
  const EVENTQ_ENTRY_SIZE: nat := 32
  /** The error code sits in bits 24 to 30 of the consumer register. */
  const ERR_UNIT: nat := 0x100_0000
  const CERROR_ILL: nat := 1
  const CERROR_ABT: nat := 2

  // Bit positions.
  const CR0_SMMUEN: nat := 0
  const CR0_EVENTQEN: nat := 2
  const CR0_CMDQEN: nat := 3
  const GBPA_ABORT: nat := 20
  const GERROR_CMDQ_ERR: nat := 0
  const GERROR_EVENTQ_ABT_ERR: nat := 2
  const IDR0_ATS: nat := 10
  const OVFLG: nat := 31
  const CMD_SSEC: nat := 10

  // Write masks.
  const CR0_WRITE_MASK: nat := 0x1df
  const GBPA_WRITE_MASK: nat := 0x7fff_ffff
  const GERRORN_WRITE_MASK: nat := 0x1fd
  const CMDQ_PROD_WRITE_MASK: nat := 0x000f_ffff
  const CMDQ_CONS_WRITE_MASK: nat := 0x7f0f_ffff
  const EVENTQ_WRITE_MASK: nat := 0x800f_ffff
  const Q_BASE_WRITE_MASK: nat := 0x400f_ffff_ffff_ffff
  const STRTAB_BASE_WRITE_MASK: nat := 0x400f_ffff_ffff_ffc0
  const STRTAB_BASE_CFG_WRITE_MASK: nat := 0x0003_07ff
  const CMDQ_CONS_ERR_CLEAR: nat := 0x80ff_ffff

  /** How the physical IOMMU treats a stream. */
  datatype Mode = Passthrough | Blocking | Installed(words: seq<nat>)

  /** A stream table entry as fetched. */
  datatype Ste = SteFault | Invalid | Entry(config: nat, words: seq<nat>)

  datatype Dev = Dev(
    cr0: nat, gbpa: nat, gerror: nat, gerrorn: nat,
    strtabBase: nat, strtabCfg: nat,
    cmdqBase: nat, cmdqProd: nat, cmdqCons: nat,
    eventqBase: nat, eventqProd: nat, eventqCons: nat,
    idr0: nat, idr1: nat,
    streams: seq<nat>,
    mem: Memory,
    /** The physical IOMMU: stream modes, invalidations done, number of calls, and the calls it refuses. */
    modes: map<nat, Mode>, issued: seq<Command>, calls: nat, refused: set<nat>,
    /** What the latest configuration of a stream fetched, while translation was enabled. */
    fetched: map<nat, Ste>)

  /** The device after reset: every register zero, no stream known, nothing asked of the physical IOMMU. */
  function Reset(idr0: nat, idr1: nat, mem: Memory, refused: set<nat>): Dev {
    Dev(cr0 := 0, gbpa := 0, gerror := 0, gerrorn := 0, strtabBase := 0, strtabCfg := 0,
        cmdqBase := 0, cmdqProd := 0, cmdqCons := 0, eventqBase := 0, eventqProd := 0, eventqCons := 0,
        idr0 := idr0, idr1 := idr1, streams := [], mem := mem,
        modes := map[], issued := [], calls := 0, refused := refused, fetched := map[])
  }

  predicate Set(reg: nat, bit: nat) {
    And(reg, Pow2(bit)) != 0
  }

  // ---- Stream configuration ------------------------------------------------------------

  /** The physical IOMMU puts a stream into a mode, or refuses. */
  function SetMode(d: Dev, sid: nat, m: Mode): (Dev, bool) {
    if d.calls in d.refused then (d.(calls := d.calls + 1), false)
    else (d.(calls := d.calls + 1, modes := d.modes[sid := m]), true)
  }

  function GbpaMode(d: Dev): Mode {
    if Set(d.gbpa, GBPA_ABORT) then Blocking else Passthrough
  }

  predicate Readable(mem: Memory, addr: nat, words: nat) {
    forall i | 0 <= i < words :: addr + i * 8 in mem
  }

  function ReadWords(mem: Memory, addr: nat, words: nat): seq<nat>
    requires Readable(mem, addr, words)
  {
    seq(words, i requires 0 <= i < words => mem[addr + i * 8])
  }

  function FetchSte(d: Dev, sid: nat): Ste {
    var found := SteAddress(d.mem, TableOf(d.strtabCfg, d.strtabBase), And(d.idr1, 0x3f), sid);
    if found.Fault? then SteFault
    else if found.NoEntry? then Invalid
    else if !Readable(d.mem, found.addr, 8) then SteFault
    else
      var words := ReadWords(d.mem, found.addr, 8);
      if And(words[0], 1) == 0 then Invalid
      else Entry(And(words[0] / 2, 0x7), words)
  }

  /** The mode a fetched entry asks for. */
  function SteMode(e: Ste): Mode {
    if !e.Entry? then Blocking
    else if e.config == 4 then Passthrough
    else if e.config == 5 || e.config == 6 || e.config == 7 then Installed(e.words)
    else Blocking
  }

  function ConfigureStream(d: Dev, sid: nat): (Dev, bool) {
    if !Set(d.cr0, CR0_SMMUEN) then SetMode(d, sid, GbpaMode(d))
    else
      var e := FetchSte(d, sid);
      if e.SteFault? then (d, false)
      else SetMode(d.(fetched := d.fetched[sid := e]), sid, SteMode(e))
  }

  /** Streams in ascending order, stopping at the first failure. */
  function ConfigureStreams(d: Dev, sids: seq<nat>): (Dev, bool)
    decreases |sids|
  {
    if sids == [] then (d, true)
    else
      var (d', ok) := ConfigureStream(d, sids[0]);
      if !ok then (d', false) else ConfigureStreams(d', sids[1..])
  }

  /** Insertion into an ordered set of stream identifiers. */
  function InsertStream(s: seq<nat>, sid: nat): seq<nat> {
    if s == [] || sid < s[0] then [sid] + s
    else if sid == s[0] then s
    else [s[0]] + InsertStream(s[1..], sid)
  }

  // ---- Commands --------------------------------------------------------------------------

  datatype Command = Command(word0: nat, word1: nat)

  function Opcode(c: Command): nat {
    And(c.word0, 0xff)
  }

  function StreamId(c: Command): nat {
    c.word0 / U32_LIMIT % U32_LIMIT
  }

  /** The physical IOMMU carries out an invalidation, or refuses. */
  function Invalidate(d: Dev, c: Command): (Dev, bool) {
    if d.calls in d.refused then (d.(calls := d.calls + 1), false)
    else (d.(calls := d.calls + 1, issued := d.issued + [c]), true)
  }

  /** What a command asks for: nothing, a stream's configuration, or work of the physical IOMMU. */
  datatype Request = Illegal | Nothing | Configure(sid: nat) | Forward

  function Decode(c: Command, ats: bool, enabled: bool): Request {
    var op := Opcode(c);
    if Set(c.word0, CMD_SSEC) && 0x01 <= op <= 0x06 then Illegal
    else if op == 0x03 then Configure(StreamId(c))
    else if op == 0x01 || op == 0x02 || op == 0x04 then Nothing
    else if op == 0x05 || op == 0x06 || 0x10 <= op <= 0x13 || op == 0x30 then Forward
    else if op == 0x40 then (if !ats then Illegal else if !enabled then Nothing else Forward)
    else if op == 0x46 then (if And(c.word0, 0x3000) == 0x3000 then Illegal else Nothing)
    else Illegal
  }

  function RequestOf(d: Dev, c: Command): Request {
    Decode(c, Set(d.idr0, IDR0_ATS), Set(d.cr0, CR0_SMMUEN))
  }

  function Dispatch(d: Dev, c: Command): (Dev, bool) {
    match RequestOf(d, c)
    case Illegal => (d, false)
    case Nothing => (d, true)
    case Configure(sid) => ConfigureStream(d.(streams := InsertStream(d.streams, sid)), sid)
    case Forward => Invalidate(d, c)
  }

  // ---- Global errors -----------------------------------------------------------------------

  /** An error is active while its bit differs between GERROR and GERRORN. */
  predicate Active(d: Dev, bit: nat) {
    And(Xor(d.gerror, d.gerrorn), Pow2(bit)) != 0
  }

  function RaiseGerror(d: Dev, bit: nat): Dev {
    if Active(d, bit) then d else d.(gerror := Xor(d.gerror, Pow2(bit)))
  }

  function SetCmdqError(d: Dev, cerror: nat): Dev {
    RaiseGerror(d.(cmdqCons := Or(And(d.cmdqCons, CMDQ_CONS_ERR_CLEAR), cerror * ERR_UNIT)), GERROR_CMDQ_ERR)
  }

  // ---- The command queue ---------------------------------------------------------------------

  /** One attempt at the command at the consumer index: what was fetched, and whether it was consumed. */
  datatype Attempt = Attempt(cmd: Option<Command>, ok: bool)

  function FetchCommand(d: Dev): Option<Command> {
    var addr := EntryAddress(LayoutOf(d.cmdqBase), d.cmdqCons, CMDQ_ENTRY_SIZE);
    if addr in d.mem && addr + 8 in d.mem then Some(Command(d.mem[addr], d.mem[addr + 8])) else None
  }

  /** At most `fuel` commands, stopping when the queue is empty or at the first error. */
  function Consume(d: Dev, fuel: nat): (Dev, seq<Attempt>)
    decreases fuel
  {
    if fuel == 0 || IsEmpty(LayoutOf(d.cmdqBase), d.cmdqProd, d.cmdqCons) then (d, [])
    else
      var cmd := FetchCommand(d);
      if cmd.None? then (SetCmdqError(d, CERROR_ABT), [Attempt(None, false)])
      else
        var (d1, ok) := Dispatch(d, cmd.value);
        if !ok then (SetCmdqError(d1, CERROR_ILL), [Attempt(cmd, false)])
        else
          var (d2, log) := Consume(d1.(cmdqCons := NextPointer(LayoutOf(d1.cmdqBase), d1.cmdqCons)), fuel - 1);
          (d2, [Attempt(cmd, true)] + log)
  }

  function ConsumeCmdq(d: Dev): (Dev, seq<Attempt>) {
    if !Set(d.cr0, CR0_CMDQEN) || Active(d, GERROR_CMDQ_ERR) then (d, [])
    else Consume(d, Entries(LayoutOf(d.cmdqBase)))
  }

  predicate AllOk(log: seq<Attempt>) {
    forall i | 0 <= i < |log| :: log[i].ok
  }

  // ---- Register writes -----------------------------------------------------------------------

  datatype Reg =
    | CR0 | GBPA | GERRORN
    | STRTAB_BASE | STRTAB_BASE_HI | STRTAB_BASE_CFG
    | CMDQ_BASE | CMDQ_BASE_HI | CMDQ_PROD | CMDQ_CONS
    | EVENTQ_BASE | EVENTQ_BASE_HI | EVENTQ_PROD | EVENTQ_CONS

  function MergeLow(cur: nat, val: nat, len: nat): nat {
    if len == 8 then val else Or(And(cur, 0xffff_ffff_0000_0000), And(val, 0xffff_ffff))
  }

  function MergeHigh(cur: nat, val: nat, len: nat): nat {
    if len == 8 then val else Or(And(cur, 0x0000_0000_ffff_ffff), val * U32_LIMIT % U64_LIMIT)
  }

  datatype Written = Written(dev: Dev, ok: bool, log: seq<Attempt>)

  function Plain(d: Dev): Written {
    Written(d, true, [])
  }

  /** What follows a change of CR0, GERRORN or CMDQ_PROD. */
  function AfterConsume(d: Dev): Written {
    var (d', log) := ConsumeCmdq(d);
    Written(d', AllOk(log), log)
  }

  function WriteCr0(d: Dev, val: nat): Written {
    var previous := d.cr0;
    var d1 := d.(cr0 := And(val, CR0_WRITE_MASK));
    var w := if !Set(previous, CR0_CMDQEN) then AfterConsume(d1) else Plain(d1);
    if !w.ok || Set(previous, CR0_SMMUEN) == Set(d1.cr0, CR0_SMMUEN) then w
    else
      var (d2, ok) := ConfigureStreams(w.dev, w.dev.streams);
      Written(d2, ok, w.log)
  }

  function WriteGbpa(d: Dev, val: nat): Written {
    var d1 := d.(gbpa := And(val, GBPA_WRITE_MASK));
    if Set(d.cr0, CR0_SMMUEN) then Plain(d1)
    else
      var (d2, ok) := ConfigureStreams(d1, d1.streams);
      Written(d2, ok, [])
  }

  function WriteGerrorn(d: Dev, val: nat): Written {
    var d1 := d.(gerrorn := And(val, GERRORN_WRITE_MASK));
    if Active(d, GERROR_CMDQ_ERR) && !Active(d1, GERROR_CMDQ_ERR) then
      AfterConsume(d1.(cmdqCons := And(d1.cmdqCons, CMDQ_CONS_ERR_CLEAR)))
    else Plain(d1)
  }

  /** A register write of `len` bytes; other widths are refused without effect. */
  function WriteReg(d: Dev, r: Reg, val: nat, len: nat): Written {
    if len != 4 && len != 8 then Written(d, false, [])
    else
      var v32 := val % U32_LIMIT;
      match r
      case CR0 => WriteCr0(d, v32)
      case GBPA => WriteGbpa(d, v32)
      case GERRORN => WriteGerrorn(d, v32)
      case STRTAB_BASE => Plain(d.(strtabBase := And(MergeLow(d.strtabBase, val, len), STRTAB_BASE_WRITE_MASK)))
      case STRTAB_BASE_HI => Plain(d.(strtabBase := And(MergeHigh(d.strtabBase, val, len), STRTAB_BASE_WRITE_MASK)))
      case STRTAB_BASE_CFG => Plain(d.(strtabCfg := And(v32, STRTAB_BASE_CFG_WRITE_MASK)))
      case CMDQ_BASE => Plain(d.(cmdqBase := And(MergeLow(d.cmdqBase, val, len), Q_BASE_WRITE_MASK)))
      case CMDQ_BASE_HI => Plain(d.(cmdqBase := And(MergeHigh(d.cmdqBase, val, len), Q_BASE_WRITE_MASK)))
      case CMDQ_PROD => AfterConsume(d.(cmdqProd := And(v32, CMDQ_PROD_WRITE_MASK)))
      case CMDQ_CONS => Plain(d.(cmdqCons := And(v32, CMDQ_CONS_WRITE_MASK)))
      case EVENTQ_BASE => Plain(d.(eventqBase := And(MergeLow(d.eventqBase, val, len), Q_BASE_WRITE_MASK)))
      case EVENTQ_BASE_HI => Plain(d.(eventqBase := And(MergeHigh(d.eventqBase, val, len), Q_BASE_WRITE_MASK)))
      case EVENTQ_PROD => Plain(d.(eventqProd := And(v32, EVENTQ_WRITE_MASK)))
      case EVENTQ_CONS => Plain(d.(eventqCons := And(v32, EVENTQ_WRITE_MASK)))
  }

  // ---- The event queue -------------------------------------------------------------------------

  /** Toggles the overflow flag unless an overflow is still unacknowledged. */
  function SetEventOverflow(d: Dev): Dev {
    if Set(d.eventqProd, OVFLG) == Set(d.eventqCons, OVFLG) then d.(eventqProd := Xor(d.eventqProd, Pow2(OVFLG)))
    else d
  }

  datatype Pushed = Queued | Disabled | AbortPending | QueueFull | WriteFault

  /** Stores the words in order until one faults. */
  function StoreWords(mem: Memory, addr: nat, words: seq<nat>): (Memory, bool)
    decreases |words|
  {
    if words == [] then (mem, true)
    else if addr !in mem then (mem, false)
    else StoreWords(mem[addr := words[0]], addr + 8, words[1..])
  }

  function PushEvent(d: Dev, record: seq<nat>): (Dev, Pushed) {
    var l := LayoutOf(d.eventqBase);
    if !Set(d.cr0, CR0_EVENTQEN) then (d, Disabled)
    else if Active(d, GERROR_EVENTQ_ABT_ERR) then (d, AbortPending)
    else if IsFull(l, d.eventqProd, d.eventqCons) then (SetEventOverflow(d), QueueFull)
    else
      var (mem, ok) := StoreWords(d.mem, EntryAddress(l, d.eventqProd, EVENTQ_ENTRY_SIZE), record);
      if !ok then (RaiseGerror(d.(mem := mem), GERROR_EVENTQ_ABT_ERR), WriteFault)
      else (d.(mem := mem, eventqProd := NextPointer(l, d.eventqProd)), Queued)
  }
}
