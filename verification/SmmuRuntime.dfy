/**
 The device as it runs: registers updated in place, with the loops over the command
 ring, the known streams, the words of an entry and the words of a record.
 */
module SmmuRuntime {
  import opened Bytes
  import opened Bits
  import opened SmmuQueue
  import opened SmmuStreamTable
  import opened SmmuDevice
  import opened SmmuCommands

  /** One turn of the loop over the command ring. */
  function OneAttempt(d: Dev): (Dev, Attempt) {
    var cmd := FetchCommand(d);
    if cmd.None? then (SetCmdqError(d, CERROR_ABT), Attempt(None, false))
    else
      var (d1, ok) := Dispatch(d, cmd.value);
      (if ok then d1.(cmdqCons := NextPointer(LayoutOf(d1.cmdqBase), d1.cmdqCons)) else SetCmdqError(d1, CERROR_ILL),
       Attempt(cmd, ok))
  }

  lemma OneAttemptKeepsQueue(d: Dev)
    ensures OneAttempt(d).0.cmdqBase == d.cmdqBase
  {
    if FetchCommand(d).Some? {
      DispatchFrame(d, FetchCommand(d).value);
    }
  }

  /** From `d`, with `fuel` turns to go and `log` written, the loop ends in `final` with the log `whole`. */
  ghost predicate Remaining(d: Dev, fuel: nat, log: seq<Attempt>, final: Dev, whole: seq<Attempt>) {
    final == Consume(d, fuel).0 && whole == log + Consume(d, fuel).1
  }

  lemma NoneRemaining(d: Dev, fuel: nat, log: seq<Attempt>, final: Dev, whole: seq<Attempt>)
    requires Remaining(d, fuel, log, final, whole)
    requires fuel == 0 || IsEmpty(LayoutOf(d.cmdqBase), d.cmdqProd, d.cmdqCons)
    ensures final == d && whole == log
  {
    assert log + [] == log;
  }

  lemma ConsumeOnce(d: Dev, fuel: nat, d1: Dev, a: Attempt)
    requires fuel > 0 && !IsEmpty(LayoutOf(d.cmdqBase), d.cmdqProd, d.cmdqCons) && (d1, a) == OneAttempt(d)
    ensures Consume(d, fuel).0 == if a.ok then Consume(d1, fuel - 1).0 else d1
    ensures Consume(d, fuel).1 == if a.ok then [a] + Consume(d1, fuel - 1).1 else [a]
  {
  }

  lemma OneLess(d: Dev, fuel: nat, log: seq<Attempt>, final: Dev, whole: seq<Attempt>, d1: Dev, a: Attempt)
    requires Remaining(d, fuel, log, final, whole) && fuel > 0
    requires Consume(d, fuel).0 == if a.ok then Consume(d1, fuel - 1).0 else d1
    requires Consume(d, fuel).1 == if a.ok then [a] + Consume(d1, fuel - 1).1 else [a]
    ensures a.ok ==> Remaining(d1, fuel - 1, log + [a], final, whole)
    ensures !a.ok ==> final == d1 && whole == log + [a]
  {
    if a.ok {
      assert log + ([a] + Consume(d1, fuel - 1).1) == (log + [a]) + Consume(d1, fuel - 1).1;
    }
  }

  lemma StoreStep(mem: Memory, addr: nat, record: seq<nat>, i: nat)
    requires i < |record| && addr + 8 * i in mem
    ensures StoreWords(mem, addr + 8 * i, record[i..]) ==
            StoreWords(mem[addr + 8 * i := record[i]], addr + 8 * (i + 1), record[i + 1..])
  {
    assert record[i..][1..] == record[i + 1..];
  }

  class Smmuv3 {
    var cr0: nat
    var gbpa: nat
    var gerror: nat
    var gerrorn: nat
    var strtabBase: nat
    var strtabCfg: nat
    var cmdqBase: nat
    var cmdqProd: nat
    var cmdqCons: nat
    var eventqBase: nat
    var eventqProd: nat
    var eventqCons: nat
    const idr0: nat
    const idr1: nat
    var streams: seq<nat>
    // Guest memory and the physical IOMMU.
    var mem: Memory
    var modes: map<nat, Mode>
    var issued: seq<Command>
    var calls: nat
    const refused: set<nat>
    var fetched: map<nat, Ste>

    ghost function View(): Dev
      reads this
    {
      Dev(cr0, gbpa, gerror, gerrorn, strtabBase, strtabCfg, cmdqBase, cmdqProd, cmdqCons,
          eventqBase, eventqProd, eventqCons, idr0, idr1, streams, mem, modes, issued, calls, refused, fetched)
    }

    /** After reset every register reads zero and no stream is known. */
    constructor (idr0: nat, idr1: nat, mem: Memory, refused: set<nat>)
      ensures View() == Reset(idr0, idr1, mem, refused)
    {
      this.idr0, this.idr1, this.refused, this.mem := idr0, idr1, refused, mem;
      cr0, gbpa, gerror, gerrorn, strtabBase, strtabCfg := 0, 0, 0, 0, 0, 0;
      cmdqBase, cmdqProd, cmdqCons, eventqBase, eventqProd, eventqCons := 0, 0, 0, 0, 0, 0;
      streams, modes, issued, calls, fetched := [], map[], [], 0, map[];
    }

    // ---- The physical IOMMU ---------------------------------------------------------------

    method SetStreamMode(sid: nat, m: Mode) returns (ok: bool)
      modifies this
      ensures (View(), ok) == SetMode(old(View()), sid, m)
    {
      ok := calls !in refused;
      calls := calls + 1;
      if ok {
        modes := modes[sid := m];
      }
    }

    method Forward(c: Command) returns (ok: bool)
      modifies this
      ensures (View(), ok) == Invalidate(old(View()), c)
    {
      ok := calls !in refused;
      calls := calls + 1;
      if ok {
        issued := issued + [c];
      }
    }

    // ---- Streams -----------------------------------------------------------------------------

    method ReadEntry(addr: nat) returns (words: Option<seq<nat>>)
      ensures words.Some? <==> Readable(mem, addr, 8)
      ensures words.Some? ==> words.value == ReadWords(mem, addr, 8)
    {
      var read: seq<nat> := [];
      for i := 0 to 8
        invariant |read| == i
        invariant forall j | 0 <= j < i :: addr + j * 8 in mem && read[j] == mem[addr + j * 8]
      {
        if addr + i * 8 !in mem {
          return None;
        }
        read := read + [mem[addr + i * 8]];
      }
      words := Some(read);
    }

    method Fetch(sid: nat) returns (e: Ste)
      ensures e == FetchSte(View(), sid)
    {
      var found := SteAddress(mem, TableOf(strtabCfg, strtabBase), And(idr1, 0x3f), sid);
      if found.Fault? {
        return SteFault;
      }
      if found.NoEntry? {
        return Invalid;
      }
      var words := ReadEntry(found.addr);
      if words.None? {
        return SteFault;
      }
      if And(words.value[0], 1) == 0 {
        return Invalid;
      }
      e := Entry(And(words.value[0] / 2, 0x7), words.value);
    }

    method ConfigureOne(sid: nat) returns (ok: bool)
      modifies this
      ensures (View(), ok) == ConfigureStream(old(View()), sid)
    {
      if !Set(cr0, CR0_SMMUEN) {
        ok := SetStreamMode(sid, if Set(gbpa, GBPA_ABORT) then Blocking else Passthrough);
        return;
      }
      var e := Fetch(sid);
      if e.SteFault? {
        return false;
      }
      fetched := fetched[sid := e];
      ok := SetStreamMode(sid, SteMode(e));
    }

    method ConfigureAllStreams() returns (ok: bool)
      modifies this
      ensures (View(), ok) == ConfigureStreams(old(View()), old(streams))
    {
      var sids := streams;
      for i := 0 to |sids|
        invariant ConfigureStreams(old(View()), sids) == ConfigureStreams(View(), sids[i..])
      {
        assert sids[i..][0] == sids[i] && sids[i..][1..] == sids[i + 1..];
        var done := ConfigureOne(sids[i]);
        if !done {
          return false;
        }
      }
      ok := true;
    }

    // ---- Errors ---------------------------------------------------------------------------------

    method Raise(bit: nat)
      modifies this`gerror
      ensures View() == RaiseGerror(old(View()), bit)
    {
      if And(Xor(gerror, gerrorn), Pow2(bit)) != 0 {
        return;
      }
      gerror := Xor(gerror, Pow2(bit));
    }

    method RecordCmdqError(cerror: nat)
      modifies this`gerror, this`cmdqCons
      ensures View() == SetCmdqError(old(View()), cerror)
    {
      cmdqCons := Or(And(cmdqCons, CMDQ_CONS_ERR_CLEAR), cerror * ERR_UNIT);
      Raise(GERROR_CMDQ_ERR);
    }

    // ---- The command queue ----------------------------------------------------------------------

    method DispatchCommand(c: Command) returns (ok: bool)
      modifies this
      ensures (View(), ok) == Dispatch(old(View()), c)
    {
      match Decode(c, Set(idr0, IDR0_ATS), Set(cr0, CR0_SMMUEN))
      case Illegal => ok := false;
      case Nothing => ok := true;
      case Configure(sid) =>
        streams := InsertStream(streams, sid);
        ok := ConfigureOne(sid);
      case Forward => ok := Forward(c);
    }

    method ReadCommand() returns (c: Option<Command>)
      ensures c == FetchCommand(View())
    {
      var addr := EntryAddress(LayoutOf(cmdqBase), cmdqCons, CMDQ_ENTRY_SIZE);
      if addr !in mem || addr + 8 !in mem {
        return None;
      }
      c := Some(Command(mem[addr], mem[addr + 8]));
    }

    method AttemptCommand() returns (a: Attempt)
      modifies this
      ensures (View(), a) == OneAttempt(old(View()))
    {
      var cmd := ReadCommand();
      if cmd.None? {
        RecordCmdqError(CERROR_ABT);
        return Attempt(None, false);
      }
      var ok := DispatchCommand(cmd.value);
      a := Attempt(cmd, ok);
      if ok {
        cmdqCons := NextPointer(LayoutOf(cmdqBase), cmdqCons);
      } else {
        RecordCmdqError(CERROR_ILL);
      }
    }

    /** The body of the loop; `more` unless it is left. */
    method Turn(queue: Layout, log: seq<Attempt>, ghost fuel: nat, ghost final: Dev, ghost whole: seq<Attempt>)
      returns (more: bool, log': seq<Attempt>)
      requires fuel > 0 && queue == LayoutOf(cmdqBase) && Remaining(View(), fuel, log, final, whole)
      modifies this
      ensures more ==> queue == LayoutOf(cmdqBase) && Remaining(View(), fuel - 1, log', final, whole)
      ensures !more ==> View() == final && log' == whole
    {
      if IsEmpty(queue, cmdqProd, cmdqCons) {
        NoneRemaining(View(), fuel, log, final, whole);
        return false, log;
      }
      ghost var before := View();
      OneAttemptKeepsQueue(before);
      var a := AttemptCommand();
      ConsumeOnce(before, fuel, View(), a);
      OneLess(before, fuel, log, final, whole, View(), a);
      more, log' := a.ok, log + [a];
    }

    method ConsumeCommands() returns (log: seq<Attempt>)
      modifies this
      ensures (View(), log) == ConsumeCmdq(old(View()))
    {
      log := [];
      if !Set(cr0, CR0_CMDQEN) || And(Xor(gerror, gerrorn), Pow2(GERROR_CMDQ_ERR)) != 0 {
        return;
      }
      var queue := LayoutOf(cmdqBase);
      var n := Entries(queue);
      ghost var final, whole := Consume(View(), n).0, Consume(View(), n).1;
      assert [] + whole == whole;
      for i := 0 to n
        invariant queue == LayoutOf(cmdqBase)
        invariant Remaining(View(), n - i, log, final, whole)
      {
        var more: bool;
        more, log := Turn(queue, log, n - i, final, whole);
        if !more {
          return;
        }
      }
      NoneRemaining(View(), 0, log, final, whole);
    }

    // ---- The event queue --------------------------------------------------------------------------

    method OverflowEvents()
      modifies this`eventqProd
      ensures View() == SetEventOverflow(old(View()))
    {
      if Set(eventqProd, OVFLG) != Set(eventqCons, OVFLG) {
        return;
      }
      eventqProd := Xor(eventqProd, Pow2(OVFLG));
    }

    method Push(record: seq<nat>) returns (outcome: Pushed)
      modifies this
      ensures (View(), outcome) == PushEvent(old(View()), record)
    {
      if !Set(cr0, CR0_EVENTQEN) {
        return Disabled;
      }
      if And(Xor(gerror, gerrorn), Pow2(GERROR_EVENTQ_ABT_ERR)) != 0 {
        return AbortPending;
      }
      var queue := LayoutOf(eventqBase);
      if IsFull(queue, eventqProd, eventqCons) {
        OverflowEvents();
        return QueueFull;
      }
      var addr := EntryAddress(queue, eventqProd, EVENTQ_ENTRY_SIZE);
      ghost var target := StoreWords(mem, addr, record);
      for i := 0 to |record|
        invariant View() == old(View()).(mem := mem)
        invariant StoreWords(mem, addr + 8 * i, record[i..]) == target
      {
        if addr + 8 * i !in mem {
          Raise(GERROR_EVENTQ_ABT_ERR);
          return WriteFault;
        }
        StoreStep(mem, addr, record, i);
        mem := mem[addr + 8 * i := record[i]];
      }
      eventqProd := NextPointer(queue, eventqProd);
      outcome := Queued;
    }

    // ---- Register writes ------------------------------------------------------------------------

    method WriteControl(val: nat) returns (ok: bool, log: seq<Attempt>)
      modifies this
      ensures Written(View(), ok, log) == WriteCr0(old(View()), val)
    {
      var previous := cr0;
      cr0 := And(val, CR0_WRITE_MASK);
      log := [];
      if !Set(previous, CR0_CMDQEN) {
        log := ConsumeCommands();
        if !AllOk(log) {
          return false, log;
        }
      }
      ok := true;
      if Set(previous, CR0_SMMUEN) != Set(And(val, CR0_WRITE_MASK), CR0_SMMUEN) {
        ok := ConfigureAllStreams();
      }
    }

    method WriteBypass(val: nat) returns (ok: bool)
      modifies this
      ensures Written(View(), ok, []) == WriteGbpa(old(View()), val)
    {
      gbpa := And(val, GBPA_WRITE_MASK);
      ok := true;
      if !Set(cr0, CR0_SMMUEN) {
        ok := ConfigureAllStreams();
      }
    }

    method WriteErrorAck(val: nat) returns (ok: bool, log: seq<Attempt>)
      modifies this
      ensures Written(View(), ok, log) == WriteGerrorn(old(View()), val)
    {
      var pending := And(Xor(gerror, gerrorn), Pow2(GERROR_CMDQ_ERR)) != 0;
      gerrorn := And(val, GERRORN_WRITE_MASK);
      log := [];
      if pending && And(Xor(gerror, gerrorn), Pow2(GERROR_CMDQ_ERR)) == 0 {
        cmdqCons := And(cmdqCons, CMDQ_CONS_ERR_CLEAR);
        log := ConsumeCommands();
      }
      ok := AllOk(log);
    }

    /** The registers that only hold what is written to them. */
    method WriteStored(r: Reg, val: nat, len: nat)
      requires (len == 4 || len == 8) && r !in {CR0, GBPA, GERRORN, CMDQ_PROD}
      modifies this
      ensures View() == WriteReg(old(View()), r, val, len).dev
    {
      hide And, MergeLow, MergeHigh, WriteCr0, WriteGbpa, WriteGerrorn, AfterConsume;
      var v32 := val % U32_LIMIT;
      match r
      case STRTAB_BASE => strtabBase := And(MergeLow(strtabBase, val, len), STRTAB_BASE_WRITE_MASK);
      case STRTAB_BASE_HI => strtabBase := And(MergeHigh(strtabBase, val, len), STRTAB_BASE_WRITE_MASK);
      case STRTAB_BASE_CFG => strtabCfg := And(v32, STRTAB_BASE_CFG_WRITE_MASK);
      case CMDQ_BASE => cmdqBase := And(MergeLow(cmdqBase, val, len), Q_BASE_WRITE_MASK);
      case CMDQ_BASE_HI => cmdqBase := And(MergeHigh(cmdqBase, val, len), Q_BASE_WRITE_MASK);
      case CMDQ_CONS => cmdqCons := And(v32, CMDQ_CONS_WRITE_MASK);
      case EVENTQ_BASE => eventqBase := And(MergeLow(eventqBase, val, len), Q_BASE_WRITE_MASK);
      case EVENTQ_BASE_HI => eventqBase := And(MergeHigh(eventqBase, val, len), Q_BASE_WRITE_MASK);
      case EVENTQ_PROD => eventqProd := And(v32, EVENTQ_WRITE_MASK);
      case EVENTQ_CONS => eventqCons := And(v32, EVENTQ_WRITE_MASK);
    }

    method Write(r: Reg, val: nat, len: nat) returns (ok: bool, log: seq<Attempt>)
      modifies this
      ensures Written(View(), ok, log) == WriteReg(old(View()), r, val, len)
    {
      if len != 4 && len != 8 {
        return false, [];
      }
      var v32 := val % U32_LIMIT;
      ok, log := true, [];
      match r
      case CR0 => ok, log := WriteControl(v32);
      case GBPA => ok := WriteBypass(v32);
      case GERRORN => ok, log := WriteErrorAck(v32);
      case CMDQ_PROD =>
        cmdqProd := And(v32, CMDQ_PROD_WRITE_MASK);
        log := ConsumeCommands();
        ok := AllOk(log);
      case _ => WriteStored(r, val, len);
    }
  }
}
