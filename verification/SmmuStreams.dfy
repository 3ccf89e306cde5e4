/**
 Which mode the physical IOMMU holds a stream in: the GBPA mode while translation is
 disabled, the mode of the stream table entry fetched last while it is enabled.
 */
module SmmuStreams {
  import opened Bytes
  import opened Bits
  import opened SmmuQueue
  import opened SmmuStreamTable
  import opened SmmuDevice
  import opened SmmuCommands

  predicate ConfiguredAt(d: Dev, sid: nat) {
    && sid in d.modes
    && if Set(d.cr0, CR0_SMMUEN) then sid in d.fetched && d.modes[sid] == SteMode(d.fetched[sid])
       else d.modes[sid] == GbpaMode(d)
  }

  predicate Configured(d: Dev) {
    forall sid | sid in d.streams :: ConfiguredAt(d, sid)
  }

  /** The physical IOMMU refuses nothing and every stream table lookup is readable. */
  ghost predicate Reliable(d: Dev) {
    d.refused == {} && forall sid: nat :: !FetchSte(d, sid).SteFault?
  }

  // ---- Configuring streams ---------------------------------------------------------------

  /** A successful configuration sets the stream right and leaves the others alone. */
  lemma ConfigureStreamIs(d: Dev, sid: nat, other: nat)
    ensures var (d', ok) := ConfigureStream(d, sid);
            && StreamsOnly(d, d') && d'.streams == d.streams
            && (ok ==> ConfiguredAt(d', sid))
            && (ok ==> Set(d.cr0, CR0_SMMUEN) ==> d'.fetched[sid] == FetchSte(d, sid))
            && (other != sid && ConfiguredAt(d, other) ==> ConfiguredAt(d', other))
            && (Reliable(d) ==> ok)
  {
    hide FetchSte, Set, SteMode;
  }

  lemma {:induction false} ConfigureStreamsAre(d: Dev, sids: seq<nat>, sid: nat)
    requires ConfigureStreams(d, sids).1
    ensures ConfigureStreams(d, sids).0.streams == d.streams
    ensures sid in sids || ConfiguredAt(d, sid) ==> ConfiguredAt(ConfigureStreams(d, sids).0, sid)
    decreases |sids|
  {
    if sids != [] {
      ConfigureStreamIs(d, sids[0], sid);
      ConfigureStreamsAre(ConfigureStream(d, sids[0]).0, sids[1..], sid);
    }
  }

  /** A reconfiguration that succeeds sets every stream right, whatever came before. */
  lemma ConfigureAll(d: Dev)
    requires ConfigureStreams(d, d.streams).1
    ensures Configured(ConfigureStreams(d, d.streams).0)
  {
    forall sid | sid in d.streams ensures ConfiguredAt(ConfigureStreams(d, d.streams).0, sid) {
      ConfigureStreamsAre(d, d.streams, sid);
    }
    ConfigureStreamsAre(d, d.streams, 0);
  }

  lemma {:induction false} ReliableConfigures(d: Dev, sids: seq<nat>)
    requires Reliable(d)
    ensures ConfigureStreams(d, sids).1
    decreases |sids|
  {
    if sids != [] {
      ConfigureStreamIs(d, sids[0], 0);
      var d1 := ConfigureStream(d, sids[0]).0;
      StaysReliable(d, d1);
      ReliableConfigures(d1, sids[1..]);
    }
  }

  lemma StaysReliable(d: Dev, d': Dev)
    requires Reliable(d) && d'.refused == d.refused && d'.mem == d.mem
    requires d'.strtabBase == d.strtabBase && d'.strtabCfg == d.strtabCfg && d'.idr1 == d.idr1
    ensures Reliable(d')
  {
    forall sid: nat ensures !FetchSte(d', sid).SteFault? {
      assert FetchSte(d', sid) == FetchSte(d, sid);
    }
  }

  lemma {:induction false} InsertStreamIs(s: seq<nat>, sid: nat, x: nat)
    ensures x in InsertStream(s, sid) <==> x == sid || x in s
    decreases |s|
  {
    if s != [] && sid > s[0] {
      InsertStreamIs(s[1..], sid, x);
    }
  }

  // ---- Commands ------------------------------------------------------------------------------

  lemma DispatchConfigures(d: Dev, c: Command)
    requires Configured(d) && (Dispatch(d, c).1 || Reliable(d))
    ensures Configured(Dispatch(d, c).0)
  {
    if RequestOf(d, c).Configure? {
      var sid := RequestOf(d, c).sid;
      var d1 := d.(streams := InsertStream(d.streams, sid));
      if Reliable(d) {
        StaysReliable(d, d1);
      }
      var d' := ConfigureStream(d1, sid).0;
      ConfigureStreamIs(d1, sid, sid);
      forall other | other in d'.streams ensures ConfiguredAt(d', other) {
        InsertStreamIs(d.streams, sid, other);
        ConfigureStreamIs(d1, sid, other);
      }
    }
  }

  /** Registers and counters that stream modes do not depend on. */
  lemma ErrorsAside(d: Dev, d': Dev)
    requires Configured(d)
    requires d'.cr0 == d.cr0 && d'.gbpa == d.gbpa
    requires d'.streams == d.streams && d'.modes == d.modes && d'.fetched == d.fetched
    ensures Configured(d')
  {
    forall sid | sid in d'.streams ensures ConfiguredAt(d', sid) {
      assert ConfiguredAt(d, sid);
    }
  }

  lemma FollowConfigures(d: Dev, fuel: nat)
    requires Configured(d) && Advances(d, fuel)
    ensures Configured(Follow(d))
  {
    var cmd := FetchCommand(d).value;
    DispatchConfigures(d, cmd);
    ErrorsAside(Dispatch(d, cmd).0, Follow(d));
  }

  lemma FollowReliable(d: Dev)
    requires Reliable(d) && FetchCommand(d).Some?
    ensures Reliable(Follow(d))
  {
    DispatchFrame(d, FetchCommand(d).value);
    StaysReliable(d, Follow(d));
  }

  lemma {:induction false} ConsumeConfigures(d: Dev, fuel: nat)
    requires Configured(d) && (AllOk(Consume(d, fuel).1) || Reliable(d))
    ensures Configured(Consume(d, fuel).0)
    decreases fuel
  {
    hide Consume, Dispatch, FetchCommand;
    if Advances(d, fuel) {
      FollowConfigures(d, fuel);
      ConsumeAdvances(d, fuel);
      if Reliable(d) {
        FollowReliable(d);
      } else {
        AllOkTail(Attempt(FetchCommand(d), true), Consume(Follow(d), fuel - 1).1);
      }
      ConsumeConfigures(Follow(d), fuel - 1);
    } else {
      StopConfigures(d, fuel);
    }
  }

  lemma StopConfigures(d: Dev, fuel: nat)
    requires Configured(d) && (AllOk(Consume(d, fuel).1) || Reliable(d)) && !Advances(d, fuel)
    ensures Configured(Consume(d, fuel).0)
  {
    if fuel > 0 && !IsEmpty(LayoutOf(d.cmdqBase), d.cmdqProd, d.cmdqCons) {
      var cmd := FetchCommand(d);
      var log := Consume(d, fuel).1;
      assert !log[0].ok;
      if cmd.Some? {
        DispatchConfigures(d, cmd.value);
        ErrorsAside(Dispatch(d, cmd.value).0, SetCmdqError(Dispatch(d, cmd.value).0, CERROR_ILL));
      } else {
        ErrorsAside(d, SetCmdqError(d, CERROR_ABT));
      }
    }
  }

  lemma CmdqConfigures(d: Dev)
    requires Configured(d) && (AfterConsume(d).ok || Reliable(d))
    ensures Configured(AfterConsume(d).dev)
  {
    if Running(d) {
      ConsumeConfigures(d, Entries(LayoutOf(d.cmdqBase)));
    }
  }

  // ---- Register writes ---------------------------------------------------------------------------

  /**
   A write to CR0 that turns the command queue on and changes SMMUEN, and whose commands
   fail: the reconfiguration of the streams is skipped.
   */
  predicate Skips(d: Dev, r: Reg, val: nat, len: nat) {
    r == CR0 && (len == 4 || len == 8) && SkipsAt(d, val % U32_LIMIT)
  }

  predicate SkipsAt(d: Dev, val: nat) {
    && !Set(d.cr0, CR0_CMDQEN)
    && var d1 := d.(cr0 := And(val, CR0_WRITE_MASK));
       Set(d1.cr0, CR0_SMMUEN) != Set(d.cr0, CR0_SMMUEN) && !AfterConsume(d1).ok
  }

  lemma StopReliable(d: Dev, fuel: nat)
    requires Reliable(d) && !Advances(d, fuel)
    ensures Reliable(Consume(d, fuel).0)
  {
    if FetchCommand(d).Some? {
      var d1 := Dispatch(d, FetchCommand(d).value).0;
      DispatchFrame(d, FetchCommand(d).value);
      StaysReliable(d, SetCmdqError(d1, CERROR_ILL));
    }
    StaysReliable(d, SetCmdqError(d, CERROR_ABT));
  }

  lemma {:induction false} ConsumeReliable(d: Dev, fuel: nat)
    requires Reliable(d)
    ensures Reliable(Consume(d, fuel).0)
    decreases fuel
  {
    hide Consume, Dispatch, FetchCommand;
    if Advances(d, fuel) {
      FollowReliable(d);
      ConsumeAdvances(d, fuel);
      ConsumeReliable(Follow(d), fuel - 1);
    } else {
      StopReliable(d, fuel);
    }
  }

  lemma CmdqReliable(d: Dev, d1: Dev)
    requires Reliable(d) && d1.refused == d.refused && d1.mem == d.mem
    requires d1.strtabBase == d.strtabBase && d1.strtabCfg == d.strtabCfg && d1.idr1 == d.idr1
    ensures Reliable(AfterConsume(d1).dev)
  {
    StaysReliable(d, d1);
    ConsumeReliable(d1, Entries(LayoutOf(d1.cmdqBase)));
  }

  /** Toggling SMMUEN: a reconfiguration that is reached and succeeds suffices. */
  lemma Cr0Toggles(d: Dev, val: nat)
    requires WriteCr0(d, val).ok || (Reliable(d) && !SkipsAt(d, val))
    requires Set(And(val, CR0_WRITE_MASK), CR0_SMMUEN) != Set(d.cr0, CR0_SMMUEN)
    ensures Configured(WriteCr0(d, val).dev)
  {
    var d1 := d.(cr0 := And(val, CR0_WRITE_MASK));
    var w := if !Set(d.cr0, CR0_CMDQEN) then AfterConsume(d1) else Plain(d1);
    if Reliable(d) {
      CmdqReliable(d, d1);
      StaysReliable(d, d1);
      ReliableConfigures(w.dev, w.dev.streams);
    }
    ConfigureAll(w.dev);
  }

  lemma Cr0Stays(d: Dev, val: nat)
    requires Configured(d) && (WriteCr0(d, val).ok || Reliable(d))
    requires Set(And(val, CR0_WRITE_MASK), CR0_SMMUEN) == Set(d.cr0, CR0_SMMUEN)
    ensures Configured(WriteCr0(d, val).dev)
  {
    var d1 := d.(cr0 := And(val, CR0_WRITE_MASK));
    forall sid | sid in d1.streams ensures ConfiguredAt(d1, sid) {
      assert ConfiguredAt(d, sid);
    }
    if !Set(d.cr0, CR0_CMDQEN) {
      if Reliable(d) {
        StaysReliable(d, d1);
      }
      CmdqConfigures(d1);
    }
  }

  lemma Cr0Configures(d: Dev, val: nat)
    requires Configured(d) && (WriteCr0(d, val).ok || (Reliable(d) && !SkipsAt(d, val)))
    ensures Configured(WriteCr0(d, val).dev)
  {
    if Set(And(val, CR0_WRITE_MASK), CR0_SMMUEN) == Set(d.cr0, CR0_SMMUEN) {
      Cr0Stays(d, val);
    } else {
      Cr0Toggles(d, val);
    }
  }

  lemma GbpaConfigures(d: Dev, val: nat)
    requires Configured(d) && (WriteGbpa(d, val).ok || Reliable(d))
    ensures Configured(WriteGbpa(d, val).dev)
  {
    var d1 := d.(gbpa := And(val, GBPA_WRITE_MASK));
    if Set(d.cr0, CR0_SMMUEN) {
      forall sid | sid in d1.streams ensures ConfiguredAt(d1, sid) {
        assert ConfiguredAt(d, sid);
      }
    } else {
      if Reliable(d) {
        StaysReliable(d, d1);
        ReliableConfigures(d1, d1.streams);
      }
      ConfigureAll(d1);
    }
  }

  lemma ConsumeAfter(d: Dev, d1: Dev)
    requires Configured(d) && (AfterConsume(d1).ok || Reliable(d))
    requires d1 == d.(gerrorn := d1.gerrorn, cmdqCons := d1.cmdqCons, cmdqProd := d1.cmdqProd)
    ensures Configured(AfterConsume(d1).dev)
  {
    ErrorsAside(d, d1);
    if Reliable(d) {
      StaysReliable(d, d1);
    }
    CmdqConfigures(d1);
  }

  lemma GerrornConfigures(d: Dev, val: nat)
    requires Configured(d) && (WriteGerrorn(d, val).ok || Reliable(d))
    ensures Configured(WriteGerrorn(d, val).dev)
  {
    var d1 := d.(gerrorn := And(val, GERRORN_WRITE_MASK));
    if Active(d, GERROR_CMDQ_ERR) && !Active(d1, GERROR_CMDQ_ERR) {
      ConsumeAfter(d, d1.(cmdqCons := And(d1.cmdqCons, CMDQ_CONS_ERR_CLEAR)));
    } else {
      ErrorsAside(d, d1);
    }
  }

  /** One write: right before and successful means right after; so does any failure but a skipped reconfiguration. */
  lemma WriteConfigures(d: Dev, r: Reg, val: nat, len: nat)
    requires Configured(d)
    requires WriteReg(d, r, val, len).ok || (Reliable(d) && !Skips(d, r, val, len))
    ensures Configured(WriteReg(d, r, val, len).dev)
  {
    var v32 := val % U32_LIMIT;
    if len == 4 || len == 8 {
      match r
      case CR0 => Cr0Configures(d, v32);
      case GBPA => GbpaConfigures(d, v32);
      case GERRORN => GerrornConfigures(d, v32);
      case CMDQ_PROD => ConsumeAfter(d, d.(cmdqProd := And(v32, CMDQ_PROD_WRITE_MASK)));
      case _ => ErrorsAside(d, WriteReg(d, r, val, len).dev);
    }
  }

  // ---- Runs ------------------------------------------------------------------------------------

  datatype Action = Register(reg: Reg, val: nat, len: nat) | Store(mem: Memory) | Report(record: seq<nat>)

  function Act(d: Dev, a: Action): Dev {
    match a
    case Register(reg, val, len) => WriteReg(d, reg, val, len).dev
    case Store(mem) => d.(mem := mem)
    case Report(record) => PushEvent(d, record).0
  }

  function ActAll(d: Dev, run: seq<Action>): Dev
    decreases |run|
  {
    if run == [] then d else ActAll(Act(d, run[0]), run[1..])
  }

  /** Some run leads from reset to the device. */
  ghost predicate FromReset(d: Dev) {
    exists idr0, idr1, mem, refused, run :: ActAll(Reset(idr0, idr1, mem, refused), run) == d
  }

  lemma {:induction false} ActAllAppend(d: Dev, run: seq<Action>, a: Action)
    ensures ActAll(d, run + [a]) == Act(ActAll(d, run), a)
    decreases |run|
  {
    hide Act;
    if run == [] {
      assert ActAll(d, [a]) == ActAll(Act(d, a), []);
    } else {
      ActAllAppend(Act(d, run[0]), run[1..], a);
      assert (run + [a])[1..] == run[1..] + [a];
    }
  }

  lemma Onward(d: Dev, a: Action)
    requires FromReset(d)
    ensures FromReset(Act(d, a))
  {
    hide Act;
    var idr0, idr1, mem, refused, run :| ActAll(Reset(idr0, idr1, mem, refused), run) == d;
    ActAllAppend(Reset(idr0, idr1, mem, refused), run, a);
  }

  /** Every write succeeds, or fails on a reliable platform without skipping a reconfiguration. */
  ghost predicate Benign(d: Dev, run: seq<Action>)
    decreases |run|
  {
    run == [] ||
    (&& (run[0].Register? ==>
           var Register(reg, val, len) := run[0];
           WriteReg(d, reg, val, len).ok || (Reliable(d) && !Skips(d, reg, val, len)))
     && Benign(Act(d, run[0]), run[1..]))
  }

  /** On every benign run every known stream is in the mode it should be in. */
  lemma {:induction false} StreamsStayConfigured(d: Dev, run: seq<Action>)
    requires Configured(d) && Benign(d, run)
    ensures Configured(ActAll(d, run))
    decreases |run|
  {
    if run != [] {
      match run[0]
      case Register(reg, val, len) =>
        WriteConfigures(d, reg, val, len);
        StreamsStayConfigured(Act(d, run[0]), run[1..]);
      case Store(mem) =>
        ErrorsAside(d, Act(d, run[0]));
        StreamsStayConfigured(Act(d, run[0]), run[1..]);
      case Report(record) =>
        PushEventFrame(d, record);
        ErrorsAside(d, Act(d, run[0]));
        StreamsStayConfigured(Act(d, run[0]), run[1..]);
    }
  }
}
