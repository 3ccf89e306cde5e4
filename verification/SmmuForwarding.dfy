/**
 Invalidations reach the physical IOMMU exactly once each, in the order they were
 submitted: in one batch, and over every run of guest and device.
 */
module SmmuForwarding {
  import opened Bytes
  import opened Bits
  import opened SmmuQueue
  import opened SmmuDevice
  import opened SmmuCommands

  /** The commands among `cmds` that are the physical IOMMU's business. */
  function Forwarded(cmds: seq<Command>, ats: bool, enabled: bool): seq<Command> {
    if cmds == [] then []
    else (if Decode(cmds[0], ats, enabled).Forward? then [cmds[0]] else []) + Forwarded(cmds[1..], ats, enabled)
  }

  lemma {:induction false} ExecutedFirst(a: Attempt, rest: seq<Attempt>)
    ensures Executed([a] + rest) == (if a.ok && a.cmd.Some? then [a.cmd.value] else []) + Executed(rest)
    decreases |rest|
  {
    var log := [a] + rest;
    if rest == [] {
      assert log[..0] == [];
    } else {
      ExecutedFirst(a, rest[..|rest| - 1]);
      assert log[..|log| - 1] == [a] + rest[..|rest| - 1];
    }
  }

  lemma DispatchIssues(d: Dev, c: Command)
    ensures Dispatch(d, c).1 ==> Dispatch(d, c).0.issued == d.issued + if RequestOf(d, c).Forward? then [c] else []
    ensures !Dispatch(d, c).1 ==> Dispatch(d, c).0.issued == d.issued
  {
    hide Decode, FetchSte, SteMode, GbpaMode, InsertStream, Set;
    assert d.issued + [] == d.issued;
  }

  /** Each batch hands over exactly the invalidations it executed, in order. */
  lemma {:induction false} ForwardedInOrder(d: Dev, fuel: nat)
    ensures var (d', log) := Consume(d, fuel);
            d'.issued == d.issued + Forwarded(Executed(log), Set(d.idr0, IDR0_ATS), Set(d.cr0, CR0_SMMUEN))
    decreases fuel
  {
    hide Consume, Dispatch, FetchCommand, Decode, Executed;
    if Advances(d, fuel) {
      FollowIssues(d);
      ConsumeAdvances(d, fuel);
      ForwardedInOrder(Follow(d), fuel - 1);
      ForwardedMore(d, FetchCommand(d).value, Consume(Follow(d), fuel - 1).1, Follow(d).issued);
    } else {
      ForwardedNone(d, fuel);
    }
  }

  lemma FollowIssues(d: Dev)
    requires FetchCommand(d).Some? && Dispatch(d, FetchCommand(d).value).1
    ensures Follow(d).issued == d.issued + if RequestOf(d, FetchCommand(d).value).Forward? then [FetchCommand(d).value] else []
    ensures Follow(d).idr0 == d.idr0 && Follow(d).cr0 == d.cr0
  {
    DispatchIssues(d, FetchCommand(d).value);
    DispatchFrame(d, FetchCommand(d).value);
  }

  lemma ForwardedMore(d: Dev, cmd: Command, rest: seq<Attempt>, issued: seq<Command>)
    requires issued == d.issued + if RequestOf(d, cmd).Forward? then [cmd] else []
    ensures d.issued + Forwarded(Executed([Attempt(Some(cmd), true)] + rest), Set(d.idr0, IDR0_ATS), Set(d.cr0, CR0_SMMUEN)) ==
            issued + Forwarded(Executed(rest), Set(d.idr0, IDR0_ATS), Set(d.cr0, CR0_SMMUEN))
  {
    ExecutedFirst(Attempt(Some(cmd), true), rest);
    var all := [cmd] + Executed(rest);
    assert all[0] == cmd && all[1..] == Executed(rest);
  }

  lemma ForwardedNone(d: Dev, fuel: nat)
    requires !Advances(d, fuel)
    ensures Executed(Consume(d, fuel).1) == [] && Consume(d, fuel).0.issued == d.issued
  {
    if fuel > 0 && !IsEmpty(LayoutOf(d.cmdqBase), d.cmdqProd, d.cmdqCons) {
      ExecutedFirst(Attempt(FetchCommand(d), false), []);
      if FetchCommand(d).Some? {
        DispatchIssues(d, FetchCommand(d).value);
      }
    }
  }

  // ---- Over whole runs -------------------------------------------------------------------

  /** The executed commands that were the physical IOMMU's business when they were executed, in order. */
  function Sent(log: seq<Attempt>, past: seq<Moment>, ats: bool): seq<Command>
    requires |past| == |log|
  {
    if log == [] then []
    else
      var n := |log| - 1;
      Sent(log[..n], past[..n], ats) + SentBy(log[n], past[n], ats)
  }

  function SentBy(a: Attempt, m: Moment, ats: bool): seq<Command> {
    if a.ok && a.cmd.Some? && Decode(a.cmd.value, ats, m.enabled).Forward? then [a.cmd.value] else []
  }

  lemma {:induction false} SentAppends(log: seq<Attempt>, past: seq<Moment>, more: seq<Attempt>, later: seq<Moment>, ats: bool)
    requires |past| == |log| && |later| == |more|
    ensures Sent(log + more, past + later, ats) == Sent(log, past, ats) + Sent(more, later, ats)
    decreases |more|
  {
    hide SentBy;
    if more == [] {
      assert log + more == log && past + later == past;
    } else {
      var n := |more| - 1;
      SentAppends(log, past, more[..n], later[..n], ats);
      assert (log + more)[..|log| + n] == log + more[..n];
      assert (past + later)[..|log| + n] == past + later[..n];
    }
  }

  lemma {:induction false} ForwardedLast(cmds: seq<Command>, c: Command, ats: bool, enabled: bool)
    ensures Forwarded(cmds + [c], ats, enabled) ==
            Forwarded(cmds, ats, enabled) + if Decode(c, ats, enabled).Forward? then [c] else []
    decreases |cmds|
  {
    hide Decode;
    var all := cmds + [c];
    if cmds == [] {
      assert all[0] == c && all[1..] == [];
    } else {
      ForwardedLast(cmds[1..], c, ats, enabled);
      assert all[0] == cmds[0] && all[1..] == cmds[1..] + [c];
    }
  }

  /** Within one batch the two ways of picking the forwarded commands agree. */
  lemma {:induction false} SentInBatch(log: seq<Attempt>, m: Moment, ats: bool)
    ensures Sent(log, Repeat(m, |log|), ats) == Forwarded(Executed(log), ats, m.enabled)
    decreases |log|
  {
    hide Decode;
    if log != [] {
      var n := |log| - 1;
      SentInBatch(log[..n], m, ats);
      assert Repeat(m, |log|)[..n] == Repeat(m, n);
      if log[n].ok && log[n].cmd.Some? {
        ForwardedLast(Executed(log[..n]), log[n].cmd.value, ats, m.enabled);
      } else {
        assert Executed(log[..n]) + [] == Executed(log[..n]);
      }
    }
  }

  lemma {:induction false} ConfigureIssuesNothing(d: Dev, sids: seq<nat>)
    ensures ConfigureStreams(d, sids).0.issued == d.issued
    decreases |sids|
  {
    hide FetchSte, SteMode, GbpaMode, Set;
    if sids != [] && ConfigureStream(d, sids[0]).1 {
      ConfigureIssuesNothing(ConfigureStream(d, sids[0]).0, sids[1..]);
    }
  }

  /** The device `d` became `w.dev` by handing over what the attempts of `w` forwarded. */
  ghost predicate Issues(d: Dev, w: Written) {
    && w.dev.idr0 == d.idr0
    && w.dev.issued == d.issued + Forwarded(Executed(w.log), Set(d.idr0, IDR0_ATS), Set(w.dev.cr0, CR0_SMMUEN))
  }

  lemma ConsumeIssues(d: Dev)
    ensures Issues(d, AfterConsume(d)) && AfterConsume(d).dev.cr0 == d.cr0
  {
    hide Consume, Set, Active;
    var fuel := Entries(LayoutOf(d.cmdqBase));
    ConsumeFrame(d, fuel);
    ForwardedInOrder(d, fuel);
    assert Executed([]) == [] && Forwarded([], Set(d.idr0, IDR0_ATS), Set(d.cr0, CR0_SMMUEN)) == [];
    assert d.issued + [] == d.issued;
  }

  lemma QuietIssues(d: Dev, w: Written)
    requires w.log == [] && w.dev.issued == d.issued && w.dev.idr0 == d.idr0
    ensures Issues(d, w)
  {
    assert d.issued + [] == d.issued;
  }

  lemma Cr0Issues(d: Dev, val: nat)
    ensures Issues(d, WriteCr0(d, val))
  {
    hide Consume, Forwarded, Active, ConfigureStreams;
    var d1 := d.(cr0 := And(val, CR0_WRITE_MASK));
    var w := if !Set(d.cr0, CR0_CMDQEN) then AfterConsume(d1) else Plain(d1);
    if !Set(d.cr0, CR0_CMDQEN) {
      ConsumeIssues(d1);
    } else {
      QuietIssues(d1, w);
    }
    ConfigureStreamsFrame(w.dev, w.dev.streams);
    ConfigureIssuesNothing(w.dev, w.dev.streams);
  }

  lemma WriteIssues(d: Dev, r: Reg, val: nat, len: nat)
    ensures Issues(d, WriteReg(d, r, val, len))
  {
    hide Consume, Forwarded, Active, Set, ConfigureStreams, And, MergeLow, MergeHigh, WriteCr0, AfterConsume;
    var v32 := val % U32_LIMIT;
    var w := WriteReg(d, r, val, len);
    if len != 4 && len != 8 {
      QuietIssues(d, w);
    } else if r == CR0 {
      Cr0Issues(d, v32);
    } else if r == CMDQ_PROD {
      ConsumeIssues(d.(cmdqProd := And(v32, CMDQ_PROD_WRITE_MASK)));
    } else if r == GERRORN && Active(d, GERROR_CMDQ_ERR)
              && !Active(d.(gerrorn := And(v32, GERRORN_WRITE_MASK)), GERROR_CMDQ_ERR) {
      ConsumeIssues(d.(gerrorn := And(v32, GERRORN_WRITE_MASK), cmdqCons := And(d.cmdqCons, CMDQ_CONS_ERR_CLEAR)));
    } else {
      if r == GBPA {
        var d1 := d.(gbpa := And(v32, GBPA_WRITE_MASK));
        ConfigureStreamsFrame(d1, d1.streams);
        ConfigureIssuesNothing(d1, d1.streams);
      }
      QuietIssues(d, w);
    }
  }

  /** What the physical IOMMU has been handed since `issued`, in a history. */
  ghost predicate Matches(h: History, ats: bool, issued: seq<Command>) {
    && |h.past| == |h.log| && Set(h.d.idr0, IDR0_ATS) == ats
    && h.d.issued == issued + Sent(h.log, h.past, ats)
  }

  lemma GrowMatches(h: History, w: Written, ats: bool, issued: seq<Command>)
    requires Matches(h, ats, issued) && Issues(h.d, w)
    ensures Matches(Grow(h, w.dev, w.log), ats, issued)
  {
    hide Forwarded, Executed, Sent;
    var m := Now(h, w.dev);
    SentAppends(h.log, h.past, w.log, Repeat(m, |w.log|), ats);
    SentInBatch(w.log, m, ats);
    assert (issued + Sent(h.log, h.past, ats)) + Sent(w.log, Repeat(m, |w.log|), ats) ==
           issued + (Sent(h.log, h.past, ats) + Sent(w.log, Repeat(m, |w.log|), ats));
  }

  lemma StepMatches(h: History, t: Step, ats: bool, issued: seq<Command>)
    requires Matches(h, ats, issued) && Enabled(h, t)
    ensures Matches(Apply(h, t), ats, issued)
  {
    hide Sent, Grow, Acknowledges;
    match t
    case Place(_) =>
    case Replace(_, _) =>
    case Announce(count, val, len) =>
      WriteIssues(h.d, CMDQ_PROD, val, len);
      GrowMatches(h, WriteReg(h.d, CMDQ_PROD, val, len), ats, issued);
    case Write(reg, val, len) =>
      WriteIssues(h.d, reg, val, len);
      GrowMatches(if Acknowledges(h.d, reg, val, len) then h.(acks := h.acks + 1) else h,
                  WriteReg(h.d, reg, val, len), ats, issued);
    case Touch(_) =>
    case Push(record) => PushEventFrame(h.d, record);
  }

  lemma {:induction false} RunMatches(h: History, run: seq<Step>, ats: bool, issued: seq<Command>)
    requires Matches(h, ats, issued) && CanRun(h, run)
    ensures Matches(Run(h, run), ats, issued)
    decreases |run|
  {
    if run != [] {
      StepMatches(h, run[0], ats, issued);
      RunMatches(Apply(h, run[0]), run[1..], ats, issued);
    }
  }

  /**
   Over every run of the guest protocol, errors, repairs and reconfigurations
   included, the physical IOMMU receives exactly the invalidations among the executed
   commands, each once and in the order of execution, which is the order of
   submission.
   */
  lemma IssuedInOrder(h: History, run: seq<Step>)
    requires Idle(h) && CanRun(h, run)
    ensures var h' := Run(h, run);
            && Orderly(h')
            && h'.d.issued == h.d.issued + Sent(h'.log, h'.past, Set(h.d.idr0, IDR0_ATS))
  {
    assert h.d.issued + [] == h.d.issued;
    CommandsInOrder(h, run);
    RunMatches(h, run, Set(h.d.idr0, IDR0_ATS), h.d.issued);
  }
}
