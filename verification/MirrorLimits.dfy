/**
 Exactly when the mirror's promises hold: for each fact the code relies on
 without checking it, a run that breaks the promise where the fact fails.
 */
module MirrorLimits {
  import opened Bytes
  import opened RangeLocks
  import opened MirrorProtocol
  import opened MirrorControl
  import opened MirrorSync
  import opened MirrorTheorems

  /** The promise: a Ready mirror with no range held has two equal disks. */
  ghost predicate ReadyIsInSync(e: Env) {
    forall s | Reachable(e, s) && s.phase.Ready? && s.held == map[] :: s.src == s.dst
  }

  /** The promise: no reachable state has panicked on a phase transition. */
  ghost predicate NeverPanics(e: Env) {
    forall s | Reachable(e, s) :: !s.panicked
  }

  /** The promise: every queue that takes requests serves them from the guest's disk. */
  ghost predicate QueuesAgree(e: Env) {
    forall s, k: nat | Reachable(e, s) && IsQueue(s, k) && !s.queues[k].stalled :: ServedFrom(s, k) == GuestView(s)
  }

  /** One-byte disks. */
  function Many(a: Byte, b: Byte, qs: seq<Queue>, phase: Phase, c: Copier, held: Ranges, copied: nat): State {
    State([a], [b], held, phase, qs, c, copied, false, false, false, {})
  }

  /** And one virtqueue. */
  function Small(a: Byte, b: Byte, q: Queue, phase: Phase, c: Copier, held: Ranges, copied: nat): State {
    Many(a, b, [q], phase, c, held, copied)
  }

  const PLAIN := Queue(Source, false, false, Idle)
  const MIRRORED := Queue(Mirror, false, false, Idle)

  lemma Goto(e: Env, s: State, t: Step, s': State)
    requires Reachable(e, s) && Enabled(e, s, t) && Apply(e, s, t) == s'
    ensures Reachable(e, s')
  {
    Extend(e, s, t);
  }

  lemma SmallMirrored(e: Env, a: Byte, b: Byte)
    requires 0 < e.blockSize
    ensures Reachable(e, Small(a, b, MIRRORED, Running, NotStarted, map[], 0))
  {
    var s0 := Small(a, b, PLAIN, Running, NotStarted, map[], 0);
    assert Init(e, s0);
    assert CanRun(e, s0, []) && Run(e, s0, []) == s0;
    Extend(e, s0, OfManager(Install(0)));
    assert [PLAIN][0 := MIRRORED] == [MIRRORED];
  }

  /** Two virtqueues on the mirror. */
  lemma PairMirrored(e: Env, a: Byte, b: Byte)
    requires 0 < e.blockSize
    ensures Reachable(e, Many(a, b, [MIRRORED, MIRRORED], Running, NotStarted, map[], 0))
  {
    var s0 := Many(a, b, [PLAIN, PLAIN], Running, NotStarted, map[], 0);
    assert Init(e, s0);
    assert CanRun(e, s0, []) && Run(e, s0, []) == s0;
    var s1 := Many(a, b, [MIRRORED, PLAIN], Running, NotStarted, map[], 0);
    assert [PLAIN, PLAIN][0 := MIRRORED] == [MIRRORED, PLAIN];
    Goto(e, s0, OfManager(Install(0)), s1);
    assert [MIRRORED, PLAIN][1 := MIRRORED] == [MIRRORED, MIRRORED];
    Extend(e, s1, OfManager(Install(1)));
  }

  /** Queues that a fresh mirror has been installed in. */
  ghost predicate Installed(e: Env, a: Byte, b: Byte, qs: seq<Queue>) {
    && Reachable(e, Many(a, b, qs, Running, NotStarted, map[], 0))
    && forall k | 0 <= k < |qs| :: qs[k].backend.Mirror?
  }

  lemma Started(e: Env, a: Byte, b: Byte, qs: seq<Queue>)
    requires Installed(e, a, b, qs)
    ensures Reachable(e, Many(a, b, qs, Running, Between(0), map[], 0))
  {
    Extend(e, Many(a, b, qs, Running, NotStarted, map[], 0), OfCopier(Start));
  }

  lemma SmallStarted(e: Env, a: Byte, b: Byte)
    requires 0 < e.blockSize
    ensures Reachable(e, Small(a, b, MIRRORED, Running, Between(0), map[], 0))
  {
    SmallMirrored(e, a, b);
    Started(e, a, b, [MIRRORED]);
  }

  /** What the copier leaves on the destination for source byte `a`. */
  function CopyOf(e: Env, a: Byte, b: Byte): Byte {
    if e.destIsSparse && a == 0 && !e.dstPunchZeroes then b else a
  }

  lemma BlockWasRead(e: Env, a: Byte, b: Byte, qs: seq<Queue>)
    requires 0 < e.blockSize && Installed(e, a, b, qs)
    ensures Reachable(e, Many(a, b, qs, Running, Reading(0, 1, map[0 := a]), map[0 := 1], 0))
  {
    Started(e, a, b, qs);
    var s2 := Many(a, b, qs, Running, Between(0), map[], 0);
    var s3 := Many(a, b, qs, Running, Wanting(0, 1), map[], 0);
    Goto(e, s2, OfCopier(NextBlock), s3);
    var s4 := Many(a, b, qs, Running, Reading(0, 1, map[]), map[0 := 1], 0);
    Goto(e, s3, OfCopier(CopyAcquire), s4);
    Extend(e, s4, OfCopier(ReadByte(0)));
  }

  lemma BlockWasWritten(e: Env, a: Byte, b: Byte, qs: seq<Queue>)
    requires 0 < e.blockSize && Installed(e, a, b, qs)
    ensures Reachable(e, Many(a, CopyOf(e, a, b), qs, Running,
                              Writing(0, 1, map[0 := a], e.destIsSparse && a == 0, {0}), map[0 := 1], 0))
  {
    BlockWasRead(e, a, b, qs);
    var buf: map<nat, Byte> := map[0 := a];
    var punch := e.destIsSparse && a == 0;
    var s1 := Many(a, b, qs, Running, Reading(0, 1, buf), map[0 := 1], 0);
    var s2 := Many(a, b, qs, Running, Writing(0, 1, buf, punch, {}), map[0 := 1], 0);
    assert AllZero(s1.copier) <==> a == 0 by {
      assert buf[0] == a;
    }
    Goto(e, s1, OfCopier(StartWrite), s2);
    Extend(e, s2, OfCopier(LandCopy(0)));
    assert [b][0 := a] == [a] && {} + {0} == {0};
  }

  lemma CopyReported(e: Env, a: Byte, b: Byte, qs: seq<Queue>)
    requires 0 < e.blockSize && Installed(e, a, b, qs)
    ensures Reachable(e, Many(a, CopyOf(e, a, b), qs, Ready, Reported(1, Full), map[], 1))
  {
    BlockWasWritten(e, a, b, qs);
    var c := CopyOf(e, a, b);
    var punch := e.destIsSparse && a == 0;
    var s1 := Many(a, c, qs, Running, Writing(0, 1, map[0 := a], punch, {0}), map[0 := 1], 0);
    var s2 := Many(a, c, qs, Running, Between(1), map[], 1);
    assert s1.held - {0} == map[];
    Goto(e, s1, OfCopier(FinishBlock), s2);
    var s3 := Many(a, c, qs, Running, Returned(1, Full), map[], 1);
    Goto(e, s2, OfCopier(Flush(true)), s3);
    Extend(e, s3, OfCopier(Report));
  }

  lemma SmallReady(e: Env, a: Byte, b: Byte)
    requires 0 < e.blockSize
    ensures Reachable(e, Small(a, CopyOf(e, a, b), MIRRORED, Ready, Reported(1, Full), map[], 1))
  {
    SmallMirrored(e, a, b);
    CopyReported(e, a, b, [MIRRORED]);
  }

  function Busy(req: Request, src: Flight, dst: Flight): Queue {
    Queue(Mirror, false, false, Holding(req, src, dst))
  }

  /** The ready one-byte mirror with its queue in the middle of a request. */
  function ReadyBusy(a: Byte, b: Byte, req: Request, src: Flight, dst: Flight): State {
    Small(a, b, Busy(req, src, dst), Ready, Reported(1, Full), map[0 := 1], 1)
  }

  /** The ready one-byte mirror takes up a request for its only byte. */
  lemma SmallSubmitted(e: Env, a: Byte, req: Request)
    requires 0 < e.blockSize && a != 0 && req.off == 0 && req.len == 1
    ensures Reachable(e, ReadyBusy(a, a, req, Flying({}), Unsent))
  {
    SmallReady(e, a, a);
    var s1 := Small(a, a, MIRRORED, Ready, Reported(1, Full), map[], 1);
    var s2 := Small(a, a, MIRRORED.(act := Waiting(req)), Ready, Reported(1, Full), map[], 1);
    assert [MIRRORED][0 := MIRRORED.(act := Waiting(req))] == [MIRRORED.(act := Waiting(req))];
    Goto(e, s1, OfQueue(0, Arrive(req)), s2);
    var s3 := ReadyBusy(a, a, req, Unsent, Unsent);
    assert s2.queues[0 := Busy(req, Unsent, Unsent)] == s3.queues;
    assert s2.held[0 := 1] == map[0 := 1];
    Goto(e, s2, OfQueue(0, Acquire), s3);
    Extend(e, s3, OfQueue(0, SubmitSrc));
    assert s3.queues[0 := Busy(req, Flying({}), Unsent)] == [Busy(req, Flying({}), Unsent)];
  }

  /** And hands it to both disks. */
  lemma SmallSubmittedTwice(e: Env, a: Byte, req: Request)
    requires 0 < e.blockSize && a != 0 && req.off == 0 && req.len == 1
    ensures Reachable(e, ReadyBusy(a, a, req, Flying({}), Flying({})))
  {
    SmallSubmitted(e, a, req);
    var s1 := ReadyBusy(a, a, req, Flying({}), Unsent);
    var s2 := ReadyBusy(a, a, req, Flying({}), Flying({}));
    assert s1.queues[0 := s2.queues[0]] == s2.queues;
    Goto(e, s1, OfQueue(0, SubmitDst), s2);
  }

  /** A source wait that errors drops the guard of a half-done write and keeps the mirror Ready. */
  lemma SourceWaitErrorBreaksSync(e: Env)
    requires 0 < e.blockSize && !e.sourceWaitReliable
    ensures !ReadyIsInSync(e)
  {
    var req: Request := RawRequest(0, 1, Write([2]));
    SmallSubmittedTwice(e, 1, req);
    var s1 := ReadyBusy(1, 1, req, Flying({}), Flying({}));
    var s2 := ReadyBusy(2, 1, req, Flying({0}), Flying({}));
    assert s1.queues[0 := Busy(req, Flying({0}), Flying({}))] == s2.queues;
    assert {} + {0} == {0} && [1][0 := 2] == [2];
    Goto(e, s1, OfQueue(0, LandSrc(0)), s2);
    Extend(e, s2, OfQueue(0, SourceWaitFails));
    var s3 := Apply(e, s2, OfQueue(0, SourceWaitFails));
    assert s3.held == map[];
    assert s3.src[0] == 2 && s3.dst[0] == 1;
  }

  /** A hole that reads as zero on one disk only leaves the disks different. */
  lemma OneSidedHoleBreaksSync(e: Env)
    requires 0 < e.blockSize && e.srcPunchZeroes != e.dstPunchZeroes
    ensures !ReadyIsInSync(e)
  {
    var req: Request := RawRequest(0, 1, PunchHole);
    SmallSubmittedTwice(e, 1, req);
    var a: Byte := if e.srcPunchZeroes then 0 else 1;
    var b: Byte := if e.dstPunchZeroes then 0 else 1;
    var s2 := ReadyBusy(1, 1, req, Flying({}), Flying({}));
    var s3 := ReadyBusy(a, 1, req, Flying({0}), Flying({}));
    assert {} + {0} == {0} && [1][0 := 0] == [0] && s2.queues[0 := s3.queues[0]] == s3.queues;
    Goto(e, s2, OfQueue(0, LandSrc(0)), s3);
    var s4 := ReadyBusy(a, b, req, Flying({0}), Flying({0}));
    assert s3.queues[0 := s4.queues[0]] == s4.queues;
    Goto(e, s3, OfQueue(0, LandDst(0)), s4);
    HoleAcknowledged(e, a, b, req);
  }

  lemma HoleAcknowledged(e: Env, a: Byte, b: Byte, req: Request)
    requires 0 < e.blockSize && a != b && req.off == 0 && req.len == 1
    requires Reachable(e, ReadyBusy(a, b, req, Flying({0}), Flying({0})))
    ensures !ReadyIsInSync(e)
  {
    var s1 := ReadyBusy(a, b, req, Flying({0}), Flying({0}));
    var s2 := ReadyBusy(a, b, req, Acked(true), Flying({0}));
    assert s1.queues[0 := s2.queues[0]] == s2.queues;
    Goto(e, s1, OfQueue(0, AckSrc(true)), s2);
    var s3 := ReadyBusy(a, b, req, Acked(true), Acked(true));
    assert s2.queues[0 := s3.queues[0]] == s3.queues;
    Goto(e, s2, OfQueue(0, AckDst(true)), s3);
    Extend(e, s3, OfQueue(0, Release));
    var s4 := Apply(e, s3, OfQueue(0, Release));
    assert s4.held == map[];
    assert s4.src[0] == a && s4.dst[0] == b;
  }

  /** A copier that punches holes the destination does not zero leaves stale bytes behind. */
  lemma StaleHoleBreaksSync(e: Env)
    requires 0 < e.blockSize && e.destIsSparse && !e.dstPunchZeroes
    ensures !ReadyIsInSync(e)
  {
    SmallReady(e, 0, 1);
    var s := Small(0, 1, MIRRORED, Ready, Reported(1, Full), map[], 1);
    assert s.src[0] != s.dst[0];
  }

  /** The mirror keeps its central promise in exactly the surroundings called sound. */
  lemma ReadyIsInSyncExactly(e: Env)
    requires 0 < e.blockSize
    ensures ReadyIsInSync(e) <==> Sound(e)
  {
    if Sound(e) {
      forall s | Reachable(e, s) && s.phase.Ready? && s.held == map[] ensures s.src == s.dst {
        ReadyInSync(e, s);
      }
    } else if !e.sourceWaitReliable {
      SourceWaitErrorBreaksSync(e);
    } else if e.srcPunchZeroes != e.dstPunchZeroes {
      OneSidedHoleBreaksSync(e);
    } else {
      StaleHoleBreaksSync(e);
    }
  }

  // ---- Rejected phase transitions ----------------------------------------------------

  /** Some reachable mirror panics on a phase transition out of phase `p`. */
  ghost predicate PanicsFrom(e: Env, p: Phase) {
    exists s, t :: Reachable(e, s) && s.phase == p && Enabled(e, s, t) && Apply(e, s, t).panicked
  }

  /** The drained one-byte mirror on its way to another backend. */
  lemma SmallStopped(e: Env, s: State, t: ManagerStep, p: Phase) returns (s': State)
    requires Reachable(e, s) && !s.panicked && s.queues == [MIRRORED] && !Switching(s.phase)
    requires || (t == BeginCancelling && p == Cancelling && !s.copier.NotStarted?)
             || (t == BeginCompleting && p == Completing && s.phase.Ready?)
    ensures Reachable(e, s') && s' == s.(queues := [MIRRORED.(stalled := true)], phase := p)
  {
    var s1 := s.(queues := [MIRRORED.(stalled := true)]);
    assert s.queues[0 := s1.queues[0]] == s1.queues;
    Goto(e, s, OfManager(Stall(0)), s1);
    s' := s1.(phase := p);
    Goto(e, s1, OfManager(t), s');
  }

  /** A queue that takes requests on the mirror in such a phase can fail it, which panics. */
  lemma FailsAndPanics(e: Env, s: State)
    requires Reachable(e, s) && !s.panicked && s.queues == [MIRRORED] && (s.phase.Cancelling? || s.phase.Completing?)
    ensures PanicsFrom(e, s.phase)
  {
    var t := OfQueue(0, FlushFails(DestinationSubmit));
    assert Enabled(e, s, t) && Apply(e, s, t).panicked;
  }

  /** A retried cancellation whose drain fails resumes the queue in Cancelling. */
  lemma ResumeWhileCancellingPanics(e: Env)
    requires 0 < e.blockSize && !e.cancelDrainReliable
    ensures PanicsFrom(e, Cancelling)
  {
    SmallStarted(e, 0, 0);
    var s1 := Small(0, 0, MIRRORED, Running, Between(0), map[], 0);
    var s2 := SmallStopped(e, s1, BeginCancelling, Cancelling);
    var s3 := s1.(phase := Cancelling);
    assert s2.queues[0 := s3.queues[0]] == s3.queues;
    Goto(e, s2, OfManager(Resume(0)), s3);
    FailsAndPanics(e, s3);
  }

  /** A first cancellation whose revert fails leaves the queue on the mirror, taking requests. */
  lemma FailedRevertPanics(e: Env)
    requires 0 < e.blockSize && !e.swapReliable
    ensures PanicsFrom(e, Cancelling)
  {
    SmallStarted(e, 0, 0);
    var s1 := Small(0, 0, MIRRORED, Running, Between(0), map[], 0);
    var s2 := SmallStopped(e, s1, BeginCancelling, Cancelling);
    var s3 := s1.(phase := Cancelling);
    assert s2.queues[0 := s3.queues[0]] == s3.queues;
    Goto(e, s2, OfManager(SwapFails(0)), s3);
    FailsAndPanics(e, s3);
  }

  /** So does a switch-over whose swap fails. */
  lemma FailedSwitchPanics(e: Env)
    requires 0 < e.blockSize && !e.swapReliable
    ensures PanicsFrom(e, Completing)
  {
    SmallReady(e, 1, 1);
    var s1 := Small(1, 1, MIRRORED, Ready, Reported(1, Full), map[], 1);
    var s2 := SmallStopped(e, s1, BeginCompleting, Completing);
    var s3 := s1.(phase := Completing);
    assert s2.queues[0 := s3.queues[0]] == s3.queues;
    Goto(e, s2, OfManager(SwapFails(0)), s3);
    FailsAndPanics(e, s3);
  }

  /** Panicking in phase `p` needs a command to a queue that went wrong. */
  predicate CommandWentWrong(e: Env, p: Phase) {
    (p.Completing? && !e.swapReliable) || (p.Cancelling? && !CommandsReliable(e))
  }

  lemma QueuePanics(e: Env, s: State, k: nat, t: QueueStep)
    requires ControlInv(e, s) && !s.panicked && IsQueue(s, k) && QueueEnabled(e, s, k, t)
    requires QueueApply(e, s, k, t).panicked
    ensures CommandWentWrong(e, s.phase)
  {
    hide OverlapsAny, AllLanded, ControlInv;
    if Fails(t) {
      FailAccepted(e, s, k, if t.SubmitDstFails? then DestinationSubmit else t.why);
    } else {
      FlagsKept(e, s, k, t);
    }
  }

  /** Nothing else panics: no other party, no other phase, and these two only after a failed command. */
  lemma PanicNeedsFailedCommand(e: Env, s: State, t: Step)
    requires ControlInv(e, s) && Enabled(e, s, t) && Apply(e, s, t).panicked
    ensures CommandWentWrong(e, s.phase)
  {
    hide QueueEnabled, QueueApply, ManagerEnabled, ManagerApply, CopierEnabled, CopierApply;
    hide QueuesOk, ProgressOk, PhaseOk;
    match t
    case OfQueue(k, q) => QueuePanics(e, s, k, q);
    case OfCopier(c) => CopierNeverPanics(e, s, c);
    case OfManager(m) => ManagerNeverPanics(e, s, m);
  }

  /** Which phases a mirror can panic in, for all surroundings. */
  lemma PanicsExactly(e: Env, p: Phase)
    requires 0 < e.blockSize
    ensures PanicsFrom(e, p) <==>
            (p.Completing? && !e.swapReliable) || (p.Cancelling? && !(e.cancelDrainReliable && e.swapReliable))
  {
    hide Reachable, Enabled, Apply;
    if PanicsFrom(e, p) {
      var s, t :| Reachable(e, s) && s.phase == p && Enabled(e, s, t) && Apply(e, s, t).panicked;
      ReachableInv(e, s);
      PanicNeedsFailedCommand(e, s, t);
    }
    if !e.swapReliable {
      FailedSwitchPanics(e);
      FailedRevertPanics(e);
    } else if !e.cancelDrainReliable {
      ResumeWhileCancellingPanics(e);
    }
  }

  /**
   Rejected phase transitions are unreachable exactly when no retried cancellation
   fails to drain and no worker fails to replace its backend.
   */
  lemma NeverPanicsExactly(e: Env)
    requires 0 < e.blockSize
    ensures NeverPanics(e) <==> CommandsReliable(e)
  {
    if CommandsReliable(e) {
      forall s | Reachable(e, s) ensures !s.panicked {
        ReachableInv(e, s);
      }
    } else {
      PanicsExactly(e, Cancelling);
      var s, t :| Reachable(e, s) && s.phase == Cancelling && Enabled(e, s, t) && Apply(e, s, t).panicked;
      Extend(e, s, t);
    }
  }

  // ---- A switch-over whose swap fails --------------------------------------------------

  const MOVED := Queue(Destination, false, false, Idle)

  /** Both queues are drained and the switch-over begins. */
  lemma PairCompleting(e: Env)
    requires 0 < e.blockSize
    ensures var stopped := MIRRORED.(stalled := true);
            Reachable(e, Many(1, 1, [stopped, stopped], Completing, Reported(1, Full), map[], 1))
  {
    PairMirrored(e, 1, 1);
    CopyReported(e, 1, 1, [MIRRORED, MIRRORED]);
    var stopped := MIRRORED.(stalled := true);
    var s1 := Many(1, 1, [MIRRORED, MIRRORED], Ready, Reported(1, Full), map[], 1);
    var s2 := s1.(queues := [stopped, MIRRORED]);
    assert s1.queues[0 := stopped] == s2.queues;
    Goto(e, s1, OfManager(Stall(0)), s2);
    var s3 := s1.(queues := [stopped, stopped]);
    assert s2.queues[1 := stopped] == s3.queues;
    Goto(e, s2, OfManager(Stall(1)), s3);
    Extend(e, s3, OfManager(BeginCompleting));
  }

  /** One queue moves to the destination and writes there; the other stays behind and serves the old byte. */
  lemma FailedSwitchServesOldData(e: Env)
    requires 0 < e.blockSize && !e.swapReliable
    ensures !QueuesAgree(e)
  {
    PairCompleting(e);
    var stopped := MIRRORED.(stalled := true);
    var s1 := Many(1, 1, [stopped, stopped], Completing, Reported(1, Full), map[], 1);
    var s2 := s1.(queues := [MOVED, stopped]);
    assert s1.queues[0 := MOVED] == s2.queues;
    Goto(e, s1, OfManager(Swap(0)), s2);
    var s3 := s1.(queues := [MOVED, MIRRORED]);
    assert s2.queues[1 := MIRRORED] == s3.queues;
    Goto(e, s2, OfManager(SwapFails(1)), s3);
    Extend(e, s3, OfQueue(0, DestWrite(0, 2)));
    var s4 := Apply(e, s3, OfQueue(0, DestWrite(0, 2)));
    assert IsQueue(s4, 1) && !s4.queues[1].stalled;
    assert ServedFrom(s4, 1)[0] == 1 && GuestView(s4)[0] == 2;
  }

  /** All queues serve the guest's disk exactly when no worker fails to replace its backend. */
  lemma QueuesAgreeExactly(e: Env)
    requires 0 < e.blockSize
    ensures QueuesAgree(e) <==> e.swapReliable
  {
    if e.swapReliable {
      forall s, k: nat | Reachable(e, s) && IsQueue(s, k) && !s.queues[k].stalled ensures ServedFrom(s, k) == GuestView(s) {
        QueuesServeTheView(e, s, k);
      }
    } else {
      FailedSwitchServesOldData(e);
    }
  }
}
