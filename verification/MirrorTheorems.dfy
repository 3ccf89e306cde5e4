/** What holds of a block mirror in every run, whatever the interleaving. */
module MirrorTheorems {
  import opened Bytes
  import opened RangeLocks
  import opened MirrorProtocol
  import opened MirrorLocks
  import opened MirrorControl
  import opened MirrorSync

  ghost predicate Inv(e: Env, s: State) {
    0 < e.blockSize && LockInv(s) && ControlInv(e, s) && (Sound(e) ==> DataInv(e, s))
  }

  lemma InitInv(e: Env, s: State)
    requires Init(e, s)
    ensures Inv(e, s)
  {
    forall k | 0 <= k < |s.queues| ensures QueueOk(e, s.phase, s.copier, s.queues[k]) {
    }
  }

  lemma StepKeepsInv(e: Env, s: State, t: Step)
    requires Inv(e, s) && Enabled(e, s, t)
    ensures Inv(e, Apply(e, s, t))
  {
    LocksKept(e, s, t);
    ControlKept(e, s, t);
    if Sound(e) {
      DataKept(e, s, t);
    }
  }

  lemma {:induction false} RunKeepsInv(e: Env, s: State, run: seq<Step>)
    requires Inv(e, s) && CanRun(e, s, run)
    ensures Inv(e, Run(e, s, run))
    decreases |run|
  {
    if run != [] {
      StepKeepsInv(e, s, run[0]);
      RunKeepsInv(e, Apply(e, s, run[0]), run[1..]);
    }
  }

  lemma ReachableInv(e: Env, s: State)
    requires Reachable(e, s)
    ensures Inv(e, s)
  {
    var s0 :| Init(e, s0) && Reaches(e, s0, s);
    var run: seq<Step> :| CanRun(e, s0, run) && Run(e, s0, run) == s;
    InitInv(e, s0);
    RunKeepsInv(e, s0, run);
  }

  /** In every reachable state the lock's single lookup is an exact test. */
  lemma LockTestExact(e: Env, s: State, lo: nat, hi: nat)
    requires Reachable(e, s)
    ensures OverlapsAny(s.held, lo, hi) <==> SomeOverlap(s.held, lo, hi)
  {
    ReachableInv(e, s);
    HeldWellFormed(s);
    OverlapsAnyExact(s.held, lo, hi);
  }

  lemma {:induction false} RunAppend(e: Env, s: State, run: seq<Step>, t: Step)
    requires CanRun(e, s, run) && Enabled(e, Run(e, s, run), t)
    ensures CanRun(e, s, run + [t]) && Run(e, s, run + [t]) == Apply(e, Run(e, s, run), t)
    decreases |run|
  {
    if run == [] {
      assert run + [t] == [t];
      assert CanRun(e, Apply(e, s, t), [t][1..]);
    } else {
      assert (run + [t])[0] == run[0] && (run + [t])[1..] == run[1..] + [t];
      RunAppend(e, Apply(e, s, run[0]), run[1..], t);
    }
  }

  lemma Extend(e: Env, s: State, t: Step)
    requires Reachable(e, s) && Enabled(e, s, t)
    ensures Reachable(e, Apply(e, s, t))
  {
    var s0 :| Init(e, s0) && Reaches(e, s0, s);
    var run: seq<Step> :| CanRun(e, s0, run) && Run(e, s0, run) == s;
    RunAppend(e, s0, run, t);
  }

  // ---- A mirror that is Ready is in sync --------------------------------------

  /** Some party is working on the byte at `p` under the range lock. */
  ghost predicate UnderLock(s: State, p: nat) {
    exists x | x in s.held :: x <= p < s.held[x]
  }

  /**
   In every interleaving, in every phase of a mirror that was not given up, every byte
   below the copy frontier and outside all held ranges is equal on source and
   destination, unless the guest has written it to the destination alone; and that it
   can only do once the switch-over has begun.
   */
  lemma BelowFrontierInSync(e: Env, s: State, p: nat)
    requires Sound(e) && Reachable(e, s) && !Fallen(s.phase) && p < Frontier(s)
    ensures p < |s.src| == |s.dst|
    ensures UnderLock(s, p) || p in s.onlyDst || s.src[p] == s.dst[p]
    ensures s.onlyDst != {} ==> Switching(s.phase)
  {
    ReachableInv(e, s);
    assert SyncedAt(e, s, p);
    if s.src[p] != s.dst[p] && p !in s.onlyDst {
      var k: nat :| Dirty(e, s, k, p);
      assert SpanOf(s, k).lo in s.held;
    }
  }

  /** So a Ready mirror without requests in progress has two equal disks. */
  lemma ReadyInSync(e: Env, s: State)
    requires Sound(e) && Reachable(e, s) && s.phase.Ready?
    ensures |s.src| == |s.dst|
    ensures forall p | 0 <= p < |s.src| :: UnderLock(s, p) || s.src[p] == s.dst[p]
    ensures s.held == map[] ==> s.src == s.dst
  {
    ReachableInv(e, s);
    forall p | 0 <= p < |s.src| ensures UnderLock(s, p) || s.src[p] == s.dst[p] {
      BelowFrontierInSync(e, s, p);
    }
  }

  // ---- Phases ------------------------------------------------------------------

  /** Ready, and all that follows it, only after the whole disk was copied and flushed. */
  lemma ReadyMeansFullCopy(e: Env, s: State)
    requires Reachable(e, s) && (s.phase.Ready? || Switching(s.phase))
    ensures s.copier.Reported? && s.copier.outcome.Full?
    ensures s.copied == |s.src|
  {
    ReachableInv(e, s);
  }

  /** The progress counter is the copy frontier and never exceeds the disk. */
  lemma CopiedWithinTotal(e: Env, s: State)
    requires Reachable(e, s)
    ensures s.copied == Frontier(s) <= |s.src|
  {
    ReachableInv(e, s);
  }

  /** A queue bypasses the destination only once the mirror has failed or is being cancelled. */
  lemma BypassOnlyWhenFallen(e: Env, s: State, k: nat)
    requires Reachable(e, s) && IsQueue(s, k) && s.queues[k].bypass
    ensures Fallen(s.phase)
  {
    ReachableInv(e, s);
    assert QueueOk(e, s.phase, s.copier, s.queues[k]);
  }

  lemma StepPhase(e: Env, s: State, t: Step)
    requires Enabled(e, s, t)
    ensures !s.phase.Running? ==> !Apply(e, s, t).phase.Running?
    ensures Fallen(s.phase) ==> Fallen(Apply(e, s, t).phase)
  {
    if t.OfQueue? && !Fails(t.q) {
      QueueStepFrame(e, s, t.k, t.q);
    }
  }

  /**
   Running is never re-entered and a mirror that failed or was cancelled never
   becomes Ready again: a failure racing with the copier's last report, in either
   order, cannot end in Ready.
   */
  lemma {:induction false} FallenForever(e: Env, s: State, run: seq<Step>)
    requires CanRun(e, s, run)
    ensures !s.phase.Running? ==> !Run(e, s, run).phase.Running?
    ensures Fallen(s.phase) ==> Fallen(Run(e, s, run).phase)
    decreases |run|
  {
    if run != [] {
      StepPhase(e, s, run[0]);
      FallenForever(e, Apply(e, s, run[0]), run[1..]);
    }
  }

  // ---- Panics ------------------------------------------------------------------------

  lemma ManagerNeverPanics(e: Env, s: State, t: ManagerStep)
    requires PhaseOk(e, s) && !s.panicked && ManagerEnabled(e, s, t)
    ensures !ManagerApply(e, s, t).panicked
  {
  }

  lemma CopierNeverPanics(e: Env, s: State, t: CopierStep)
    requires !s.panicked && CopierEnabled(e, s, t)
    ensures !CopierApply(e, s, t).panicked
  {
    hide OverlapsAny, AllZero;
  }

  /** Only a queue that reports a failure can panic. */
  lemma OnlyFailuresPanic(e: Env, s: State, t: Step)
    requires ControlInv(e, s) && Enabled(e, s, t) && !ReportsFailure(t)
    ensures !Apply(e, s, t).panicked
  {
    hide QueueEnabled, QueueApply, ManagerEnabled, ManagerApply, CopierEnabled, CopierApply;
    hide QueuesOk, ProgressOk, PhaseOk;
    match t
    case OfQueue(k, q) => FlagsKept(e, s, k, q);
    case OfCopier(c) => CopierNeverPanics(e, s, c);
    case OfManager(m) => ManagerNeverPanics(e, s, m);
  }

  // ---- Switch-over and cancellation ---------------------------------------------

  /** The disk the guest is served from. */
  function GuestView(s: State): seq<Byte> {
    if Switching(s.phase) then s.dst else s.src
  }

  /** When the device manager commits to the destination the disks are equal and nothing is in flight. */
  lemma SwitchOverLosesNothing(e: Env, s: State)
    requires Sound(e) && Reachable(e, s) && Enabled(e, s, OfManager(BeginCompleting))
    ensures s.held == map[] && s.src == s.dst
    ensures GuestView(Apply(e, s, OfManager(BeginCompleting))) == GuestView(s)
  {
    ReachableInv(e, s);
    assert forall k | 0 <= k < |s.queues| :: Stopped(s.queues[k]);
    assert forall k | 0 <= k <= |s.queues| :: SpanOf(s, k) == Span(0, 0);
    assert s.held == map[];
    ReadyInSync(e, s);
  }

  /** A byte of a guest's write reaches the disk that the guest is served from. */
  predicate GuestWrite(s: State, t: Step) {
    && t.OfQueue?
    && (t.q.PlainWrite? || t.q.BypassWrite? || t.q.DestWrite? || t.q.LandSrc? || (t.q.LandDst? && Switching(s.phase)))
  }

  lemma ManagerKeepsView(e: Env, s: State, t: ManagerStep)
    requires Sound(e) && Reachable(e, s) && Enabled(e, s, OfManager(t))
    ensures GuestView(ManagerApply(e, s, t)) == GuestView(s)
  {
    ReachableInv(e, s);
    if t.BeginCompleting? {
      SwitchOverLosesNothing(e, s);
    }
  }

  lemma QueueKeepsView(e: Env, s: State, k: nat, t: QueueStep)
    requires IsQueue(s, k) && QueueEnabled(e, s, k, t) && !GuestWrite(s, OfQueue(k, t))
    ensures GuestView(QueueApply(e, s, k, t)) == GuestView(s)
  {
    hide Land, Fail, OverlapsAny, AllLanded;
    if t.LandDst? {
      LandIs(e, s, k, t.p, false);
    } else if Fails(t) {
      FailKeepsView(s, k, if t.SubmitDstFails? then DestinationSubmit else t.why);
    }
  }

  lemma FailKeepsView(s: State, k: nat, why: Failure)
    requires IsQueue(s, k)
    ensures GuestView(Fail(s, k, why)) == GuestView(s)
  {
  }

  lemma CopierKeepsView(e: Env, s: State, t: CopierStep)
    requires Reachable(e, s) && Enabled(e, s, OfCopier(t))
    ensures GuestView(CopierApply(e, s, t)) == GuestView(s)
  {
    ReachableInv(e, s);
  }

  /**
   Nobody but the guest changes what the guest sees: not the copy, not a failure,
   not the switch-over and not a cancellation.
   */
  lemma OnlyTheGuestChangesItsDisk(e: Env, s: State, t: Step)
    requires Sound(e) && Reachable(e, s) && Enabled(e, s, t) && !GuestWrite(s, t)
    ensures GuestView(Apply(e, s, t)) == GuestView(s)
  {
    match t
    case OfQueue(k, q) => QueueKeepsView(e, s, k, q);
    case OfCopier(c) => CopierKeepsView(e, s, c);
    case OfManager(m) => ManagerKeepsView(e, s, m);
  }

  /** The disk behind the backend installed in queue `k`. */
  function ServedFrom(s: State, k: nat): seq<Byte>
    requires IsQueue(s, k)
  {
    if s.queues[k].backend.Destination? then s.dst else s.src
  }

  /**
   Every queue that accepts requests serves them from the guest's current disk, unless
   its swap failed in the middle of the switch-over.
   */
  lemma QueuesServeTheView(e: Env, s: State, k: nat)
    requires Reachable(e, s) && IsQueue(s, k) && !s.queues[k].stalled
    requires e.swapReliable || !s.phase.Completing?
    ensures ServedFrom(s, k) == GuestView(s)
  {
    ReachableInv(e, s);
    assert QueueOk(e, s.phase, s.copier, s.queues[k]);
  }

  /**
   And even a queue whose swap failed differs from the guest's disk only where another
   queue has written to the destination alone, or where a request is in progress.
   */
  lemma StaleOnlyWhereSwitched(e: Env, s: State, k: nat, p: nat)
    requires Sound(e) && Reachable(e, s) && IsQueue(s, k) && !s.queues[k].stalled && p < |GuestView(s)|
    ensures |ServedFrom(s, k)| == |GuestView(s)|
    ensures ServedFrom(s, k)[p] == GuestView(s)[p] || p in s.onlyDst || UnderLock(s, p)
  {
    ReachableInv(e, s);
    if s.phase.Completing? {
      BelowFrontierInSync(e, s, p);
    } else {
      QueuesServeTheView(e, s, k);
    }
  }
}
