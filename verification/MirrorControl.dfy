/** Phases, queue backends and the copier's progress stay in step with each other. */
module MirrorControl {
  import opened RangeLocks
  import opened MirrorProtocol

  /** The switch-over has begun. */
  predicate Switching(p: Phase) {
    p.Completing? || p.Completed?
  }

  ghost predicate QueueOk(e: Env, phase: Phase, c: Copier, q: Queue) {
    && (q.bypass ==> Fallen(phase))
    && (q.backend.Source? ==> q.act.Idle? && (c.NotStarted? || Fallen(phase)))
    && (q.backend.Destination? ==> q.act.Idle? && Switching(phase))
    && (phase.Completing? && e.swapReliable ==> q.act.Idle? && (q.backend.Destination? || q.stalled))
    && (phase.Completed? ==> q.backend.Destination?)
    && (phase.Cancelling? && CommandsReliable(e) ==> q.act.Idle? && (q.backend.Source? || q.stalled))
    && (q.act.Holding? && q.act.src.Unsent? ==> q.act.dst.Unsent?)
  }

  ghost predicate QueuesOk(e: Env, s: State) {
    forall k | 0 <= k < |s.queues| :: QueueOk(e, s.phase, s.copier, s.queues[k])
  }

  ghost predicate ProgressOk(s: State) {
    && |s.src| == |s.dst|
    && s.copied == Frontier(s) <= |s.src|
    && (s.copier.Wanting? || s.copier.Reading? || s.copier.Writing?
        ==> s.copier.off + s.copier.len <= |s.src|)
    && (s.copier.Writing? ==> forall p | s.copier.off <= p < s.copier.off + s.copier.len :: p in s.copier.buf)
    && (s.copier.Returned? || s.copier.Reported?
        ==> (s.copier.outcome.Full? ==> s.copier.off == |s.src|))
  }

  ghost predicate PhaseOk(e: Env, s: State) {
    && (s.phase.Ready? || Switching(s.phase) ==> s.copier.Reported? && s.copier.outcome.Full?)
    && (s.copier.Reported? ==> !s.phase.Running?)
    && (s.copier.Returned? && s.copier.outcome.Early? ==> !s.phase.Running?)
    && (e.sourceWaitReliable ==> !s.straySrc && (s.strayDst ==> Fallen(s.phase)))
    && (s.copier.NotStarted? ==> s.phase.Running? || s.phase.Failed?)
    && (s.onlyDst != {} ==> Switching(s.phase))
    && (CommandsReliable(e) ==> !s.panicked)
  }

  ghost predicate ControlInv(e: Env, s: State) {
    QueuesOk(e, s) && ProgressOk(s) && PhaseOk(e, s)
  }

  /**
   A queue can only fail the mirror in a phase that accepts the failure, unless a
   command to a queue went wrong: a swap in Completing, a swap or a retried drain in
   Cancelling.
   */
  lemma FailAccepted(e: Env, s: State, k: nat, why: Failure)
    requires ControlInv(e, s) && IsQueue(s, k)
    requires s.queues[k].act.Holding? || (s.queues[k].backend.Mirror? && !s.queues[k].stalled)
    ensures || Accepts(s.phase, Failed(why))
            || (s.phase.Completing? && !e.swapReliable)
            || (s.phase.Cancelling? && !CommandsReliable(e))
    ensures CommandsReliable(e) ==> Accepts(s.phase, Failed(why))
  {
    assert QueueOk(e, s.phase, s.copier, s.queues[k]);
  }

  /** A failed mirror suits every queue, bypassing or not. */
  lemma FailSuits(e: Env, p: Phase, why: Failure, c: Copier, q: Queue)
    requires QueueOk(e, p, c, q) && Accepts(p, Failed(why))
    ensures QueueOk(e, After(p, Failed(why)), c, q)
    ensures q.act.Holding? || q.backend.Mirror? ==> QueueOk(e, After(p, Failed(why)), c, q.(bypass := true))
  {
  }

  lemma FailKeepsControl(e: Env, s: State, k: nat, why: Failure)
    requires ControlInv(e, s) && IsQueue(s, k)
    requires s.queues[k].act.Holding? || (s.queues[k].backend.Mirror? && !s.queues[k].stalled)
    ensures ControlInv(e, Fail(s, k, why))
    ensures CommandsReliable(e) ==> Fallen(Fail(s, k, why).phase)
  {
    hide QueueOk;
    var s' := Fail(s, k, why);
    if Accepts(s.phase, Failed(why)) {
      forall j | 0 <= j < |s.queues| ensures QueueOk(e, s'.phase, s'.copier, s'.queues[j]) {
        assert QueueOk(e, s.phase, s.copier, s.queues[j]);
        FailSuits(e, s.phase, why, s.copier, s.queues[j]);
      }
    } else {
      FailAccepted(e, s, k, why);
    }
  }

  /** The acting queue itself is in order after a step that reports no failure. */
  lemma OwnQueueOk(e: Env, s: State, k: nat, t: QueueStep)
    requires ControlInv(e, s) && IsQueue(s, k) && QueueEnabled(e, s, k, t) && !Fails(t)
    ensures IsQueue(QueueApply(e, s, k, t), k)
    ensures QueueOk(e, s.phase, s.copier, QueueApply(e, s, k, t).queues[k])
  {
    hide OverlapsAny, AllLanded, ProgressOk, PhaseOk, Land;
    assert QueueOk(e, s.phase, s.copier, s.queues[k]);
    if t.LandSrc? || t.LandDst? {
      LandIs(e, s, k, t.p, t.LandSrc?);
    }
  }

  lemma QueueStepKeepsControl(e: Env, s: State, k: nat, t: QueueStep)
    requires ControlInv(e, s) && !s.panicked && IsQueue(s, k) && QueueEnabled(e, s, k, t)
    ensures ControlInv(e, QueueApply(e, s, k, t))
  {
    if Fails(t) {
      FailKeepsControl(e, s, k, if t.SubmitDstFails? then DestinationSubmit else t.why);
    } else {
      var s' := QueueApply(e, s, k, t);
      QueueStepFrame(e, s, k, t);
      OwnQueueOk(e, s, k, t);
      FlagsKept(e, s, k, t);
      forall j | 0 <= j < |s'.queues| ensures QueueOk(e, s'.phase, s'.copier, s'.queues[j]) {
        assert QueueOk(e, s.phase, s.copier, s.queues[j]);
      }
    }
  }

  lemma FlagsKept(e: Env, s: State, k: nat, t: QueueStep)
    requires IsQueue(s, k) && QueueEnabled(e, s, k, t) && !Fails(t)
    ensures QueueApply(e, s, k, t).panicked == s.panicked
    ensures e.sourceWaitReliable ==>
              QueueApply(e, s, k, t).straySrc == s.straySrc && QueueApply(e, s, k, t).strayDst == s.strayDst
  {
    hide OverlapsAny, AllLanded, Accepts, After, Land;
    if t.LandSrc? || t.LandDst? {
      LandIs(e, s, k, t.p, t.LandSrc?);
    }
  }

  lemma CopierKeepsQueues(e: Env, s: State, t: CopierStep)
    requires ControlInv(e, s) && CopierEnabled(e, s, t)
    ensures QueuesOk(e, CopierApply(e, s, t))
  {
    hide ProgressOk, OverlapsAny, AllZero;
    var s' := CopierApply(e, s, t);
    forall j | 0 <= j < |s'.queues| ensures QueueOk(e, s'.phase, s'.copier, s'.queues[j]) {
      assert QueueOk(e, s.phase, s.copier, s.queues[j]);
    }
  }

  lemma CopierStepKeepsControl(e: Env, s: State, t: CopierStep)
    requires ControlInv(e, s) && !s.panicked && CopierEnabled(e, s, t)
    ensures ControlInv(e, CopierApply(e, s, t))
  {
    CopierKeepsQueues(e, s, t);
    hide QueuesOk, OverlapsAny, AllZero;
  }

  lemma ManagerQueueStepKeepsControl(e: Env, s: State, t: ManagerStep)
    requires ControlInv(e, s) && ManagerEnabled(e, s, t) && OnOneQueue(t)
    ensures ControlInv(e, ManagerApply(e, s, t))
  {
    var s' := ManagerApply(e, s, t);
    assert QueueOk(e, s.phase, s.copier, s.queues[t.k]);
    assert s' == s.(queues := s.queues[t.k := s'.queues[t.k]]);
    assert QueueOk(e, s'.phase, s'.copier, s'.queues[t.k]);
  }

  lemma ManagerPhaseKeepsQueues(e: Env, s: State, t: ManagerStep)
    requires ControlInv(e, s) && ManagerEnabled(e, s, t) && !OnOneQueue(t)
    ensures QueuesOk(e, ManagerApply(e, s, t))
  {
    hide ProgressOk;
    var s' := ManagerApply(e, s, t);
    forall j | 0 <= j < |s'.queues| ensures QueueOk(e, s'.phase, s'.copier, s'.queues[j]) {
      assert QueueOk(e, s.phase, s.copier, s.queues[j]);
    }
  }

  lemma ManagerPhaseStepKeepsControl(e: Env, s: State, t: ManagerStep)
    requires ControlInv(e, s) && ManagerEnabled(e, s, t) && !OnOneQueue(t)
    ensures ControlInv(e, ManagerApply(e, s, t))
  {
    ManagerPhaseKeepsQueues(e, s, t);
    hide QueuesOk;
  }

  lemma ControlKept(e: Env, s: State, t: Step)
    requires ControlInv(e, s) && Enabled(e, s, t)
    ensures ControlInv(e, Apply(e, s, t))
  {
    match t
    case OfQueue(k, q) => QueueStepKeepsControl(e, s, k, q);
    case OfCopier(c) => CopierStepKeepsControl(e, s, c);
    case OfManager(m) =>
      if OnOneQueue(m) {
        ManagerQueueStepKeepsControl(e, s, m);
      } else {
        ManagerPhaseStepKeepsControl(e, s, m);
      }
  }
}
