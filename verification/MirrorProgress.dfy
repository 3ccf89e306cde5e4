/**
 No deadlock on range locks: whoever holds a range can finish what it is doing, and
 nobody has to give up for that.
 */
module MirrorProgress {
  import opened RangeLocks
  import opened MirrorProtocol
  import opened MirrorLocks
  import opened MirrorControl
  import opened MirrorTheorems

  // ---- Counting -------------------------------------------------------------------

  /** How many positions of `[lo, hi)` are not done. */
  function Missing(lo: nat, hi: nat, done: set<nat>): nat
    decreases hi - lo
  {
    if lo >= hi then 0 else (if lo in done then 0 else 1) + Missing(lo + 1, hi, done)
  }

  lemma {:induction false} NoneMissing(lo: nat, hi: nat, done: set<nat>)
    requires Missing(lo, hi, done) == 0
    ensures forall p | lo <= p < hi :: p in done
    decreases hi - lo
  {
    if lo < hi {
      NoneMissing(lo + 1, hi, done);
    }
  }

  lemma {:induction false} SomeMissing(lo: nat, hi: nat, done: set<nat>) returns (p: nat)
    requires Missing(lo, hi, done) > 0
    ensures lo <= p < hi && p !in done
    ensures Missing(lo, hi, done + {p}) == Missing(lo, hi, done) - 1
    decreases hi - lo
  {
    if lo in done {
      p := SomeMissing(lo + 1, hi, done);
    } else {
      p := lo;
      SameMissing(lo + 1, hi, done, done + {p});
    }
  }

  lemma {:induction false} SameMissing(lo: nat, hi: nat, a: set<nat>, b: set<nat>)
    requires forall p | lo <= p < hi :: p in a <==> p in b
    ensures Missing(lo, hi, a) == Missing(lo, hi, b)
    decreases hi - lo
  {
    if lo < hi {
      SameMissing(lo + 1, hi, a, b);
    }
  }

  lemma {:induction false} MissingBound(lo: nat, hi: nat, done: set<nat>)
    requires lo <= hi
    ensures Missing(lo, hi, done) <= hi - lo
    decreases hi - lo
  {
    if lo < hi {
      MissingBound(lo + 1, hi, done);
    }
  }

  // ---- Holders ---------------------------------------------------------------------

  /** A step that carries on: it neither gives up nor makes anything fail. */
  predicate Honest(t: Step) {
    match t
    case OfQueue(_, q) =>
      !(q.Abandon? || q.SubmitDstFails? || q == AckSrc(false) || q == AckDst(false) || q.FlushFails? || q.SourceWaitFails?)
    case OfCopier(c) => !c.CopyFails?
    case OfManager(_) => false
  }

  /** The party taking the step holds a range at that moment, so it is not waiting for one. */
  predicate ByHolder(s: State, t: Step) {
    match t
    case OfQueue(k, _) => IsHolding(s, k)
    case OfCopier(_) => s.copier.Reading? || s.copier.Writing?
    case OfManager(_) => false
  }

  ghost predicate HolderRun(e: Env, s: State, run: seq<Step>)
    requires CanRun(e, s, run)
    decreases |run|
  {
    run == [] || (ByHolder(s, run[0]) && Honest(run[0]) && HolderRun(e, Apply(e, s, run[0]), run[1..]))
  }

  /** No request in progress has failed without the mirror knowing. */
  predicate HealthyQueue(q: Queue) {
    q.act.Holding? ==> q.bypass || (q.act.src != Acked(false) && q.act.dst != Acked(false))
  }

  predicate Healthy(s: State) {
    forall k | 0 <= k < |s.queues| :: HealthyQueue(s.queues[k])
  }

  /** A failure that is reported in this phase is accepted. */
  predicate CanFail(p: Phase) {
    p.Running? || p.Ready? || p.Failed?
  }

  /** Nothing has failed yet, or the failure can still be recorded. */
  predicate Calm(s: State) {
    Healthy(s) || CanFail(s.phase)
  }

  /** Where a run of the holders may end. */
  ghost predicate WellEnded(s: State, s': State) {
    && (s'.held == map[] || s'.panicked)
    && (Calm(s) ==> s'.held == map[] && !s'.panicked)
    && (Healthy(s) ==> s'.phase == s.phase)
  }

  /**
   The holders alone can finish and let go, or reach the panic that a failure in the
   wrong phase ends in; the latter only if one had failed already, and otherwise the
   phase stays.
   */
  ghost predicate Drainable(e: Env, s: State) {
    exists run: seq<Step> :: CanRun(e, s, run) && HolderRun(e, s, run) && WellEnded(s, Run(e, s, run))
  }

  /** A healthy mirror stays healthy and in its phase, a calm one calm. */
  ghost predicate Survives(s: State, s': State) {
    && (Healthy(s) ==> Healthy(s') && s'.phase == s.phase)
    && (Calm(s) ==> Calm(s') && !s'.panicked)
  }

  lemma DrainableBefore(e: Env, s: State, t: Step)
    requires Enabled(e, s, t) && ByHolder(s, t) && Honest(t)
    requires Survives(s, Apply(e, s, t)) && Drainable(e, Apply(e, s, t))
    ensures Drainable(e, s)
  {
    var s' := Apply(e, s, t);
    var run: seq<Step> :| CanRun(e, s', run) && HolderRun(e, s', run) && WellEnded(s', Run(e, s', run));
    var run' := [t] + run;
    assert run'[0] == t && run'[1..] == run;
    assert CanRun(e, s, run') && HolderRun(e, s, run') && Run(e, s, run') == Run(e, s', run);
  }

  // ---- Queues ----------------------------------------------------------------------

  /** End of the request on a disk of `size` bytes. */
  function End(r: Request, size: nat): nat {
    if r.off + r.len < size then r.off + r.len else size
  }

  /** Steps until a backend has the request done. */
  function Work(f: Flight, r: Request, size: nat): nat {
    match f
    case Unsent => Missing(r.off, End(r, size), {}) + 2
    case Flying(landed) => Missing(r.off, End(r, size), landed) + 1
    case Acked(_) => 0
  }

  /** How far a holder is from being able to let go. */
  function Distance(q: Queue, size: nat): nat {
    if !q.act.Holding? then 0
    else Work(q.act.src, q.act.req, size) + if q.bypass then 0 else Work(q.act.dst, q.act.req, size) + 1
  }

  /** What a step of holder `k` towards release achieves. */
  ghost predicate Nearer(s: State, s': State, k: nat) {
    && IsHolding(s, k) && |s'.src| == |s.src| && Survives(s, s')
    && (s'.panicked
        || (s'.held == s.held - {s.queues[k].act.req.off} && s.queues[k].act.req.off in s.held)
        || (s'.held == s.held && IsHolding(s', k) && Distance(s'.queues[k], |s.src|) < Distance(s.queues[k], |s.src|)))
  }

  lemma StaysHealthy(s: State, s': State, k: nat)
    requires QueueFrame(s, s', k) && s'.phase == s.phase && !s'.panicked
    requires HealthyQueue(s.queues[k]) ==> HealthyQueue(s'.queues[k])
    ensures Survives(s, s')
  {
    if Healthy(s) {
      forall j | 0 <= j < |s'.queues| ensures HealthyQueue(s'.queues[j]) {
        assert HealthyQueue(s.queues[j]);
      }
    }
  }

  /** Not yet handed to both disks: hand it over. */
  lemma SubmitMove(e: Env, s: State, k: nat) returns (t: QueueStep)
    requires !s.panicked && IsHolding(s, k)
    requires s.queues[k].act.src.Unsent? || (!s.queues[k].bypass && s.queues[k].act.dst.Unsent?)
    ensures QueueEnabled(e, s, k, t) && Honest(OfQueue(k, t)) && Nearer(s, QueueApply(e, s, k, t), k)
  {
    t := if s.queues[k].act.src.Unsent? then SubmitSrc else SubmitDst;
    QueueStepFrame(e, s, k, t);
    FlagsKept(e, s, k, t);
    StaysHealthy(s, QueueApply(e, s, k, t), k);
  }

  /** Steps of the backends that work on the request of a queue. */
  predicate IsService(t: QueueStep) {
    t.LandSrc? || t.LandDst? || t == AckSrc(true) || t == AckDst(true)
  }

  /** The acting queue after such a step. */
  function Served(q: Queue, t: QueueStep): Queue
    requires IsService(t) && q.act.Holding?
    requires (t.LandSrc? ==> q.act.src.Flying?) && (t.LandDst? ==> q.act.dst.Flying?)
  {
    var h := q.act;
    q.(act := if t.LandSrc? then h.(src := Flying(h.src.landed + {t.p}))
              else if t.LandDst? then h.(dst := Flying(h.dst.landed + {t.p}))
              else if t.AckSrc? then h.(src := Acked(true))
              else h.(dst := Acked(true)))
  }

  lemma ServiceIs(e: Env, s: State, k: nat, t: QueueStep)
    requires IsHolding(s, k) && QueueEnabled(e, s, k, t) && IsService(t)
    ensures var s' := QueueApply(e, s, k, t);
            s'.held == s.held && k < |s'.queues| && s'.queues[k] == Served(s.queues[k], t)
  {
    hide AllLanded, OverlapsAny, Land;
    if t.LandSrc? || t.LandDst? {
      LandIs(e, s, k, t.p, t.LandSrc?);
    }
  }

  lemma ServiceNearer(e: Env, s: State, k: nat, t: QueueStep)
    requires !s.panicked && IsHolding(s, k) && QueueEnabled(e, s, k, t) && IsService(t)
    requires Distance(Served(s.queues[k], t), |s.src|) < Distance(s.queues[k], |s.src|)
    ensures Honest(OfQueue(k, t)) && Nearer(s, QueueApply(e, s, k, t), k)
  {
    ServiceIs(e, s, k, t);
    QueueStepFrame(e, s, k, t);
    FlagsKept(e, s, k, t);
    hide QueueApply, QueueEnabled, Distance;
    StaysHealthy(s, QueueApply(e, s, k, t), k);
  }

  /** In flight on the source: land a byte, or acknowledge. */
  lemma SourceMove(e: Env, s: State, k: nat) returns (t: QueueStep)
    requires !s.panicked && IsHolding(s, k) && s.queues[k].act.src.Flying?
    ensures QueueEnabled(e, s, k, t) && Honest(OfQueue(k, t)) && Nearer(s, QueueApply(e, s, k, t), k)
  {
    hide QueueApply, Nearer;
    var r, landed := s.queues[k].act.req, s.queues[k].act.src.landed;
    if Missing(r.off, End(r, |s.src|), landed) == 0 {
      NoneMissing(r.off, End(r, |s.src|), landed);
      t := AckSrc(true);
    } else {
      var p := SomeMissing(r.off, End(r, |s.src|), landed);
      t := LandSrc(p);
    }
    ServiceNearer(e, s, k, t);
  }

  lemma DestinationMove(e: Env, s: State, k: nat) returns (t: QueueStep)
    requires !s.panicked && IsHolding(s, k) && s.queues[k].act.dst.Flying? && !s.queues[k].bypass && |s.dst| == |s.src|
    ensures QueueEnabled(e, s, k, t) && Honest(OfQueue(k, t)) && Nearer(s, QueueApply(e, s, k, t), k)
  {
    hide QueueApply, Nearer;
    var r, landed := s.queues[k].act.req, s.queues[k].act.dst.landed;
    if Missing(r.off, End(r, |s.dst|), landed) == 0 {
      NoneMissing(r.off, End(r, |s.dst|), landed);
      t := AckDst(true);
    } else {
      var p := SomeMissing(r.off, End(r, |s.dst|), landed);
      t := LandDst(p);
    }
    ServiceNearer(e, s, k, t);
  }

  /** Both disks took the request, or the destination no longer counts: let go. */
  lemma ReleaseNearer(e: Env, s: State, k: nat)
    requires LockInv(s) && !s.panicked && IsHolding(s, k) && QueueEnabled(e, s, k, Release)
    ensures Nearer(s, QueueApply(e, s, k, Release), k)
  {
    assert SpanOf(s, k).lo in s.held;
    hide LockInv;
    QueueStepFrame(e, s, k, Release);
    FlagsKept(e, s, k, Release);
    StaysHealthy(s, QueueApply(e, s, k, Release), k);
  }

  /** A request has failed: report it, which the phase accepts or which panics. */
  lemma VerdictNearer(e: Env, s: State, k: nat, why: Failure)
    requires !s.panicked && IsHolding(s, k) && QueueEnabled(e, s, k, VerdictFails(why))
    requires !s.queues[k].bypass && !HealthyQueue(s.queues[k])
    ensures Nearer(s, QueueApply(e, s, k, VerdictFails(why)), k)
  {
    assert !Healthy(s);
    hide Healthy, Work;
  }

  /** Both answers are in: report a failure if there was one, then let go. */
  lemma FinalMove(e: Env, s: State, k: nat) returns (t: QueueStep)
    requires LockInv(s) && !s.panicked && IsHolding(s, k)
    requires s.queues[k].act.src.Acked? && (s.queues[k].bypass || s.queues[k].act.dst.Acked?)
    ensures QueueEnabled(e, s, k, t) && Honest(OfQueue(k, t)) && Nearer(s, QueueApply(e, s, k, t), k)
  {
    hide LockInv, QueueApply, Nearer;
    var q := s.queues[k];
    if q.bypass || (q.act.src.ok && q.act.dst == Acked(true)) {
      t := Release;
      ReleaseNearer(e, s, k);
    } else {
      t := VerdictFails(if q.act.dst == Acked(true) then SourceCompletion else DestinationCompletion);
      VerdictNearer(e, s, k, t.why);
    }
  }

  /** A holder of a range always has a step that carries on, and it leads towards releasing the range. */
  lemma HolderMoves(e: Env, s: State, k: nat) returns (t: QueueStep)
    requires Inv(e, s) && !s.panicked && IsHolding(s, k)
    ensures QueueEnabled(e, s, k, t) && Honest(OfQueue(k, t)) && Nearer(s, QueueApply(e, s, k, t), k)
  {
    hide QueueApply, QueueEnabled, Nearer, Honest;
    var q := s.queues[k];
    if q.act.src.Unsent? || (!q.bypass && q.act.dst.Unsent?) {
      t := SubmitMove(e, s, k);
    } else if q.act.src.Flying? {
      t := SourceMove(e, s, k);
    } else if !q.bypass && q.act.dst.Flying? {
      t := DestinationMove(e, s, k);
    } else {
      t := FinalMove(e, s, k);
    }
  }

  // ---- The copier ------------------------------------------------------------------------

  function CopierDistance(c: Copier): nat {
    if c.Reading? then Missing(c.off, c.off + c.len, c.buf.Keys) + c.len + 2
    else if c.Writing? then Missing(c.off, c.off + c.len, c.landed) + 1
    else 0
  }

  ghost predicate CopierNearer(s: State, s': State) {
    && s'.queues == s.queues && s'.phase == s.phase && s'.panicked == s.panicked
    && (s.copier.Reading? || s.copier.Writing?)
    && ((s'.held == s.held - {s.copier.off} && s.copier.off in s.held)
        || (s'.held == s.held && (s'.copier.Reading? || s'.copier.Writing?)
            && CopierDistance(s'.copier) < CopierDistance(s.copier)))
  }

  lemma ReadMove(e: Env, s: State) returns (t: CopierStep)
    requires ControlInv(e, s) && s.copier.Reading?
    ensures CopierEnabled(e, s, t) && Honest(OfCopier(t)) && CopierNearer(s, CopierApply(e, s, t))
  {
    var c := s.copier;
    if Missing(c.off, c.off + c.len, c.buf.Keys) == 0 {
      NoneMissing(c.off, c.off + c.len, c.buf.Keys);
      MissingBound(c.off, c.off + c.len, {});
      t := StartWrite;
    } else {
      var p := SomeMissing(c.off, c.off + c.len, c.buf.Keys);
      t := ReadByte(p);
      assert c.buf[p := s.src[p]].Keys == c.buf.Keys + {p};
    }
  }

  lemma LandCopyNearer(e: Env, s: State, p: nat)
    requires ControlInv(e, s) && s.copier.Writing? && s.copier.off <= p < s.copier.off + s.copier.len
    requires Missing(s.copier.off, s.copier.off + s.copier.len, s.copier.landed + {p})
             < Missing(s.copier.off, s.copier.off + s.copier.len, s.copier.landed)
    ensures CopierEnabled(e, s, LandCopy(p)) && CopierNearer(s, CopierApply(e, s, LandCopy(p)))
  {
    hide Missing;
  }

  lemma WriteMove(e: Env, s: State) returns (t: CopierStep)
    requires LockInv(s) && ControlInv(e, s) && s.copier.Writing?
    ensures CopierEnabled(e, s, t) && Honest(OfCopier(t)) && CopierNearer(s, CopierApply(e, s, t))
  {
    var c := s.copier;
    assert SpanOf(s, |s.queues|).lo in s.held;
    if Missing(c.off, c.off + c.len, c.landed) == 0 {
      NoneMissing(c.off, c.off + c.len, c.landed);
      t := FinishBlock;
    } else {
      var p := SomeMissing(c.off, c.off + c.len, c.landed);
      t := LandCopy(p);
      LandCopyNearer(e, s, p);
    }
  }

  // ---- Everybody --------------------------------------------------------------------------

  lemma OneFewer(m: Ranges, x: nat)
    requires x in m
    ensures |m - {x}| == |m| - 1
  {
    assert (m - {x}).Keys + {x} == m.Keys;
  }

  lemma {:induction false} QueueLetsGo(e: Env, s: State, k: nat, n: nat)
    requires Inv(e, s) && !s.panicked && IsHolding(s, k) && n == |s.held|
    ensures Drainable(e, s)
    decreases n, 1, Distance(s.queues[k], |s.src|)
  {
    hide QueueEnabled, QueueApply, Drainable, LockInv, ControlInv;
    var t := HolderMoves(e, s, k);
    var s' := QueueApply(e, s, k, t);
    assert Apply(e, s, OfQueue(k, t)) == s';
    StepKeepsInv(e, s, OfQueue(k, t));
    if s'.panicked {
      PanicEnds(e, s, OfQueue(k, t));
      return;
    }
    if s'.held == s.held {
      QueueLetsGo(e, s', k, n);
    } else {
      OneFewer(s.held, s.queues[k].act.req.off);
      AllLocksCanBeReleased(e, s', n - 1);
    }
    DrainableBefore(e, s, OfQueue(k, t));
  }

  /** After a panic nothing runs any more. */
  lemma PanicEnds(e: Env, s: State, t: Step)
    requires Enabled(e, s, t) && ByHolder(s, t) && Honest(t)
    requires Survives(s, Apply(e, s, t)) && Apply(e, s, t).panicked
    ensures Drainable(e, s)
  {
    var s' := Apply(e, s, t);
    var run := [t];
    assert run[1..] == [] && CanRun(e, s', []) && HolderRun(e, s', []) && Run(e, s', []) == s';
    assert CanRun(e, s, run) && HolderRun(e, s, run) && WellEnded(s, Run(e, s, run));
  }

  lemma {:induction false} CopierLetsGo(e: Env, s: State, n: nat)
    requires Inv(e, s) && !s.panicked && n == |s.held|
    requires s.copier.Reading? || s.copier.Writing?
    ensures Drainable(e, s)
    decreases n, 1, CopierDistance(s.copier)
  {
    hide CopierEnabled, CopierApply, Drainable, LockInv, ControlInv;
    var t: CopierStep;
    if s.copier.Reading? {
      t := ReadMove(e, s);
    } else {
      t := WriteMove(e, s);
    }
    var s' := CopierApply(e, s, t);
    assert Apply(e, s, OfCopier(t)) == s';
    StepKeepsInv(e, s, OfCopier(t));
    if s'.held == s.held {
      CopierLetsGo(e, s', n);
    } else {
      OneFewer(s.held, s.copier.off);
      AllLocksCanBeReleased(e, s', n - 1);
    }
    DrainableBefore(e, s, OfCopier(t));
  }

  lemma {:induction false} AllLocksCanBeReleased(e: Env, s: State, n: nat)
    requires Inv(e, s) && !s.panicked && n == |s.held|
    ensures Drainable(e, s)
    decreases n, 2
  {
    if x :| x in s.held {
      var k :| 0 <= k <= |s.queues| && SpanOf(s, k) == Span(x, s.held[x]);
      if k < |s.queues| {
        QueueLetsGo(e, s, k, n);
      } else {
        CopierLetsGo(e, s, n);
      }
    } else {
      assert s.held == map[];
      assert CanRun(e, s, []) && HolderRun(e, s, []) && WellEnded(s, Run(e, s, []));
    }
  }

  /**
   No deadlock: from every reachable state the holders alone, without anybody acquiring
   another range, giving up or making anything fail, can finish their requests and
   blocks and release every range; or, if one had failed already in a phase that
   rejects the failure, report it and panic. If nothing had failed, the mirror stays in
   its phase.
   */
  lemma NoDeadlock(e: Env, s: State)
    requires !s.panicked && Reachable(e, s)
    ensures Drainable(e, s)
  {
    ReachableInv(e, s);
    AllLocksCanBeReleased(e, s, |s.held|);
  }

  // ---- Exactly when every range can be released ------------------------------------------------

  /** Some run of the holders releases every range. */
  ghost predicate CanReleaseAll(e: Env, s: State) {
    exists run: seq<Step> :: CanRun(e, s, run) && HolderRun(e, s, run) && Run(e, s, run).held == map[]
  }

  /** Queue `k` holds a range for a request that has failed, and can neither report it nor let go. */
  predicate Stuck(s: State, k: nat) {
    IsHolding(s, k) && !HealthyQueue(s.queues[k]) && !CanFail(s.phase)
  }

  lemma OwnStepStaysStuck(e: Env, s: State, k: nat, t: QueueStep)
    requires Stuck(s, k) && QueueEnabled(e, s, k, t) && Honest(OfQueue(k, t))
    ensures Stuck(QueueApply(e, s, k, t), k)
  {
    hide Land, OverlapsAny, AllLanded;
    if t.LandSrc? || t.LandDst? {
      LandIs(e, s, k, t.p, t.LandSrc?);
    }
  }

  lemma FailsOnlyIfAccepted(s: State, k: nat, why: Failure)
    requires IsQueue(s, k) && !CanFail(s.phase)
    ensures Fail(s, k, why) == s.(panicked := true)
  {
  }

  lemma OthersLeaveStuck(e: Env, s: State, k: nat, t: Step)
    requires Stuck(s, k) && Enabled(e, s, t) && ByHolder(s, t) && Honest(t) && !(t.OfQueue? && t.k == k)
    ensures Stuck(Apply(e, s, t), k)
  {
    if t.OfQueue? {
      QueueStepFrame(e, s, t.k, t.q);
      if Fails(t.q) {
        FailsOnlyIfAccepted(s, t.k, if t.q.SubmitDstFails? then DestinationSubmit else t.q.why);
      }
      hide QueueApply;
    }
  }

  lemma {:induction false} StuckForGood(e: Env, s: State, k: nat, run: seq<Step>)
    requires Stuck(s, k) && CanRun(e, s, run) && HolderRun(e, s, run)
    ensures Stuck(Run(e, s, run), k)
    decreases |run|
  {
    hide Stuck, Enabled, Apply, ByHolder, Honest;
    if run != [] {
      StuckStep(e, s, k, run[0]);
      StuckForGood(e, Apply(e, s, run[0]), k, run[1..]);
    }
  }

  lemma StuckStep(e: Env, s: State, k: nat, t: Step)
    requires Stuck(s, k) && Enabled(e, s, t) && ByHolder(s, t) && Honest(t)
    ensures Stuck(Apply(e, s, t), k)
  {
    hide Stuck, QueueEnabled, QueueApply;
    if t.OfQueue? && t.k == k {
      OwnStepStaysStuck(e, s, k, t.q);
    } else {
      OthersLeaveStuck(e, s, k, t);
    }
  }

  /**
   The holders can release every range if and only if no request has failed without
   the mirror knowing, or the mirror is in a phase that can still record it.
   */
  lemma ReleasableExactly(e: Env, s: State)
    requires !s.panicked && Reachable(e, s)
    ensures CanReleaseAll(e, s) <==> Calm(s)
  {
    hide Reachable, Stuck;
    if Calm(s) {
      NoDeadlock(e, s);
    } else {
      var k :| 0 <= k < |s.queues| && !HealthyQueue(s.queues[k]);
      forall run: seq<Step> | CanRun(e, s, run) && HolderRun(e, s, run) ensures Run(e, s, run).held != map[] {
        ReachableStuck(e, s, k, run);
      }
    }
  }

  lemma ReachableStuck(e: Env, s: State, k: nat, run: seq<Step>)
    requires Reachable(e, s) && IsQueue(s, k) && !HealthyQueue(s.queues[k]) && !CanFail(s.phase)
    requires CanRun(e, s, run) && HolderRun(e, s, run)
    ensures Run(e, s, run).held != map[]
  {
    hide Reachable;
    StuckForGood(e, s, k, run);
    ReachableInv(e, s);
    RunKeepsInv(e, s, run);
    var s' := Run(e, s, run);
    assert SpanOf(s', k).lo in s'.held;
  }

  /** In surroundings where no transition panics that is always the case. */
  lemma ReliableIsCalm(e: Env, s: State)
    requires CommandsReliable(e) && Reachable(e, s)
    ensures Calm(s) && CanReleaseAll(e, s)
  {
    ReachableInv(e, s);
    forall k | 0 <= k < |s.queues| && !CanFail(s.phase) ensures HealthyQueue(s.queues[k]) {
      assert QueueOk(e, s.phase, s.copier, s.queues[k]);
    }
    ReleasableExactly(e, s);
  }
}
