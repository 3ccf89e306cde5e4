/** The range lock in every state of the mirror: held ranges are exactly the guards, and guards are disjoint. */
module MirrorLocks {
  import opened RangeLocks
  import opened MirrorProtocol

  datatype Span = Span(lo: nat, hi: nat)

  predicate Overlap(a: Span, b: Span) {
    a.lo < b.hi && b.lo < a.hi
  }

  /** The range guarded by party `k`: a queue, or the copier at index `|queues|`. */
  function SpanOf(s: State, k: nat): Span
    requires k <= |s.queues|
  {
    if k < |s.queues| then
      if s.queues[k].act.Holding? then
        Span(s.queues[k].act.req.off, s.queues[k].act.req.off + s.queues[k].act.req.len)
      else Span(0, 0)
    else CopierSpan(s.copier)
  }

  function CopierSpan(c: Copier): Span {
    if c.Reading? || c.Writing? then Span(c.off, c.off + c.len) else Span(0, 0)
  }

  /** A held range belongs to some party. */
  ghost predicate Owned(s: State, x: nat)
    requires x in s.held
  {
    exists k :: 0 <= k <= |s.queues| && SpanOf(s, k) == Span(x, s.held[x])
  }

  ghost predicate GuardsHeld(s: State) {
    forall k | 0 <= k <= |s.queues| ::
      var g := SpanOf(s, k);
      g == Span(0, 0) || (g.lo < g.hi && g.lo in s.held && s.held[g.lo] == g.hi)
  }

  ghost predicate GuardsDisjoint(s: State) {
    forall j, k | 0 <= j < k <= |s.queues| :: !Overlap(SpanOf(s, j), SpanOf(s, k))
  }

  ghost predicate LockInv(s: State) {
    && GuardsHeld(s)
    && GuardsDisjoint(s)
    && (forall x | x in s.held :: x < s.held[x] && Owned(s, x))
    && CopierLenOk(s.copier)
  }

  predicate CopierLenOk(c: Copier) {
    c.Wanting? || c.Reading? || c.Writing? ==> 0 < c.len
  }

  lemma HeldWellFormed(s: State)
    requires LockInv(s)
    ensures WellFormed(s.held)
  {
    forall x, y | x in s.held && y in s.held && x < y ensures s.held[x] <= y {
      var j :| 0 <= j <= |s.queues| && SpanOf(s, j) == Span(x, s.held[x]);
      var k :| 0 <= k <= |s.queues| && SpanOf(s, k) == Span(y, s.held[y]);
      assert !Overlap(SpanOf(s, j), SpanOf(s, k));
    }
  }

  /** Steps that touch neither a guard nor the lock. */
  lemma LockFrame(s: State, s': State)
    requires LockInv(s)
    requires s'.held == s.held && |s'.queues| == |s.queues|
    requires forall k | 0 <= k <= |s.queues| :: SpanOf(s', k) == SpanOf(s, k)
    requires CopierLenOk(s'.copier)
    ensures LockInv(s')
  {
    forall x | x in s'.held ensures Owned(s', x) {
      var k :| 0 <= k <= |s.queues| && SpanOf(s, k) == Span(x, s.held[x]);
      assert SpanOf(s', k) == Span(x, s'.held[x]);
    }
  }

  /** Party `k` takes a guard that passed the overlap test. */
  lemma LockTaken(s: State, s': State, k: nat, lo: nat, hi: nat)
    requires LockInv(s) && k <= |s.queues| && |s'.queues| == |s.queues|
    requires SpanOf(s, k) == Span(0, 0) && lo < hi && SpanOf(s', k) == Span(lo, hi)
    requires forall j | 0 <= j <= |s.queues| && j != k :: SpanOf(s', j) == SpanOf(s, j)
    requires !OverlapsAny(s.held, lo, hi) && s'.held == s.held[lo := hi]
    requires CopierLenOk(s'.copier)
    ensures LockInv(s')
  {
    HeldWellFormed(s);
    OverlapsAnyExact(s.held, lo, hi);
    InsertKeeps(s.held, lo, hi);
    forall j | 0 <= j <= |s.queues| && j != k ensures !Overlap(SpanOf(s', j), Span(lo, hi)) {
      assert SpanOf(s, j) == Span(0, 0) || SpanOf(s, j).lo in s.held;
    }
    forall x | x in s'.held ensures x < s'.held[x] && Owned(s', x) {
      if x == lo {
        assert SpanOf(s', k) == Span(x, s'.held[x]);
      } else {
        var j :| 0 <= j <= |s.queues| && SpanOf(s, j) == Span(x, s.held[x]);
        assert SpanOf(s', j) == Span(x, s'.held[x]);
      }
    }
  }

  /** Party `k` drops its guard: removing by start removes exactly its own range. */
  lemma LockDropped(s: State, s': State, k: nat)
    requires LockInv(s) && k <= |s.queues| && |s'.queues| == |s.queues|
    requires SpanOf(s, k) != Span(0, 0) && SpanOf(s', k) == Span(0, 0)
    requires forall j | 0 <= j <= |s.queues| && j != k :: SpanOf(s', j) == SpanOf(s, j)
    requires s'.held == s.held - {SpanOf(s, k).lo}
    requires CopierLenOk(s'.copier)
    ensures LockInv(s')
  {
    forall j | 0 <= j <= |s.queues| && j != k && SpanOf(s, j) != Span(0, 0)
      ensures SpanOf(s, j).lo != SpanOf(s, k).lo
    {
      assert !Overlap(SpanOf(s, j), SpanOf(s, k));
    }
    forall x | x in s'.held ensures Owned(s', x) {
      var j :| 0 <= j <= |s.queues| && SpanOf(s, j) == Span(x, s.held[x]);
      assert j != k;
      assert SpanOf(s', j) == Span(x, s'.held[x]);
    }
  }

  predicate SameGuard(a: Activity, b: Activity) {
    a.Holding? == b.Holding? && (a.Holding? ==> a.req.off == b.req.off && a.req.len == b.req.len)
  }

  /** Only disks, flags or the phase change. */
  lemma DiskOnly(s: State, s': State)
    requires LockInv(s)
    requires s'.queues == s.queues && s'.copier == s.copier && s'.held == s.held
    ensures LockInv(s')
  {
    LockFrame(s, s');
  }

  /** Queue `k` changes without taking or dropping a guard. */
  lemma QueueOnly(s: State, s': State, k: nat, q: Queue)
    requires LockInv(s) && IsQueue(s, k)
    requires s'.queues == s.queues[k := q] && SameGuard(s.queues[k].act, q.act)
    requires s'.copier == s.copier && s'.held == s.held
    ensures LockInv(s')
  {
    LockFrame(s, s');
  }

  /** The copier moves without taking or dropping a guard. */
  lemma CopierOnly(s: State, s': State)
    requires LockInv(s)
    requires s'.queues == s.queues && s'.held == s.held
    requires CopierSpan(s'.copier) == CopierSpan(s.copier) && CopierLenOk(s'.copier)
    ensures LockInv(s')
  {
    LockFrame(s, s');
  }

  lemma QueueDrops(s: State, s': State, k: nat)
    requires LockInv(s) && IsHolding(s, k)
    requires s'.queues == s.queues[k := s.queues[k].(act := Idle)] && s'.copier == s.copier
    requires s'.held == s.held - {s.queues[k].act.req.off}
    ensures LockInv(s')
  {
    LockDropped(s, s', k);
  }

  lemma CopierDrops(s: State, s': State)
    requires LockInv(s) && (s.copier.Reading? || s.copier.Writing?)
    requires s'.queues == s.queues && s'.held == s.held - {s.copier.off}
    requires s'.copier.Between? || s'.copier.Returned?
    ensures LockInv(s')
  {
    LockDropped(s, s', |s.queues|);
  }

  lemma FailKeepsLocks(s: State, k: nat, why: Failure)
    requires LockInv(s) && IsQueue(s, k)
    ensures LockInv(Fail(s, k, why))
  {
    if Accepts(s.phase, Failed(why)) {
      QueueOnly(s, Fail(s, k, why), k, s.queues[k].(bypass := true));
    } else {
      DiskOnly(s, Fail(s, k, why));
    }
  }

  predicate MovesGuard(t: QueueStep) {
    t.Acquire? || t.Abandon? || t.Release? || t.SourceWaitFails?
  }

  lemma GuardStepKeepsLocks(e: Env, s: State, k: nat, t: QueueStep)
    requires LockInv(s) && IsQueue(s, k) && QueueEnabled(e, s, k, t) && MovesGuard(t)
    ensures LockInv(QueueApply(e, s, k, t))
  {
    var s' := QueueApply(e, s, k, t);
    if t.Acquire? {
      var r := s.queues[k].act.req;
      LockTaken(s, s', k, r.off, r.off + r.len);
    } else {
      QueueDrops(s, s', k);
    }
  }

  lemma OthersKeepGuards(e: Env, s: State, k: nat, t: QueueStep)
    requires IsQueue(s, k) && QueueEnabled(e, s, k, t) && !MovesGuard(t) && !Fails(t)
    ensures var s' := QueueApply(e, s, k, t);
            && IsQueue(s', k) && s'.held == s.held && s'.copier == s.copier
            && s'.queues == s.queues[k := s'.queues[k]] && SameGuard(s.queues[k].act, s'.queues[k].act)
  {
    hide OverlapsAny, AllLanded, Fail, Drop, Land;
    if t.LandSrc? || t.LandDst? {
      LandIs(e, s, k, t.p, t.LandSrc?);
    }
  }

  lemma FailStepKeepsLocks(e: Env, s: State, k: nat, t: QueueStep)
    requires LockInv(s) && IsQueue(s, k) && QueueEnabled(e, s, k, t) && Fails(t)
    ensures LockInv(QueueApply(e, s, k, t))
  {
    hide LockInv, Fail;
    var why := if t.SubmitDstFails? then DestinationSubmit else t.why;
    FailKeepsLocks(s, k, why);
    DiskOnly(Fail(s, k, why), QueueApply(e, s, k, t));
  }

  lemma QueueStepKeepsLocks(e: Env, s: State, k: nat, t: QueueStep)
    requires LockInv(s) && IsQueue(s, k) && QueueEnabled(e, s, k, t)
    ensures LockInv(QueueApply(e, s, k, t))
  {
    hide LockInv, QueueEnabled, QueueApply;
    if MovesGuard(t) {
      GuardStepKeepsLocks(e, s, k, t);
    } else if Fails(t) {
      FailStepKeepsLocks(e, s, k, t);
    } else {
      OthersKeepGuards(e, s, k, t);
      var s' := QueueApply(e, s, k, t);
      QueueOnly(s, s', k, s'.queues[k]);
    }
  }

  lemma CopierGuardStepKeepsLocks(e: Env, s: State, t: CopierStep)
    requires LockInv(s) && CopierEnabled(e, s, t) && (t.CopyAcquire? || t.FinishBlock? || t.CopyFails?)
    ensures LockInv(CopierApply(e, s, t))
  {
    var s' := CopierApply(e, s, t);
    if t.CopyAcquire? {
      LockTaken(s, s', |s.queues|, s.copier.off, s.copier.off + s.copier.len);
    } else {
      CopierDrops(s, s');
    }
  }

  lemma CopierStepKeepsLocks(e: Env, s: State, t: CopierStep)
    requires 0 < e.blockSize && LockInv(s) && CopierEnabled(e, s, t)
    ensures LockInv(CopierApply(e, s, t))
  {
    if t.CopyAcquire? || t.FinishBlock? || t.CopyFails? {
      CopierGuardStepKeepsLocks(e, s, t);
    } else {
      var s' := CopierApply(e, s, t);
      CopierOnly(s, s');
    }
  }

  lemma ManagerStepKeepsLocks(e: Env, s: State, t: ManagerStep)
    requires LockInv(s) && ManagerEnabled(e, s, t)
    ensures LockInv(ManagerApply(e, s, t))
  {
    hide LockInv, Accepts, After;
    var s' := ManagerApply(e, s, t);
    if OnOneQueue(t) {
      assert s' == s.(queues := s.queues[t.k := s'.queues[t.k]]);
      QueueOnly(s, s', t.k, s'.queues[t.k]);
    } else {
      DiskOnly(s, s');
    }
  }

  /** Every step of every party keeps the lock invariant. */
  lemma LocksKept(e: Env, s: State, t: Step)
    requires 0 < e.blockSize && LockInv(s) && Enabled(e, s, t)
    ensures LockInv(Apply(e, s, t))
  {
    match t
    case OfQueue(k, q) => QueueStepKeepsLocks(e, s, k, q);
    case OfCopier(c) => CopierStepKeepsLocks(e, s, c);
    case OfManager(m) => ManagerStepKeepsLocks(e, s, m);
  }
}
