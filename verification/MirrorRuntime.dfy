/**
 The range lock and the shared state as objects, and the proof that the protocol
 changes its held ranges and its phase only as these two objects do.
 */
module MirrorRuntime {
  import opened Bytes
  import opened RangeLocks
  import opened MirrorProtocol
  import opened MirrorLocks
  import opened MirrorTheorems

  // ---- Range lock and shared state ---------------------------------------------

  datatype LockResult = Acquired | MustWait | InvalidInput

  class RangeLockManager {
    var ranges: Ranges

    constructor ()
      ensures ranges == map[] && WellFormed(ranges)
    {
      ranges := map[];
    }

    /**
     Takes `[offset, offset + length)` if nothing held overlaps it. `MustWait` is
     the condition under which the caller sleeps until a release.
     */
    method LockRange(offset: nat, length: nat) returns (r: LockResult)
      requires WellFormed(ranges)
      modifies this
      ensures WellFormed(ranges)
      ensures r.InvalidInput? <==> length == 0 || offset + length >= U64_LIMIT
      ensures r.MustWait? <==> !r.InvalidInput? && SomeOverlap(old(ranges), offset, offset + length)
      ensures r.Acquired? ==> offset !in old(ranges) && ranges == old(ranges)[offset := offset + length]
      ensures !r.Acquired? ==> ranges == old(ranges)
    {
      if length == 0 || offset + length >= U64_LIMIT {
        return InvalidInput;
      }
      OverlapsAnyExact(ranges, offset, offset + length);
      if OverlapsAny(ranges, offset, offset + length) {
        return MustWait;
      }
      InsertKeeps(ranges, offset, offset + length);
      ranges := ranges[offset := offset + length];
      return Acquired;
    }

    /** Removes the range that starts at `start`; by RemoveUndoesInsert that undoes its acquisition. */
    method Release(start: nat)
      requires WellFormed(ranges)
      modifies this
      ensures WellFormed(ranges)
      ensures ranges == old(ranges) - {start}
    {
      ranges := ranges - {start};
    }
  }

  class MirrorState {
    var phase: Phase
    var copiedBytes: nat
    const totalBytes: nat

    constructor (size: nat)
      ensures phase == Running && copiedBytes == 0 && totalBytes == size
    {
      phase := Running;
      copiedBytes := 0;
      totalBytes := size;
    }

    /** Applies an allowed transition; a self-transition keeps the recorded reason. */
    method TryTransition(target: Phase) returns (ok: bool)
      modifies this`phase
      ensures ok <==> Accepts(old(phase), target)
      ensures phase == After(old(phase), target)
      ensures ok ==> SameVariant(phase, target)
      ensures Fallen(old(phase)) ==> Fallen(phase)
      ensures phase.Running? ==> old(phase).Running?
    {
      if SameVariant(phase, target) {
        return true;
      }
      if !Allowed(phase, target) {
        return false;
      }
      phase := target;
      return true;
    }

    /**
     Records the copier's result. A success counts only while the mirror is still
     Running; an error also fails a mirror that is Ready.
     */
    method FinishCopy(succeeded: bool)
      modifies this`phase
      ensures old(phase).Running? ==> phase == if succeeded then Ready else Failed(CopyWorker)
      ensures !old(phase).Running? ==> phase == old(phase) || (old(phase).Ready? && phase == Failed(CopyWorker))
      ensures phase.Ready? ==> old(phase).Ready? || (old(phase).Running? && succeeded)
    {
      var _ := TryTransition(if succeeded then Ready else Failed(CopyWorker));
    }
  }

  // ---- The objects in the protocol ------------------------------------------------

  /** The lock was free for the range and now holds it. */
  ghost predicate Locked(m: Ranges, m': Ranges, lo: nat, hi: nat) {
    lo < hi && !SomeOverlap(m, lo, hi) && m' == m[lo := hi]
  }

  /** The lock held a range from `lo` and no longer does. */
  ghost predicate Unlocked(m: Ranges, m': Ranges, lo: nat) {
    lo in m && m' == m - {lo}
  }

  /** What LockRange and Release can do to the held ranges. */
  ghost predicate ByTheLock(m: Ranges, m': Ranges) {
    || m' == m
    || (exists lo, hi :: Locked(m, m', lo, hi))
    || (exists lo :: Unlocked(m, m', lo))
  }

  /** A request or a block gets its range exactly when LockRange would grant it, and sleeps exactly when it would not. */
  lemma GrantedExactly(e: Env, s: State, k: nat)
    requires Reachable(e, s)
    ensures IsQueue(s, k) && s.queues[k].act.Waiting? ==>
              var r := s.queues[k].act.req;
              (QueueEnabled(e, s, k, Acquire) <==> !SomeOverlap(s.held, r.off, r.off + r.len))
    ensures s.copier.Wanting? ==>
              (CopierEnabled(e, s, CopyAcquire) <==> !SomeOverlap(s.held, s.copier.off, s.copier.off + s.copier.len))
  {
    hide OverlapsAny, SomeOverlap, Reachable;
    if IsQueue(s, k) && s.queues[k].act.Waiting? {
      var r := s.queues[k].act.req;
      LockTestExact(e, s, r.off, r.off + r.len);
    }
    if s.copier.Wanting? {
      LockTestExact(e, s, s.copier.off, s.copier.off + s.copier.len);
    }
  }

  lemma GuardInHeld(e: Env, s: State, k: nat)
    requires Reachable(e, s) && IsHolding(s, k)
    ensures s.queues[k].act.req.off in s.held
  {
    ReachableInv(e, s);
    assert SpanOf(s, k).lo in s.held;
  }

  lemma QueueUsesTheLock(e: Env, s: State, k: nat, t: QueueStep)
    requires Reachable(e, s) && IsQueue(s, k) && QueueEnabled(e, s, k, t)
    ensures ByTheLock(s.held, QueueApply(e, s, k, t).held)
  {
    hide OverlapsAny, SomeOverlap, AllLanded, Accepts, After, Land, Reachable;
    var m, m' := s.held, QueueApply(e, s, k, t).held;
    if t.LandSrc? || t.LandDst? {
      LandIs(e, s, k, t.p, t.LandSrc?);
    } else if t.Acquire? {
      GrantedExactly(e, s, k);
      var r := s.queues[k].act.req;
      assert Locked(m, m', r.off, r.off + r.len);
    } else if t.Abandon? || t.Release? || t.SourceWaitFails? {
      GuardInHeld(e, s, k);
      assert Unlocked(m, m', s.queues[k].act.req.off);
    }
  }

  lemma BlockInHeld(e: Env, s: State)
    requires Reachable(e, s) && (s.copier.Reading? || s.copier.Writing?)
    ensures s.copier.off in s.held
  {
    ReachableInv(e, s);
    assert SpanOf(s, |s.queues|).lo in s.held;
  }

  lemma BlockNotEmpty(e: Env, s: State)
    requires Reachable(e, s) && s.copier.Wanting?
    ensures 0 < s.copier.len
  {
    ReachableInv(e, s);
  }

  lemma CopierUsesTheLock(e: Env, s: State, t: CopierStep)
    requires Reachable(e, s) && CopierEnabled(e, s, t)
    ensures ByTheLock(s.held, CopierApply(e, s, t).held)
  {
    hide OverlapsAny, SomeOverlap, AllZero, Reachable;
    var m, m' := s.held, CopierApply(e, s, t).held;
    if t.CopyAcquire? {
      GrantedExactly(e, s, 0);
      BlockNotEmpty(e, s);
      assert Locked(m, m', s.copier.off, s.copier.off + s.copier.len);
    } else if t.FinishBlock? || t.CopyFails? {
      BlockInHeld(e, s);
      assert Unlocked(m, m', s.copier.off);
    }
  }

  /** Every step of every party changes the held ranges only as the lock object does. */
  lemma HeldOnlyByTheLock(e: Env, s: State, t: Step)
    requires Reachable(e, s) && Enabled(e, s, t)
    ensures ByTheLock(s.held, Apply(e, s, t).held)
  {
    hide Reachable;
    match t
    case OfQueue(k, q) => QueueUsesTheLock(e, s, k, q);
    case OfCopier(c) => CopierUsesTheLock(e, s, c);
    case OfManager(m) =>
  }

  /** Every step of every party leaves the phase alone or makes a transition that TryTransition accepts. */
  lemma PhaseOnlyByTransition(e: Env, s: State, t: Step)
    requires Enabled(e, s, t)
    ensures var p, p' := s.phase, Apply(e, s, t).phase;
            p' == p || Allowed(p, p')
  {
    hide OverlapsAny, AllLanded, Val;
    if t.OfQueue? && !Fails(t.q) {
      QueueStepFrame(e, s, t.k, t.q);
    }
  }
}
