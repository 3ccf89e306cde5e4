/**
 The shared world in which the mirror's threads run. A thread takes its own
 protocol steps; between two of them any other party may run.
 */
module MirrorWorld {
  import opened RangeLocks
  import opened MirrorProtocol
  import opened MirrorTheorems

  /** The step belongs to the worker of queue `k` or is applied by it. */
  predicate OnQueue(t: Step, k: nat) {
    (t.OfQueue? && t.k == k)
    || (t.OfManager? && OnOneQueue(t.m) && t.m.k == k)
  }

  /** A run in which neither queue `k` nor its backends take a step. */
  predicate WithoutQueue(run: seq<Step>, k: nat) {
    forall i | 0 <= i < |run| :: !OnQueue(run[i], k)
  }

  /** A run in which neither the copier nor its backends take a step. */
  predicate WithoutCopier(run: seq<Step>) {
    forall i | 0 <= i < |run| :: !run[i].OfCopier?
  }

  lemma StepOfOther(e: Env, s: State, t: Step, k: nat)
    requires Enabled(e, s, t) && IsQueue(s, k) && !OnQueue(t, k)
    ensures IsQueue(Apply(e, s, t), k) && Apply(e, s, t).queues[k] == s.queues[k]
  {
    if t.OfQueue? {
      QueueStepFrame(e, s, t.k, t.q);
    }
  }

  /** Other parties never touch the state of queue `k`. */
  lemma {:induction false} OthersKeepQueue(e: Env, s: State, run: seq<Step>, k: nat)
    requires CanRun(e, s, run) && WithoutQueue(run, k) && IsQueue(s, k)
    ensures IsQueue(Run(e, s, run), k) && Run(e, s, run).queues[k] == s.queues[k]
    decreases |run|
  {
    if run != [] {
      assert !OnQueue(run[0], k);
      StepOfOther(e, s, run[0], k);
      OthersKeepQueue(e, Apply(e, s, run[0]), run[1..], k);
    }
  }

  lemma StepKeepsCopier(e: Env, s: State, t: Step)
    requires Enabled(e, s, t) && !t.OfCopier?
    ensures Apply(e, s, t).copier == s.copier
    ensures |Apply(e, s, t).src| == |s.src|
  {
    if t.OfQueue? {
      QueueStepFrame(e, s, t.k, t.q);
    }
  }

  /** Other parties never touch the state of the copier, nor the size of the disk. */
  lemma {:induction false} OthersKeepCopier(e: Env, s: State, run: seq<Step>)
    requires CanRun(e, s, run) && WithoutCopier(run)
    ensures Run(e, s, run).copier == s.copier
    ensures |Run(e, s, run).src| == |s.src|
    decreases |run|
  {
    if run != [] {
      assert !run[0].OfCopier?;
      StepKeepsCopier(e, s, run[0]);
      OthersKeepCopier(e, Apply(e, s, run[0]), run[1..]);
    }
  }

  lemma {:induction false} ReachableRun(e: Env, s: State, run: seq<Step>)
    requires Reachable(e, s) && CanRun(e, s, run)
    ensures Reachable(e, Run(e, s, run))
    decreases |run|
  {
    if run != [] {
      Extend(e, s, run[0]);
      ReachableRun(e, Apply(e, s, run[0]), run[1..]);
    }
  }

  class World {
    const e: Env
    var s: State

    ghost predicate Valid()
      reads this
    {
      Reachable(e, s) && !s.panicked
    }

    constructor (e: Env, s: State)
      requires Init(e, s)
      ensures Valid() && this.e == e && this.s == s
    {
      this.e := e;
      this.s := s;
      new;
      assert CanRun(e, s, []) && Run(e, s, []) == s;
    }

    /**
     One atomic step. It can only panic by reporting a failure, and only in
     surroundings where a swap or a retried drain can fail.
     */
    method Take(t: Step)
      requires Valid() && Enabled(e, s, t)
      modifies this
      ensures s == Apply(e, old(s), t) && Reachable(e, s)
      ensures !s.panicked ==> Valid()
      ensures s.panicked ==> ReportsFailure(t) && !CommandsReliable(e)
    {
      ReachableInv(e, s);
      if !ReportsFailure(t) {
        OnlyFailuresPanic(e, s, t);
      }
      Extend(e, s, t);
      s := Apply(e, s, t);
      ReachableInv(e, s);
    }

    lemma SameSizes()
      requires Valid()
      ensures |s.src| == |s.dst|
    {
      ReachableInv(e, s);
    }

    lemma FrontierInDisk()
      requires Valid()
      ensures Frontier(s) <= |s.src|
    {
      ReachableInv(e, s);
    }

    /** The lock's test never reports an overlap that is not there. */
    lemma OverlapIsReal(lo: nat, hi: nat)
      requires Valid() && OverlapsAny(s.held, lo, hi)
      ensures SomeOverlap(s.held, lo, hi)
    {
      LockTestExact(e, s, lo, hi);
    }

    lemma ReadyIsFull()
      requires Valid()
      ensures s.phase.Ready? ==> s.copier.Reported? && s.copier.outcome.Full? && s.copied == |s.src|
    {
      if s.phase.Ready? {
        ReadyMeansFullCopy(e, s);
      }
    }

    /**
     The other parties run, for as long as they like, unless one of them panics and
     ends everything. The contract is all that the worker of queue `k` may rely on; by
     OthersKeepQueue and ReachableRun every such run of the others meets it.
     */
    method OthersThanQueue(k: nat)
      requires Valid() && IsQueue(s, k)
      modifies this
      ensures Valid() && IsQueue(s, k) && s.queues[k] == old(s).queues[k]
      ensures |s.src| == |old(s).src| && |s.dst| == |old(s).dst|
    {
    }

    /** One byte of the request of queue `k` arrives. */
    method LandSrcByte(k: nat, p: nat)
      requires Valid() && IsHolding(s, k) && s.queues[k].act.src.Flying? && In(s.queues[k].act.req, p) && p < |s.src|
      modifies this
      ensures Valid() && IsQueue(s, k) && |s.src| == |old(s).src|
      ensures var q := old(s).queues[k];
              s.queues[k] == q.(act := q.act.(src := Flying(q.act.src.landed + {p})))
    {
      Take(OfQueue(k, LandSrc(p)));
    }

    method LandDstByte(k: nat, p: nat)
      requires Valid() && IsHolding(s, k) && s.queues[k].act.dst.Flying? && In(s.queues[k].act.req, p) && p < |s.dst|
      modifies this
      ensures Valid() && IsQueue(s, k) && |s.dst| == |old(s).dst|
      ensures var q := old(s).queues[k];
              s.queues[k] == q.(act := q.act.(dst := Flying(q.act.dst.landed + {p})))
    {
      Take(OfQueue(k, LandDst(p)));
    }

    /** A backend finishes the request of queue `k`; success means that every byte has arrived. */
    method SourceFinishes(k: nat, ok: bool)
      requires Valid() && IsHolding(s, k) && s.queues[k].act.src.Flying?
      modifies this
      ensures Valid() && IsQueue(s, k)
      ensures s.queues[k] == old(s).queues[k].(act := old(s).queues[k].act.(src := Acked(ok)))
    {
      hide OverlapsAny, CopierEnabled, ManagerEnabled, Val;
      ghost var q := s.queues[k];
      var p := s.queues[k].act.req.off;
      var end := p + s.queues[k].act.req.len;
      while ok && p < end && p < |s.src|
        invariant Valid() && IsHolding(s, k) && s.queues[k].act.src.Flying?
        invariant s.queues[k] == q.(act := q.act.(src := s.queues[k].act.src))
        invariant q.act.req.off <= p
        invariant forall i | q.act.req.off <= i < p && i < |s.src| :: i in s.queues[k].act.src.landed
      {
        LandSrcByte(k, p);
        OthersThanQueue(k);
        p := p + 1;
      }
      Take(OfQueue(k, AckSrc(ok)));
    }

    /** As SourceFinishes, for the destination. */
    method DestinationFinishes(k: nat, ok: bool)
      requires Valid() && IsHolding(s, k) && s.queues[k].act.dst.Flying?
      modifies this
      ensures Valid() && IsQueue(s, k)
      ensures s.queues[k] == old(s).queues[k].(act := old(s).queues[k].act.(dst := Acked(ok)))
    {
      hide OverlapsAny, CopierEnabled, ManagerEnabled, Val;
      ghost var q := s.queues[k];
      var p := s.queues[k].act.req.off;
      var end := p + s.queues[k].act.req.len;
      while ok && p < end && p < |s.dst|
        invariant Valid() && IsHolding(s, k) && s.queues[k].act.dst.Flying?
        invariant s.queues[k] == q.(act := q.act.(dst := s.queues[k].act.dst))
        invariant q.act.req.off <= p
        invariant forall i | q.act.req.off <= i < p && i < |s.dst| :: i in s.queues[k].act.dst.landed
      {
        LandDstByte(k, p);
        OthersThanQueue(k);
        p := p + 1;
      }
      Take(OfQueue(k, AckDst(ok)));
    }

    /** The other parties run, seen from the copier (OthersKeepCopier and ReachableRun). */
    method OthersThanCopier()
      requires Valid()
      modifies this
      ensures Valid() && s.copier == old(s).copier && |s.src| == |old(s).src|
    {
    }
  }
}
