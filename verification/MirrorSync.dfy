/** Source and destination agree below the copy frontier, outside the requests in progress. */
module MirrorSync {
  import opened Bytes
  import opened RangeLocks
  import opened MirrorProtocol
  import opened MirrorLocks
  import opened MirrorControl

  /**
   The surroundings on which mirroring is sound: waiting on the source never
   errors, a punched hole reads as zero on both disks or changes neither, and
   the copier only punches holes that read as zero.
   */
  predicate Sound(e: Env) {
    && e.sourceWaitReliable
    && e.srcPunchZeroes == e.dstPunchZeroes
    && (e.destIsSparse ==> e.dstPunchZeroes)
  }

  /** The byte at `p` has reached the disk. */
  predicate Arrived(f: Flight, p: nat) {
    (f.Flying? && p in f.landed) || (f.Acked? && f.ok)
  }

  /** Queue `k` may be changing the byte at `p`. */
  predicate Dirty(e: Env, s: State, k: nat, p: nat) {
    && IsHolding(s, k) && In(s.queues[k].act.req, p)
    && !s.queues[k].act.src.Unsent? && !Inert(e, s.queues[k].act.req, true)
  }

  /** What has arrived of a request in progress is what the request asks for. */
  predicate FlightOk(e: Env, s: State, k: nat, p: nat)
    requires p < |s.src| && p < |s.dst|
  {
    IsHolding(s, k) && In(s.queues[k].act.req, p) && !Inert(e, s.queues[k].act.req, true) && p !in s.onlyDst ==>
      && (Arrived(s.queues[k].act.src, p) ==> s.src[p] == Val(s.queues[k].act.req, p))
      && (Arrived(s.queues[k].act.dst, p) ==> s.dst[p] == Val(s.queues[k].act.req, p))
  }

  ghost predicate SyncedAt(e: Env, s: State, p: nat)
    requires p < |s.src| && p < |s.dst|
  {
    s.src[p] == s.dst[p] || p in s.onlyDst || exists k: nat :: Dirty(e, s, k, p)
  }

  ghost predicate Sized(s: State) {
    Frontier(s) <= |s.src| == |s.dst|
  }

  ghost predicate FlightInv(e: Env, s: State)
    requires Sized(s)
  {
    forall k, p | 0 <= k < |s.queues| && 0 <= p < Frontier(s) :: FlightOk(e, s, k, p)
  }

  ghost predicate SyncInv(e: Env, s: State)
    requires Sized(s)
  {
    forall p | 0 <= p < Frontier(s) :: SyncedAt(e, s, p)
  }

  predicate InBlock(c: Copier, p: nat) {
    (c.Reading? || c.Writing?) && c.off <= p < c.off + c.len
  }

  /** The copier's buffer and what it has written agree with the source. */
  ghost predicate CopyInv(e: Env, s: State) {
    var c := s.copier;
    && (c.Reading? || c.Writing? ==>
          forall p | p in c.buf :: InBlock(c, p) && p < |s.src| && c.buf[p] == s.src[p])
    && (c.Writing? ==>
          && (forall p | c.off <= p < c.off + c.len :: p in c.buf)
          && (forall p | p in c.landed :: InBlock(c, p) && p < |s.src| && p < |s.dst| && s.dst[p] == s.src[p])
          && (c.punch ==> e.destIsSparse))
  }

  ghost predicate DataInv(e: Env, s: State) {
    !Fallen(s.phase) ==> Sized(s) && FlightInv(e, s) && SyncInv(e, s) && CopyInv(e, s)
  }

  // ---- Steps that leave both disks alone ------------------------------------

  /** Nothing below the frontier becomes clean, no new byte counts as arrived. */
  lemma QuietStep(e: Env, s: State, s': State)
    requires Sized(s) && FlightInv(e, s) && SyncInv(e, s)
    requires s'.src == s.src && s'.dst == s.dst && s'.onlyDst == s.onlyDst && Frontier(s') == Frontier(s)
    requires forall k: nat, p | 0 <= p < Frontier(s) && Dirty(e, s, k, p) ::
               s.src[p] == s.dst[p] || p in s.onlyDst || Dirty(e, s', k, p)
    requires forall k, p | 0 <= k < |s'.queues| && 0 <= p < Frontier(s) :: FlightOk(e, s', k, p)
    ensures FlightInv(e, s') && SyncInv(e, s')
  {
    forall p | 0 <= p < Frontier(s') ensures SyncedAt(e, s', p) {
      assert SyncedAt(e, s, p);
      if s.src[p] != s.dst[p] && p !in s.onlyDst {
        var k :| Dirty(e, s, k, p);
        assert Dirty(e, s', k, p);
      }
    }
  }

  /** Queue `k` moves on without touching a disk. */
  lemma QuietQueue(e: Env, s: State, s': State, k: nat)
    requires Sized(s) && FlightInv(e, s) && SyncInv(e, s) && CopyInv(e, s)
    requires QueueFrame(s, s', k) && s'.src == s.src && s'.dst == s.dst && s'.onlyDst == s.onlyDst
    requires forall p | 0 <= p < Frontier(s) && Dirty(e, s, k, p) ::
               s.src[p] == s.dst[p] || p in s.onlyDst || Dirty(e, s', k, p)
    requires forall p | 0 <= p < Frontier(s) :: FlightOk(e, s', k, p)
    ensures Sized(s') && FlightInv(e, s') && SyncInv(e, s') && CopyInv(e, s')
  {
    forall j: nat, p | 0 <= p < Frontier(s) && Dirty(e, s, j, p)
      ensures s.src[p] == s.dst[p] || p in s.onlyDst || Dirty(e, s', j, p)
    {
      if j != k {
        assert s'.queues[j] == s.queues[j];
      }
    }
    forall j, p | 0 <= j < |s'.queues| && 0 <= p < Frontier(s) ensures FlightOk(e, s', j, p) {
      assert FlightOk(e, s, j, p);
      if j != k {
        assert s'.queues[j] == s.queues[j];
      }
    }
    QuietStep(e, s, s');
  }

  predicate TouchesDisk(t: QueueStep) {
    t.PlainWrite? || t.BypassWrite? || t.DestWrite? || t.LandSrc? || t.LandDst?
  }

  lemma QuietQueueStep(e: Env, s: State, k: nat, t: QueueStep)
    requires Sound(e) && LockInv(s) && ControlInv(e, s) && !Fallen(s.phase) && DataInv(e, s)
    requires IsQueue(s, k) && QueueEnabled(e, s, k, t) && !TouchesDisk(t) && !Fails(t)
    ensures DataInv(e, QueueApply(e, s, k, t))
  {
    var s' := QueueApply(e, s, k, t);
    QueueStepFrame(e, s, k, t);
    assert QueueOk(e, s.phase, s.copier, s.queues[k]);
    forall p | 0 <= p < Frontier(s)
      ensures FlightOk(e, s', k, p)
      ensures Dirty(e, s, k, p) ==> s.src[p] == s.dst[p] || p in s.onlyDst || Dirty(e, s', k, p)
    {
      assert FlightOk(e, s, k, p);
    }
    QuietQueue(e, s, s', k);
  }

  // ---- Steps of a queue that change a disk ----------------------------------

  /** A byte guarded by queue `k` is guarded by nobody else. */
  lemma GuardedByOne(s: State, k: nat, p: nat)
    requires LockInv(s) && IsHolding(s, k) && In(s.queues[k].act.req, p)
    ensures forall j | 0 <= j < |s.queues| && j != k && IsHolding(s, j) :: !In(s.queues[j].act.req, p)
    ensures !InBlock(s.copier, p)
  {
    var n := |s.queues|;
    assert !Overlap(SpanOf(s, k), SpanOf(s, n));
    forall j | 0 <= j < |s.queues| && j != k && IsHolding(s, j) ensures !In(s.queues[j].act.req, p) {
      if j < k {
        assert !Overlap(SpanOf(s, j), SpanOf(s, k));
      } else {
        assert !Overlap(SpanOf(s, k), SpanOf(s, j));
      }
    }
  }

  predicate CanLand(s: State, k: nat, p: nat, onSource: bool) {
    && |s.src| == |s.dst| && p < |s.src|
    && IsHolding(s, k) && In(s.queues[k].act.req, p) && !s.queues[k].act.src.Unsent?
    && if onSource then s.queues[k].act.src.Flying? else s.queues[k].act.dst.Flying?
  }

  /** Landing a byte changes at most that byte, and no queue but `k`. */
  lemma LandFrame(e: Env, s: State, k: nat, p: nat, onSource: bool)
    requires CanLand(s, k, p, onSource)
    ensures var s' := Land(e, s, k, p, onSource);
            && |s'.src| == |s'.dst| == |s.src| && |s'.queues| == |s.queues|
            && (forall q | 0 <= q < |s.src| && q != p :: s'.src[q] == s.src[q] && s'.dst[q] == s.dst[q])
            && (forall j | 0 <= j < |s.queues| && j != k :: s'.queues[j] == s.queues[j])
            && IsHolding(s', k) && s'.queues[k].act.req == s.queues[k].act.req
            && !s'.queues[k].act.src.Unsent? && s'.copier == s.copier && s'.onlyDst == s.onlyDst
            && (Inert(e, s.queues[k].act.req, onSource) ==> s'.src == s.src && s'.dst == s.dst)
  {
  }

  lemma LandKeepsFlightOf(e: Env, s: State, k: nat, p: nat, onSource: bool, q: nat)
    requires Sound(e) && CanLand(s, k, p, onSource) && q < |s.src| && FlightOk(e, s, k, q)
    ensures FlightOk(e, Land(e, s, k, p, onSource), k, q)
  {
  }

  lemma LandKeepsFlights(e: Env, s: State, k: nat, p: nat, onSource: bool)
    requires Sound(e) && LockInv(s) && Sized(s) && FlightInv(e, s) && CanLand(s, k, p, onSource)
    ensures FlightInv(e, Land(e, s, k, p, onSource))
  {
    var s' := Land(e, s, k, p, onSource);
    GuardedByOne(s, k, p);
    LandFrame(e, s, k, p, onSource);
    forall j, q | 0 <= j < |s'.queues| && 0 <= q < Frontier(s') ensures FlightOk(e, s', j, q) {
      assert FlightOk(e, s, j, q);
      if j == k {
        LandKeepsFlightOf(e, s, k, p, onSource, q);
      } else {
        assert s'.queues[j] == s.queues[j];
      }
    }
  }

  lemma LandKeepsSync(e: Env, s: State, k: nat, p: nat, onSource: bool)
    requires Sound(e) && Sized(s) && SyncInv(e, s) && CanLand(s, k, p, onSource)
    ensures SyncInv(e, Land(e, s, k, p, onSource))
  {
    var s' := Land(e, s, k, p, onSource);
    LandFrame(e, s, k, p, onSource);
    forall q | 0 <= q < Frontier(s') ensures SyncedAt(e, s', q) {
      assert SyncedAt(e, s, q);
      if q == p && !Inert(e, s.queues[k].act.req, true) {
        assert Dirty(e, s', k, q);
      } else if s.src[q] != s.dst[q] && q !in s.onlyDst {
        var j: nat :| Dirty(e, s, j, q);
        assert j == k || s'.queues[j] == s.queues[j];
        assert Dirty(e, s', j, q);
      }
    }
  }

  lemma LandStep(e: Env, s: State, k: nat, p: nat, onSource: bool)
    requires Sound(e) && LockInv(s) && !Fallen(s.phase) && DataInv(e, s) && CanLand(s, k, p, onSource)
    ensures DataInv(e, Land(e, s, k, p, onSource))
  {
    GuardedByOne(s, k, p);
    LandFrame(e, s, k, p, onSource);
    LandKeepsFlights(e, s, k, p, onSource);
    LandKeepsSync(e, s, k, p, onSource);
  }

  lemma QueueStepKeepsData(e: Env, s: State, k: nat, t: QueueStep)
    requires Sound(e) && LockInv(s) && ControlInv(e, s) && DataInv(e, s)
    requires IsQueue(s, k) && QueueEnabled(e, s, k, t)
    ensures DataInv(e, QueueApply(e, s, k, t))
  {
    assert QueueOk(e, s.phase, s.copier, s.queues[k]);
    if Fallen(s.phase) {
      StillFallen(e, s, k, t);
    } else if Fails(t) {
      FailStep(e, s, k, t);
    } else if t.LandSrc? {
      LandStep(e, s, k, t.p, true);
    } else if t.LandDst? {
      LandStep(e, s, k, t.p, false);
    } else if t.DestWrite? {
      DestWriteStep(e, s, k, t.p, t.b);
    } else if !TouchesDisk(t) {
      QuietQueueStep(e, s, k, t);
    }
  }

  /** A byte written to the destination alone is no longer tracked; the others are not touched. */
  lemma DestWriteStep(e: Env, s: State, k: nat, p: nat, b: Byte)
    requires ControlInv(e, s) && !Fallen(s.phase) && DataInv(e, s)
    requires IsQueue(s, k) && QueueEnabled(e, s, k, DestWrite(p, b))
    ensures DataInv(e, QueueApply(e, s, k, DestWrite(p, b)))
  {
    var s' := QueueApply(e, s, k, DestWrite(p, b));
    assert QueueOk(e, s.phase, s.copier, s.queues[k]);
    forall j, q | 0 <= j < |s'.queues| && 0 <= q < Frontier(s') ensures FlightOk(e, s', j, q) {
      assert FlightOk(e, s, j, q);
    }
    forall q | 0 <= q < Frontier(s') ensures SyncedAt(e, s', q) {
      assert SyncedAt(e, s, q);
      if s.src[q] != s.dst[q] && q !in s.onlyDst {
        var j: nat :| Dirty(e, s, j, q);
        assert Dirty(e, s', j, q);
      }
    }
  }

  lemma StillFallen(e: Env, s: State, k: nat, t: QueueStep)
    requires IsQueue(s, k) && QueueEnabled(e, s, k, t)
    ensures Fallen(s.phase) ==> Fallen(QueueApply(e, s, k, t).phase)
  {
    hide Land, OverlapsAny, AllLanded;
    if t.LandSrc? || t.LandDst? {
      LandIs(e, s, k, t.p, t.LandSrc?);
    }
  }

  // ---- Steps of the copier and of the device manager -------------------------

  /** Data facts survive when disks, guards and the frontier stay and the copier's buffer is in order. */
  lemma QuietRest(e: Env, s: State, s': State)
    requires Sized(s) && FlightInv(e, s) && SyncInv(e, s)
    requires s'.src == s.src && s'.dst == s.dst && s'.onlyDst == s.onlyDst && Frontier(s') == Frontier(s)
    requires |s'.queues| == |s.queues|
    requires forall k | 0 <= k < |s.queues| :: s'.queues[k].act == s.queues[k].act
    ensures Sized(s') && FlightInv(e, s') && SyncInv(e, s')
  {
    forall k: nat, p | 0 <= p < Frontier(s) && Dirty(e, s, k, p) ensures Dirty(e, s', k, p) {
      assert s'.queues[k].act == s.queues[k].act;
    }
    forall k, p | 0 <= k < |s'.queues| && 0 <= p < Frontier(s) ensures FlightOk(e, s', k, p) {
      assert FlightOk(e, s, k, p) && s'.queues[k].act == s.queues[k].act;
    }
    QuietStep(e, s, s');
  }

  /** Reporting a failure gives the mirror up, or panics and changes nothing that is tracked. */
  lemma FailStep(e: Env, s: State, k: nat, t: QueueStep)
    requires DataInv(e, s) && !Fallen(s.phase)
    requires IsQueue(s, k) && QueueEnabled(e, s, k, t) && Fails(t)
    ensures DataInv(e, QueueApply(e, s, k, t))
  {
    var s' := QueueApply(e, s, k, t);
    var why := if t.SubmitDstFails? then DestinationSubmit else t.why;
    if !Accepts(s.phase, Failed(why)) {
      assert s' == s.(panicked := true, strayDst := s'.strayDst);
      QuietRest(e, s, s');
    }
  }

  /** Writing destination bytes at or above the frontier disturbs nothing that is tracked. */
  lemma DstAboveFrontier(e: Env, s: State, s': State, p: nat, b: Byte)
    requires Sized(s) && FlightInv(e, s) && SyncInv(e, s) && Frontier(s) <= p < |s.dst|
    requires s'.src == s.src && s'.dst == s.dst[p := b] && Frontier(s') == Frontier(s)
    requires s'.queues == s.queues && s'.onlyDst == s.onlyDst
    ensures Sized(s') && FlightInv(e, s') && SyncInv(e, s')
  {
    forall k, q | 0 <= k < |s'.queues| && 0 <= q < Frontier(s') ensures FlightOk(e, s', k, q) {
      assert FlightOk(e, s, k, q);
    }
    forall q | 0 <= q < Frontier(s') ensures SyncedAt(e, s', q) {
      assert SyncedAt(e, s, q);
      if s.src[q] != s.dst[q] && q !in s.onlyDst {
        var k: nat :| Dirty(e, s, k, q);
        assert Dirty(e, s', k, q);
      }
    }
  }

  /** A finished block is equal on both disks, so the frontier may pass it. */
  lemma BlockFinished(e: Env, s: State, s': State)
    requires LockInv(s) && ControlInv(e, s) && !Fallen(s.phase) && DataInv(e, s)
    requires CopierEnabled(e, s, FinishBlock) && s' == CopierApply(e, s, FinishBlock)
    ensures DataInv(e, s')
  {
    var c := s.copier;
    var n := |s.queues|;
    forall k, q | 0 <= k < |s'.queues| && 0 <= q < Frontier(s') ensures FlightOk(e, s', k, q) {
      if q < c.off {
        assert FlightOk(e, s, k, q);
      } else {
        assert !Overlap(SpanOf(s, k), SpanOf(s, n));
      }
    }
    forall q | 0 <= q < Frontier(s') ensures SyncedAt(e, s', q) {
      if q < c.off {
        assert SyncedAt(e, s, q);
        if s.src[q] != s.dst[q] && q !in s.onlyDst {
          var k: nat :| Dirty(e, s, k, q);
          assert Dirty(e, s', k, q);
        }
      } else {
        assert q in c.landed;
      }
    }
  }

  lemma LandCopyStep(e: Env, s: State, p: nat)
    requires Sound(e) && ControlInv(e, s) && !Fallen(s.phase) && DataInv(e, s)
    requires CopierEnabled(e, s, LandCopy(p))
    ensures DataInv(e, CopierApply(e, s, LandCopy(p)))
  {
    var s' := CopierApply(e, s, LandCopy(p));
    DstAboveFrontier(e, s, s', p, s.copier.buf[p]);
    assert CopyInv(e, s');
  }

  lemma CopierStepKeepsData(e: Env, s: State, t: CopierStep)
    requires Sound(e) && LockInv(s) && ControlInv(e, s) && DataInv(e, s) && CopierEnabled(e, s, t)
    ensures DataInv(e, CopierApply(e, s, t))
  {
    var s' := CopierApply(e, s, t);
    if !Fallen(s'.phase) {
      match t
      case FinishBlock => BlockFinished(e, s, s');
      case LandCopy(p) => LandCopyStep(e, s, p);
      case StrayCopy(p, b) => DstAboveFrontier(e, s, s', p, b);
      case _ => QuietRest(e, s, s');
    }
  }

  lemma ManagerStepKeepsData(e: Env, s: State, t: ManagerStep)
    requires Sound(e) && ControlInv(e, s) && DataInv(e, s) && ManagerEnabled(e, s, t)
    ensures DataInv(e, ManagerApply(e, s, t))
  {
    var s' := ManagerApply(e, s, t);
    if !Fallen(s'.phase) {
      QuietRest(e, s, s');
    }
  }

  /** Every step of every party keeps the disks in step. */
  lemma DataKept(e: Env, s: State, t: Step)
    requires Sound(e) && LockInv(s) && ControlInv(e, s) && DataInv(e, s) && Enabled(e, s, t)
    ensures DataInv(e, Apply(e, s, t))
  {
    match t
    case OfQueue(k, q) => QueueStepKeepsData(e, s, k, q);
    case OfCopier(c) => CopierStepKeepsData(e, s, c);
    case OfManager(m) => ManagerStepKeepsData(e, s, m);
  }
}
