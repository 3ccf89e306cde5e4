/**
 The mirror on disks with write-back caches: what a flush and the copier's final flush
 promise about a crash.
 */
module MirrorFlush {
  import opened Bytes
  import opened RangeLocks
  import opened MirrorProtocol
  import opened MirrorControl
  import opened MirrorSync
  import opened MirrorTheorems
  import opened MirrorWorld

  /** A flush on its way through one backend; `since` are the bytes written since it was submitted. */
  datatype Sync =
    | NotSent
    | Sent(since: set<nat>)
    | Synced(since: set<nat>)
    | SyncFailed

  /** A flush of the guest, handed to both disks. */
  datatype Flushing = Flushing(src: Sync, dst: Sync)

  /**
   The mirror, what a crash would leave on each disk, the flush in progress on each
   queue, the copier's flush of the destination, and the bytes written to the source
   alone.
   */
  datatype Store = Store(
    s: State,
    stableSrc: seq<Byte>,
    stableDst: seq<Byte>,
    flushes: map<nat, Flushing>,
    copySync: Sync,
    /** Bytes of the source whose latest write was not mirrored. */
    onlySrc: set<nat>)

  datatype StoreStep =
    | Protocol(t: Step)
    | WriteBackSrc(p: nat)          // a cache writes a byte back, whenever it likes
    | WriteBackDst(p: nat)
    | BeginFlush(k: nat)            // the flush goes to the source
    | FlushDst(k: nat)              // and to the destination
    | SyncSrc(k: nat, ok: bool)
    | SyncDst(k: nat, ok: bool)
    | EndFlush(k: nat)              // and is reported to the guest
    | AbandonFlush(k: nat)          // refused by the source, or the wait for it errors: the guest sees an error
    | BeginCopySync                 // the copier has copied everything and flushes
    | CopySynced(ok: bool)

  // ---- Steps -----------------------------------------------------------------------

  /** Bytes of the source that a step writes. */
  function TouchesSrc(t: Step): set<nat> {
    if t.OfQueue? && (t.q.PlainWrite? || t.q.BypassWrite? || t.q.LandSrc?) then {t.q.p}
    else if t.OfManager? && t.m.StraySrc? then {t.m.p}
    else {}
  }

  /** Bytes of the destination that a step writes. */
  function TouchesDst(t: Step): set<nat> {
    if t.OfQueue? && (t.q.DestWrite? || t.q.LandDst?) then {t.q.p}
    else if t.OfCopier? && (t.c.LandCopy? || t.c.StrayCopy?) then {t.c.p}
    else if t.OfManager? && t.m.StrayDst? then {t.m.p}
    else {}
  }

  /** A mirrored write takes a byte out of those written to the source alone. */
  function OnlySrcAfter(e: Env, s: State, onlySrc: set<nat>, t: Step): set<nat> {
    if t.OfQueue? && t.q.LandSrc? then
      if IsHolding(s, t.k) && !Inert(e, s.queues[t.k].act.req, true) then onlySrc - {t.q.p} else onlySrc
    else onlySrc + TouchesSrc(t)
  }

  function Rewritten(y: Sync, ps: set<nat>): Sync {
    match y
    case Sent(since) => Sent(since + ps)
    case Synced(since) => Synced(since + ps)
    case _ => y
  }

  /** What a backend promises when it reports success: everything written before the flush survives a crash. */
  predicate Persisted(disk: seq<Byte>, stable: seq<Byte>, since: set<nat>) {
    |stable| == |disk| && forall p | 0 <= p < |disk| && p !in since :: stable[p] == disk[p]
  }

  /** The worker of a flushing queue waits; all it may do is to report that the flush failed. */
  predicate WorkerFree(h: Store, t: Step) {
    forall k | k in h.flushes :: OnQueue(t, k) ==> t.OfQueue? && t.q.FlushFails?
  }

  predicate StoreEnabled(e: Env, h: Store, t: StoreStep) {
    match t
    case Protocol(t) =>
      && Enabled(e, h.s, t) && WorkerFree(h, t)
      && (t.OfCopier? && t.c.Flush? ==> if t.c.ok then h.copySync.Synced? else h.copySync.SyncFailed?)
    case WriteBackSrc(p) => p < |h.s.src| && p < |h.stableSrc|
    case WriteBackDst(p) => p < |h.s.dst| && p < |h.stableDst|
    case BeginFlush(k) =>
      && IsQueue(h.s, k) && k !in h.flushes
      && h.s.queues[k].backend.Mirror? && !h.s.queues[k].stalled && h.s.queues[k].act.Idle?
    case FlushDst(k) => IsQueue(h.s, k) && k in h.flushes && h.flushes[k].dst.NotSent? && !h.s.queues[k].bypass
    case SyncSrc(k, ok) =>
      k in h.flushes && h.flushes[k].src.Sent? && (ok ==> Persisted(h.s.src, h.stableSrc, h.flushes[k].src.since))
    case SyncDst(k, ok) =>
      k in h.flushes && h.flushes[k].dst.Sent? && (ok ==> Persisted(h.s.dst, h.stableDst, h.flushes[k].dst.since))
    // unless the mirror has failed, both disks have taken the flush
    case EndFlush(k) =>
      && IsQueue(h.s, k) && k in h.flushes && (h.flushes[k].src.Synced? || h.flushes[k].src.SyncFailed?)
      && (h.s.queues[k].bypass || (h.flushes[k].src.Synced? && h.flushes[k].dst.Synced?))
    case AbandonFlush(k) => k in h.flushes && !h.flushes[k].src.Synced?
    case BeginCopySync => h.s.copier.Between? && h.s.copier.off >= |h.s.src| && h.copySync.NotSent?
    case CopySynced(ok) => h.copySync.Sent? && (ok ==> Persisted(h.s.dst, h.stableDst, h.copySync.since))
  }

  function StoreApply(e: Env, h: Store, t: StoreStep): Store
    requires StoreEnabled(e, h, t)
  {
    match t
    case Protocol(t) =>
      h.(s := Apply(e, h.s, t),
         flushes := map k | k in h.flushes ::
           Flushing(Rewritten(h.flushes[k].src, TouchesSrc(t)), Rewritten(h.flushes[k].dst, TouchesDst(t))),
         copySync := Rewritten(h.copySync, TouchesDst(t)),
         onlySrc := OnlySrcAfter(e, h.s, h.onlySrc, t))
    case WriteBackSrc(p) => h.(stableSrc := h.stableSrc[p := h.s.src[p]])
    case WriteBackDst(p) => h.(stableDst := h.stableDst[p := h.s.dst[p]])
    case BeginFlush(k) => h.(flushes := h.flushes[k := Flushing(Sent({}), NotSent)])
    case FlushDst(k) => h.(flushes := h.flushes[k := h.flushes[k].(dst := Sent({}))])
    case SyncSrc(k, ok) =>
      h.(flushes := h.flushes[k := h.flushes[k].(src := if ok then Synced(h.flushes[k].src.since) else SyncFailed)])
    case SyncDst(k, ok) =>
      h.(flushes := h.flushes[k := h.flushes[k].(dst := if ok then Synced(h.flushes[k].dst.since) else SyncFailed)])
    case EndFlush(k) => h.(flushes := h.flushes - {k})
    case AbandonFlush(k) => h.(flushes := h.flushes - {k})
    case BeginCopySync => h.(copySync := Sent({}))
    case CopySynced(ok) => h.(copySync := if ok then Synced(h.copySync.since) else SyncFailed)
  }

  ghost predicate StoreCanRun(e: Env, h: Store, run: seq<StoreStep>)
    decreases |run|
  {
    run == [] || (StoreEnabled(e, h, run[0]) && StoreCanRun(e, StoreApply(e, h, run[0]), run[1..]))
  }

  ghost function StoreRun(e: Env, h: Store, run: seq<StoreStep>): Store
    requires StoreCanRun(e, h, run)
    decreases |run|
  {
    if run == [] then h else StoreRun(e, StoreApply(e, h, run[0]), run[1..])
  }

  /** A fresh mirror over disks whose caches may hold anything. */
  ghost predicate StoreInit(e: Env, h: Store) {
    && Init(e, h.s) && h.flushes == map[] && h.copySync.NotSent? && h.onlySrc == {}
    && |h.stableSrc| == |h.s.src| && |h.stableDst| == |h.s.dst|
  }

  // ---- Nothing but a write makes a byte count as rewritten ------------------------------------------

  /** A step writes at most the bytes it is said to. */
  ghost predicate WritesOnly(s: State, s': State, src: set<nat>, dst: set<nat>) {
    && |s'.src| == |s.src| && |s'.dst| == |s.dst|
    && (forall p | 0 <= p < |s.src| && p !in src :: s'.src[p] == s.src[p])
    && (forall p | 0 <= p < |s.dst| && p !in dst :: s'.dst[p] == s.dst[p])
  }

  lemma LandWrites(e: Env, s: State, k: nat, p: nat, onSource: bool)
    requires IsHolding(s, k) && In(s.queues[k].act.req, p)
    requires if onSource then s.queues[k].act.src.Flying? && p < |s.src|
             else s.queues[k].act.dst.Flying? && p < |s.dst|
    ensures WritesOnly(s, Land(e, s, k, p, onSource), if onSource then {p} else {}, if onSource then {} else {p})
  {
    hide Val;
  }

  lemma QueueWrites(e: Env, s: State, k: nat, t: QueueStep)
    requires IsQueue(s, k) && QueueEnabled(e, s, k, t)
    ensures WritesOnly(s, QueueApply(e, s, k, t), TouchesSrc(OfQueue(k, t)), TouchesDst(OfQueue(k, t)))
  {
    hide Land, Accepts, After;
    if t.LandSrc? || t.LandDst? {
      LandWrites(e, s, k, t.p, t.LandSrc?);
    }
  }

  lemma StepWrites(e: Env, s: State, t: Step)
    requires Enabled(e, s, t)
    ensures WritesOnly(s, Apply(e, s, t), TouchesSrc(t), TouchesDst(t))
  {
    match t
    case OfQueue(k, q) => QueueWrites(e, s, k, q);
    case OfCopier(_) =>
    case OfManager(_) =>
  }

  // ---- Invariant ------------------------------------------------------------------------

  /** A flush that was acknowledged keeps its promise about every byte not written since. */
  predicate Keeps(y: Sync, disk: seq<Byte>, stable: seq<Byte>) {
    y.Synced? ==> Persisted(disk, stable, y.since)
  }

  ghost predicate StoreInv(h: Store) {
    && |h.stableSrc| == |h.s.src| && |h.stableDst| == |h.s.dst|
    && (forall k | k in h.flushes :: Keeps(h.flushes[k].src, h.s.src, h.stableSrc) && Keeps(h.flushes[k].dst, h.s.dst, h.stableDst))
    && Keeps(h.copySync, h.s.dst, h.stableDst)
    && (CopiedFully(h.s.copier) ==> h.copySync.Synced?)
  }

  /** The copy loop returned after copying and flushing everything. */
  predicate CopiedFully(c: Copier) {
    (c.Returned? || c.Reported?) && c.outcome.Full?
  }

  lemma RewrittenKeeps(y: Sync, disk: seq<Byte>, disk': seq<Byte>, stable: seq<Byte>, ps: set<nat>)
    requires Keeps(y, disk, stable) && |disk'| == |disk|
    requires forall p | 0 <= p < |disk| && p !in ps :: disk'[p] == disk[p]
    ensures Keeps(Rewritten(y, ps), disk', stable)
  {
  }

  lemma ProtocolKeeps(e: Env, h: Store, t: Step)
    requires StoreInv(h) && StoreEnabled(e, h, Protocol(t))
    ensures StoreInv(StoreApply(e, h, Protocol(t)))
  {
    hide Keeps;
    var h' := StoreApply(e, h, Protocol(t));
    StepWrites(e, h.s, t);
    CopierOnlyFlushes(e, h, t);
    hide Enabled, Apply, TouchesSrc, TouchesDst;
    forall k | k in h'.flushes
      ensures Keeps(h'.flushes[k].src, h'.s.src, h'.stableSrc) && Keeps(h'.flushes[k].dst, h'.s.dst, h'.stableDst)
    {
      RewrittenKeeps(h.flushes[k].src, h.s.src, h'.s.src, h.stableSrc, TouchesSrc(t));
      RewrittenKeeps(h.flushes[k].dst, h.s.dst, h'.s.dst, h.stableDst, TouchesDst(t));
    }
    RewrittenKeeps(h.copySync, h.s.dst, h'.s.dst, h.stableDst, TouchesDst(t));
  }

  /** The copier reports a full copy only after its flush was acknowledged. */
  lemma CopierOnlyFlushes(e: Env, h: Store, t: Step)
    requires StoreEnabled(e, h, Protocol(t))
    requires CopiedFully(h.s.copier) ==> h.copySync.Synced?
    ensures CopiedFully(Apply(e, h.s, t).copier) ==> h.copySync.Synced?
  {
    if !t.OfCopier? {
      StepKeepsCopier(e, h.s, t);
    }
  }

  lemma StoreStepKeeps(e: Env, h: Store, t: StoreStep)
    requires StoreInv(h) && StoreEnabled(e, h, t)
    ensures StoreInv(StoreApply(e, h, t))
  {
    if t.Protocol? {
      ProtocolKeeps(e, h, t.t);
    }
  }

  lemma {:induction false} StoreRunKeeps(e: Env, h: Store, run: seq<StoreStep>)
    requires StoreInv(h) && StoreCanRun(e, h, run)
    ensures StoreInv(StoreRun(e, h, run))
    decreases |run|
  {
    hide StoreInv;
    if run != [] {
      StoreStepKeeps(e, h, run[0]);
      StoreRunKeeps(e, StoreApply(e, h, run[0]), run[1..]);
    }
  }

  lemma {:induction false} StoreRunReachable(e: Env, h: Store, run: seq<StoreStep>)
    requires Reachable(e, h.s) && StoreCanRun(e, h, run)
    ensures Reachable(e, StoreRun(e, h, run).s)
    decreases |run|
  {
    hide Reachable;
    if run != [] {
      if run[0].Protocol? {
        Extend(e, h.s, run[0].t);
      }
      StoreRunReachable(e, StoreApply(e, h, run[0]), run[1..]);
    }
  }

  lemma InitReachable(e: Env, s: State)
    requires Init(e, s)
    ensures Reachable(e, s)
  {
    assert CanRun(e, s, []) && Run(e, s, []) == s;
  }

  // ---- Theorems --------------------------------------------------------------------------

  /**
   When a flush is reported to the guest as done, every byte of the source not written
   since the flush was submitted survives a crash. Unless the mirror has failed, the
   same byte also survives on the destination, with the same value, below the copy
   frontier and outside requests in progress.
   */
  lemma FlushIsDurable(e: Env, h0: Store, run: seq<StoreStep>, k: nat)
    requires StoreInit(e, h0) && StoreCanRun(e, h0, run)
    requires StoreEnabled(e, StoreRun(e, h0, run), EndFlush(k)) && StoreRun(e, h0, run).flushes[k].src.Synced?
    ensures var h := StoreRun(e, h0, run);
            Persisted(h.s.src, h.stableSrc, h.flushes[k].src.since)
    ensures var h := StoreRun(e, h0, run);
            Sound(e) && !Fallen(h.s.phase) ==>
              && h.flushes[k].dst.Synced?
              && (forall p | 0 <= p < Frontier(h.s) :: Durable(h, p) || Excused(h, h.flushes[k], p))
  {
    hide Reachable, StoreEnabled, Sound;
    InitReachable(e, h0.s);
    StoreRunReachable(e, h0, run);
    StoreRunKeeps(e, h0, run);
    var h := StoreRun(e, h0, run);
    EndedFlush(e, h, k);
    if Sound(e) && !Fallen(h.s.phase) {
      forall p | 0 <= p < Frontier(h.s) ensures Durable(h, p) || Excused(h, h.flushes[k], p) {
        BelowFrontierInSync(e, h.s, p);
      }
    }
  }

  /** A crash leaves the byte on both disks as the guest sees it. */
  ghost predicate Durable(h: Store, p: nat) {
    && p < |h.s.src| && p < |h.s.dst| && p < |h.stableSrc| && p < |h.stableDst|
    && h.stableSrc[p] == h.stableDst[p] == h.s.src[p] == h.s.dst[p]
  }

  /** The byte was written after the flush was submitted, or is being written. */
  ghost predicate Excused(h: Store, f: Flushing, p: nat) {
    || (f.src.Synced? && p in f.src.since) || (f.dst.Synced? && p in f.dst.since)
    || p in h.s.onlyDst || UnderLock(h.s, p)
  }

  lemma EndedFlush(e: Env, h: Store, k: nat)
    requires StoreInv(h) && Reachable(e, h.s) && StoreEnabled(e, h, EndFlush(k)) && h.flushes[k].src.Synced?
    ensures k in h.flushes && Persisted(h.s.src, h.stableSrc, h.flushes[k].src.since)
    ensures !Fallen(h.s.phase) ==>
              h.flushes[k].dst.Synced? && Persisted(h.s.dst, h.stableDst, h.flushes[k].dst.since)
  {
    assert Keeps(h.flushes[k].src, h.s.src, h.stableSrc) && Keeps(h.flushes[k].dst, h.s.dst, h.stableDst);
    if h.s.queues[k].bypass {
      BypassOnlyWhenFallen(e, h.s, k);
    }
  }

  // ---- Acknowledged writes ------------------------------------------------------------------

  /** A copier that failed may still have writes of its last block under way. */
  predicate Stray(c: Copier, p: nat) {
    (c.Returned? || c.Reported?) && c.outcome.Error? && c.off <= p < c.off + c.outcome.len
  }

  /** What has arrived of the request of queue `k` is what it asks for, above the copy frontier as well. */
  predicate ArrivedOk(e: Env, s: State, onlySrc: set<nat>, k: nat, p: nat) {
    IsHolding(s, k) && In(s.queues[k].act.req, p) && p < |s.src| && p < |s.dst|
    && !Inert(e, s.queues[k].act.req, true) && p !in s.onlyDst ==>
      && (Arrived(s.queues[k].act.src, p) ==> s.src[p] == Val(s.queues[k].act.req, p) || p in onlySrc)
      && (Arrived(s.queues[k].act.dst, p) ==> s.dst[p] == Val(s.queues[k].act.req, p) || Stray(s.copier, p))
  }

  ghost predicate ArrivedInv(e: Env, s: State, onlySrc: set<nat>) {
    forall k: nat, p: nat :: ArrivedOk(e, s, onlySrc, k, p)
  }

  /** A byte of the request of queue `k` is written by nobody else, save in the ways that are recorded. */
  lemma OthersSpare(e: Env, s: State, onlySrc: set<nat>, t: Step, k: nat, p: nat)
    requires Inv(e, s) && Sound(e) && Enabled(e, s, t) && !Fallen(s.phase)
    requires IsHolding(s, k) && In(s.queues[k].act.req, p) && p < |s.src| && p < |s.dst|
    requires !(t.OfQueue? && t.k == k)
    ensures p in TouchesSrc(t) ==> p in OnlySrcAfter(e, s, onlySrc, t)
    ensures p in TouchesDst(t) ==> p in Apply(e, s, t).onlyDst || Stray(s.copier, p)
    ensures p in onlySrc ==> p in OnlySrcAfter(e, s, onlySrc, t)
  {
    GuardedByOne(s, k, p);
  }

  lemma OtherStepArrived(e: Env, s: State, onlySrc: set<nat>, t: Step, k: nat, p: nat)
    requires Inv(e, s) && Sound(e) && Enabled(e, s, t) && !Fallen(s.phase)
    requires ArrivedOk(e, s, onlySrc, k, p) && !(t.OfQueue? && t.k == k) && IsQueue(s, k)
    ensures ArrivedOk(e, Apply(e, s, t), OnlySrcAfter(e, s, onlySrc, t), k, p)
  {
    SameActivity(e, s, t, k);
    StepWrites(e, s, t);
    StillStray(e, s, t, p);
    if IsHolding(s, k) && In(s.queues[k].act.req, p) && p < |s.src| && p < |s.dst| {
      OthersSpare(e, s, onlySrc, t, k, p);
    }
    hide Apply, Enabled, TouchesSrc, TouchesDst, OnlySrcAfter, Stray, Inv, Val;
  }

  /** A step of another party leaves the request alone; bytes written to the destination alone stay recorded. */
  lemma SameActivity(e: Env, s: State, t: Step, k: nat)
    requires Enabled(e, s, t) && IsQueue(s, k) && !(t.OfQueue? && t.k == k)
    ensures IsQueue(Apply(e, s, t), k)
    ensures IsHolding(Apply(e, s, t), k) <==> IsHolding(s, k)
    ensures IsHolding(s, k) ==> Apply(e, s, t).queues[k].act == s.queues[k].act
    ensures s.onlyDst <= Apply(e, s, t).onlyDst
  {
    if t.OfQueue? {
      QueueStepFrame(e, s, t.k, t.q);
      OnlyDstGrows(e, s, t.k, t.q);
      hide QueueApply;
    }
  }

  lemma OnlyDstGrows(e: Env, s: State, k: nat, t: QueueStep)
    requires IsQueue(s, k) && QueueEnabled(e, s, k, t)
    ensures s.onlyDst <= QueueApply(e, s, k, t).onlyDst
  {
    hide Land, OverlapsAny, AllLanded, Accepts, After;
    if t.LandSrc? || t.LandDst? {
      LandIs(e, s, k, t.p, t.LandSrc?);
    }
  }

  lemma StillStray(e: Env, s: State, t: Step, p: nat)
    requires Enabled(e, s, t)
    ensures Stray(s.copier, p) ==> Stray(Apply(e, s, t).copier, p)
  {
    if !t.OfCopier? {
      StepKeepsCopier(e, s, t);
    }
  }

  lemma LandArrived(e: Env, s: State, onlySrc: set<nat>, k: nat, q: nat, onSource: bool, p: nat)
    requires Sound(e) && IsQueue(s, k) && QueueEnabled(e, s, k, if onSource then LandSrc(q) else LandDst(q))
    requires ArrivedOk(e, s, onlySrc, k, p)
    ensures var t := if onSource then LandSrc(q) else LandDst(q);
            ArrivedOk(e, Land(e, s, k, q, onSource), OnlySrcAfter(e, s, onlySrc, OfQueue(k, t)), k, p)
  {
    hide Val;
  }

  /** Any other step of the queue itself writes nothing that its request asks for. */
  lemma QuietArrived(e: Env, s: State, onlySrc: set<nat>, k: nat, t: QueueStep, p: nat)
    requires IsQueue(s, k) && QueueEnabled(e, s, k, t) && !t.LandSrc? && !t.LandDst?
    requires ArrivedOk(e, s, onlySrc, k, p)
    ensures ArrivedOk(e, QueueApply(e, s, k, t), OnlySrcAfter(e, s, onlySrc, OfQueue(k, t)), k, p)
  {
    QueueWrites(e, s, k, t);
    QueueStepFrame(e, s, k, t);
    QuietFlight(e, s, k, t, p);
    hide QueueApply, QueueEnabled, Val, Stray;
  }

  /** Such a step makes no byte arrive that had not, and keeps the request once it is on its way. */
  lemma QuietFlight(e: Env, s: State, k: nat, t: QueueStep, p: nat)
    requires IsQueue(s, k) && QueueEnabled(e, s, k, t) && !t.LandSrc? && !t.LandDst?
    ensures var s' := QueueApply(e, s, k, t);
            && IsQueue(s', k) && s.onlyDst <= s'.onlyDst && (t.DestWrite? ==> t.p in s'.onlyDst)
            && (IsHolding(s', k) && In(s'.queues[k].act.req, p) && p < |s.src| && p < |s.dst|
                && (Arrived(s'.queues[k].act.src, p) || Arrived(s'.queues[k].act.dst, p)) ==>
                  && IsHolding(s, k) && s'.queues[k].act.req == s.queues[k].act.req
                  && (Arrived(s'.queues[k].act.src, p) ==> Arrived(s.queues[k].act.src, p))
                  && (Arrived(s'.queues[k].act.dst, p) ==> Arrived(s.queues[k].act.dst, p)))
  {
    hide OverlapsAny, Accepts, After;
  }

  lemma OwnStepArrived(e: Env, s: State, onlySrc: set<nat>, k: nat, t: QueueStep, p: nat)
    requires Inv(e, s) && Sound(e) && !Fallen(s.phase) && IsQueue(s, k) && QueueEnabled(e, s, k, t)
    requires ArrivedOk(e, s, onlySrc, k, p)
    ensures ArrivedOk(e, QueueApply(e, s, k, t), OnlySrcAfter(e, s, onlySrc, OfQueue(k, t)), k, p)
  {
    hide Inv, ArrivedOk, OnlySrcAfter, Land;
    if t.LandSrc? || t.LandDst? {
      LandArrived(e, s, onlySrc, k, t.p, t.LandSrc?, p);
    } else {
      QuietArrived(e, s, onlySrc, k, t, p);
    }
  }

  lemma SameQueues(e: Env, s: State, t: Step)
    requires Enabled(e, s, t)
    ensures |Apply(e, s, t).queues| == |s.queues|
  {
    if t.OfQueue? {
      QueueStepFrame(e, s, t.k, t.q);
      hide QueueApply;
    }
  }

  lemma StepArrived(e: Env, s: State, onlySrc: set<nat>, t: Step)
    requires Inv(e, s) && Sound(e) && Enabled(e, s, t) && !Fallen(s.phase) && ArrivedInv(e, s, onlySrc)
    ensures ArrivedInv(e, Apply(e, s, t), OnlySrcAfter(e, s, onlySrc, t))
  {
    SameQueues(e, s, t);
    hide ArrivedOk, Inv, Sound, OnlySrcAfter, QueueEnabled, QueueApply, CopierEnabled, CopierApply, ManagerEnabled, ManagerApply;
    var s', onlySrc' := Apply(e, s, t), OnlySrcAfter(e, s, onlySrc, t);
    forall k: nat, p: nat ensures ArrivedOk(e, s', onlySrc', k, p) {
      assert ArrivedOk(e, s, onlySrc, k, p);
      if !IsQueue(s, k) {
        NoQueueArrived(e, s', onlySrc', k, p);
      } else if t.OfQueue? && t.k == k {
        OwnStepArrived(e, s, onlySrc, k, t.q, p);
      } else {
        OtherStepArrived(e, s, onlySrc, t, k, p);
      }
    }
  }

  lemma NoQueueArrived(e: Env, s: State, onlySrc: set<nat>, k: nat, p: nat)
    requires !IsQueue(s, k)
    ensures ArrivedOk(e, s, onlySrc, k, p)
  {
  }

  lemma StoreStepArrived(e: Env, h: Store, t: StoreStep)
    requires Inv(e, h.s) && Sound(e) && StoreEnabled(e, h, t)
    requires !Fallen(h.s.phase) ==> ArrivedInv(e, h.s, h.onlySrc)
    ensures var h' := StoreApply(e, h, t); !Fallen(h'.s.phase) ==> ArrivedInv(e, h'.s, h'.onlySrc)
  {
    hide Inv, Sound, ArrivedInv;
    if t.Protocol? {
      StepPhase(e, h.s, t.t);
      hide Enabled, Apply, OnlySrcAfter;
      if !Fallen(h.s.phase) {
        StepArrived(e, h.s, h.onlySrc, t.t);
      }
    }
  }

  lemma {:induction false} StoreRunArrived(e: Env, h: Store, run: seq<StoreStep>)
    requires Inv(e, h.s) && Sound(e) && StoreCanRun(e, h, run)
    requires !Fallen(h.s.phase) ==> ArrivedInv(e, h.s, h.onlySrc)
    ensures var h' := StoreRun(e, h, run); !Fallen(h'.s.phase) ==> ArrivedInv(e, h'.s, h'.onlySrc)
    decreases |run|
  {
    hide Inv, Sound, ArrivedInv, StoreEnabled;
    if run != [] {
      StoreStepArrived(e, h, run[0]);
      StoreStepInv(e, h, run[0]);
      StoreRunArrived(e, StoreApply(e, h, run[0]), run[1..]);
    }
  }

  lemma StoreStepInv(e: Env, h: Store, t: StoreStep)
    requires Inv(e, h.s) && StoreEnabled(e, h, t)
    ensures Inv(e, StoreApply(e, h, t).s)
  {
    hide Inv;
    if t.Protocol? {
      StepKeepsInv(e, h.s, t.t);
      hide Enabled, Apply;
    }
  }

  lemma InitArrived(e: Env, h: Store)
    requires StoreInit(e, h)
    ensures ArrivedInv(e, h.s, h.onlySrc)
  {
    forall k: nat, p: nat ensures ArrivedOk(e, h.s, h.onlySrc, k, p) {
      assert IsQueue(h.s, k) ==> h.s.queues[k].act.Idle?;
    }
  }

  /**
   A mirrored write that is about to be acknowledged has arrived on both disks, on the
   copied part and beyond: it is what a later flush preserves. The exceptions are bytes
   that a queue not mirroring yet has overwritten on the source, bytes that a queue
   already switched over has written to the destination, and what a failed copier left
   under way.
   */
  lemma AcknowledgedHasArrived(e: Env, h0: Store, run: seq<StoreStep>, k: nat, p: nat)
    requires Sound(e) && StoreInit(e, h0) && StoreCanRun(e, h0, run)
    requires var h := StoreRun(e, h0, run);
             && !Fallen(h.s.phase) && p < |h.s.src| && p < |h.s.dst|
             && IsHolding(h.s, k) && QueueEnabled(e, h.s, k, Release) && In(h.s.queues[k].act.req, p)
             && !Inert(e, h.s.queues[k].act.req, true)
    ensures var h := StoreRun(e, h0, run);
            var val := Val(h.s.queues[k].act.req, p);
            && (h.s.src[p] == val || p in h.onlySrc || p in h.s.onlyDst)
            && (h.s.dst[p] == val || Stray(h.s.copier, p) || p in h.s.onlyDst)
            && (p < Frontier(h.s) ==> h.s.src[p] == h.s.dst[p] == val || p in h.s.onlyDst)
  {
    InitReachable(e, h0.s);
    InitInv(e, h0.s);
    InitArrived(e, h0);
    StoreRunArrived(e, h0, run);
    StoreRunReachable(e, h0, run);
    var h := StoreRun(e, h0, run);
    AckedBoth(e, h.s, k, p);
    assert ArrivedOk(e, h.s, h.onlySrc, k, p);
  }

  /** From the start of the copier on, no write of a live mirror misses the destination. */
  lemma OnlySrcShrinksFromStart(e: Env, h: Store, t: StoreStep)
    requires Sound(e) && Reachable(e, h.s) && StoreEnabled(e, h, t)
    requires !Fallen(h.s.phase) && !h.s.copier.NotStarted?
    ensures StoreApply(e, h, t).onlySrc <= h.onlySrc
  {
    ReachableInv(e, h.s);
    if t.Protocol? && t.t.OfQueue? {
      assert QueueOk(e, h.s.phase, h.s.copier, h.s.queues[t.t.k]);
    }
  }

  /** Unless the mirror has failed, the request goes only when both disks took it. */
  lemma AckedBoth(e: Env, s: State, k: nat, p: nat)
    requires Sound(e) && Reachable(e, s) && !Fallen(s.phase)
    requires IsHolding(s, k) && QueueEnabled(e, s, k, Release)
    ensures s.queues[k].act.src == Acked(true) && s.queues[k].act.dst == Acked(true)
    ensures p < Frontier(s) ==> p < |s.src| == |s.dst| && FlightOk(e, s, k, p)
  {
    ReachableInv(e, s);
    if s.queues[k].bypass {
      BypassOnlyWhenFallen(e, s, k);
    }
  }

  /**
   From Ready on, the copied disk survives a crash of the destination: every byte not
   written since the copier's flush began is stable there.
   */
  lemma ReadyIsDurable(e: Env, h0: Store, run: seq<StoreStep>)
    requires StoreInit(e, h0) && StoreCanRun(e, h0, run)
    ensures var h := StoreRun(e, h0, run);
            h.s.phase.Ready? || Switching(h.s.phase) ==>
              h.copySync.Synced? && Persisted(h.s.dst, h.stableDst, h.copySync.since)
  {
    InitReachable(e, h0.s);
    StoreRunReachable(e, h0, run);
    StoreRunKeeps(e, h0, run);
    var h := StoreRun(e, h0, run);
    if h.s.phase.Ready? || Switching(h.s.phase) {
      ReadyMeansFullCopy(e, h.s);
    }
  }
}
