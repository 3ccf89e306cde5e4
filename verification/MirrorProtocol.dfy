/**
 The block mirror as a state machine: any number of virtqueues, one background
 copier and the device manager act on a source and a destination disk.

 A step is one atomic action of one party. Requests in flight reach a disk byte
 by byte in any order, so every step may see a torn write of another party that
 it is not protected from.
 */
module MirrorProtocol {
  import opened Bytes
  import opened RangeLocks

  // ---- Phases ---------------------------------------------------------------

  datatype Failure =
    | CopyWorker
    | DestinationCompletion
    | DestinationSubmit
    | DestinationWait
    | Installation
    | SourceCompletion

  datatype Phase =
    | Running
    | Ready
    | Completing
    | Completed
    | Cancelling
    | Failed(why: Failure)

  /** Same variant; failure reasons are not compared. */
  predicate SameVariant(a: Phase, b: Phase) {
    a == b || (a.Failed? && b.Failed?)
  }

  /** The transition table, without self-transitions. */
  predicate Allowed(from: Phase, to: Phase) {
    match from
    case Running => to.Ready? || to.Cancelling? || to.Failed?
    case Ready => to.Completing? || to.Cancelling? || to.Failed?
    case Completing => to.Completed?
    case Failed(_) => to.Cancelling?
    case Completed => false
    case Cancelling => false
  }

  /** A transition is accepted when it is in the table or a self-transition. */
  predicate Accepts(from: Phase, to: Phase) {
    SameVariant(from, to) || Allowed(from, to)
  }

  /** The phase after an attempted transition; a self-transition keeps the old value. */
  function After(from: Phase, to: Phase): Phase {
    if !SameVariant(from, to) && Allowed(from, to) then to else from
  }

  /** The mirror has been given up: the disks may differ from here on. */
  predicate Fallen(p: Phase) {
    p.Failed? || p.Cancelling?
  }

  // ---- Requests -------------------------------------------------------------

  datatype Kind = Write(data: seq<Byte>) | PunchHole | WriteZeroes

  datatype RawRequest = RawRequest(off: nat, len: nat, kind: Kind)

  /** What the range lock accepts: a non-empty range whose end is a 64-bit number. */
  predicate ValidRequest(r: RawRequest) {
    && 0 < r.len
    && r.off + r.len < U64_LIMIT
    && (r.kind.Write? ==> |r.kind.data| == r.len)
  }

  type Request = r: RawRequest | ValidRequest(r) witness RawRequest(0, 1, WriteZeroes)

  predicate In(r: Request, p: nat) {
    r.off <= p < r.off + r.len
  }

  /** The byte the request asks for at position `p`. */
  function Val(r: Request, p: nat): Byte
    requires In(r, p)
  {
    if r.kind.Write? then r.kind.data[p - r.off] else 0
  }

  /** A request on its way through one backend. */
  datatype Flight =
    | Unsent
    | Flying(landed: set<nat>)
    | Acked(ok: bool)

  // ---- Parties --------------------------------------------------------------

  datatype Backend = Source | Mirror | Destination

  datatype Activity =
    | Idle
    | Waiting(req: Request)
    | Holding(req: Request, src: Flight, dst: Flight)

  datatype Queue = Queue(backend: Backend, bypass: bool, stalled: bool, act: Activity)

  /** How the copy loop returned: whole disk copied and flushed, told to stop, or an error. */
  datatype Outcome = Full | Early | Error(len: nat)

  datatype Copier =
    | NotStarted
    | Between(off: nat)
    | Wanting(off: nat, len: nat)
    | Reading(off: nat, len: nat, buf: map<nat, Byte>)
    | Writing(off: nat, len: nat, buf: map<nat, Byte>, punch: bool, landed: set<nat>)
    | Returned(off: nat, outcome: Outcome)
    | Reported(off: nat, outcome: Outcome)

  datatype State = State(
    src: seq<Byte>,
    dst: seq<Byte>,
    held: Ranges,
    phase: Phase,
    queues: seq<Queue>,
    copier: Copier,
    copied: nat,
    straySrc: bool,
    strayDst: bool,
    panicked: bool,
    /** Bytes that the guest has written to the destination alone. */
    onlyDst: set<nat>)

  /**
   What the surroundings may do. The flags are the facts that the code relies on
   without checking them.
   */
  datatype Env = Env(
    blockSize: nat,
    destIsSparse: bool,
    srcPunchZeroes: bool,
    dstPunchZeroes: bool,
    sourceWaitReliable: bool,
    cancelDrainReliable: bool,
    swapReliable: bool)

  /** A retried cancellation always drains the queues, and a worker always manages to replace its backend. */
  predicate CommandsReliable(e: Env) {
    e.cancelDrainReliable && e.swapReliable
  }

  /** All bytes below the frontier have been copied. */
  function Frontier(s: State): nat {
    if s.copier.NotStarted? then 0 else s.copier.off
  }

  predicate IsQueue(s: State, k: nat) {
    k < |s.queues|
  }

  predicate IsHolding(s: State, k: nat) {
    k < |s.queues| && s.queues[k].act.Holding?
  }

  // ---- Steps ----------------------------------------------------------------

  /** One virtqueue worker, and the backends working on its request. */
  datatype QueueStep =
    | PlainWrite(p: nat, b: Byte)
    | BypassWrite(p: nat, b: Byte)
    | DestWrite(p: nat, b: Byte)
    | Arrive(req: Request)
    | Acquire
    | Fetch(data: seq<Byte>)
    | Abandon
    | SubmitSrc
    | SubmitDst
    | SubmitDstFails
    | LandSrc(p: nat)
    | LandDst(p: nat)
    | AckSrc(ok: bool)
    | AckDst(ok: bool)
    | VerdictFails(why: Failure)
    | FlushFails(why: Failure)
    | Release
    | SourceWaitFails

  /** The copy worker, and the destination working on its block. */
  datatype CopierStep =
    | Start
    | NextBlock
    | SeeStopped
    | CopyAcquire
    | ReadByte(p: nat)
    | StartWrite
    | LandCopy(p: nat)
    | FinishBlock
    | CopyFails
    | Flush(ok: bool)
    | Report
    | StrayCopy(p: nat, b: Byte)

  /** The device manager, and requests nobody waits for any more. */
  datatype ManagerStep =
    | Install(k: nat)
    | InstallFails
    | Stall(k: nat)
    | Resume(k: nat)
    | BeginCompleting
    | Swap(k: nat)
    | EndCompleting
    | BeginCancelling
    | Revert(k: nat)
    | SwapFails(k: nat)
    | StraySrc(p: nat, b: Byte)
    | StrayDst(p: nat, b: Byte)

  datatype Step = OfQueue(k: nat, q: QueueStep) | OfCopier(c: CopierStep) | OfManager(m: ManagerStep)

  function SetQueue(s: State, k: nat, q: Queue): State
    requires IsQueue(s, k)
  {
    s.(queues := s.queues[k := q])
  }

  function SetAct(s: State, k: nat, a: Activity): State
    requires IsQueue(s, k)
  {
    SetQueue(s, k, s.queues[k].(act := a))
  }

  /** A phase change that must be possible: a rejected one panics. */
  function Transition(s: State, to: Phase): State {
    if Accepts(s.phase, to) then s.(phase := After(s.phase, to)) else s.(panicked := true)
  }

  /** A queue observes a failure: the mirror fails for everybody, the queue bypasses the destination. */
  function Fail(s: State, k: nat, why: Failure): State
    requires IsQueue(s, k)
  {
    if Accepts(s.phase, Failed(why)) then Transition(SetQueue(s, k, s.queues[k].(bypass := true)), Failed(why))
    else Transition(s, Failed(why))
  }

  /** The queue drops its guard and is idle again. */
  function Drop(s: State, k: nat): State
    requires IsHolding(s, k)
  {
    SetAct(s, k, Idle).(held := s.held - {s.queues[k].act.req.off})
  }

  predicate AllLanded(r: Request, f: Flight, size: nat) {
    f.Flying? && forall p | r.off <= p < r.off + r.len && p < size :: p in f.landed
  }

  predicate Stopped(q: Queue) {
    q.stalled && q.act.Idle?
  }

  predicate AllStopped(s: State) {
    forall k | 0 <= k < |s.queues| :: Stopped(s.queues[k])
  }

  predicate AllOn(s: State, b: Backend) {
    forall k | 0 <= k < |s.queues| :: s.queues[k].backend == b
  }

  /** Length of the copier's block at `off`. */
  function BlockLen(e: Env, s: State, off: nat): nat
    requires off <= |s.src|
  {
    if |s.src| - off < e.blockSize then |s.src| - off else e.blockSize
  }

  predicate BlockRead(c: Copier) {
    c.Reading? && forall p | c.off <= p < c.off + c.len :: p in c.buf
  }

  predicate AllZero(c: Copier)
    requires c.Reading?
  {
    forall p | p in c.buf :: c.buf[p] == 0
  }

  predicate QueueEnabled(e: Env, s: State, k: nat, t: QueueStep)
    requires IsQueue(s, k)
  {
    var q := s.queues[k];
    match t
    case PlainWrite(p, _) => q.backend.Source? && !q.stalled && p < |s.src|
    case BypassWrite(p, _) => q.backend.Mirror? && q.bypass && !q.stalled && q.act.Idle? && p < |s.src|
    case DestWrite(p, _) => q.backend.Destination? && !q.stalled && p < |s.dst|
    case Arrive(_) => q.backend.Mirror? && !q.bypass && !q.stalled && q.act.Idle?
    case Acquire => q.act.Waiting? && !OverlapsAny(s.held, q.act.req.off, q.act.req.off + q.act.req.len)
    // the bytes of a write from guest memory are read under the range lock
    case Fetch(data) =>
      q.act.Holding? && q.act.src.Unsent? && q.act.dst.Unsent? && q.act.req.kind.Write? && |data| == q.act.req.len
    case Abandon => q.act.Holding? && q.act.src.Unsent?
    case SubmitSrc => q.act.Holding? && q.act.src.Unsent?
    case SubmitDst => q.act.Holding? && !q.act.src.Unsent? && q.act.dst.Unsent? && !q.bypass
    case SubmitDstFails => q.act.Holding? && !q.act.src.Unsent? && q.act.dst.Unsent? && !q.bypass
    case LandSrc(p) => q.act.Holding? && q.act.src.Flying? && In(q.act.req, p) && p < |s.src|
    case LandDst(p) => q.act.Holding? && q.act.dst.Flying? && In(q.act.req, p) && p < |s.dst|
    case AckSrc(ok) => q.act.Holding? && q.act.src.Flying? && (ok ==> AllLanded(q.act.req, q.act.src, |s.src|))
    case AckDst(ok) => q.act.Holding? && q.act.dst.Flying? && (ok ==> AllLanded(q.act.req, q.act.dst, |s.dst|))
    case VerdictFails(_) =>
      && q.act.Holding? && q.act.src.Acked? && (q.bypass || !q.act.dst.Unsent?)
      && (q.act.src == Acked(false) || (!q.bypass && q.act.dst != Acked(true)))
    case FlushFails(_) => q.backend.Mirror? && !q.bypass && !q.stalled && q.act.Idle?
    case Release =>
      && q.act.Holding? && q.act.src.Acked?
      && (q.bypass || (q.act.src.ok && q.act.dst == Acked(true)))
    case SourceWaitFails =>
      !e.sourceWaitReliable && q.act.Holding? && q.act.src.Flying? && (q.bypass || !q.act.dst.Unsent?)
  }

  function QueueApply(e: Env, s: State, k: nat, t: QueueStep): State
    requires IsQueue(s, k) && QueueEnabled(e, s, k, t)
  {
    var q := s.queues[k];
    match t
    case PlainWrite(p, b) => s.(src := s.src[p := b])
    case BypassWrite(p, b) => s.(src := s.src[p := b])
    case DestWrite(p, b) => s.(dst := s.dst[p := b], onlyDst := s.onlyDst + {p})
    case Arrive(req) => SetAct(s, k, Waiting(req))
    case Acquire =>
      SetAct(s, k, Holding(q.act.req, Unsent, Unsent))
      .(held := s.held[q.act.req.off := q.act.req.off + q.act.req.len])
    case Fetch(data) => SetAct(s, k, Holding(RawRequest(q.act.req.off, q.act.req.len, Write(data)), Unsent, Unsent))
    case Abandon => Drop(s, k)
    case SubmitSrc => SetAct(s, k, q.act.(src := Flying({})))
    case SubmitDst => SetAct(s, k, q.act.(dst := Flying({})))
    case SubmitDstFails => Fail(s, k, DestinationSubmit)
    case LandSrc(p) => Land(e, s, k, p, true)
    case LandDst(p) => Land(e, s, k, p, false)
    case AckSrc(ok) => SetAct(s, k, q.act.(src := Acked(ok)))
    case AckDst(ok) => SetAct(s, k, q.act.(dst := Acked(ok)))
    case VerdictFails(why) =>
      var s' := Fail(s, k, why);
      if s'.panicked then s' else s'.(strayDst := s.strayDst || q.act.dst.Flying?)
    case FlushFails(why) => Fail(s, k, why)
    case Release => Drop(s, k)
    case SourceWaitFails => Drop(s, k).(straySrc := true, strayDst := true)
  }

  predicate CopierEnabled(e: Env, s: State, t: CopierStep) {
    var c := s.copier;
    match t
    case Start => c.NotStarted? && AllOn(s, Mirror)
    case NextBlock => c.Between? && c.off < |s.src| && s.phase.Running?
    case SeeStopped => c.Between? && c.off < |s.src| && !s.phase.Running?
    case CopyAcquire => c.Wanting? && !OverlapsAny(s.held, c.off, c.off + c.len)
    case ReadByte(p) => c.Reading? && c.off <= p < c.off + c.len && p < |s.src|
    case StartWrite => BlockRead(c)
    case LandCopy(p) => c.Writing? && c.off <= p < c.off + c.len && p < |s.dst| && p in c.buf
    case FinishBlock => c.Writing? && forall p | c.off <= p < c.off + c.len :: p in c.landed
    case CopyFails => c.Reading? || c.Writing?
    case Flush(_) => c.Between? && c.off >= |s.src|
    case Report => c.Returned?
    case StrayCopy(p, _) =>
      && (c.Returned? || c.Reported?) && c.outcome.Error?
      && c.off <= p < c.off + c.outcome.len && p < |s.dst|
  }

  function CopierApply(e: Env, s: State, t: CopierStep): State
    requires CopierEnabled(e, s, t)
  {
    var c := s.copier;
    match t
    case Start => s.(copier := Between(0))
    case NextBlock => s.(copier := Wanting(c.off, BlockLen(e, s, c.off)))
    case SeeStopped => s.(copier := Returned(c.off, Early))
    case CopyAcquire => s.(copier := Reading(c.off, c.len, map[]), held := s.held[c.off := c.off + c.len])
    case ReadByte(p) => s.(copier := Reading(c.off, c.len, c.buf[p := s.src[p]]))
    case StartWrite => s.(copier := Writing(c.off, c.len, c.buf, e.destIsSparse && AllZero(c), {}))
    case LandCopy(p) =>
      var s' := s.(copier := Writing(c.off, c.len, c.buf, c.punch, c.landed + {p}));
      if c.punch && !e.dstPunchZeroes then s' else s'.(dst := s.dst[p := c.buf[p]])
    case FinishBlock =>
      s.(copier := Between(c.off + c.len), held := s.held - {c.off}, copied := s.copied + c.len)
    case CopyFails => s.(copier := Returned(c.off, Error(c.len)), held := s.held - {c.off})
    case Flush(ok) => s.(copier := Returned(c.off, if ok then Full else Error(0)))
    case Report =>
      s.(copier := Reported(c.off, c.outcome),
         phase := After(s.phase, if c.outcome.Error? then Failed(CopyWorker) else Ready))
    case StrayCopy(p, b) => s.(dst := s.dst[p := b])
  }

  predicate ManagerEnabled(e: Env, s: State, t: ManagerStep) {
    match t
    case Install(k) =>
      IsQueue(s, k) && s.copier.NotStarted? && s.queues[k].backend.Source? && s.queues[k].act.Idle?
    case InstallFails => s.copier.NotStarted?
    case Stall(k) => IsQueue(s, k) && s.queues[k].act.Idle? && !s.phase.Completing? && !s.phase.Completed?
    case Resume(k) =>
      && IsQueue(s, k)
      && (s.phase.Running? || s.phase.Ready? || s.phase.Failed?
          || (s.phase.Cancelling? && !e.cancelDrainReliable))
    case BeginCompleting => s.phase.Ready? && AllStopped(s)
    case Swap(k) => IsQueue(s, k) && s.phase.Completing? && Stopped(s.queues[k])
    case EndCompleting => s.phase.Completing? && AllOn(s, Destination)
    case BeginCancelling =>
      !s.copier.NotStarted? && !s.phase.Completing? && !s.phase.Completed? && AllStopped(s)
    case Revert(k) => IsQueue(s, k) && Fallen(s.phase) && s.queues[k].act.Idle?
    // any swap command: the worker keeps its backend and takes requests again
    case SwapFails(k) =>
      && !e.swapReliable && IsQueue(s, k) && s.queues[k].act.Idle? && !s.queues[k].backend.Destination?
      && (s.copier.NotStarted? || Fallen(s.phase) || (s.phase.Completing? && s.queues[k].stalled))
    case StraySrc(p, _) => s.straySrc && p < |s.src|
    case StrayDst(p, _) => s.strayDst && p < |s.dst|
  }

  function ManagerApply(e: Env, s: State, t: ManagerStep): State
    requires ManagerEnabled(e, s, t)
  {
    match t
    case Install(k) => SetQueue(s, k, s.queues[k].(backend := Mirror, bypass := false, stalled := false))
    case InstallFails => Transition(s, Failed(Installation))
    case Stall(k) => SetQueue(s, k, s.queues[k].(stalled := true))
    case Resume(k) => SetQueue(s, k, s.queues[k].(stalled := false))
    case BeginCompleting => Transition(s, Completing)
    case Swap(k) => SetQueue(s, k, s.queues[k].(backend := Destination, bypass := false, stalled := false))
    case EndCompleting => Transition(s, Completed)
    case BeginCancelling => Transition(s, Cancelling)
    case Revert(k) => SetQueue(s, k, s.queues[k].(backend := Source, bypass := false, stalled := false))
    case SwapFails(k) => SetQueue(s, k, s.queues[k].(stalled := false))
    case StraySrc(p, b) => s.(src := s.src[p := b])
    case StrayDst(p, b) => s.(dst := s.dst[p := b])
  }

  predicate Enabled(e: Env, s: State, t: Step) {
    && !s.panicked
    && match t
       case OfQueue(k, q) => IsQueue(s, k) && QueueEnabled(e, s, k, q)
       case OfCopier(c) => CopierEnabled(e, s, c)
       case OfManager(m) => ManagerEnabled(e, s, m)
  }

  function Apply(e: Env, s: State, t: Step): State
    requires Enabled(e, s, t)
  {
    match t
    case OfQueue(k, q) => QueueApply(e, s, k, q)
    case OfCopier(c) => CopierApply(e, s, c)
    case OfManager(m) => ManagerApply(e, s, m)
  }

  /** A hole punched on a backend that does not zero it changes nothing. */
  predicate Inert(e: Env, r: Request, onSource: bool) {
    r.kind.PunchHole? && !(if onSource then e.srcPunchZeroes else e.dstPunchZeroes)
  }

  /** One byte of the request of queue `k` reaches one of the disks. */
  function Land(e: Env, s: State, k: nat, p: nat, onSource: bool): State
    requires IsHolding(s, k) && In(s.queues[k].act.req, p)
    requires if onSource then s.queues[k].act.src.Flying? && p < |s.src|
             else s.queues[k].act.dst.Flying? && p < |s.dst|
  {
    var h := s.queues[k].act;
    if onSource then
      var s' := SetAct(s, k, h.(src := Flying(h.src.landed + {p})));
      if Inert(e, h.req, true) then s' else s'.(src := s.src[p := Val(h.req, p)])
    else
      var s' := SetAct(s, k, h.(dst := Flying(h.dst.landed + {p})));
      if Inert(e, h.req, false) then s' else s'.(dst := s.dst[p := Val(h.req, p)])
  }

  /** Commands that the worker of one queue applies. */
  predicate OnOneQueue(t: ManagerStep) {
    t.Install? || t.Stall? || t.Resume? || t.Swap? || t.Revert? || t.SwapFails?
  }

  /** Steps in which a queue reports a failure. */
  predicate Fails(t: QueueStep) {
    t.SubmitDstFails? || t.VerdictFails? || t.FlushFails?
  }

  predicate ReportsFailure(t: Step) {
    t.OfQueue? && Fails(t.q)
  }

  /** A queue's step leaves the other queues, the copier and the disk sizes alone. */
  ghost predicate QueueFrame(s: State, s': State, k: nat) {
    && IsQueue(s, k) && |s'.queues| == |s.queues|
    && (forall j | 0 <= j < |s.queues| && j != k :: s'.queues[j] == s.queues[j])
    && s'.copier == s.copier && s'.copied == s.copied
    && |s'.src| == |s.src| && |s'.dst| == |s.dst|
  }

  /** A byte that lands changes the flight of its request, one disk and nothing else. */
  lemma LandIs(e: Env, s: State, k: nat, p: nat, onSource: bool)
    requires IsHolding(s, k) && In(s.queues[k].act.req, p)
    requires if onSource then s.queues[k].act.src.Flying? && p < |s.src|
             else s.queues[k].act.dst.Flying? && p < |s.dst|
    ensures var s', h := Land(e, s, k, p, onSource), s.queues[k].act;
            && s' == s.(src := s'.src, dst := s'.dst, queues := s'.queues)
            && |s'.src| == |s.src| && |s'.dst| == |s.dst|
            && (if onSource then s'.dst == s.dst else s'.src == s.src)
            && s'.queues == s.queues[k := s.queues[k].(act :=
                 if onSource then h.(src := Flying(h.src.landed + {p})) else h.(dst := Flying(h.dst.landed + {p})))]
  {
    hide Val;
  }

  lemma QueueStepFrame(e: Env, s: State, k: nat, t: QueueStep)
    requires IsQueue(s, k) && QueueEnabled(e, s, k, t)
    ensures QueueFrame(s, QueueApply(e, s, k, t), k)
    ensures !Fails(t) ==> QueueApply(e, s, k, t).phase == s.phase
  {
    hide OverlapsAny, AllLanded, Accepts, After, Land;
    if t.LandSrc? || t.LandDst? {
      LandIs(e, s, k, t.p, t.LandSrc?);
    }
  }

  // ---- Runs -----------------------------------------------------------------

  /** Fresh mirror: every queue still on the plain source, no copier yet. */
  ghost predicate Init(e: Env, s: State) {
    && 0 < e.blockSize
    && |s.src| == |s.dst|
    && s.held == map[] && s.phase.Running? && s.copier.NotStarted? && s.copied == 0
    && !s.straySrc && !s.strayDst && !s.panicked && s.onlyDst == {}
    && forall k | 0 <= k < |s.queues| ::
         s.queues[k].backend.Source? && !s.queues[k].bypass && s.queues[k].act.Idle?
  }

  /** The steps can be taken one after the other from `s`. */
  ghost predicate CanRun(e: Env, s: State, run: seq<Step>)
    decreases |run|
  {
    run == [] || (Enabled(e, s, run[0]) && CanRun(e, Apply(e, s, run[0]), run[1..]))
  }

  ghost function Run(e: Env, s: State, run: seq<Step>): State
    requires CanRun(e, s, run)
    decreases |run|
  {
    if run == [] then s else Run(e, Apply(e, s, run[0]), run[1..])
  }

  ghost predicate Reaches(e: Env, s: State, s': State) {
    exists run: seq<Step> :: CanRun(e, s, run) && Run(e, s, run) == s'
  }

  ghost predicate Reachable(e: Env, s: State) {
    exists s0 :: Init(e, s0) && Reaches(e, s0, s)
  }
}
