/**
 The per-virtqueue mirroring backend as code: which operations reach which disk,
 in which order, and what the guest gets back.
 */
module MirrorQueueIo {
  import opened Bytes
  import opened RangeLocks
  import opened MirrorProtocol
  import opened MirrorTheorems
  import opened MirrorWorld

  datatype Completion = Completion(userData: nat, result: int, buffer: Option<seq<Byte>>)

  /** An operation as a backend sees it. */
  datatype BackendOp =
    | ReadAt(off: int, len: nat, userData: nat)
    | WriteAt(off: int, data: seq<Byte>, userData: nat)
    | PunchAt(off: int, len: nat, userData: nat)
    | ZeroAt(off: int, len: nat, userData: nat)
    | SyncTo(id: Option<nat>)

  /** What a mirrored request is to do; the bytes of `Memory` are read under the range lock. */
  datatype Intent =
    | Vec(off: nat, data: seq<Byte>)
    | Memory(off: nat, len: nat)
    | Hole(off: nat, len: nat)
    | Zero(off: nat, len: nat)

  function Length(i: Intent): nat {
    if i.Vec? then |i.data| else i.len
  }

  /** The range lock accepts it. */
  predicate Lockable(i: Intent) {
    0 < Length(i) && i.off + Length(i) < U64_LIMIT
  }

  /** The request before its bytes are read: those of guest memory are not known yet. */
  function Announced(i: Intent): Request
    requires Lockable(i)
  {
    match i
    case Vec(off, data) => RawRequest(off, |data|, Write(data))
    case Memory(off, len) => RawRequest(off, len, Write(seq(len, _ => 0)))
    case Hole(off, len) => RawRequest(off, len, PunchHole)
    case Zero(off, len) => RawRequest(off, len, WriteZeroes)
  }

  /** The result that a backend reports for success. */
  function Expected(i: Intent): int {
    if i.Vec? || i.Memory? then Length(i) else 0
  }

  /** An operation that does what is intended, with some content of guest memory where it is to be read. */
  predicate Realises(op: BackendOp, i: Intent, userData: nat) {
    match i
    case Vec(off, data) => op == WriteAt(off, data, userData)
    case Memory(off, len) => op.WriteAt? && op.off == off && |op.data| == len && op.userData == userData
    case Hole(off, len) => op == PunchAt(off, len, userData)
    case Zero(off, len) => op == ZeroAt(off, len, userData)
  }

  /** A guest operation; bytes still in guest memory may change until they are read. */
  datatype GuestOp =
    | Read(off: int, len: nat, userData: nat)
    | FromVec(off: int, data: seq<Byte>, userData: nat)
    | FromMemory(off: int, len: nat, userData: nat)

  /**
   `Done`: handed over, a completion will follow. `Refused`: reported to the guest
   as an error. `Suspended`: asleep in the range lock. `Aborted`: the thread has
   panicked on a failure that the mirror's phase rejects.
   */
  datatype Outcome = Done | Refused | Suspended | Aborted

  /**
   A backend with its completion queue. `stream` holds the completions it is going
   to report, in that order; a wait on an empty stream is a wait that errors.
   */
  class CompletionIo {
    var submitted: seq<BackendOp>
    var answers: seq<bool>
    var stream: seq<Completion>

    /** The next submission will be accepted. */
    predicate Accepts()
      reads this
    {
      answers == [] || answers[0]
    }

    method Submit(op: BackendOp) returns (ok: bool)
      modifies this
      ensures submitted == old(submitted) + [op] && stream == old(stream) && ok == old(Accepts())
    {
      submitted := submitted + [op];
      ok := Accepts();
      if answers != [] {
        answers := answers[1..];
      }
    }

    method NextCompletion() returns (c: Option<Completion>)
      modifies this
      ensures submitted == old(submitted)
      ensures c.None? ==> old(stream) == [] && stream == []
      ensures c.Some? ==> old(stream) == [c.value] + stream
    {
      if stream == [] {
        return None;
      }
      c := Some(stream[0]);
      stream := stream[1..];
    }
  }

  /** The source will report the completion of `userData`. */
  predicate Reports(stream: seq<Completion>, userData: nat) {
    exists i | 0 <= i < |stream| :: stream[i].userData == userData
  }

  /** Both disks reported the flush as done: the source last of all stashed completions, the destination next in its stream. */
  predicate BothTook(userData: nat, stashed: seq<Completion>, before: seq<Completion>, after: seq<Completion>) {
    && stashed != [] && stashed[|stashed| - 1].userData == userData && stashed[|stashed| - 1].result == 0
    && before != [] && before[0].userData == userData && before[0].result == 0 && after == before[1..]
  }

  class MirroringAsyncIo {
    const w: World
    const k: nat
    const source: CompletionIo
    const destination: CompletionIo
    var inflight: seq<Completion>
    var bypass: bool
    /** Completions handed to the virtqueue so far. */
    ghost var delivered: seq<Completion>

    /** The object and the world agree on queue `k`, whatever it is doing. */
    ghost predicate InWorld()
      reads this, w
    {
      && w.Valid() && IsQueue(w.s, k) && source != destination
      && w.s.queues[k].backend.Mirror? && !w.s.queues[k].stalled && w.s.queues[k].bypass == bypass
    }

    /** Between two requests. */
    ghost predicate Valid()
      reads this, w
    {
      InWorld() && w.s.queues[k].act.Idle?
    }

    /** Everything the source completes, in order: delivered, stashed, still to come. */
    ghost function Stream(): seq<Completion>
      reads this, source
    {
      delivered + (inflight + source.stream)
    }

    constructor (w: World, k: nat, source: CompletionIo, destination: CompletionIo)
      requires w.Valid() && IsQueue(w.s, k) && source != destination
      requires w.s.queues[k] == Queue(Mirror, false, false, Idle)
      ensures Valid() && !bypass && inflight == [] && delivered == []
      ensures this.w == w && this.k == k && this.source == source && this.destination == destination
    {
      this.w := w;
      this.k := k;
      this.source := source;
      this.destination := destination;
      inflight := [];
      bypass := false;
      delivered := [];
    }

    /** Pops source completions until the one for `userData`, stashing the others in order. */
    method PopOwn(userData: nat) returns (own: Option<Completion>)
      requires w.e.sourceWaitReliable ==> Reports(source.stream, userData)
      modifies this`inflight, source
      ensures own.Some? ==> own.value.userData == userData
      ensures own.Some? ==> inflight + [own.value] + source.stream == old(inflight + source.stream)
      ensures own.None? ==> inflight + source.stream == old(inflight + source.stream)
      ensures own.None? ==> !w.e.sourceWaitReliable
      ensures source.submitted == old(source.submitted)
    {
      ghost var all := inflight + source.stream;
      own := source.NextCompletion();
      while own.Some? && own.value.userData != userData
        invariant own.Some? ==> inflight + [own.value] + source.stream == all
        invariant own.None? ==> inflight + source.stream == all
        invariant w.e.sourceWaitReliable && own.Some? ==>
                    own.value.userData == userData || Reports(source.stream, userData)
        invariant w.e.sourceWaitReliable ==> own.Some?
        invariant source.submitted == old(source.submitted)
        decreases |source.stream| + if own.Some? then 1 else 0
      {
        inflight := inflight + [own.value];
        own := source.NextCompletion();
      }
    }

    /** Fails the mirror for everybody and stops using the destination. */
    method Fail(why: Failure)
      requires InWorld() && w.s.queues[k].act.Holding?
      requires QueueEnabled(w.e, w.s, k, VerdictFails(why))
      modifies w, this`bypass
      ensures !w.s.panicked ==> InWorld() && bypass && w.s.queues[k].act == old(w.s).queues[k].act
      ensures w.s.panicked ==> !CommandsReliable(w.e)
    {
      hide Reachable, CopierEnabled, ManagerEnabled, OverlapsAny, AllLanded;
      w.Take(OfQueue(k, VerdictFails(why)));
      if !w.s.panicked {
        bypass := true;
      }
    }

    /** Waits for the source's completion of the request in progress. */
    method AwaitSource(userData: nat, expected: int) returns (own: Option<Completion>)
      requires InWorld() && w.s.queues[k].act.Holding? && w.s.queues[k].act.src.Flying?
      requires bypass || w.s.queues[k].act.dst.Flying?
      requires w.e.sourceWaitReliable ==> Reports(source.stream, userData)
      modifies w, this`inflight, source
      ensures InWorld() && w.s.queues[k].act.Holding?
      ensures w.s.queues[k].act.dst == old(w.s).queues[k].act.dst
      ensures own.None? ==> inflight + source.stream == old(inflight + source.stream)
      ensures own.Some? ==> inflight + [own.value] + source.stream == old(inflight + source.stream)
      ensures own.None? ==> QueueEnabled(w.e, w.s, k, SourceWaitFails)
      ensures own.Some? ==> w.s.queues[k].act.src == Acked(own.value.result == expected)
      ensures source.submitted == old(source.submitted)
    {
      w.OthersThanQueue(k);
      own := PopOwn(userData);
      if own.Some? {
        w.SourceFinishes(k, own.value.result == expected);
        w.OthersThanQueue(k);
      }
    }

    /** Checks the destination's completion; anything but the expected one fails the mirror. */
    method AwaitDestination(userData: nat, expected: int)
      requires InWorld() && !bypass && w.s.queues[k].act.Holding?
      requires w.s.queues[k].act.src.Acked? && w.s.queues[k].act.dst.Flying?
      modifies w, this`bypass, destination
      ensures !w.s.panicked ==>
                && InWorld() && w.s.queues[k].act.Holding?
                && w.s.queues[k].act.src == old(w.s).queues[k].act.src
                && (bypass || w.s.queues[k].act.dst == Acked(true))
      ensures w.s.panicked ==> !CommandsReliable(w.e)
      ensures destination.submitted == old(destination.submitted)
    {
      w.OthersThanQueue(k);
      var theirs := destination.NextCompletion();
      if theirs.None? || theirs.value.userData != userData {
        Fail(DestinationWait);
      } else {
        w.DestinationFinishes(k, theirs.value.result == expected);
        w.OthersThanQueue(k);
        if theirs.value.result != expected {
          Fail(DestinationCompletion);
        }
      }
    }

    /**
     Waits for the source's and, unless bypassing, the destination's completion.
     Afterwards the guard may be dropped: both disks took the request, or the
     mirror has failed. The guest sees the source's completion either way.
     */
    method WaitForCompletions(userData: nat, expected: int) returns (ok: bool)
      requires InWorld() && w.s.queues[k].act.Holding? && w.s.queues[k].act.src.Flying?
      requires !bypass ==> w.s.queues[k].act.dst.Flying?
      requires w.e.sourceWaitReliable ==> Reports(source.stream, userData)
      modifies this, w, source, destination
      ensures !w.s.panicked ==> InWorld() && w.s.queues[k].act.Holding? && Stream() == old(Stream())
      ensures w.s.panicked ==> !CommandsReliable(w.e) && !ok
      ensures delivered == old(delivered)
      ensures ok ==> QueueEnabled(w.e, w.s, k, Release)
      ensures ok && !bypass ==> w.s.queues[k].act.src == Acked(true) && w.s.queues[k].act.dst == Acked(true)
      ensures !ok && !w.s.panicked ==> QueueEnabled(w.e, w.s, k, SourceWaitFails)
      ensures source.submitted == old(source.submitted)
      ensures destination.submitted == old(destination.submitted)
    {
      hide Reachable, CopierEnabled, ManagerEnabled, OverlapsAny, AllLanded;
      var own := AwaitSource(userData, expected);
      if own.None? {
        return false;
      }
      if !bypass {
        AwaitDestination(userData, expected);
        if w.s.panicked {
          return false;
        }
      }
      w.OthersThanQueue(k);
      if own.value.result != expected {
        Fail(SourceCompletion);
        if w.s.panicked {
          return false;
        }
      }
      inflight := inflight + [own.value];
      return true;
    }

    /**
     One mirrored request: take the range, hand the same operation to both disks,
     wait for both, drop the range. A refusal by the source ends it without the
     destination having seen anything; a refusal by the destination fails the mirror
     but not the request. `Suspended` means asleep in the range lock, to be carried on
     by LockAndSubmit.
     */
    method Mirrored(i: Intent, userData: nat) returns (r: Outcome, op: BackendOp)
      requires Valid() && !bypass && Lockable(i)
      requires w.e.sourceWaitReliable && source.Accepts() ==> Reports(source.stream, userData)
      modifies this, w, source, destination
      ensures delivered == old(delivered) && Realises(op, i, userData)
      ensures r.Aborted? <==> w.s.panicked
      ensures r.Aborted? ==> !CommandsReliable(w.e)
      ensures !r.Aborted? ==> Stream() == old(Stream())
      ensures r.Suspended? ==> Asleep(i) && source.Accepts() == old(source.Accepts()) && source.stream == old(source.stream)
      ensures r.Suspended? ==> source.submitted == old(source.submitted) && destination.submitted == old(destination.submitted)
      ensures r.Done? || r.Refused? ==> Valid()
      ensures !r.Suspended? ==> source.submitted == old(source.submitted) + [op]
      ensures r.Done? ==> destination.submitted == old(destination.submitted) + [op]
      ensures w.e.sourceWaitReliable && r.Refused? ==> destination.submitted == old(destination.submitted)
      ensures bypass && !r.Aborted? ==> Fallen(w.s.phase)
    {
      w.OthersThanQueue(k);
      w.Take(OfQueue(k, Arrive(Announced(i))));
      r, op := LockAndSubmit(i, userData);
    }

    /** Waiting in the range lock for the range of `i`. */
    ghost predicate Asleep(i: Intent)
      reads this, w
    {
      InWorld() && !bypass && Lockable(i) && w.s.queues[k].act == Waiting(Announced(i))
    }

    /**
     The request tries for its range, first on arrival and again at every wake-up:
     either some held range still overlaps it and it sleeps on, or it takes the range
     and runs to its end.
     */
    method LockAndSubmit(i: Intent, userData: nat) returns (r: Outcome, op: BackendOp)
      requires Asleep(i)
      requires w.e.sourceWaitReliable && source.Accepts() ==> Reports(source.stream, userData)
      modifies this, w, source, destination
      ensures delivered == old(delivered) && Realises(op, i, userData)
      ensures r.Aborted? <==> w.s.panicked
      ensures r.Aborted? ==> !CommandsReliable(w.e)
      ensures !r.Aborted? ==> Stream() == old(Stream())
      ensures r.Suspended? ==> Asleep(i) && source.Accepts() == old(source.Accepts()) && source.stream == old(source.stream)
      ensures r.Suspended? ==> SomeOverlap(w.s.held, i.off, i.off + Length(i))
      ensures r.Suspended? ==> source.submitted == old(source.submitted) && destination.submitted == old(destination.submitted)
      ensures r.Done? || r.Refused? ==> Valid()
      ensures !r.Suspended? ==> source.submitted == old(source.submitted) + [op]
      ensures r.Done? ==> destination.submitted == old(destination.submitted) + [op]
      ensures w.e.sourceWaitReliable && r.Refused? ==> destination.submitted == old(destination.submitted)
      ensures bypass && !r.Aborted? ==> Fallen(w.s.phase)
    {
      hide Reachable, CopierEnabled, ManagerEnabled, SomeOverlap;
      op := Untouched(i, userData);
      w.OthersThanQueue(k);
      if OverlapsAny(w.s.held, i.off, i.off + Length(i)) {
        w.OverlapIsReal(i.off, i.off + Length(i));
        return Suspended, op;
      }
      w.Take(OfQueue(k, Acquire));
      op := ReadUnderLock(i, userData);
      r := SubmitBoth(op, userData, Expected(i));
      if !r.Aborted? {
        BypassOnlyFallen();
      }
    }

    /** With the range held, the bytes of guest memory are read once, for both disks. */
    method ReadUnderLock(i: Intent, userData: nat) returns (op: BackendOp)
      requires InWorld() && Lockable(i) && w.s.queues[k].act == Holding(Announced(i), Unsent, Unsent)
      modifies w
      ensures InWorld() && Realises(op, i, userData) && w.s.queues[k].act.Holding?
      ensures w.s.queues[k].act.src.Unsent? && w.s.queues[k].act.dst.Unsent?
    {
      hide Reachable, CopierEnabled, ManagerEnabled, OverlapsAny, AllLanded;
      op := Untouched(i, userData);
      w.OthersThanQueue(k);
      if i.Memory? {
        var data := ReadGuestMemory(i.len);
        w.Take(OfQueue(k, Fetch(data)));
        op := WriteAt(i.off, data, userData);
      }
    }

    /** The operation as announced. */
    static function Untouched(i: Intent, userData: nat): (op: BackendOp)
      ensures Realises(op, i, userData)
    {
      match i
      case Vec(off, data) => WriteAt(off, data, userData)
      case Memory(off, len) => WriteAt(off, seq(len, _ => 0), userData)
      case Hole(off, len) => PunchAt(off, len, userData)
      case Zero(off, len) => ZeroAt(off, len, userData)
    }

    lemma BypassOnlyFallen()
      requires InWorld()
      ensures bypass ==> Fallen(w.s.phase)
    {
      if bypass {
        BypassOnlyWhenFallen(w.e, w.s, k);
      }
    }

    /** The part of a mirrored request that runs under the range lock. */
    method SubmitBoth(op: BackendOp, userData: nat, expected: int) returns (r: Outcome)
      requires InWorld() && !bypass && w.s.queues[k].act.Holding?
      requires w.s.queues[k].act.src.Unsent? && w.s.queues[k].act.dst.Unsent?
      requires w.e.sourceWaitReliable && source.Accepts() ==> Reports(source.stream, userData)
      modifies this, w, source, destination
      ensures delivered == old(delivered) && !r.Suspended?
      ensures r.Aborted? <==> w.s.panicked
      ensures r.Aborted? ==> !CommandsReliable(w.e)
      ensures !r.Aborted? ==> Valid() && Stream() == old(Stream())
      ensures source.submitted == old(source.submitted) + [op]
      ensures r.Done? ==> destination.submitted == old(destination.submitted) + [op]
      ensures w.e.sourceWaitReliable && r.Refused? ==> destination.submitted == old(destination.submitted)
    {
      var accepted := SubmitToSource(op);
      if !accepted {
        return Refused;
      }
      SubmitToDestination(op);
      if w.s.panicked {
        return Aborted;
      }
      var ok := WaitForCompletions(userData, expected);
      if w.s.panicked {
        return Aborted;
      }
      DropGuard(ok);
      return if ok then Done else Refused;
    }

    /** A refusal by the source drops the guard at once. */
    method SubmitToSource(op: BackendOp) returns (accepted: bool)
      requires InWorld() && w.s.queues[k].act.Holding?
      requires w.s.queues[k].act.src.Unsent? && w.s.queues[k].act.dst.Unsent?
      modifies w, source
      ensures InWorld() && source.submitted == old(source.submitted) + [op]
      ensures source.stream == old(source.stream) && accepted == old(source.Accepts())
      ensures !accepted ==> w.s.queues[k].act.Idle?
      ensures accepted ==> w.s.queues[k].act.Holding? && w.s.queues[k].act.src.Flying? && w.s.queues[k].act.dst.Unsent?
    {
      w.OthersThanQueue(k);
      accepted := source.Submit(op);
      if accepted {
        w.Take(OfQueue(k, SubmitSrc));
        w.OthersThanQueue(k);
      } else {
        w.Take(OfQueue(k, Abandon));
      }
    }

    /** The request is over; the guard goes with it. */
    method DropGuard(completed: bool)
      requires InWorld()
      requires QueueEnabled(w.e, w.s, k, if completed then Release else SourceWaitFails)
      modifies w
      ensures Valid()
    {
      w.OthersThanQueue(k);
      w.Take(OfQueue(k, if completed then Release else SourceWaitFails));
    }

    method SubmitToDestination(op: BackendOp)
      requires InWorld() && !bypass && w.s.queues[k].act.Holding?
      requires w.s.queues[k].act.src.Flying? && w.s.queues[k].act.dst.Unsent?
      modifies w, this`bypass, destination
      ensures !w.s.panicked ==>
                && InWorld() && w.s.queues[k].act.Holding? && w.s.queues[k].act.src.Flying?
                && (bypass || w.s.queues[k].act.dst.Flying?)
      ensures w.s.panicked ==> !CommandsReliable(w.e)
      ensures destination.submitted == old(destination.submitted) + [op]
    {
      w.OthersThanQueue(k);
      var accepted := destination.Submit(op);
      if accepted {
        w.Take(OfQueue(k, SubmitDst));
      } else {
        w.Take(OfQueue(k, SubmitDstFails));
        if !w.s.panicked {
          bypass := true;
        }
      }
    }

    /** One read of guest memory; another read may return other bytes. */
    static method ReadGuestMemory(len: nat) returns (bytes: seq<Byte>)
      ensures |bytes| == len
    {
      bytes := seq(len, _ => 0);
    }

    /**
     Reads and bypassed writes go to the source alone. A mirrored write puts one and
     the same byte string on both disks, even if guest memory changes meanwhile.
     Empty, oversized, negative and overflowing writes reach no disk.
     */
    method SubmitDataOperation(op: GuestOp) returns (r: Outcome)
      requires Valid()
      requires w.e.sourceWaitReliable && !op.Read? && !bypass && Mirrorable(op) && source.Accepts() ==>
                 Reports(source.stream, op.userData)
      modifies this, w, source, destination
      ensures delivered == old(delivered)
      ensures r.Aborted? <==> w.s.panicked
      ensures r.Aborted? ==> !CommandsReliable(w.e)
      ensures !r.Aborted? ==> Stream() == old(Stream())
      ensures op.Read? || old(bypass) ==> destination.submitted == old(destination.submitted)
      ensures op.Read? ==> Valid() && source.submitted == old(source.submitted) + [ReadAt(op.off, op.len, op.userData)]
      ensures !op.Read? && !old(bypass) && !Mirrorable(op) ==>
                && r.Refused? && source.submitted == old(source.submitted)
                && destination.submitted == old(destination.submitted)
      ensures !op.Read? && !old(bypass) && r.Done? ==>
                exists data: seq<Byte> ::
                  && Carries(op, data)
                  && source.submitted == old(source.submitted) + [WriteAt(op.off, data, op.userData)]
                  && destination.submitted == old(destination.submitted) + [WriteAt(op.off, data, op.userData)]
      ensures !op.Read? && old(bypass) ==>
                exists data: seq<Byte> ::
                  Carries(op, data) && source.submitted == old(source.submitted) + [WriteAt(op.off, data, op.userData)]
      ensures !old(bypass) && bypass && !r.Aborted? ==> Fallen(w.s.phase)
      ensures old(bypass) ==> bypass
    {
      if op.Read? {
        var ok := source.Submit(ReadAt(op.off, op.len, op.userData));
        return if ok then Done else Refused;
      }
      if !bypass {
        if !Mirrorable(op) {
          return Refused;
        }
        var sent: BackendOp;
        r, sent := Mirrored(if op.FromVec? then Vec(op.off, op.data) else Memory(op.off, op.len), op.userData);
        assert Carries(op, sent.data);
        return;
      }
      var data := if op.FromVec? then op.data else [];
      if op.FromMemory? {
        data := ReadGuestMemory(op.len);
      }
      assert Carries(op, data);
      var ok := source.Submit(WriteAt(op.off, data, op.userData));
      return if ok then Done else Refused;
    }

    /** A hole or zeroes requested by the guest go to both disks under one range lock. */
    method Discard(off: nat, len: nat, userData: nat, zeroes: bool) returns (r: Outcome)
      requires Valid() && off < U64_LIMIT && len < U64_LIMIT
      requires w.e.sourceWaitReliable && !bypass && 0 < len < U64_LIMIT - off && source.Accepts() ==>
                 Reports(source.stream, userData)
      modifies this, w, source, destination
      ensures delivered == old(delivered)
      ensures r.Aborted? <==> w.s.panicked
      ensures r.Aborted? ==> !CommandsReliable(w.e)
      ensures !r.Aborted? ==> Stream() == old(Stream())
      ensures old(bypass) ==> destination.submitted == old(destination.submitted)
      ensures !old(bypass) && (len == 0 || off + len >= U64_LIMIT) ==>
                && r.Refused? && source.submitted == old(source.submitted)
                && destination.submitted == old(destination.submitted)
      ensures !old(bypass) && r.Done? ==>
                var op := if zeroes then ZeroAt(off, len, userData) else PunchAt(off, len, userData);
                && source.submitted == old(source.submitted) + [op]
                && destination.submitted == old(destination.submitted) + [op]
      ensures !old(bypass) && bypass && !r.Aborted? ==> Fallen(w.s.phase)
    {
      var op := if zeroes then ZeroAt(off, len, userData) else PunchAt(off, len, userData);
      if bypass {
        var ok := source.Submit(op);
        return if ok then Done else Refused;
      }
      if len == 0 || off + len >= U64_LIMIT {
        return Refused;
      }
      var sent: BackendOp;
      r, sent := Mirrored(if zeroes then Zero(off, len) else Hole(off, len), userData);
    }

    /** A flush goes to both disks without a range; a tracked one waits for both. */
    method Fsync(id: Option<nat>) returns (r: Outcome)
      requires Valid()
      requires w.e.sourceWaitReliable && id.Some? && !bypass && source.Accepts() ==> Reports(source.stream, id.value)
      modifies this, w, source, destination
      ensures delivered == old(delivered) && !r.Suspended?
      ensures r.Aborted? <==> w.s.panicked
      ensures r.Aborted? ==> !CommandsReliable(w.e)
      ensures !r.Aborted? ==> Valid() && Stream() == old(Stream())
      ensures old(bypass) ==> bypass && destination.submitted == old(destination.submitted)
      ensures source.submitted == old(source.submitted) + [SyncTo(id)]
      ensures !old(bypass) && r.Done? ==> destination.submitted == old(destination.submitted) + [SyncTo(id)]
      ensures w.e.sourceWaitReliable && r.Refused? ==> destination.submitted == old(destination.submitted)
      ensures r.Done? && id.Some? && !bypass ==>
                BothTook(id.value, inflight, old(destination.stream), destination.stream)
      ensures bypass && !r.Aborted? ==> Fallen(w.s.phase)
    {
      w.OthersThanQueue(k);
      BypassOnlyFallen();
      var accepted := source.Submit(SyncTo(id));
      if !accepted {
        return Refused;
      }
      if bypass {
        return Done;
      }
      w.OthersThanQueue(k);
      var flushed := destination.Submit(SyncTo(id));
      if !flushed {
        FailFlush(DestinationSubmit);
        if w.s.panicked {
          return Aborted;
        }
      }
      var ok := true;
      if id.Some? {
        ok := AwaitFlush(id.value);
        if w.s.panicked {
          return Aborted;
        }
      }
      BypassOnlyFallen();
      r := if ok then Done else Refused;
    }

    /** Waits for both completions of a flush; whatever the destination answers, the flush is the source's. */
    method AwaitFlush(userData: nat) returns (ok: bool)
      requires Valid()
      requires w.e.sourceWaitReliable ==> Reports(source.stream, userData)
      modifies this, w, source, destination
      ensures !w.s.panicked ==> Valid() && Stream() == old(Stream())
      ensures w.s.panicked ==> !CommandsReliable(w.e) && !ok
      ensures delivered == old(delivered)
      ensures source.submitted == old(source.submitted) && destination.submitted == old(destination.submitted)
      ensures !ok && !w.s.panicked ==> !w.e.sourceWaitReliable
      ensures old(bypass) ==> bypass
      ensures ok && !bypass ==> BothTook(userData, inflight, old(destination.stream), destination.stream)
    {
      w.OthersThanQueue(k);
      var own := PopOwn(userData);
      if own.None? {
        return false;
      }
      w.OthersThanQueue(k);
      if !bypass {
        var theirs := destination.NextCompletion();
        if theirs.None? || theirs.value.userData != userData {
          FailFlush(DestinationWait);
        } else if theirs.value.result != 0 {
          FailFlush(DestinationCompletion);
        }
        if w.s.panicked {
          return false;
        }
      }
      w.OthersThanQueue(k);
      if own.value.result != 0 && !bypass {
        FailFlush(SourceCompletion);
        if w.s.panicked {
          return false;
        }
      }
      inflight := inflight + [own.value];
      return true;
    }

    method FailFlush(why: Failure)
      requires Valid() && !bypass
      modifies w, this`bypass
      ensures !w.s.panicked ==> Valid() && bypass
      ensures w.s.panicked ==> !CommandsReliable(w.e)
    {
      w.Take(OfQueue(k, FlushFails(why)));
      if !w.s.panicked {
        bypass := true;
      }
    }

    /** Stashed completions come first, then the source's own. */
    method NextCompletedRequest() returns (c: Option<Completion>)
      modifies this`inflight, this`delivered, source
      ensures Stream() == old(Stream()) && source.submitted == old(source.submitted)
      ensures c.Some? ==> delivered == old(delivered) + [c.value]
      ensures c.None? ==> delivered == old(delivered) && inflight == old(inflight) == []
    {
      if inflight != [] {
        c := Some(inflight[0]);
        inflight := inflight[1..];
        delivered := delivered + [c.value];
        return;
      }
      var available: bool := *;
      if !available {
        return None;
      }
      c := source.NextCompletion();
      if c.Some? {
        delivered := delivered + [c.value];
      }
    }

    /** Batches reach the source only, and only while the destination is bypassed. */
    method SubmitBatchRequests(batch: seq<BackendOp>, sourceBatches: bool) returns (r: Outcome)
      modifies source
      ensures batch == [] ==> r.Done? && source.submitted == old(source.submitted)
      ensures batch != [] && !(bypass && sourceBatches) ==> r.Refused? && source.submitted == old(source.submitted)
      ensures batch != [] && bypass && sourceBatches ==> source.submitted == old(source.submitted) + batch
      ensures source.stream == old(source.stream)
    {
      if batch == [] {
        return Done;
      }
      if !(bypass && sourceBatches) {
        return Refused;
      }
      source.submitted := source.submitted + batch;
      return Done;
    }
  }

  function OpLen(op: GuestOp): nat {
    if op.FromVec? then |op.data| else op.len
  }

  /** What the request path accepts for mirroring. */
  predicate Mirrorable(op: GuestOp) {
    0 <= op.off && 0 < OpLen(op) <= I32_MAX && op.off + OpLen(op) < U64_LIMIT
  }

  /** `data` are the bytes of the operation, or some content of its guest memory. */
  predicate Carries(op: GuestOp, data: seq<Byte>) {
    |data| == OpLen(op) && (op.FromVec? ==> data == op.data)
  }
}
