/**
 The pvmemcontrol transport: registration of per-CPU buffers under connection
 identifiers, and lookup of a buffer by its identifier.
 */
module Pvmemcontrol {
  import opened Bytes
  import opened Bits

  const FIRST: nat := 0x8000_0000
  const COUNT: nat := 0x8000_0000
  /** Size of a request or a response, whichever is larger. */
  const BUFFER_SIZE: nat := 32

  datatype Command = Reset | Register | Enable | Disconnect | Ack | Fail

  function Code(c: Command): nat {
    match c
    case Reset => 0x060f_e6d2
    case Register => 0x0e35_9539
    case Enable => 0x0ca8_d227
    case Disconnect => 0x030f_5da0
    case Ack => 0x03cf_5196
    case Fail => 0x01fb_a249
  }

  function CommandOf(code: nat): Option<Command> {
    if code == Code(Reset) then Some(Reset)
    else if code == Code(Register) then Some(Register)
    else if code == Code(Enable) then Some(Enable)
    else if code == Code(Disconnect) then Some(Disconnect)
    else if code == Code(Ack) then Some(Ack)
    else if code == Code(Fail) then Some(Fail)
    else None
  }

  predicate IsConnection(id: nat) {
    FIRST <= id < FIRST + COUNT
  }

  /** A value with the top bit set names a connection. */
  function ConnectionOf(value: nat): Option<nat> {
    if And(value, Pow2(31)) != 0 then Some(value) else None
  }

  function NextConnection(id: nat): nat {
    if id == 0xffff_ffff then FIRST else id + 1
  }

  /** Commands and connections share the command register without conflict. */
  lemma CommandsAreNotConnections(value: nat)
    requires value < U32_LIMIT
    ensures CommandOf(value).Some? ==> ConnectionOf(value).None?
    ensures ConnectionOf(value) == if IsConnection(value) then Some(value) else None
    ensures CommandOf(value).Some? ==> Code(CommandOf(value).value) == value
  {
    Pow2Values();
    AndBit(value, 31);
    TopBit(value, 31);
  }

  // ---- Cyclic search ----------------------------------------------------------------------------

  /** The identifier `k` steps after `start`. */
  function Nth(start: nat, k: nat): (id: nat)
    ensures IsConnection(id)
  {
    FIRST + (start + k) % COUNT
  }

  lemma NthNext(start: nat, k: nat)
    requires IsConnection(start)
    ensures Nth(start, 0) == start
    ensures NextConnection(Nth(start, k)) == Nth(start, k + 1)
    ensures 0 < k < COUNT ==> Nth(start, k) != start
    ensures Nth(start, COUNT) == start
  {
  }

  /** Every identifier is reached within one round. */
  lemma NthReaches(start: nat, id: nat) returns (k: nat)
    requires IsConnection(start) && IsConnection(id)
    ensures k < COUNT && Nth(start, k) == id
  {
    k := if id >= start then id - start else id + COUNT - start;
  }

  ghost predicate Exhausted(bufs: map<nat, nat>) {
    forall id | IsConnection(id) :: id in bufs
  }

  /** The first identifier from `start` on that is not in use. */
  ghost predicate IsFirstFree(bufs: map<nat, nat>, start: nat, id: nat) {
    && id !in bufs
    && exists k: nat :: k < COUNT && id == Nth(start, k) && AllTaken(bufs, start, k)
  }

  ghost predicate AllTaken(bufs: map<nat, nat>, start: nat, k: nat) {
    forall j: nat | j < k :: Nth(start, j) in bufs
  }

  lemma FirstFreeUnique(bufs: map<nat, nat>, start: nat, a: nat, b: nat)
    requires IsFirstFree(bufs, start, a) && IsFirstFree(bufs, start, b)
    ensures a == b
  {
    var j: nat :| j < COUNT && a == Nth(start, j) && AllTaken(bufs, start, j);
    var k: nat :| k < COUNT && b == Nth(start, k) && AllTaken(bufs, start, k);
    assert j < k ==> Nth(start, j) in bufs;
    assert k < j ==> Nth(start, k) in bufs;
  }

  /** Terminates within one round; finds the first free identifier unless all are taken. */
  method FindFree(bufs: map<nat, nat>, start: nat) returns (r: Option<nat>)
    requires IsConnection(start)
    ensures r.None? <==> Exhausted(bufs)
    ensures r.Some? ==> IsFirstFree(bufs, start, r.value)
  {
    var next := start;
    ghost var k: nat := 0;
    NthNext(start, 0);
    while next in bufs
      invariant k < COUNT && next == Nth(start, k) && AllTaken(bufs, start, k)
      decreases COUNT - k
    {
      NthNext(start, k);
      next := NextConnection(next);
      k := k + 1;
      NthNext(start, k);
      if next == start {
        RoundTaken(bufs, start);
        return None;
      }
    }
    r := Some(next);
  }

  lemma RoundTaken(bufs: map<nat, nat>, start: nat)
    requires IsConnection(start) && AllTaken(bufs, start, COUNT)
    ensures Exhausted(bufs)
  {
    forall id | IsConnection(id) ensures id in bufs {
      var k := NthReaches(start, id);
    }
  }

  // ---- Guest memory ---------------------------------------------------------------------------

  datatype Region = Region(base: nat, len: nat)

  predicate Backed(regions: seq<Region>, addr: nat) {
    exists i | 0 <= i < |regions| :: regions[i].base <= addr < regions[i].base + regions[i].len
  }

  predicate CheckRange(regions: seq<Region>, addr: nat, n: nat) {
    forall a | addr <= a < addr + n :: Backed(regions, a)
  }

  // ---- The device -------------------------------------------------------------------------------

  datatype State = PercpuInit(bufs: map<nat, nat>, next: nat) | Ready(bufs: map<nat, nat>) | Broken

  /** What the guest reads back: an acknowledgement, possibly with an identifier, or an error. */
  datatype Reply = Acked | Assigned(id: nat) | Refused

  /** The effect of a command on the state, and the reply. */
  ghost predicate Stepped(regions: seq<Region>, s: State, c: Command, addr: nat, s': State, reply: Reply) {
    match c
    case Reset => s' == PercpuInit(map[], FIRST) && reply == Acked
    case Register =>
      if s.PercpuInit? && CheckRange(regions, addr, BUFFER_SIZE) && !Exhausted(s.bufs) then
        && reply.Assigned? && IsFirstFree(s.bufs, s.next, reply.id)
        && s' == PercpuInit(s.bufs[reply.id := addr], NextConnection(reply.id))
      else s' == Broken && reply == Refused
    case Enable =>
      if s.PercpuInit? then s' == Ready(s.bufs) && reply == Acked else s' == Broken && reply == Refused
    case _ => s' == Broken && reply == Refused
  }

  function Lookup(s: State, id: nat): Option<nat> {
    if s.Ready? && id in s.bufs then Some(s.bufs[id]) else None
  }

  class PvmemcontrolDevice {
    var payload: nat
    var reply: Reply
    var state: State

    /** The device starts broken, until the guest resets it. */
    constructor ()
      ensures state == Broken && reply == Refused
    {
      payload, reply, state := 0, Refused, Broken;
    }

    /** Replaces the whole transport; a plain acknowledgement or error leaves the payload unspecified. */
    method Answer(s: State, r: Reply)
      modifies this
      ensures state == s && reply == r && (r.Assigned? ==> payload == r.id)
    {
      state, reply := s, r;
      payload := *;
      if r.Assigned? {
        payload := r.id;
      }
    }

    method RegisterPercpuBuf(regions: seq<Region>, bufs: map<nat, nat>, next: nat)
      requires IsConnection(next)
      modifies this
      ensures Stepped(regions, PercpuInit(bufs, next), Register, old(payload), state, reply)
      ensures reply.Assigned? ==> payload == reply.id
    {
      if !CheckRange(regions, payload, BUFFER_SIZE) {
        Answer(Broken, Refused);
        return;
      }
      var found := FindFree(bufs, next);
      if found.None? {
        Answer(Broken, Refused);
        return;
      }
      Answer(PercpuInit(bufs[found.value := payload], NextConnection(found.value)), Assigned(found.value));
    }

    /** After a registration the payload reads the identifier. */
    method RunCommand(regions: seq<Region>, c: Command)
      requires state.PercpuInit? ==> IsConnection(state.next)
      modifies this
      ensures Stepped(regions, old(state), c, old(payload), state, reply)
      ensures reply.Assigned? ==> payload == reply.id
    {
      var was := state;
      match c
      case Reset => Answer(PercpuInit(map[], FIRST), Acked);
      case Register =>
        if was.PercpuInit? {
          RegisterPercpuBuf(regions, was.bufs, was.next);
        } else {
          Answer(Broken, Refused);
        }
      case Enable =>
        if was.PercpuInit? {
          Answer(Ready(was.bufs), Acked);
        } else {
          Answer(Broken, Refused);
        }
      case Disconnect => Answer(Broken, Refused);
      case Ack => Answer(Broken, Refused);
      case Fail => Answer(Broken, Refused);
    }

    /** A write to the command register: a command, or a request on a connection's buffer. */
    method HandleCommandWrite(regions: seq<Region>, value: nat) returns (request: Option<nat>)
      requires value < U32_LIMIT && (state.PercpuInit? ==> IsConnection(state.next))
      modifies this
      ensures CommandOf(value).Some? ==>
                request == None && Stepped(regions, old(state), CommandOf(value).value, old(payload), state, reply)
      ensures CommandOf(value).Some? && reply.Assigned? ==> payload == reply.id
      ensures CommandOf(value).None? ==>
                state == old(state) && reply == old(reply) && payload == old(payload) &&
                request == if IsConnection(value) then Lookup(state, value) else None
    {
      CommandsAreNotConnections(value);
      var c := CommandOf(value);
      if c.Some? {
        RunCommand(regions, c.value);
        return None;
      }
      var conn := ConnectionOf(value);
      request := if conn.Some? then Lookup(state, conn.value) else None;
    }
  }

  // ---- Runs ---------------------------------------------------------------------------------------

  /** The state with the addresses registered since the last reset, oldest first. */
  datatype Session = Session(regions: seq<Region>, state: State, registered: seq<nat>)

  /** The `i`-th address registered has the `i`-th identifier. */
  ghost predicate Assigns(bufs: map<nat, nat>, registered: seq<nat>) {
    && |registered| <= COUNT
    && (forall id :: id in bufs <==> FIRST <= id < FIRST + |registered|)
    && (forall i | 0 <= i < |registered| :: FIRST + i in bufs && bufs[FIRST + i] == registered[i])
  }

  ghost predicate AllChecked(regions: seq<Region>, registered: seq<nat>) {
    forall i | 0 <= i < |registered| :: CheckRange(regions, registered[i], BUFFER_SIZE)
  }

  ghost predicate SessionInv(t: Session) {
    && AllChecked(t.regions, t.registered)
    && match t.state
       case PercpuInit(bufs, next) =>
         Assigns(bufs, t.registered) && next == if |t.registered| == COUNT then FIRST else FIRST + |t.registered|
       case Ready(bufs) => Assigns(bufs, t.registered)
       case Broken => true
  }

  datatype Event =
    | Execute(command: Command, addr: nat, state': State, reply: Reply)
    | Plug(region: Region)

  ghost predicate Possible(t: Session, e: Event) {
    e.Execute? ==> Stepped(t.regions, t.state, e.command, e.addr, e.state', e.reply)
  }

  function Happen(t: Session, e: Event): Session {
    match e
    case Plug(region) => t.(regions := t.regions + [region])
    case Execute(command, addr, state', reply) =>
      t.(state := state',
         registered := if command == Reset then [] else if reply.Assigned? then t.registered + [addr] else t.registered)
  }

  /** Without gaps, the search stops at once: the next identifier is free unless all are taken. */
  lemma NoSearch(bufs: map<nat, nat>, registered: seq<nat>, next: nat)
    requires Assigns(bufs, registered) && next == if |registered| == COUNT then FIRST else FIRST + |registered|
    ensures Exhausted(bufs) <==> |registered| == COUNT
    ensures |registered| < COUNT ==> IsFirstFree(bufs, next, next)
  {
    if |registered| < COUNT {
      NthNext(next, 0);
      assert AllTaken(bufs, next, 0);
      assert IsConnection(next) && next !in bufs;
    }
  }

  lemma {:induction false} MoreMemory(regions: seq<Region>, region: Region, addr: nat, n: nat)
    requires CheckRange(regions, addr, n)
    ensures CheckRange(regions + [region], addr, n)
  {
    forall a | addr <= a < addr + n ensures Backed(regions + [region], a) {
      assert Backed(regions, a);
      var k :| 0 <= k < |regions| && regions[k].base <= a < regions[k].base + regions[k].len;
      assert (regions + [region])[k] == regions[k];
    }
  }

  /** Registration hands out the next identifier in line. */
  lemma RegisterKeeps(t: Session, e: Event)
    requires SessionInv(t) && e.Execute? && e.command == Register && Possible(t, e)
    ensures SessionInv(Happen(t, e))
    ensures e.reply.Assigned? <==>
            t.state.PercpuInit? && CheckRange(t.regions, e.addr, BUFFER_SIZE) && |t.registered| < COUNT
    ensures e.reply.Assigned? ==> e.reply.id == FIRST + |t.registered|
  {
    if t.state.PercpuInit? {
      NoSearch(t.state.bufs, t.registered, t.state.next);
      if e.reply.Assigned? {
        FirstFreeUnique(t.state.bufs, t.state.next, t.state.next, e.reply.id);
      }
    }
  }

  lemma EventKeeps(t: Session, e: Event)
    requires SessionInv(t) && Possible(t, e)
    ensures SessionInv(Happen(t, e))
  {
    match e
    case Plug(region) =>
      forall i | 0 <= i < |t.registered| ensures CheckRange(t.regions + [region], t.registered[i], BUFFER_SIZE) {
        MoreMemory(t.regions, region, t.registered[i], BUFFER_SIZE);
      }
    case Execute(command, _, _, _) =>
      if command == Register {
        RegisterKeeps(t, e);
      }
  }

  ghost predicate CanHappen(t: Session, run: seq<Event>)
    decreases |run|
  {
    run == [] || (Possible(t, run[0]) && CanHappen(Happen(t, run[0]), run[1..]))
  }

  function HappenAll(t: Session, run: seq<Event>): Session
    decreases |run|
  {
    if run == [] then t else HappenAll(Happen(t, run[0]), run[1..])
  }

  lemma {:induction false} RunKeeps(t: Session, run: seq<Event>)
    requires SessionInv(t) && CanHappen(t, run)
    ensures SessionInv(HappenAll(t, run))
    decreases |run|
  {
    if run != [] {
      EventKeeps(t, run[0]);
      RunKeeps(Happen(t, run[0]), run[1..]);
    }
  }

  /**
   On every run from a fresh device: a lookup succeeds exactly in the ready state and
   exactly for the identifiers handed out since the last reset, which are consecutive
   from 0x8000_0000; it returns the address registered under that identifier, whose
   whole buffer lies in guest memory.
   */
  lemma LookupExactly(regions: seq<Region>, run: seq<Event>, id: nat)
    requires CanHappen(Session(regions, Broken, []), run)
    ensures var t := HappenAll(Session(regions, Broken, []), run);
            && (Lookup(t.state, id).Some? <==> t.state.Ready? && FIRST <= id < FIRST + |t.registered|)
            && (Lookup(t.state, id).Some? ==>
                  && Lookup(t.state, id).value == t.registered[id - FIRST]
                  && CheckRange(t.regions, t.registered[id - FIRST], BUFFER_SIZE))
  {
    RunKeeps(Session(regions, Broken, []), run);
    var t := HappenAll(Session(regions, Broken, []), run);
    if t.state.Ready? && FIRST <= id < FIRST + |t.registered| {
      assert FIRST + (id - FIRST) in t.state.bufs;
    }
  }

  /**
   After any run, a registration succeeds if and only if the device is initialising,
   the buffer lies in guest memory and fewer than 2^31 buffers are registered; it then
   yields the next identifier in line, which no command shares.
   */
  lemma RegisterExactly(regions: seq<Region>, run: seq<Event>, e: Event)
    requires CanHappen(Session(regions, Broken, []), run)
    requires e.Execute? && e.command == Register && Possible(HappenAll(Session(regions, Broken, []), run), e)
    ensures var t := HappenAll(Session(regions, Broken, []), run);
            && (e.reply.Assigned? <==>
                  t.state.PercpuInit? && CheckRange(t.regions, e.addr, BUFFER_SIZE) && |t.registered| < COUNT)
            && (e.reply.Assigned? ==> e.reply.id == FIRST + |t.registered| && CommandOf(e.reply.id).None?)
  {
    RunKeeps(Session(regions, Broken, []), run);
    RegisterKeeps(HappenAll(Session(regions, Broken, []), run), e);
  }
}
