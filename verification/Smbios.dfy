/**
 SMBIOS tables as text: what the writer prints, and the walker that reads it back
 (DMTF DSP0134, section 6.1).
 */
module Smbios {
  import opened Bytes

  type Text = seq<Byte>

  const BIOS_INFORMATION: Byte := 0
  const SYSTEM_INFORMATION: Byte := 1
  const SYSTEM_ENCLOSURE: Byte := 3
  const OEM_STRINGS: Byte := 11
  const END_OF_TABLE: Byte := 127

  const BIOS_INFO_LEN: nat := 0x14
  const SYS_INFO_LEN: nat := 0x1b
  const CHASSIS_LEN: nat := 0x15
  const OEM_STRINGS_LEN: nat := 5
  const END_LEN: nat := 4

  // ---- Configuration -------------------------------------------------------------------------

  /** A UUID string: absent, parsed to its 16 bytes, or malformed. */
  datatype Uuid = Absent | Parsed(bytes: Text) | Malformed

  datatype System = System(
    manufacturer: Option<Text>, product: Option<Text>, version: Option<Text>, serial: Option<Text>,
    uuid: Uuid, sku: Option<Text>, family: Option<Text>)

  datatype Chassis = Chassis(assetTag: Option<Text>)

  datatype Config = Config(system: Option<System>, chassis: Option<Chassis>, oem: seq<Text>)

  /** Without a configuration for it, the system structure has only the defaults. */
  function SystemOf(c: Config): System {
    if c.system.Some? then c.system.value else System(None, None, None, None, Absent, None, None)
  }

  /** "Cloud Hypervisor" and "cloud-hypervisor". */
  const DEFAULT_MANUFACTURER: Text :=
    [67, 108, 111, 117, 100, 32, 72, 121, 112, 101, 114, 118, 105, 115, 111, 114]
  const DEFAULT_PRODUCT: Text :=
    [99, 108, 111, 117, 100, 45, 104, 121, 112, 101, 114, 118, 105, 115, 111, 114]

  function OrElse(s: Option<Text>, default: Text): Text {
    if s.Some? then s.value else default
  }

  // ---- Structures --------------------------------------------------------------------------

  /** A formatted area and its strings. */
  datatype Structure = Structure(body: Text, strings: seq<Text>)

  function Low8(n: nat): Byte {
    (n % 256) as Byte
  }

  function Header(kind: Byte, length: nat, handle: nat): Text {
    [kind, Low8(length), Low8(handle), Low8(handle / 256)]
  }

  function BiosStructure(handle: nat): Structure {
    Structure(Header(BIOS_INFORMATION, BIOS_INFO_LEN, handle) + [1, 2] + [0, 0, 0, 0] + [0x80, 0, 0, 0, 0, 0, 0, 0] + [0, 0x10],
              [DEFAULT_PRODUCT, [48]])
  }

  /** The strings that are there, in order. */
  function Collect(opts: seq<Option<Text>>): seq<Text> {
    if opts == [] then []
    else (if opts[0].Some? then [opts[0].value] else []) + Collect(opts[1..])
  }

  /** The index of the `k`-th string among those that are there, from 1; 0 if it is not. */
  function IndexIn(opts: seq<Option<Text>>, k: nat): nat
    requires k < |opts|
  {
    if opts[k].Some? then |Collect(opts[..k])| + 1 else 0
  }

  /** The strings of the system structure in writing order. */
  function SystemOpts(s: System): (opts: seq<Option<Text>>)
    ensures |opts| == 6
  {
    [Some(OrElse(s.manufacturer, DEFAULT_MANUFACTURER)), Some(OrElse(s.product, DEFAULT_PRODUCT)),
     s.version, s.serial, s.sku, s.family]
  }

  function SystemBody(handle: nat, opts: seq<Option<Text>>, uuid: Uuid): (b: Text)
    requires |opts| == 6
    ensures |b| == SYS_INFO_LEN
  {
    Header(SYSTEM_INFORMATION, SYS_INFO_LEN, handle)
    + [Low8(IndexIn(opts, 0)), Low8(IndexIn(opts, 1)), Low8(IndexIn(opts, 2)), Low8(IndexIn(opts, 3))]
    + UuidBytes(uuid)
    + [2, Low8(IndexIn(opts, 4)), Low8(IndexIn(opts, 5))]
  }

  function UuidBytes(u: Uuid): (b: Text)
    ensures |b| == 16
  {
    if u.Parsed? && |u.bytes| == 16 then u.bytes else seq(16, _ => 0)
  }

  function SystemStructure(handle: nat, s: System): Structure {
    Structure(SystemBody(handle, SystemOpts(s), s.uuid), Collect(SystemOpts(s)))
  }

  function ChassisBody(handle: nat, assetTag: Option<Text>): (b: Text)
    ensures |b| == CHASSIS_LEN
  {
    Header(SYSTEM_ENCLOSURE, CHASSIS_LEN, handle)
    + [0, 2, 0, 0, Low8(IndexIn([assetTag], 0)), 2, 2, 2, 3] + [0, 0, 0, 0] + [0, 0, 0, 0]
  }

  function ChassisStructure(handle: nat, c: Chassis): Structure {
    Structure(ChassisBody(handle, c.assetTag), Collect([c.assetTag]))
  }

  function OemStructure(handle: nat, oem: seq<Text>): Structure {
    Structure(Header(OEM_STRINGS, OEM_STRINGS_LEN, handle) + [Low8(|oem|)], oem)
  }

  function EndStructure(handle: nat): Structure {
    Structure(Header(END_OF_TABLE, END_LEN, handle), [])
  }

  /** The structures of a configuration, with consecutive handles from 1. */
  function Table(c: Config): seq<Structure> {
    Arrange(BiosStructure(1), SystemStructure(2, SystemOf(c)),
            if c.chassis.Some? then [ChassisStructure(3, c.chassis.value)] else [],
            if c.oem != [] then [OemStructure(OemHandle(c), c.oem)] else [],
            EndStructure(EndHandle(c)))
  }

  function Arrange(bios: Structure, system: Structure, chassis: seq<Structure>, oem: seq<Structure>, end: Structure)
    : seq<Structure>
  {
    [bios] + [system] + (chassis + oem) + [end]
  }

  function OemHandle(c: Config): nat {
    if c.chassis.Some? then 4 else 3
  }

  function EndHandle(c: Config): nat {
    if c.oem != [] then OemHandle(c) + 1 else OemHandle(c)
  }

  // ---- Printing -----------------------------------------------------------------------------

  function Flat(strings: seq<Text>): Text {
    if strings == [] then [] else strings[0] + [0] + Flat(strings[1..])
  }

  /** Strings with their terminators and an extra one; two terminators if there is no string. */
  function StringSet(strings: seq<Text>): Text {
    if strings == [] then [0, 0] else Flat(strings) + [0]
  }

  function Print(s: Structure): Text {
    s.body + StringSet(s.strings)
  }

  function PrintAll(ss: seq<Structure>): Text {
    if ss == [] then [] else Print(ss[0]) + PrintAll(ss[1..])
  }

  // ---- Reading -------------------------------------------------------------------------------

  /** A string up to its terminator, and what follows. */
  function ReadString(b: Text): Option<(Text, Text)>
    decreases |b|
  {
    if b == [] then None
    else if b[0] == 0 then Some(([], b[1..]))
    else
      var r := ReadString(b[1..]);
      if r.None? then None else Some(([b[0]] + r.value.0, r.value.1))
  }

  lemma {:induction false} ReadStringShrinks(b: Text)
    ensures ReadString(b).Some? ==> |ReadString(b).value.0| + 1 + |ReadString(b).value.1| == |b|
    decreases |b|
  {
    if b != [] && b[0] != 0 {
      ReadStringShrinks(b[1..]);
    }
  }

  /** Strings until a terminator follows one directly. */
  function ReadStrings(b: Text): Option<(seq<Text>, Text)>
    decreases |b|
  {
    ReadStringShrinks(b);
    var first := ReadString(b);
    if first.None? || first.value.1 == [] then None
    else if first.value.1[0] == 0 then Some(([first.value.0], first.value.1[1..]))
    else
      var rest := ReadStrings(first.value.1);
      if rest.None? then None else Some(([first.value.0] + rest.value.0, rest.value.1))
  }

  function ReadStringSet(b: Text): Option<(seq<Text>, Text)> {
    if b == [] then None
    else if b[0] == 0 then (if |b| < 2 || b[1] != 0 then None else Some(([], b[2..])))
    else ReadStrings(b)
  }

  /** A structure: its formatted area by the length in its header, then its strings. */
  function ReadStructure(b: Text): Option<(Structure, Text)> {
    if |b| < 4 then None
    else
      var len := b[1] as nat;
      if len < 4 || |b| < len then None
      else
        var strings := ReadStringSet(b[len..]);
        if strings.None? then None else Some((Structure(b[..len], strings.value.0), strings.value.1))
  }

  lemma {:induction false} ReadStringsShrink(b: Text)
    ensures ReadStrings(b).Some? ==> |ReadStrings(b).value.1| < |b|
    decreases |b|
  {
    ReadStringShrinks(b);
    var first := ReadString(b);
    if first.Some? && first.value.1 != [] && first.value.1[0] != 0 {
      ReadStringsShrink(first.value.1);
    }
  }

  lemma ReadStructureShrinks(b: Text)
    ensures ReadStructure(b).Some? ==> |ReadStructure(b).value.1| < |b| && |ReadStructure(b).value.0.body| >= 4
  {
    if |b| >= 4 && 4 <= b[1] as nat <= |b| {
      ReadStringsShrink(b[b[1] as nat..]);
    }
  }

  /** Structures up to and including the end-of-table structure. */
  function Walk(b: Text): Option<(seq<Structure>, Text)>
    decreases |b|
  {
    ReadStructureShrinks(b);
    var first := ReadStructure(b);
    if first.None? then None
    else if first.value.0.body[0] == END_OF_TABLE then Some(([first.value.0], first.value.1))
    else
      var rest := Walk(first.value.1);
      if rest.None? then None else Some(([first.value.0] + rest.value.0, rest.value.1))
  }

  // ---- Round trip -----------------------------------------------------------------------------

  /** A string that survives: neither empty nor containing the terminator. */
  predicate Printable(s: Text) {
    s != [] && 0 !in s
  }

  predicate AllPrintable(ss: seq<Text>) {
    forall i | 0 <= i < |ss| :: Printable(ss[i])
  }

  lemma {:induction false} ReadPrinted(s: Text, rest: Text)
    requires 0 !in s
    ensures ReadString(s + [0] + rest) == Some((s, rest))
    decreases |s|
  {
    var b := s + [0] + rest;
    if s == [] {
      assert b[1..] == rest;
    } else {
      assert b[0] == s[0] && s[0] != 0;
      assert b[1..] == s[1..] + [0] + rest;
      ReadPrinted(s[1..], rest);
      assert [s[0]] + s[1..] == s;
    }
  }

  lemma {:induction false} ReadFlat(ss: seq<Text>, rest: Text)
    requires ss != [] && AllPrintable(ss)
    ensures ReadStrings(Flat(ss) + [0] + rest) == Some((ss, rest))
    decreases |ss|
  {
    var tail := Flat(ss[1..]) + [0] + rest;
    assert Flat(ss) + [0] + rest == ss[0] + [0] + tail;
    ReadPrinted(ss[0], tail);
    if |ss| == 1 {
      assert tail == [0] + rest && tail[1..] == rest;
      assert ss == [ss[0]];
    } else {
      assert ss[1..][0] == ss[1] && Printable(ss[1]);
      assert tail[0] == ss[1][0];
      ReadFlat(ss[1..], rest);
      assert ss == [ss[0]] + ss[1..];
    }
  }

  /** A printed string set is read back, with the rest untouched. */
  lemma ReadPrintedSet(ss: seq<Text>, rest: Text)
    requires AllPrintable(ss)
    ensures ReadStringSet(StringSet(ss) + rest) == Some((ss, rest))
  {
    if ss == [] {
      assert ([0, 0] + rest)[2..] == rest;
    } else {
      ReadFlat(ss, rest);
      assert StringSet(ss) + rest == Flat(ss) + [0] + rest;
      assert Printable(ss[0]) && (Flat(ss) + [0] + rest)[0] == ss[0][0];
    }
  }

  lemma {:induction false} ReadStringClean(b: Text)
    requires ReadString(b).Some?
    ensures 0 !in ReadString(b).value.0
    ensures b != [] && (b[0] != 0 ==> ReadString(b).value.0 != [])
    decreases |b|
  {
    if b[0] != 0 {
      ReadStringClean(b[1..]);
    }
  }

  /** The reader never returns a string that is empty or holds a terminator. */
  lemma {:induction false} ReadStringsClean(b: Text)
    requires b != [] && b[0] != 0 && ReadStrings(b).Some?
    ensures AllPrintable(ReadStrings(b).value.0)
    decreases |b|
  {
    ReadStringShrinks(b);
    ReadStringClean(b);
    var first := ReadString(b).value;
    if first.1[0] != 0 {
      ReadStringsClean(first.1);
    }
  }

  /** A string set is recovered if and only if its strings are printable. */
  lemma StringSetRecoveredExactly(ss: seq<Text>, rest: Text)
    ensures ReadStringSet(StringSet(ss) + rest) == Some((ss, rest)) <==> AllPrintable(ss)
  {
    if AllPrintable(ss) {
      ReadPrintedSet(ss, rest);
    }
    var b := StringSet(ss) + rest;
    if ReadStringSet(b) == Some((ss, rest)) && b[0] != 0 {
      ReadStringsClean(b);
    }
  }

  /** Header and length agree with the formatted area. */
  predicate Framed(s: Structure) {
    4 <= |s.body| < 256 && s.body[1] as nat == |s.body|
  }

  lemma ReadPrintedStructure(s: Structure, rest: Text)
    requires Framed(s)
    ensures ReadStructure(Print(s) + rest) == Some((s, rest)) <==> AllPrintable(s.strings)
  {
    var b := Print(s) + rest;
    assert b[..|s.body|] == s.body && b[|s.body|..] == StringSet(s.strings) + rest;
    StringSetRecoveredExactly(s.strings, rest);
  }

  /** The end-of-table structure, and it alone, comes last. */
  predicate Ended(ss: seq<Structure>) {
    && ss != []
    && (forall i | 0 <= i < |ss| :: Framed(ss[i]))
    && (forall i | 0 <= i < |ss| :: ss[i].body[0] == END_OF_TABLE <==> i == |ss| - 1)
  }

  predicate Recoverable(ss: seq<Structure>) {
    forall i | 0 <= i < |ss| :: AllPrintable(ss[i].strings)
  }

  lemma {:induction false} WalkPrinted(ss: seq<Structure>, rest: Text)
    requires Ended(ss) && Recoverable(ss)
    ensures Walk(PrintAll(ss) + rest) == Some((ss, rest))
    decreases |ss|
  {
    hide Print, ReadStructure, AllPrintable;
    var tail := PrintAll(ss[1..]) + rest;
    PrintFirst(ss, rest);
    ReadPrintedStructure(ss[0], tail);
    if |ss| == 1 {
      assert tail == rest && ss == [ss[0]];
    } else {
      EndedTail(ss);
      WalkPrinted(ss[1..], rest);
      assert ss == [ss[0]] + ss[1..];
    }
  }

  lemma PrintFirst(ss: seq<Structure>, rest: Text)
    requires ss != []
    ensures PrintAll(ss) + rest == Print(ss[0]) + (PrintAll(ss[1..]) + rest)
  {
  }

  lemma EndedTail(ss: seq<Structure>)
    requires Ended(ss) && Recoverable(ss) && |ss| > 1
    ensures Ended(ss[1..]) && Recoverable(ss[1..]) && ss[0].body[0] != END_OF_TABLE
  {
    forall i | 0 <= i < |ss[1..]|
      ensures Framed(ss[1..][i]) && AllPrintable(ss[1..][i].strings)
      ensures ss[1..][i].body[0] == END_OF_TABLE <==> i == |ss[1..]| - 1
    {
      assert ss[1..][i] == ss[i + 1];
    }
  }

  /** Strings the walker returns are always printable. */
  lemma {:induction false} WalkClean(b: Text)
    requires Walk(b).Some?
    ensures Recoverable(Walk(b).value.0)
    decreases |b|
  {
    ReadStructureShrinks(b);
    var len := b[1] as nat;
    var strings := b[len..];
    if strings[0] != 0 {
      ReadStringsClean(strings);
    }
    var first := ReadStructure(b).value;
    if first.0.body[0] != END_OF_TABLE {
      WalkClean(first.1);
    }
  }

  // ---- Tables --------------------------------------------------------------------------------

  predicate PrintableOpt(s: Option<Text>) {
    s.Some? ==> Printable(s.value)
  }

  /** Every configured string is neither empty nor contains a NUL. */
  predicate PrintableConfig(c: Config) {
    var s := SystemOf(c);
    && PrintableOpt(s.manufacturer) && PrintableOpt(s.product) && PrintableOpt(s.version)
    && PrintableOpt(s.serial) && PrintableOpt(s.sku) && PrintableOpt(s.family)
    && (c.chassis.Some? ==> PrintableOpt(c.chassis.value.assetTag))
    && AllPrintable(c.oem)
  }

  lemma SystemFramed(h: nat, s: System)
    ensures Framed(SystemStructure(h, s)) && SystemStructure(h, s).body[0] == SYSTEM_INFORMATION
  {
  }

  lemma ChassisFramed(h: nat, c: Chassis)
    ensures Framed(ChassisStructure(h, c)) && ChassisStructure(h, c).body[0] == SYSTEM_ENCLOSURE
  {
  }

  lemma OthersFramed(h: nat, oem: seq<Text>)
    ensures Framed(BiosStructure(h)) && BiosStructure(h).body[0] == BIOS_INFORMATION
    ensures Framed(OemStructure(h, oem)) && OemStructure(h, oem).body[0] == OEM_STRINGS
    ensures Framed(EndStructure(h)) && EndStructure(h).body[0] == END_OF_TABLE
  {
  }

  lemma ArrangedAt(bios: Structure, system: Structure, chassis: seq<Structure>, oem: seq<Structure>, end: Structure)
    requires |chassis| <= 1 && |oem| <= 1
    ensures var ss, n := Arrange(bios, system, chassis, oem, end), 2 + |chassis|;
            && |ss| == n + |oem| + 1 && ss[0] == bios && ss[1] == system && ss[n + |oem|] == end
            && (chassis != [] ==> ss[2] == chassis[0]) && (oem != [] ==> ss[n] == oem[0])
  {
  }

  /** The position of each structure in the table. */
  lemma TableAt(c: Config) returns (n: nat, m: nat)
    ensures var ss := Table(c);
            && n + 1 == OemHandle(c) && m + 1 == EndHandle(c) && |ss| == m + 1
            && ss[0] == BiosStructure(1) && ss[1] == SystemStructure(2, SystemOf(c))
            && (c.chassis.Some? ==> n == 3 && ss[2] == ChassisStructure(3, c.chassis.value))
            && (c.oem != [] ==> m == n + 1 && ss[n] == OemStructure(n + 1, c.oem))
            && (c.chassis.None? ==> n == 2) && (c.oem == [] ==> m == n)
            && ss[m] == EndStructure(m + 1)
  {
    n, m := OemHandle(c) - 1, EndHandle(c) - 1;
    ArrangedAt(BiosStructure(1), SystemStructure(2, SystemOf(c)),
               if c.chassis.Some? then [ChassisStructure(3, c.chassis.value)] else [],
               if c.oem != [] then [OemStructure(OemHandle(c), c.oem)] else [],
               EndStructure(EndHandle(c)));
  }

  /** Every structure is framed; types come in a fixed order: 0, 1, then 3 and 11 if configured, then 127. */
  lemma TableFramed(c: Config)
    ensures var ss := Table(c);
            && (forall i | 0 <= i < |ss| :: Framed(ss[i]))
            && ss[0].body[0] == BIOS_INFORMATION && ss[1].body[0] == SYSTEM_INFORMATION
            && |ss| == 3 + Count(c.chassis.Some?) + Count(c.oem != [])
            && (c.chassis.Some? ==> ss[2].body[0] == SYSTEM_ENCLOSURE)
            && (c.oem != [] ==> ss[|ss| - 2].body[0] == OEM_STRINGS)
            && ss[|ss| - 1].body[0] == END_OF_TABLE
  {
    var n, m := TableAt(c);
    OthersFramed(1, []);
    SystemFramed(2, SystemOf(c));
    if c.chassis.Some? {
      ChassisFramed(3, c.chassis.value);
    }
    OthersFramed(n + 1, c.oem);
    OthersFramed(m + 1, []);
  }

  function Count(b: bool): nat {
    if b then 1 else 0
  }

  lemma TableEnded(c: Config)
    ensures Ended(Table(c))
  {
    TableFramed(c);
  }

  lemma {:induction false} CollectAppend(a: seq<Option<Text>>, b: seq<Option<Text>>)
    ensures Collect(a + b) == Collect(a) + Collect(b)
    decreases |a|
  {
    if a == [] {
      assert a + b == b;
    } else {
      assert (a + b)[1..] == a[1..] + b;
      CollectAppend(a[1..], b);
    }
  }

  lemma CollectOne(s: Option<Text>)
    ensures Collect([s]) == if s.Some? then [s.value] else []
  {
    assert [s][1..] == [];
  }

  /** What `opts` collects, taken apart at `k`. */
  lemma CollectAt(opts: seq<Option<Text>>, k: nat)
    requires k < |opts|
    ensures Collect(opts[..k + 1]) == Collect(opts[..k]) + Collect([opts[k]])
    ensures Collect(opts) == Collect(opts[..k]) + Collect([opts[k]]) + Collect(opts[k + 1..])
  {
    assert opts[..k + 1] == opts[..k] + [opts[k]];
    CollectAppend(opts[..k], [opts[k]]);
    assert opts == opts[..k + 1] + opts[k + 1..];
    CollectAppend(opts[..k + 1], opts[k + 1..]);
  }

  predicate AllOptPrintable(opts: seq<Option<Text>>) {
    forall k | 0 <= k < |opts| :: PrintableOpt(opts[k])
  }

  lemma {:induction false} CollectPrintable(opts: seq<Option<Text>>)
    ensures AllPrintable(Collect(opts)) <==> AllOptPrintable(opts)
    decreases |opts|
  {
    if opts != [] {
      CollectPrintable(opts[1..]);
      assert opts[0].Some? ==> Collect(opts)[0] == opts[0].value;
      assert Collect(opts)[(if opts[0].Some? then 1 else 0)..] == Collect(opts[1..]);
      if AllPrintable(Collect(opts)) {
        var d := if opts[0].Some? then 1 else 0;
        assert forall i | 0 <= i < |Collect(opts[1..])| :: Collect(opts[1..])[i] == Collect(opts)[i + d];
        assert forall k | 0 < k < |opts| :: opts[k] == opts[1..][k - 1];
      }
      if AllOptPrintable(opts) {
        assert AllOptPrintable(opts[1..]);
      }
    }
  }

  lemma SystemPrintable(s: System)
    ensures AllOptPrintable(SystemOpts(s)) <==>
            && PrintableOpt(s.manufacturer) && PrintableOpt(s.product) && PrintableOpt(s.version)
            && PrintableOpt(s.serial) && PrintableOpt(s.sku) && PrintableOpt(s.family)
  {
    assert Printable(DEFAULT_MANUFACTURER) && Printable(DEFAULT_PRODUCT);
    var opts := SystemOpts(s);
    assert opts[0].value == OrElse(s.manufacturer, DEFAULT_MANUFACTURER) && opts[1].value == OrElse(s.product, DEFAULT_PRODUCT);
    assert opts[2] == s.version && opts[3] == s.serial && opts[4] == s.sku && opts[5] == s.family;
  }

  lemma OnePrintable(s: Option<Text>)
    ensures AllPrintable(Collect([s])) <==> PrintableOpt(s)
  {
    CollectOne(s);
    assert s.Some? ==> Collect([s])[0] == s.value;
  }

  lemma RecoverableArranged(
    bios: Structure, system: Structure, chassis: seq<Structure>, oem: seq<Structure>, end: Structure)
    requires |chassis| <= 1 && |oem| <= 1 && AllPrintable(bios.strings) && AllPrintable(end.strings)
    ensures Recoverable(Arrange(bios, system, chassis, oem, end)) <==>
            && AllPrintable(system.strings)
            && (chassis != [] ==> AllPrintable(chassis[0].strings))
            && (oem != [] ==> AllPrintable(oem[0].strings))
  {
    ArrangedAt(bios, system, chassis, oem, end);
  }

  lemma TableRecoverable(c: Config)
    ensures Recoverable(Table(c)) <==> PrintableConfig(c)
  {
    assert Printable([48]) && Printable(DEFAULT_PRODUCT);
    RecoverableArranged(BiosStructure(1), SystemStructure(2, SystemOf(c)),
                        if c.chassis.Some? then [ChassisStructure(3, c.chassis.value)] else [],
                        if c.oem != [] then [OemStructure(OemHandle(c), c.oem)] else [],
                        EndStructure(EndHandle(c)));
    SystemPrintable(SystemOf(c));
    CollectPrintable(SystemOpts(SystemOf(c)));
    if c.chassis.Some? {
      OnePrintable(c.chassis.value.assetTag);
    }
  }

  /**
   Walking the printed table by header lengths and string sets yields exactly its
   structures and ends exactly where the writer stopped, whatever follows: if and only
   if no configured string is empty or contains a NUL.
   */
  lemma TableRoundTripExactly(c: Config, rest: Text)
    ensures Walk(PrintAll(Table(c)) + rest) == Some((Table(c), rest)) <==> PrintableConfig(c)
  {
    TableEnded(c);
    TableRecoverable(c);
    if PrintableConfig(c) {
      WalkPrinted(Table(c), rest);
    }
    if Walk(PrintAll(Table(c)) + rest) == Some((Table(c), rest)) {
      WalkClean(PrintAll(Table(c)) + rest);
    }
  }

  /** An index names its string; 0 means there is none. */
  predicate Names(strings: seq<Text>, index: Byte, s: Option<Text>) {
    if s.None? then index == 0
    else 1 <= index as nat <= |strings| && strings[index as nat - 1] == s.value
  }

  lemma IndexNames(opts: seq<Option<Text>>, k: nat)
    requires k < |opts| < 256
    ensures Names(Collect(opts), Low8(IndexIn(opts, k)), opts[k])
  {
    hide Collect;
    CollectAt(opts, k);
    CollectOne(opts[k]);
    CollectShort(opts[..k]);
    if opts[k].Some? {
      Middle(Collect(opts[..k]), opts[k].value, Collect(opts[k + 1..]), Collect(opts));
    }
  }

  lemma Middle(a: seq<Text>, x: Text, b: seq<Text>, all: seq<Text>)
    requires all == a + [x] + b
    ensures |a| < |all| && all[|a|] == x
  {
  }

  lemma {:induction false} CollectShort(opts: seq<Option<Text>>)
    ensures |Collect(opts)| <= |opts|
    decreases |opts|
  {
    if opts != [] {
      CollectShort(opts[1..]);
    }
  }

  /** Every index field of the system structure names its own string. */
  lemma SystemIndicesName(h: nat, s: System)
    ensures var body, ss := SystemStructure(h, s).body, SystemStructure(h, s).strings;
            && |body| == SYS_INFO_LEN
            && Names(ss, body[4], Some(OrElse(s.manufacturer, DEFAULT_MANUFACTURER)))
            && Names(ss, body[5], Some(OrElse(s.product, DEFAULT_PRODUCT)))
            && Names(ss, body[6], s.version) && Names(ss, body[7], s.serial)
            && Names(ss, body[25], s.sku) && Names(ss, body[26], s.family)
  {
    var opts := SystemOpts(s);
    IndexNames(opts, 0);
    IndexNames(opts, 1);
    IndexNames(opts, 2);
    IndexNames(opts, 3);
    IndexNames(opts, 4);
    IndexNames(opts, 5);
  }

  lemma ChassisIndexNames(h: nat, c: Chassis)
    ensures Names(ChassisStructure(h, c).strings, ChassisStructure(h, c).body[8], c.assetTag)
  {
    IndexNames([c.assetTag], 0);
  }

  /** The OEM count is the number of strings if and only if it fits in a byte. */
  lemma OemCountExactly(h: nat, oem: seq<Text>)
    ensures OemStructure(h, oem).body[4] as nat == |oem| <==> |oem| <= 255
  {
  }

  /** The handle in a structure's header. */
  function HandleOf(s: Structure): nat
    requires |s.body| >= 4
  {
    s.body[2] as nat + 256 * (s.body[3] as nat)
  }

  lemma HandlesAre(h: nat, s: System, c: Chassis, oem: seq<Text>)
    requires h < 0x1_0000
    ensures HandleOf(BiosStructure(h)) == h && HandleOf(SystemStructure(h, s)) == h
    ensures HandleOf(ChassisStructure(h, c)) == h
    ensures HandleOf(OemStructure(h, oem)) == h && HandleOf(EndStructure(h)) == h
  {
  }

  /** Handles are unique: the position of the structure, from 1. */
  lemma HandlesConsecutive(c: Config, i: nat)
    requires i < |Table(c)|
    ensures |Table(c)[i].body| >= 4 && HandleOf(Table(c)[i]) == i + 1
  {
    hide Table, HandleOf, BiosStructure, SystemStructure, ChassisStructure, OemStructure, EndStructure;
    var n, m := TableAt(c);
    TableFramed(c);
    var chassis := if c.chassis.Some? then c.chassis.value else Chassis(None);
    HandlesAre(i + 1, SystemOf(c), chassis, c.oem);
  }

  /** The system structure carries the UUID's bytes, or zeros if none is configured. */
  lemma SystemCarriesUuid(h: nat, s: System)
    ensures |SystemStructure(h, s).body| == SYS_INFO_LEN
    ensures s.uuid.Parsed? && |s.uuid.bytes| == 16 ==> SystemStructure(h, s).body[8..24] == s.uuid.bytes
    ensures s.uuid.Absent? ==> forall i | 8 <= i < 24 :: SystemStructure(h, s).body[i] == 0
  {
    UuidPlace(Header(SYSTEM_INFORMATION, SYS_INFO_LEN, h), SystemOpts(s), s.uuid);
  }

  lemma UuidPlace(header: Text, opts: seq<Option<Text>>, uuid: Uuid)
    requires |header| == 4 && |opts| == 6
    ensures var b := header + [Low8(IndexIn(opts, 0)), Low8(IndexIn(opts, 1)), Low8(IndexIn(opts, 2)), Low8(IndexIn(opts, 3))]
                     + UuidBytes(uuid) + [2, Low8(IndexIn(opts, 4)), Low8(IndexIn(opts, 5))];
            |b| == SYS_INFO_LEN && b[8..24] == UuidBytes(uuid)
  {
  }
}
