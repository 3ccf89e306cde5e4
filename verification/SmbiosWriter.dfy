/** The SMBIOS writer as it runs: a moving pointer into guest memory, a handle and a string index. */
module SmbiosWriter {
  import opened Bytes
  import opened Smbios

  const ENTRY_LEN: nat := 0x18
  const CHECKSUM_AT: nat := 5

  datatype Error = NotEnoughMemory | WriteData | ParseUuid | TooManyStrings

  // ---- Checksum ------------------------------------------------------------------------------

  function Sum(b: Text): nat {
    if b == [] then 0 else Sum(b[..|b| - 1]) + b[|b| - 1] as nat
  }

  lemma {:induction false} SumUpdate(b: Text, i: nat, v: Byte)
    requires i < |b|
    ensures Sum(b[i := v]) + b[i] as nat == Sum(b) + v as nat
    decreases |b|
  {
    var last := |b| - 1;
    if i < last {
      assert b[i := v][..last] == b[..last][i := v];
      SumUpdate(b[..last], i, v);
    } else {
      assert b[i := v][..last] == b[..last];
    }
  }

  /** The byte that makes the bytes add up to zero. */
  method ComputeChecksum(v: Text) returns (r: Byte)
    ensures (Sum(v) + r as nat) % 256 == 0
  {
    var checksum: nat := 0;
    for i := 0 to |v|
      invariant checksum < 256 && checksum == Sum(v[..i]) % 256
    {
      assert v[..i + 1][..i] == v[..i];
      checksum := (checksum + v[i] as nat) % 256;
    }
    assert v[..|v|] == v;
    r := ((255 - checksum + 1) % 256) as Byte;
  }

  // ---- Entry point ----------------------------------------------------------------------------

  /** Little-endian words. */
  function Le32(n: nat): (b: Text)
    ensures |b| == 4
  {
    [Low8(n), Low8(n / 0x100), Low8(n / 0x1_0000), Low8(n / 0x100_0000)]
  }

  function Value32(b: Text): nat
    requires |b| == 4
  {
    b[0] as nat + 0x100 * (b[1] as nat) + 0x1_0000 * (b[2] as nat) + 0x100_0000 * (b[3] as nat)
  }

  function Le64(n: nat): (b: Text)
    ensures |b| == 8
  {
    Le32(n % U32_LIMIT) + Le32(n / U32_LIMIT)
  }

  function Value64(b: Text): nat
    requires |b| == 8
  {
    Value32(b[..4]) + U32_LIMIT * Value32(b[4..])
  }

  lemma Word32(n: nat)
    requires n < U32_LIMIT
    ensures Value32(Le32(n)) == n
  {
    var a := n / 0x100;
    var b := a / 0x100;
    assert n / 0x1_0000 == b;
    assert n / 0x100_0000 == b / 0x100;
  }

  lemma Word64(n: nat)
    requires n < U64_LIMIT
    ensures Value64(Le64(n)) == n
  {
    Word32(n % U32_LIMIT);
    Word32(n / U32_LIMIT);
    assert Le64(n)[..4] == Le32(n % U32_LIMIT) && Le64(n)[4..] == Le32(n / U32_LIMIT);
  }

  /** Anchor, checksum, length and version. */
  function EntryHead(checksum: Byte): (b: Text)
    ensures |b| == 12 && b[CHECKSUM_AT] == checksum
  {
    [95, 83, 77, 51, 95] + [checksum, 0x18, 3, 2, 0, 1, 0]
  }

  /** The 64-bit entry point for a table of `size` bytes behind it. */
  function EntryPoint(start: nat, size: nat, checksum: Byte): (b: Text)
    ensures |b| == ENTRY_LEN
  {
    EntryHead(checksum) + Le32(size % U32_LIMIT) + Le64(start + ENTRY_LEN)
  }

  lemma Parts(a: Text, b: Text, c: Text, e: Text)
    requires |a| == 12 && |b| == 4 && e == a + b + c
    ensures e[12..16] == b && e[16..] == c
  {
  }

  lemma EntryPointFields(start: nat, size: nat, checksum: Byte)
    requires size < U32_LIMIT && start + ENTRY_LEN < U64_LIMIT
    ensures var b := EntryPoint(start, size, checksum);
            Value32(b[12..16]) == size && Value64(b[16..]) == start + ENTRY_LEN
  {
    var e := EntryPoint(start, size, checksum);
    Parts(EntryHead(checksum), Le32(size), Le64(start + ENTRY_LEN), e);
    Word32Is(e[12..16], size);
    Word64Is(e[16..], start + ENTRY_LEN);
  }

  lemma Word32Is(b: Text, n: nat)
    requires n < U32_LIMIT && b == Le32(n)
    ensures Value32(b) == n
  {
    Word32(n);
  }

  lemma Word64Is(b: Text, n: nat)
    requires n < U64_LIMIT && b == Le64(n)
    ensures Value64(b) == n
  {
    Word64(n);
  }

  /** Only the checksum byte depends on the checksum. */
  lemma EntryPointChecksum(start: nat, size: nat, checksum: Byte)
    ensures EntryPoint(start, size, checksum) == EntryPoint(start, size, 0)[CHECKSUM_AT := checksum]
  {
    var a, b := EntryHead(0), Le32(size % U32_LIMIT) + Le64(start + ENTRY_LEN);
    assert EntryHead(checksum) == a[CHECKSUM_AT := checksum];
    UpdateHead(a, b, CHECKSUM_AT, checksum);
    assert EntryPoint(start, size, 0) == a + b;
    assert EntryPoint(start, size, checksum) == EntryHead(checksum) + b;
  }

  lemma UpdateHead(a: Text, b: Text, i: nat, v: Byte)
    requires i < |a|
    ensures (a + b)[i := v] == a[i := v] + b
  {
  }

  // ---- String indices -----------------------------------------------------------------------

  /** Hands out 1, 2, ... 255; the counter wraps to 0 after 255, where no index is left. */
  method AllocIndex(next: nat, present: bool) returns (r: Result<nat, Error>, next': nat)
    requires next < 256
    ensures !present ==> r == Ok(0) && next' == next
    ensures present ==> (r == Err(TooManyStrings) <==> next == 0) && (next != 0 ==> r == Ok(next))
    ensures present && next != 0 ==> next' == (next + 1) % 256
    ensures r.Err? ==> next' == next
  {
    if !present {
      return Ok(0), next;
    }
    if next == 0 {
      return Err(TooManyStrings), next;
    }
    r, next' := Ok(next), (next + 1) % 256;
  }

  // ---- The writer -------------------------------------------------------------------------------

  class Writer {
    /** Guest memory from the start of the SMBIOS area. */
    const mem: array<Byte>
    var cur: nat
    var handle: nat
    /** What has been written behind the entry point. */
    ghost var text: Text

    ghost predicate Valid()
      reads this, mem
    {
      ENTRY_LEN <= cur <= mem.Length && mem[ENTRY_LEN..cur] == text
    }

    constructor (mem: array<Byte>)
      requires ENTRY_LEN <= mem.Length
      ensures this.mem == mem && Valid() && text == [] && handle == 0
    {
      this.mem := mem;
      cur, handle, text := ENTRY_LEN, 0, [];
    }

    /** What a step that writes `bytes` does: all of them, or not enough memory for them. */
    twostate predicate Wrote(ok: bool, bytes: Text)
      reads this, mem
    {
      && Valid()
      && (ok ==> text == old(text) + bytes)
      && (!ok ==> |old(text)| + |bytes| + ENTRY_LEN > mem.Length)
    }

    method Emit(bytes: Text) returns (ok: bool)
      requires Valid()
      modifies this`cur, this`text, mem
      ensures Wrote(ok, bytes)
    {
      if cur + |bytes| > mem.Length {
        return false;
      }
      forall i | 0 <= i < |bytes| {
        mem[cur + i] := bytes[i];
      }
      assert mem[cur..cur + |bytes|] == bytes;
      assert mem[ENTRY_LEN..cur] == old(mem[ENTRY_LEN..cur]);
      assert mem[ENTRY_LEN..cur + |bytes|] == mem[ENTRY_LEN..cur] + mem[cur..cur + |bytes|];
      cur := cur + |bytes|;
      text := text + bytes;
      ok := true;
    }

    method WriteString(s: Text) returns (ok: bool)
      requires Valid()
      modifies this`cur, this`text, mem
      ensures Wrote(ok, s + [0])
    {
      for i := 0 to |s|
        invariant Valid() && text == old(text) + s[..i]
      {
        var fits := Emit([s[i]]);
        if !fits {
          return false;
        }
        Assoc(old(text), s[..i], [s[i]]);
        assert s[..i] + [s[i]] == s[..i + 1];
      }
      assert s[..|s|] == s;
      ok := Emit([0]);
      Assoc(old(text), s, [0]);
    }

    method WriteOptString(s: Option<Text>) returns (ok: bool)
      requires Valid()
      modifies this`cur, this`text, mem
      ensures Wrote(ok, Flat(Collect([s])))
    {
      if s.None? {
        CollectOne(s);
        Nothing(text);
        return true;
      }
      CollectOne(s);
      FlatOne(s.value);
      ok := WriteString(s.value);
    }

    method WriteStringTerminator(hasStrings: bool) returns (ok: bool)
      requires Valid()
      modifies this`cur, this`text, mem
      ensures Wrote(ok, if hasStrings then [0] else [0, 0])
    {
      if hasStrings {
        ok := Emit([0]);
        return;
      }
      ok := Emit([0]);
      if ok {
        ok := Emit([0]);
        Assoc(old(text), [0], [0]);
      }
    }

    // ---- Structures ---------------------------------------------------------------------------

    method WriteType0Bios() returns (ok: bool)
      requires Valid()
      modifies this, mem
      ensures handle == old(handle) + 1
      ensures Wrote(ok, Print(BiosStructure(handle)))
    {
      handle := handle + 1;
      ghost var s := BiosStructure(handle);
      PrintTwo(s);
      ok := Emit(Header(BIOS_INFORMATION, BIOS_INFO_LEN, handle)
                 + [1, 2] + [0, 0, 0, 0] + [0x80, 0, 0, 0, 0, 0, 0, 0] + [0, 0x10]);
      if ok {
        ok := WriteString(DEFAULT_PRODUCT);
      }
      if ok {
        ok := WriteString([48]);
      }
      if ok {
        ok := Emit([0]);
      }
      Assoc4(old(text), s.body, DEFAULT_PRODUCT + [0], [48] + [0], [0]);
    }

    method WriteType1System(system: System) returns (r: Result<(), Error>)
      requires Valid()
      modifies this, mem
      ensures handle == old(handle) + 1
      ensures system.uuid.Malformed? ==> r == Err(ParseUuid) && Valid()
      ensures !system.uuid.Malformed? ==> Wrote(r.Ok?, Print(SystemStructure(handle, system))) && (r.Err? ==> r.error == WriteData)
    {
      handle := handle + 1;
      if system.uuid.Malformed? {
        return Err(ParseUuid);
      }
      var opts := SystemOpts(system);
      var body := AssignIndices(opts, system.uuid);
      ghost var s := SystemStructure(handle, system);
      var ok := Emit(body);
      if ok {
        ok := WriteSystemStrings(opts);
      }
      if ok {
        ok := Emit([0]);
      }
      Assoc3(old(text), s.body, Flat(s.strings), [0]);
      SystemSet(system);
      r := if ok then Ok(()) else Err(WriteData);
    }

    /** The next index, for a string that may be absent; with fewer than 255 strings there always is one. */
    method IndexFor(opts: seq<Option<Text>>, k: nat, next: nat) returns (index: Byte, next': nat)
      requires k < |opts| < 255 && next == |Collect(opts[..k])| + 1
      ensures index == Low8(IndexIn(opts, k)) && next' == |Collect(opts[..k + 1])| + 1
    {
      CollectAt(opts, k);
      CollectOne(opts[k]);
      CollectShort(opts[..k + 1]);
      var r;
      r, next' := AllocIndex(next, opts[k].Some?);
      index := Low8(r.value);
    }

    method AssignIndices(opts: seq<Option<Text>>, uuid: Uuid) returns (body: Text)
      requires |opts| == 6
      ensures body == SystemBody(handle, opts, uuid)
    {
      assert opts[..0] == [];
      var manufacturer, n0 := IndexFor(opts, 0, 1);
      var product, n1 := IndexFor(opts, 1, n0);
      var version, n2 := IndexFor(opts, 2, n1);
      var serial, n3 := IndexFor(opts, 3, n2);
      var sku, n4 := IndexFor(opts, 4, n3);
      var family, n5 := IndexFor(opts, 5, n4);
      body := Header(SYSTEM_INFORMATION, SYS_INFO_LEN, handle)
              + [manufacturer, product, version, serial] + UuidBytes(uuid) + [2, sku, family];
    }

    /** Writes the `k`-th string, if it is there, behind those before it. */
    method WriteNth(opts: seq<Option<Text>>, k: nat, ghost before: Text) returns (ok: bool)
      requires Valid() && k < |opts| && text == before + Flat(Collect(opts[..k]))
      modifies this`cur, this`text, mem
      ensures Valid()
      ensures ok ==> text == before + Flat(Collect(opts[..k + 1]))
      ensures !ok ==> |before| + |Flat(Collect(opts))| + ENTRY_LEN > mem.Length
    {
      CollectFlat(opts, k);
      Assoc(before, Flat(Collect(opts[..k])), Flat(Collect([opts[k]])));
      ok := WriteOptString(opts[k]);
    }

    method WriteSystemStrings(opts: seq<Option<Text>>) returns (ok: bool)
      requires Valid() && |opts| == 6
      modifies this`cur, this`text, mem
      ensures Wrote(ok, Flat(Collect(opts)))
    {
      assert opts[..0] == [] && opts[..6] == opts;
      Nothing(text);
      ghost var before := text;
      ok := WriteThree(opts, 0, before);
      if ok {
        ok := WriteThree(opts, 3, before);
      }
    }

    method WriteThree(opts: seq<Option<Text>>, k: nat, ghost before: Text) returns (ok: bool)
      requires Valid() && k + 3 <= |opts| && text == before + Flat(Collect(opts[..k]))
      modifies this`cur, this`text, mem
      ensures Valid()
      ensures ok ==> text == before + Flat(Collect(opts[..k + 3]))
      ensures !ok ==> |before| + |Flat(Collect(opts))| + ENTRY_LEN > mem.Length
    {
      ok := WriteNth(opts, k, before);
      if ok {
        ok := WriteNth(opts, k + 1, before);
      }
      if ok {
        ok := WriteNth(opts, k + 2, before);
      }
    }

    method WriteType3Chassis(chassis: Chassis) returns (ok: bool)
      requires Valid()
      modifies this, mem
      ensures handle == old(handle) + 1
      ensures Wrote(ok, Print(ChassisStructure(handle, chassis)))
    {
      handle := handle + 1;
      assert [chassis.assetTag][..0] == [];
      var asset, next := IndexFor([chassis.assetTag], 0, 1);
      ghost var s := ChassisStructure(handle, chassis);
      ok := Emit(Header(SYSTEM_ENCLOSURE, CHASSIS_LEN, handle)
                 + [0, 2, 0, 0, asset, 2, 2, 2, 3] + [0, 0, 0, 0] + [0, 0, 0, 0]);
      if ok {
        ok := WriteOptString(chassis.assetTag);
      }
      if ok {
        ok := WriteStringTerminator(chassis.assetTag.Some?);
      }
      ghost var end: Text := if chassis.assetTag.Some? then [0] else [0, 0];
      Assoc3(old(text), s.body, Flat(s.strings), end);
      ChassisSet(chassis);
    }

    method WriteOemStrings(oem: seq<Text>) returns (ok: bool)
      requires Valid() && oem != []
      modifies this, mem
      ensures handle == old(handle) + 1
      ensures Wrote(ok, Print(OemStructure(handle, oem)))
    {
      handle := handle + 1;
      ghost var s := OemStructure(handle, oem);
      ok := Emit(Header(OEM_STRINGS, OEM_STRINGS_LEN, handle) + [Low8(|oem|)]);
      if ok {
        ok := WriteStrings(oem);
      }
      if ok {
        ok := WriteStringTerminator(true);
      }
      Assoc3(old(text), s.body, Flat(oem), [0]);
    }

    method WriteStrings(ss: seq<Text>) returns (ok: bool)
      requires Valid()
      modifies this`cur, this`text, mem
      ensures Wrote(ok, Flat(ss))
    {
      for i := 0 to |ss|
        invariant Valid() && text == old(text) + Flat(ss[..i])
      {
        FlatStep(ss, i);
        ok := WriteString(ss[i]);
        if !ok {
          return;
        }
        Assoc(old(text), Flat(ss[..i]), ss[i] + [0]);
      }
      assert ss[..|ss|] == ss;
      ok := true;
    }

    method WriteRequired(c: Config) returns (r: Result<(), Error>)
      requires Valid() && text == [] && handle == 0
      modifies this, mem
      ensures Valid()
      ensures r.Ok? ==> text == RequiredText(c) && !SystemOf(c).uuid.Malformed? && handle == 2
      ensures r.Err? ==> SystemOf(c).uuid.Malformed? || ENTRY_LEN + |RequiredText(c)| > mem.Length
    {
      var ok := WriteType0Bios();
      if !ok {
        return Err(WriteData);
      }
      ghost var bios := Print(BiosStructure(handle));
      Nothing(bios);
      assert handle == 1 && text == bios;
      r := WriteType1System(SystemOf(c));
      if r.Ok? {
        assert handle == 2;
        assert text == bios + Print(SystemStructure(handle, SystemOf(c)));
      }
    }

    method WriteChassisIfAny(c: Config) returns (ok: bool)
      requires Valid() && handle == 2
      modifies this, mem
      ensures Wrote(ok, ChassisText(c))
      ensures handle + 1 == OemHandle(c)
    {
      if c.chassis.None? {
        Nothing(text);
        return true;
      }
      ok := WriteType3Chassis(c.chassis.value);
    }

    method WriteOemIfAny(c: Config) returns (ok: bool)
      requires Valid() && handle + 1 == OemHandle(c)
      modifies this, mem
      ensures Wrote(ok, OemText(c))
      ensures handle + 1 == EndHandle(c)
    {
      if c.oem == [] {
        Nothing(text);
        return true;
      }
      ok := WriteOemStrings(c.oem);
    }

    method WriteOptional(c: Config) returns (ok: bool)
      requires Valid() && handle == 2
      modifies this, mem
      ensures Wrote(ok, ChassisText(c) + OemText(c))
      ensures ok ==> handle + 1 == EndHandle(c)
    {
      ghost var a, b := ChassisText(c), OemText(c);
      ok := WriteChassisIfAny(c);
      if ok {
        assert text == old(text) + a;
        ok := WriteOemIfAny(c);
      }
      Assoc(old(text), a, b);
    }

    method WriteEnd() returns (ok: bool)
      requires Valid()
      modifies this, mem
      ensures handle == old(handle) + 1
      ensures Wrote(ok, Print(EndStructure(handle)))
    {
      handle := handle + 1;
      ok := Emit(Header(END_OF_TABLE, END_LEN, handle));
      if ok {
        ok := Emit([0]);
      }
      if ok {
        ok := Emit([0]);
      }
      Assoc3(old(text), Header(END_OF_TABLE, END_LEN, handle), [0], [0]);
    }
  }

  lemma Nothing(x: Text)
    ensures x + [] == x && [] + x == x
  {
  }

  lemma Assoc(x: Text, a: Text, b: Text)
    ensures x + a + b == x + (a + b)
  {
  }

  lemma Assoc3(x: Text, a: Text, b: Text, c: Text)
    ensures x + a + b + c == x + (a + (b + c))
  {
  }

  lemma ChassisSet(c: Chassis)
    ensures StringSet(Collect([c.assetTag])) == Flat(Collect([c.assetTag])) + if c.assetTag.Some? then [0] else [0, 0]
  {
    CollectOne(c.assetTag);
  }

  lemma SystemSet(s: System)
    ensures StringSet(Collect(SystemOpts(s))) == Flat(Collect(SystemOpts(s))) + [0]
  {
    assert Collect(SystemOpts(s)) != [];
  }

  lemma CollectFlat(opts: seq<Option<Text>>, k: nat)
    requires k < |opts|
    ensures Flat(Collect(opts[..k + 1])) == Flat(Collect(opts[..k])) + Flat(Collect([opts[k]]))
    ensures |Flat(Collect(opts[..k + 1]))| <= |Flat(Collect(opts))|
  {
    CollectAt(opts, k);
    FlatAppend(Collect(opts[..k]), Collect([opts[k]]));
    FlatAppend(Collect(opts[..k]) + Collect([opts[k]]), Collect(opts[k + 1..]));
  }

  lemma Assoc4(x: Text, a: Text, b: Text, c: Text, d: Text)
    ensures x + a + b + c + d == x + (a + (b + c + d))
  {
  }

  lemma PrintTwo(s: Structure)
    requires |s.strings| == 2
    ensures Print(s) == s.body + ((s.strings[0] + [0]) + (s.strings[1] + [0]) + [0])
  {
    assert s.strings == [s.strings[0]] + [s.strings[1]];
    FlatAppend([s.strings[0]], [s.strings[1]]);
    FlatOne(s.strings[0]);
    FlatOne(s.strings[1]);
  }

  lemma FlatStep(ss: seq<Text>, i: nat)
    requires i < |ss|
    ensures Flat(ss[..i + 1]) == Flat(ss[..i]) + (ss[i] + [0])
    ensures |Flat(ss[..i + 1])| <= |Flat(ss)|
  {
    assert ss[..i + 1] == ss[..i] + [ss[i]];
    FlatAppend(ss[..i], [ss[i]]);
    FlatOne(ss[i]);
    assert ss == ss[..i + 1] + ss[i + 1..];
    FlatAppend(ss[..i + 1], ss[i + 1..]);
  }

  lemma FlatOne(s: Text)
    ensures Flat([s]) == s + [0]
  {
    assert [s][1..] == [];
  }

  lemma {:induction false} FlatAppend(a: seq<Text>, b: seq<Text>)
    ensures Flat(a + b) == Flat(a) + Flat(b)
    decreases |a|
  {
    if a == [] {
      assert a + b == b;
    } else {
      assert (a + b)[1..] == a[1..] + b;
      FlatAppend(a[1..], b);
    }
  }

  // ---- The whole table -----------------------------------------------------------------------------

  /** What is written for a configuration behind the entry point. */
  function TableText(c: Config): Text {
    PrintAll(Table(c))
  }

  function ConfigOf(smbios: Option<Config>): Config {
    if smbios.Some? then smbios.value else Config(None, None, [])
  }

  /** The structures every table has. */
  function RequiredText(c: Config): Text {
    Print(BiosStructure(1)) + Print(SystemStructure(2, SystemOf(c)))
  }

  function ChassisText(c: Config): Text {
    if c.chassis.Some? then Print(ChassisStructure(3, c.chassis.value)) else []
  }

  function OemText(c: Config): Text {
    if c.oem != [] then Print(OemStructure(OemHandle(c), c.oem)) else []
  }

  lemma {:induction false} PrintAppend(a: seq<Structure>, b: seq<Structure>)
    ensures PrintAll(a + b) == PrintAll(a) + PrintAll(b)
    decreases |a|
  {
    if a == [] {
      assert a + b == b;
    } else {
      assert (a + b)[1..] == a[1..] + b;
      PrintAppend(a[1..], b);
    }
  }

  lemma PrintOne(s: Structure)
    ensures PrintAll([s]) == Print(s)
  {
    assert [s][1..] == [];
  }

  lemma TableTextIs(c: Config)
    ensures TableText(c) == RequiredText(c) + (ChassisText(c) + OemText(c)) + Print(EndStructure(EndHandle(c)))
  {
    var chassis := if c.chassis.Some? then [ChassisStructure(3, c.chassis.value)] else [];
    var oem := if c.oem != [] then [OemStructure(OemHandle(c), c.oem)] else [];
    PrintArranged(BiosStructure(1), SystemStructure(2, SystemOf(c)), chassis, oem, EndStructure(EndHandle(c)));
    if c.chassis.Some? {
      PrintOne(ChassisStructure(3, c.chassis.value));
    }
    if c.oem != [] {
      PrintOne(OemStructure(OemHandle(c), c.oem));
    }
  }

  lemma PrintArranged(bios: Structure, system: Structure, chassis: seq<Structure>, oem: seq<Structure>, end: Structure)
    ensures PrintAll(Arrange(bios, system, chassis, oem, end)) ==
            Print(bios) + Print(system) + (PrintAll(chassis) + PrintAll(oem)) + Print(end)
  {
    PrintAppend([bios] + [system] + (chassis + oem), [end]);
    PrintAppend([bios] + [system], chassis + oem);
    PrintAppend(chassis, oem);
    PrintAppend([bios], [system]);
    PrintOne(bios);
    PrintOne(system);
    PrintOne(end);
  }

  /** Writes every structure in order. */
  method WriteTable(w: Writer, c: Config) returns (r: Result<(), Error>)
    requires w.Valid() && w.text == [] && w.handle == 0
    modifies w, w.mem
    ensures w.Valid()
    ensures r.Ok? ==> w.text == TableText(c) && !SystemOf(c).uuid.Malformed?
    ensures r.Err? ==> SystemOf(c).uuid.Malformed? || ENTRY_LEN + |TableText(c)| > w.mem.Length
  {
    TableTextIs(c);
    r := w.WriteRequired(c);
    if r.Err? {
      return;
    }
    var ok := w.WriteOptional(c);
    if ok {
      ok := w.WriteEnd();
    }
    r := if ok then Ok(()) else Err(WriteData);
  }

  /** Publishes the table: an entry point whose bytes add up to zero. */
  method WriteEntryPoint(mem: array<Byte>, start: nat, size: nat) returns (checksum: Byte)
    requires ENTRY_LEN <= mem.Length
    modifies mem
    ensures mem[..ENTRY_LEN] == EntryPoint(start, size, checksum) && Sum(mem[..ENTRY_LEN]) % 256 == 0
    ensures mem[ENTRY_LEN..] == old(mem[ENTRY_LEN..])
  {
    checksum := ComputeChecksum(EntryPoint(start, size, 0));
    EntrySum(start, size, checksum);
    var entry := EntryPoint(start, size, checksum);
    forall i | 0 <= i < ENTRY_LEN {
      mem[i] := entry[i];
    }
    assert mem[..ENTRY_LEN] == entry;
  }

  lemma EntrySum(start: nat, size: nat, checksum: Byte)
    requires (Sum(EntryPoint(start, size, 0)) + checksum as nat) % 256 == 0
    ensures Sum(EntryPoint(start, size, checksum)) % 256 == 0
  {
    EntryPointChecksum(start, size, checksum);
    SumUpdate(EntryPoint(start, size, 0), CHECKSUM_AT, checksum);
    EntryPointChecksum(start, size, 0);
  }

  /** Memory holds a sound entry point followed by the table. */
  predicate Published(mem: Text, start: nat, table: Text) {
    var n := |table|;
    && ENTRY_LEN + n <= |mem|
    && mem[ENTRY_LEN..ENTRY_LEN + n] == table
    && mem[..ENTRY_LEN] == EntryPoint(start, n, mem[CHECKSUM_AT])
    && Sum(mem[..ENTRY_LEN]) % 256 == 0
  }

  lemma SplitAt(mem: Text, lo: nat, n: nat)
    requires lo + n <= |mem|
    ensures mem[lo..] == mem[lo..lo + n] + mem[lo + n..]
  {
  }

  /**
   A reader that starts behind the published entry point finds exactly the structures
   of the configuration and stops exactly behind them, whatever follows in memory: if
   and only if no configured string is empty or contains a NUL.
   */
  lemma PublishedReadsBack(c: Config, mem: Text, start: nat)
    requires Published(mem, start, TableText(c))
    ensures Walk(mem[ENTRY_LEN..]) == Some((Table(c), mem[ENTRY_LEN + |TableText(c)|..])) <==> PrintableConfig(c)
  {
    hide Walk, PrintableConfig, EntryPoint, Sum, Table;
    var n := |TableText(c)|;
    SplitAt(mem, ENTRY_LEN, n);
    TableRoundTripExactly(c, mem[ENTRY_LEN + n..]);
  }

  /** Succeeds exactly when the UUID parses and entry point and table fit both memory and the limit. */
  method SetupSmbios(mem: array<Byte>, start: nat, smbios: Option<Config>, maxSize: nat) returns (r: Result<nat, Error>)
    requires ENTRY_LEN <= mem.Length
    modifies mem
    ensures var c := ConfigOf(smbios);
            var total := ENTRY_LEN + |TableText(c)|;
            && (r.Ok? <==> !SystemOf(c).uuid.Malformed? && total <= mem.Length && total <= maxSize)
            && (r.Ok? ==> r.value == total && Published(mem[..], start, TableText(c)))
  {
    var c := ConfigOf(smbios);
    var w := new Writer(mem);
    var written := WriteTable(w, c);
    if written.Err? {
      return Err(written.error);
    }
    var size := w.cur - ENTRY_LEN;
    TextWritten(mem[..], w.cur, TableText(c));
    Publish(mem, start, size, TableText(c));
    var total := size + ENTRY_LEN;
    if total > maxSize {
      return Err(NotEnoughMemory);
    }
    r := Ok(total);
  }

  lemma TextWritten(mem: Text, cur: nat, text: Text)
    requires ENTRY_LEN <= cur <= |mem| && mem[ENTRY_LEN..cur] == text
    ensures |text| == cur - ENTRY_LEN && mem[ENTRY_LEN..ENTRY_LEN + |text|] == text
  {
  }

  method Publish(mem: array<Byte>, start: nat, size: nat, ghost text: Text)
    requires |text| == size && ENTRY_LEN + size <= mem.Length && mem[..][ENTRY_LEN..ENTRY_LEN + size] == text
    modifies mem
    ensures Published(mem[..], start, text)
  {
    ghost var table := mem[ENTRY_LEN..];
    assert table[..size] == text;
    var checksum := WriteEntryPoint(mem, start, size);
    assert mem[..][ENTRY_LEN..] == table;
    assert mem[..][ENTRY_LEN..ENTRY_LEN + size] == table[..size];
    assert mem[..][..ENTRY_LEN] == EntryPoint(start, size, checksum);
    EntryPointChecksum(start, size, checksum);
    assert mem[..][CHECKSUM_AT] == mem[..][..ENTRY_LEN][CHECKSUM_AT] == checksum;
  }
}
