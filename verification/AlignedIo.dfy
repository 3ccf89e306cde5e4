/**
 The bounce buffer and the file wrapper as they run, over a file whose reads and
 writes may be short, interrupted or fail.
 */
module AlignedIo {
  import opened Bytes
  import opened Bits
  import opened AlignedSpec

  datatype Error = InvalidInput | LengthOverflow | InvalidLayout | OutOfMemory | OffsetOverflow | Retry | Failed

  /** How the kernel answers one call; a short transfer moves at least one byte. */
  datatype Answer = Full | Short(n: nat) | Interrupted | Refused

  class DiskFile {
    var data: seq<Byte>
    /** The answers to come; when they run out, transfers are full. */
    var answers: seq<Answer>

    method NextAnswer() returns (a: Answer)
      modifies this`answers
      ensures |answers| <= |old(answers)|
      ensures a.Interrupted? ==> |answers| < |old(answers)|
    {
      if answers == [] {
        return Full;
      }
      a := answers[0];
      answers := answers[1..];
    }

    /** A positioned read: nothing exactly at end of file, else a prefix of what is there. */
    method Read(offset: nat, want: nat) returns (r: Result<seq<Byte>, Error>)
      modifies this`answers
      ensures |answers| <= |old(answers)|
      ensures r.Ok? ==> r.value <= Slice(data, offset, want)
      ensures r.Ok? && r.value == [] ==> Slice(data, offset, want) == []
      ensures r.Err? ==> r.error == Failed || (r.error == Retry && |answers| < |old(answers)|)
    {
      var there := Slice(data, offset, want);
      var a := NextAnswer();
      match a
      case Full => r := Ok(there);
      case Short(n) =>
        var most := if n == 0 then 1 else n;
        r := Ok(if most < |there| then there[..most] else there);
      case Interrupted => r := Err(Retry);
      case Refused => r := Err(Failed);
    }

    /** A positioned write of at most `bytes`; `n` of them reach the file. */
    method Write(offset: nat, bytes: seq<Byte>) returns (r: Result<nat, Error>)
      modifies this
      ensures |answers| <= |old(answers)|
      ensures r.Ok? ==> r.value <= |bytes| && data == Overwrite(old(data), offset, bytes[..r.value])
      ensures r.Ok? && r.value == 0 ==> bytes == []
      ensures r.Err? ==> data == old(data)
      ensures r.Err? ==> r.error == Failed || (r.error == Retry && |answers| < |old(answers)|)
    {
      var a := NextAnswer();
      match a
      case Interrupted => r := Err(Retry);
      case Refused => r := Err(Failed);
      case Full =>
        data := Overwrite(data, offset, bytes[..|bytes|]);
        r := Ok(|bytes|);
      case Short(n) =>
        var most := Min(if n == 0 then 1 else n, |bytes|);
        data := Overwrite(data, offset, bytes[..most]);
        r := Ok(most);
    }

    /** Repeats short and interrupted writes until all bytes are written or one fails. */
    method WriteAll(offset: nat, bytes: seq<Byte>) returns (done: nat, ok: bool)
      modifies this
      ensures done <= |bytes| && data == Overwrite(old(data), offset, bytes[..done])
      ensures ok <==> done == |bytes|
    {
      done := 0;
      while done < |bytes|
        invariant done <= |bytes| && data == Overwrite(old(data), offset, bytes[..done])
        decreases |bytes| - done + |answers|
      {
        var r := Write(offset + done, bytes[done..]);
        if r.Ok? {
          OverwriteMore(old(data), offset, bytes, done, r.value);
          done := done + r.value;
        } else if r.error != Retry {
          return done, false;
        }
      }
      ok := true;
    }
  }

  lemma OverwriteMore(f: seq<Byte>, offset: nat, bytes: seq<Byte>, done: nat, n: nat)
    requires done + n <= |bytes|
    ensures Overwrite(Overwrite(f, offset, bytes[..done]), offset + done, bytes[done..][..n]) ==
            Overwrite(f, offset, bytes[..done + n])
  {
    var a, b := bytes[..done], bytes[done..][..n];
    assert |a| == done && a + b == bytes[..done + n];
    OverwriteTwice(f, offset, a, b);
  }

  // ---- The buffer ------------------------------------------------------------------------------

  /** The allocator's limit on a layout of `size` bytes. */
  predicate LayoutFits(size: nat, alignment: nat) {
    (if size < alignment then alignment else size) + alignment - 1 <= I64_MAX
  }

  class AlignedBuffer {
    const bytes: array<Byte>
    const headPad: nat
    const userLen: nat
    const alignedLen: nat
    const alignedOffset: nat

    ghost predicate Valid() {
      headPad + userLen <= alignedLen <= bytes.Length
    }

    ghost function Shape(): Win {
      Win(alignedOffset, headPad, alignedLen)
    }

    constructor (w: Win, n: nat, alignment: nat)
      requires w.head + n <= w.len
      ensures Valid() && fresh(bytes) && Shape() == w && userLen == n && Blank()
    {
      headPad, userLen, alignedLen, alignedOffset := w.head, n, w.len, w.start;
      bytes := new Byte[if w.len < alignment then alignment else w.len](_ => 0);
    }

    ghost predicate Blank()
      requires Valid()
      reads bytes
    {
      bytes[..alignedLen] == Zeros(alignedLen)
    }

    ghost predicate Loaded(f: seq<Byte>)
      requires Valid()
      reads bytes
    {
      bytes[..alignedLen] == Window(f, Shape())
    }

    /** Copies into the buffer, as a read into a slice of it does. */
    method Fill(at: nat, chunk: seq<Byte>)
      requires at + |chunk| <= bytes.Length
      modifies bytes
      ensures bytes[..] == Put(old(bytes[..]), at, chunk)
    {
      ghost var before := bytes[..];
      forall i | 0 <= i < |chunk| {
        bytes[at + i] := chunk[i];
      }
      PutIs(before, at, chunk, bytes[..]);
    }

    /** Reads the window, tolerating short reads and interruptions; returns how much of the request is valid. */
    method ReadFrom(f: DiskFile) returns (r: Result<nat, Error>)
      requires Valid() && Blank()
      modifies bytes, f`answers
      ensures r.Ok? ==> Loaded(f.data)
      ensures r.Ok? ==> r.value == |Slice(f.data, alignedOffset + headPad, userLen)|
      ensures alignedOffset + alignedLen < U64_LIMIT && r.Err? ==> r.error == Failed
    {
      hide Slice, Window, Put;
      ghost var start, len, data := alignedOffset, alignedLen, f.data;
      var total: nat := 0;
      while total < alignedLen
        invariant f.data == data && PartlyRead(data, start, len, total, bytes[..len])
        decreases alignedLen - total + |f.answers|
      {
        var offset := alignedOffset + total;
        if offset >= U64_LIMIT {
          return Err(OffsetOverflow);
        }
        var got := f.Read(offset, alignedLen - total);
        if got.Ok? {
          if got.value == [] {
            break;
          }
          ghost var before := bytes[..];
          Absorb(data, start, len, total, got.value, before);
          Fill(total, got.value);
          total := total + |got.value|;
        } else if got.error != Retry {
          return Err(got.error);
        }
      }
      FullyRead(data, Shape(), total, bytes[..len]);
      ReadRefinesPlain(data, Shape(), userLen);
      var beyond := if total < headPad then 0 else total - headPad;
      r := Ok(if beyond < userLen then beyond else userLen);
    }

    /** Writes the whole window. */
    method WriteTo(f: DiskFile) returns (done: nat, ok: bool)
      requires Valid()
      modifies f
      ensures done <= alignedLen && (ok <==> done == alignedLen)
      ensures f.data == Overwrite(old(f.data), alignedOffset, bytes[..alignedLen][..done])
    {
      done, ok := f.WriteAll(alignedOffset, bytes[..alignedLen]);
    }

    /** Copies the pieces, one after the other, over the caller's part of the buffer. */
    method Gather(mem: seq<Byte>, iovs: seq<Iov>)
      requires Valid() && InMemory(iovs, |mem|) && userLen == Total(iovs)
      modifies bytes
      ensures bytes[..] == Put(old(bytes[..]), headPad, Concat(mem, iovs))
    {
      ghost var was, all := bytes[..], Concat(mem, iovs);
      assert iovs[0..] == iovs && all[0..] == all;
      var at: nat := 0;
      for k := 0 to |iovs|
        invariant at <= userLen && Concat(mem, iovs[k..]) == all[at..]
        invariant forall i | 0 <= i < at :: bytes[headPad + i] == all[i]
        invariant forall i | 0 <= i < bytes.Length && !(headPad <= i < headPad + at) :: bytes[i] == was[i]
      {
        NextPiece(mem, iovs, k, all, at);
        var n := Min(userLen - at, iovs[k].len);
        var piece := mem[iovs[k].base..iovs[k].base + n];
        forall i | 0 <= i < n {
          bytes[headPad + at + i] := piece[i];
        }
        at := at + n;
      }
      assert iovs[|iovs|..] == [] && at == |all|;
      PutIs(was, headPad, all, bytes[..]);
    }
  }

  lemma NextPiece(mem: seq<Byte>, iovs: seq<Iov>, k: nat, all: seq<Byte>, at: nat)
    requires InMemory(iovs, |mem|) && k < |iovs| && at <= |all| && Concat(mem, iovs[k..]) == all[at..]
    ensures at + iovs[k].len <= |all| && mem[iovs[k].base..iovs[k].base + iovs[k].len] == all[at..at + iovs[k].len]
    ensures Concat(mem, iovs[k + 1..]) == all[at + iovs[k].len..]
  {
    var rest := iovs[k..];
    assert rest[0] == iovs[k] && rest[1..] == iovs[k + 1..];
    var first, tail := mem[iovs[k].base..iovs[k].base + iovs[k].len], Concat(mem, iovs[k + 1..]);
    assert all[at..] == first + tail;
    assert all[at..][..|first|] == first && all[at..][|first|..] == tail;
  }

  /** The first `total` bytes of the window have been read; the rest of the buffer is zero. */
  ghost predicate PartlyRead(f: seq<Byte>, start: nat, len: nat, total: nat, buffer: seq<Byte>) {
    && total <= |Slice(f, start, len)|
    && total <= len == |buffer|
    && buffer == Slice(f, start, len)[..total] + Zeros(len - total)
  }

  /** A further chunk extends what has been read. */
  lemma Absorb(f: seq<Byte>, start: nat, len: nat, total: nat, chunk: seq<Byte>, before: seq<Byte>)
    requires len <= |before| && total < len && PartlyRead(f, start, len, total, before[..len])
    requires chunk <= Slice(f, start + total, len - total)
    ensures total + |chunk| <= len
    ensures PartlyRead(f, start, len, total + |chunk|, Put(before, total, chunk)[..len])
  {
    var target, after := Slice(f, start, len), Put(before, total, chunk);
    assert target[total..total + |chunk|] == chunk;
    forall i | 0 <= i < len ensures after[i] == (target[..total + |chunk|] + Zeros(len - total - |chunk|))[i] {
      PutAt(before, total, chunk, i);
      assert before[..len][i] == (target[..total] + Zeros(len - total))[i];
    }
  }

  /** At end of file or with the window full, the buffer is the window. */
  lemma FullyRead(f: seq<Byte>, w: Win, total: nat, buffer: seq<Byte>)
    requires PartlyRead(f, w.start, w.len, total, buffer)
    requires total == w.len || Slice(f, w.start + total, w.len - total) == []
    ensures total == |Slice(f, w.start, w.len)| && buffer == Window(f, w)
  {
    forall i | 0 <= i < w.len ensures buffer[i] == Window(f, w)[i] {
      WindowAt(f, w, i);
    }
  }

  /** Creates the buffer for a request, or says why it cannot. */
  method NewBuffer(offset: nat, n: nat, alignment: nat) returns (r: Result<AlignedBuffer, Error>)
    requires offset < U64_LIMIT && n < U64_LIMIT && alignment < U64_LIMIT
    ensures !IsPowerOfTwo(alignment) <==> r == Err(InvalidInput)
    ensures forall w | IsPowerOfTwo(alignment) && IsWindow(w, offset, n, alignment) ::
              && (r == Err(LengthOverflow) <==> w.len >= U64_LIMIT)
              && (r == Err(InvalidLayout) <==> w.len < U64_LIMIT && !LayoutFits(w.len, alignment))
              && (r.Ok? ==> r.value.Shape() == w)
    ensures r.Ok? ==>
              && fresh(r.value) && fresh(r.value.bytes) && r.value.Valid() && r.value.Blank()
              && r.value.userLen == n && IsWindow(r.value.Shape(), offset, n, alignment)
    ensures r.Err? ==> r.error in {InvalidInput, LengthOverflow, InvalidLayout, OutOfMemory}
  {
    if !IsPowerOfTwo(alignment) {
      return Err(InvalidInput);
    }
    Pow2Values();
    MaskFindsWindow(offset, n, alignment);
    var alignedOffset := AlignedOffset(offset, alignment);
    var headPad := offset - alignedOffset;
    var alignedLen := AlignedLen(headPad + n, alignment);
    ghost var w0 := Win(alignedOffset, headPad, alignedLen);
    forall w | IsWindow(w, offset, n, alignment) ensures w == w0 {
      WindowUnique(w, w0, offset, n, alignment);
    }
    if headPad + n >= U64_LIMIT {
      return Err(LengthOverflow);
    }
    if alignedLen >= U64_LIMIT {
      return Err(LengthOverflow);
    }
    if !LayoutFits(alignedLen, alignment) {
      return Err(InvalidLayout);
    }
    var available: bool := *;
    if !available {
      return Err(OutOfMemory);
    }
    var buffer := new AlignedBuffer(Win(alignedOffset, headPad, alignedLen), n, alignment);
    r := Ok(buffer);
  }

  // ---- The file ------------------------------------------------------------------------------------

  predicate IsMultiple(x: nat, alignment: nat) {
    if alignment == 0 then x == 0 else x % alignment == 0
  }

  predicate IovecsAreAligned(alignment: Option<nat>, iovs: seq<Iov>, offset: nat) {
    alignment.None? ||
    (&& IsMultiple(offset, alignment.value)
     && forall i | 0 <= i < |iovs| :: IsMultiple(iovs[i].base, alignment.value) && IsMultiple(iovs[i].len, alignment.value))
  }

  /** The caller's part of a window that has been read. */
  lemma ReadOutcome(f: seq<Byte>, w: Win, n: nat, buffer: seq<Byte>)
    requires w.head + n <= w.len <= |buffer| && buffer[..w.len] == Window(f, w)
    ensures w.head + |Slice(f, w.start + w.head, n)| <= w.len
    ensures buffer[w.head..w.head + |Slice(f, w.start + w.head, n)|] == Slice(f, w.start + w.head, n)
  {
    ReadRefinesPlain(f, w, n);
    var m := |Slice(f, w.start + w.head, n)|;
    assert buffer[w.head..w.head + m] == buffer[..w.len][w.head..w.head + m];
  }

  /** Gathering into a window that has been read patches it. */
  lemma GatherPatches(f: seq<Byte>, w: Win, data: seq<Byte>, before: seq<Byte>, after: seq<Byte>)
    requires w.head + |data| <= w.len <= |before| && before[..w.len] == Window(f, w)
    requires after == Put(before, w.head, data)
    ensures after[..w.len] == Patched(f, w, data)
  {
    forall i | 0 <= i < w.len ensures after[i] == Patched(f, w, data)[i] {
      assert before[..w.len][i] == Window(f, w)[i];
      PutAt(before, w.head, data, i);
      PutAt(Window(f, w), w.head, data, i);
    }
  }

  /** Every byte of `after` is the one before or the one intended. */
  ghost predicate Torn(before: seq<Byte>, after: seq<Byte>, intended: seq<Byte>) {
    forall i: nat :: At(after, i) == At(before, i) || At(after, i) == At(intended, i)
  }

  /** The file after a prefix of the patched window has been written. */
  lemma WriteOutcome(f: seq<Byte>, w: Win, data: seq<Byte>, done: nat, after: seq<Byte>)
    requires w.head + |data| <= w.len && done <= w.len && after == Overwrite(f, w.start, Patched(f, w, data)[..done])
    ensures done == w.len ==> after == PadTo(Overwrite(f, w.start + w.head, data), WrittenEnd(w))
    ensures Torn(f, after, Overwrite(f, w.start + w.head, data))
  {
    forall i: nat ensures At(after, i) == At(f, i) || At(after, i) == At(Overwrite(f, w.start + w.head, data), i) {
      TornWrite(f, w, data, done, i);
    }
    if done == w.len {
      assert Patched(f, w, data)[..done] == Patched(f, w, data);
      BouncedRefinesPlain(f, w, data);
    }
  }

  /** Fills the pieces in order until the data runs out. */
  method Scatter(mem: array<Byte>, iovs: seq<Iov>, data: seq<Byte>)
    requires InMemory(iovs, mem.Length)
    modifies mem
    ensures mem[..] == Scattered(old(mem[..]), iovs, data)
  {
    var rest := data;
    for k := 0 to |iovs|
      invariant Scattered(old(mem[..]), iovs, data) == Scattered(mem[..], iovs[k..], rest)
    {
      if rest == [] {
        return;
      }
      assert iovs[k..][0] == iovs[k] && iovs[k..][1..] == iovs[k + 1..];
      var n, base := Min(|rest|, iovs[k].len), iovs[k].base;
      ghost var before := mem[..];
      forall i | 0 <= i < n {
        mem[base + i] := rest[i];
      }
      PutIs(before, base, rest[..n], mem[..]);
      rest := rest[n..];
    }
  }

  class AlignedFile {
    const file: DiskFile
    const alignment: Option<nat>

    constructor (file: DiskFile, alignment: Option<nat>)
      ensures this.file == file && this.alignment == alignment
    {
      this.file, this.alignment := file, alignment;
    }

    ghost predicate Valid() {
      alignment.Some? ==> alignment.value < U64_LIMIT
    }

    /** A buffer with the file's alignment. */
    method BounceBuffer(offset: nat, n: nat) returns (r: Result<AlignedBuffer, Error>)
      requires Valid() && offset < U64_LIMIT && n < U64_LIMIT
      ensures alignment.None? ==> r == Err(InvalidInput)
      ensures r.Ok? ==>
                && alignment.Some?
                && fresh(r.value) && fresh(r.value.bytes) && r.value.Valid() && r.value.Blank()
                && r.value.userLen == n && IsWindow(r.value.Shape(), offset, n, alignment.value)
    {
      if alignment.None? {
        return Err(InvalidInput);
      }
      r := NewBuffer(offset, n, alignment.value);
    }

    /** A bounced read is a plain read: exactly the requested bytes that lie before end of file. */
    method ReadUnaligned(offset: nat, mem: array<Byte>, iovs: seq<Iov>) returns (r: Result<nat, Error>)
      requires Valid() && offset < U64_LIMIT && InMemory(iovs, mem.Length) && Total(iovs) < U64_LIMIT
      modifies mem, file`answers
      ensures r.Ok? ==>
                && r.value == |Slice(file.data, offset, Total(iovs))|
                && mem[..] == Scattered(old(mem[..]), iovs, Slice(file.data, offset, Total(iovs)))
      ensures r.Err? ==> mem[..] == old(mem[..])
      ensures alignment.None? ==> r == Err(InvalidInput)
    {
      var made := BounceBuffer(offset, Total(iovs));
      if made.Err? {
        return Err(made.error);
      }
      var buffer := made.value;
      r := buffer.ReadFrom(file);
      if r.Err? {
        return;
      }
      ReadOutcome(file.data, buffer.Shape(), buffer.userLen, buffer.bytes[..]);
      var user := buffer.bytes[buffer.headPad..buffer.headPad + r.value];
      assert user == Slice(file.data, offset, Total(iovs));
      Scatter(mem, iovs, user);
    }

    /** A bounced write is a plain write, plus zeros up to the end of the window; a torn one mixes old and new bytes only. */
    method WriteUnaligned(offset: nat, mem: seq<Byte>, iovs: seq<Iov>) returns (r: Result<nat, Error>, ghost w: Win)
      requires Valid() && offset < U64_LIMIT && InMemory(iovs, |mem|) && Total(iovs) < U64_LIMIT
      modifies file
      ensures r.Ok? ==>
                && r.value == Total(iovs)
                && alignment.Some? && IsWindow(w, offset, Total(iovs), alignment.value)
                && file.data == PadTo(Overwrite(old(file.data), offset, Concat(mem, iovs)), WrittenEnd(w))
      ensures r.Err? ==> Torn(old(file.data), file.data, Overwrite(old(file.data), offset, Concat(mem, iovs)))
      ensures alignment.None? ==> r == Err(InvalidInput)
    {
      w := Win(0, 0, 0);
      var made := BounceBuffer(offset, Total(iovs));
      if made.Err? {
        return Err(made.error), w;
      }
      var buffer := made.value;
      w := buffer.Shape();
      var got := buffer.ReadFrom(file);
      if got.Err? {
        return Err(got.error), w;
      }
      var ok := WriteBack(buffer, mem, iovs);
      r := if ok then Ok(Total(iovs)) else Err(Failed);
    }

    /** Puts the request into the window that was read, and writes the window. */
    method WriteBack(buffer: AlignedBuffer, mem: seq<Byte>, iovs: seq<Iov>) returns (ok: bool)
      requires buffer.Valid() && buffer.Loaded(file.data) && InMemory(iovs, |mem|) && buffer.userLen == Total(iovs)
      modifies file, buffer.bytes
      ensures var w, data := buffer.Shape(), Concat(mem, iovs);
              && (ok ==> file.data == PadTo(Overwrite(old(file.data), w.start + w.head, data), WrittenEnd(w)))
              && Torn(old(file.data), file.data, Overwrite(old(file.data), w.start + w.head, data))
    {
      ghost var f, w, data, window := file.data, buffer.Shape(), Concat(mem, iovs), buffer.bytes[..];
      buffer.Gather(mem, iovs);
      GatherPatches(f, w, data, window, buffer.bytes[..]);
      var done;
      done, ok := buffer.WriteTo(file);
      WriteOutcome(f, w, data, done, file.data);
    }

    /** Aligned requests go straight to the file and may be short; others are bounced. */
    method ReadVectoredAt(mem: array<Byte>, iovs: seq<Iov>, offset: nat) returns (r: Result<nat, Error>)
      requires Valid() && offset < U64_LIMIT && InMemory(iovs, mem.Length) && Total(iovs) < U64_LIMIT
      modifies mem, file`answers
      ensures r.Ok? ==>
                && r.value <= |Slice(file.data, offset, Total(iovs))|
                && mem[..] == Scattered(old(mem[..]), iovs, Slice(file.data, offset, Total(iovs))[..r.value])
                && (!IovecsAreAligned(alignment, iovs, offset) ==> r.value == |Slice(file.data, offset, Total(iovs))|)
                && (r.value == 0 ==> Slice(file.data, offset, Total(iovs)) == [])
      ensures r.Err? ==> mem[..] == old(mem[..])
    {
      if iovs == [] {
        return Ok(0);
      }
      ghost var plain := Slice(file.data, offset, Total(iovs));
      if IovecsAreAligned(alignment, iovs, offset) {
        var got := file.Read(offset, Total(iovs));
        if got.Err? {
          return Err(got.error);
        }
        assert got.value == plain[..|got.value|];
        Scatter(mem, iovs, got.value);
        return Ok(|got.value|);
      }
      r := ReadUnaligned(offset, mem, iovs);
      assert plain[..|plain|] == plain;
    }

    method WriteVectoredAt(mem: seq<Byte>, iovs: seq<Iov>, offset: nat) returns (r: Result<nat, Error>, ghost w: Win)
      requires Valid() && offset < U64_LIMIT && InMemory(iovs, |mem|) && Total(iovs) < U64_LIMIT
      modifies file
      ensures r.Ok? && (iovs == [] || IovecsAreAligned(alignment, iovs, offset)) ==>
                && r.value <= Total(iovs)
                && file.data == Overwrite(old(file.data), offset, Concat(mem, iovs)[..r.value])
      ensures r.Ok? && iovs != [] && !IovecsAreAligned(alignment, iovs, offset) ==>
                && r.value == Total(iovs)
                && alignment.Some? && IsWindow(w, offset, Total(iovs), alignment.value)
                && file.data == PadTo(Overwrite(old(file.data), offset, Concat(mem, iovs)), WrittenEnd(w))
      ensures r.Err? ==> Torn(old(file.data), file.data, Overwrite(old(file.data), offset, Concat(mem, iovs)))
    {
      w := Win(0, 0, 0);
      if iovs == [] {
        return Ok(0), w;
      }
      if IovecsAreAligned(alignment, iovs, offset) {
        r := file.Write(offset, Concat(mem, iovs));
        return;
      }
      r, w := WriteUnaligned(offset, mem, iovs);
    }

    /** One buffer: the vectored read of a single piece, except that an empty one never reaches the file. */
    method ReadAt(mem: array<Byte>, buf: Iov, offset: nat) returns (r: Result<nat, Error>)
      requires Valid() && offset < U64_LIMIT && buf.base + buf.len <= mem.Length < U64_LIMIT
      modifies mem, file`answers
      ensures r.Ok? ==>
                && r.value <= |Slice(file.data, offset, buf.len)|
                && mem[..] == Put(old(mem[..]), buf.base, Slice(file.data, offset, buf.len)[..r.value])
                && (r.value == 0 ==> Slice(file.data, offset, buf.len) == [])
      ensures r.Err? ==> mem[..] == old(mem[..])
      ensures buf.len == 0 ==> r == Ok(0)
    {
      if buf.len == 0 {
        return Ok(0);
      }
      assert Total([buf]) == buf.len;
      r := ReadVectoredAt(mem, [buf], offset);
      if r.Ok? {
        OnePiece(old(mem[..]), buf, Slice(file.data, offset, buf.len)[..r.value]);
      }
    }

    method WriteAt(mem: seq<Byte>, buf: Iov, offset: nat) returns (r: Result<nat, Error>, ghost w: Win)
      requires Valid() && offset < U64_LIMIT && buf.base + buf.len <= |mem| < U64_LIMIT
      modifies file
      ensures buf.len == 0 ==> r == Ok(0) && file.data == old(file.data)
      ensures r.Ok? && buf.len > 0 && IovecsAreAligned(alignment, [buf], offset) ==>
                && r.value <= buf.len
                && file.data == Overwrite(old(file.data), offset, mem[buf.base..buf.base + buf.len][..r.value])
      ensures r.Ok? && buf.len > 0 && !IovecsAreAligned(alignment, [buf], offset) ==>
                && r.value == buf.len
                && alignment.Some? && IsWindow(w, offset, buf.len, alignment.value)
                && file.data == PadTo(Overwrite(old(file.data), offset, mem[buf.base..buf.base + buf.len]), WrittenEnd(w))
      ensures r.Err? ==> Torn(old(file.data), file.data,
                              Overwrite(old(file.data), offset, mem[buf.base..buf.base + buf.len]))
    {
      w := Win(0, 0, 0);
      if buf.len == 0 {
        return Ok(0), w;
      }
      assert Total([buf]) == buf.len && Concat(mem, [buf]) == mem[buf.base..buf.base + buf.len];
      r, w := WriteVectoredAt(mem, [buf], offset);
    }
  }

  lemma OnePiece(mem: seq<Byte>, buf: Iov, data: seq<Byte>)
    requires buf.base + buf.len <= |mem| && |data| <= buf.len
    ensures Scattered(mem, [buf], data) == Put(mem, buf.base, data)
  {
    if data != [] {
      assert data[..|data|] == data && data[|data|..] == [];
    }
  }
}
