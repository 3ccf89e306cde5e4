/**
 Positioned reads and writes on a file, the aligned window around a request, and why
 a read-modify-write of the window is a plain write.
 */
module AlignedSpec {
  import opened Bytes
  import opened Arithmetic
  import opened Bits

  // ---- Files ---------------------------------------------------------------------------------

  /** A byte of the file, zero beyond its end. */
  function At(f: seq<Byte>, i: nat): Byte {
    if i < |f| then f[i] else 0
  }

  /** What a positioned read of `n` bytes can return at most: the part before end of file. */
  function Slice(f: seq<Byte>, offset: nat, n: nat): seq<Byte> {
    if offset >= |f| then [] else if offset + n >= |f| then f[offset..] else f[offset..offset + n]
  }

  function Zeros(n: nat): seq<Byte> {
    seq(n, _ => 0)
  }

  /** Zeros appended up to a length of `n`. */
  function PadTo(f: seq<Byte>, n: nat): seq<Byte>
    decreases n - |f|
  {
    if |f| < n then PadTo(f + [0], n) else f
  }

  function PutByte(f: seq<Byte>, offset: nat, b: Byte): seq<Byte> {
    if offset < |f| then f[offset := b] else PadTo(f, offset) + [b]
  }

  /** A plain positioned write; a gap before it reads as zeros, and writing nothing changes nothing. */
  function Overwrite(f: seq<Byte>, offset: nat, bytes: seq<Byte>): seq<Byte>
    decreases |bytes|
  {
    if bytes == [] then f else Overwrite(PutByte(f, offset, bytes[0]), offset + 1, bytes[1..])
  }

  lemma {:induction false} PadLen(f: seq<Byte>, n: nat)
    ensures |PadTo(f, n)| == if |f| < n then n else |f|
    decreases n - |f|
  {
    if |f| < n {
      PadLen(f + [0], n);
    }
  }

  lemma {:induction false} PadAt(f: seq<Byte>, n: nat, i: nat)
    ensures At(PadTo(f, n), i) == At(f, i)
    decreases n - |f|
  {
    if |f| < n {
      PadAt(f + [0], n, i);
    }
  }

  lemma PutByteIs(f: seq<Byte>, offset: nat, b: Byte, i: nat)
    ensures |PutByte(f, offset, b)| == if offset < |f| then |f| else offset + 1
    ensures At(PutByte(f, offset, b), i) == if i == offset then b else At(f, i)
  {
    PadLen(f, offset);
    PadAt(f, offset, i);
  }

  lemma {:induction false} OverwriteLen(f: seq<Byte>, offset: nat, bytes: seq<Byte>)
    ensures |Overwrite(f, offset, bytes)| == if bytes == [] || offset + |bytes| < |f| then |f| else offset + |bytes|
    decreases |bytes|
  {
    if bytes != [] {
      PutByteIs(f, offset, bytes[0], 0);
      OverwriteLen(PutByte(f, offset, bytes[0]), offset + 1, bytes[1..]);
    }
  }

  lemma {:induction false} OverwriteAt(f: seq<Byte>, offset: nat, bytes: seq<Byte>, i: nat)
    ensures At(Overwrite(f, offset, bytes), i) == if offset <= i < offset + |bytes| then bytes[i - offset] else At(f, i)
    decreases |bytes|
  {
    if bytes != [] {
      PutByteIs(f, offset, bytes[0], i);
      OverwriteAt(PutByte(f, offset, bytes[0]), offset + 1, bytes[1..], i);
    }
  }

  lemma SameFile(f: seq<Byte>, g: seq<Byte>)
    requires |f| == |g| && forall i: nat :: At(f, i) == At(g, i)
    ensures f == g
  {
    forall i: nat | i < |f| ensures f[i] == g[i] {
      assert At(f, i) == At(g, i);
    }
  }

  /** Consecutive writes are one write. */
  lemma {:induction false} OverwriteTwice(f: seq<Byte>, offset: nat, a: seq<Byte>, b: seq<Byte>)
    ensures Overwrite(Overwrite(f, offset, a), offset + |a|, b) == Overwrite(f, offset, a + b)
    decreases |a|
  {
    if a == [] {
      assert a + b == b;
    } else {
      assert (a + b)[0] == a[0] && (a + b)[1..] == a[1..] + b;
      OverwriteTwice(PutByte(f, offset, a[0]), offset + 1, a[1..], b);
    }
  }

  // ---- The aligned window --------------------------------------------------------------------

  predicate IsPowerOfTwo(x: nat) {
    x == 1 || (x > 0 && x % 2 == 0 && IsPowerOfTwo(x / 2))
  }

  function Log2(x: nat): (k: nat)
    requires IsPowerOfTwo(x)
    ensures x == Pow2(k)
  {
    if x == 1 then 0 else 1 + Log2(x / 2)
  }

  /** The offset with the low bits masked off. */
  function AlignedOffset(offset: nat, alignment: nat): nat
    requires 0 < alignment <= Pow2(64)
  {
    And(offset, Not(alignment - 1, 64))
  }

  /** The length rounded up to the alignment. */
  function AlignedLen(minLen: nat, alignment: nat): nat
    requires alignment > 0
  {
    if minLen % alignment == 0 then minLen else minLen + (alignment - minLen % alignment)
  }

  lemma {:induction false} Log2Bound(k: nat, n: nat)
    requires Pow2(k) <= Pow2(n)
    ensures k <= n
    decreases n
  {
    if k > n {
      Pow2Le(n + 1, k);
    }
  }

  lemma AlignedOffsetIs(offset: nat, alignment: nat)
    requires IsPowerOfTwo(alignment) && alignment <= Pow2(64) && offset < Pow2(64)
    ensures AlignedOffset(offset, alignment) == offset - offset % alignment
    ensures AlignedOffset(offset, alignment) <= offset < AlignedOffset(offset, alignment) + alignment
    ensures AlignedOffset(offset, alignment) % alignment == 0
  {
    var k := Log2(alignment);
    Log2Bound(k, 64);
    AndHigh(offset, k, 64);
    LowIsMod(offset, k);
    Fundamental(offset, alignment);
    DivModIs(offset - offset % alignment, alignment, offset / alignment, 0);
  }

  /** The smallest multiple of the alignment that is large enough. */
  lemma AlignedLenIs(minLen: nat, alignment: nat)
    requires alignment > 0
    ensures minLen <= AlignedLen(minLen, alignment) < minLen + alignment
    ensures AlignedLen(minLen, alignment) % alignment == 0
    ensures AlignedLen(minLen, alignment) == 0 <==> minLen == 0
  {
    DivModIs(0, alignment, 0, 0);
    Fundamental(minLen, alignment);
    if minLen % alignment != 0 {
      Distribute(alignment, minLen / alignment, 1);
      DivModIs(AlignedLen(minLen, alignment), alignment, minLen / alignment + 1, 0);
    }
  }

  /** A window `[start, start + len)` that holds a request `head` bytes into it. */
  datatype Win = Win(start: nat, head: nat, len: nat)

  /** Aligned at both ends, around `n` bytes at `offset`, and no larger than it must be. */
  predicate IsWindow(w: Win, offset: nat, n: nat, alignment: nat) {
    && alignment > 0
    && w.start % alignment == 0 && w.len % alignment == 0
    && w.start + w.head == offset && w.head < alignment
    && w.head + n <= w.len < w.head + n + alignment
  }

  /** A request has exactly one window. */
  lemma WindowUnique(w: Win, w': Win, offset: nat, n: nat, alignment: nat)
    requires IsWindow(w, offset, n, alignment) && IsWindow(w', offset, n, alignment)
    ensures w == w'
  {
    MultiplesApart(w.start, w'.start, alignment);
    MultiplesApart(w.len, w'.len, alignment);
  }

  lemma MultiplesApart(x: nat, y: nat, a: nat)
    requires a > 0 && x % a == 0 && y % a == 0 && x < y + a && y < x + a
    ensures x == y
  {
    Fundamental(x, a);
    Fundamental(y, a);
    if x / a < y / a {
      MulLe(a, x / a + 1, y / a);
      Distribute(a, x / a, 1);
    } else if y / a < x / a {
      MulLe(a, y / a + 1, x / a);
      Distribute(a, y / a, 1);
    }
  }

  /** Masking the offset and rounding the length finds it. */
  lemma MaskFindsWindow(offset: nat, n: nat, alignment: nat)
    requires IsPowerOfTwo(alignment) && alignment <= Pow2(64) && offset < Pow2(64)
    ensures AlignedOffset(offset, alignment) <= offset
    ensures var start := AlignedOffset(offset, alignment);
            IsWindow(Win(start, offset - start, AlignedLen(offset - start + n, alignment)), offset, n, alignment)
  {
    AlignedOffsetIs(offset, alignment);
    AlignedLenIs(offset - AlignedOffset(offset, alignment) + n, alignment);
  }

  // ---- Buffers -------------------------------------------------------------------------------

  /** Bytes put over a part of a buffer. */
  function Put(mem: seq<Byte>, base: nat, bytes: seq<Byte>): (r: seq<Byte>)
    requires base + |bytes| <= |mem|
    ensures |r| == |mem|
    decreases |bytes|
  {
    if bytes == [] then mem else Put(mem[base := bytes[0]], base + 1, bytes[1..])
  }

  lemma {:induction false} PutAt(mem: seq<Byte>, base: nat, bytes: seq<Byte>, i: nat)
    requires base + |bytes| <= |mem| && i < |mem|
    ensures Put(mem, base, bytes)[i] == if base <= i < base + |bytes| then bytes[i - base] else mem[i]
    decreases |bytes|
  {
    if bytes != [] {
      PutAt(mem[base := bytes[0]], base + 1, bytes[1..], i);
    }
  }

  /** A buffer that agrees byte by byte is the result of a put. */
  lemma PutIs(mem: seq<Byte>, base: nat, bytes: seq<Byte>, r: seq<Byte>)
    requires base + |bytes| <= |mem| == |r|
    requires forall i | 0 <= i < |bytes| :: r[base + i] == bytes[i]
    requires forall i | 0 <= i < |mem| && !(base <= i < base + |bytes|) :: r[i] == mem[i]
    ensures r == Put(mem, base, bytes)
  {
    forall i | 0 <= i < |mem| ensures r[i] == Put(mem, base, bytes)[i] {
      PutAt(mem, base, bytes, i);
      if base <= i < base + |bytes| {
        assert r[base + (i - base)] == bytes[i - base];
      }
    }
  }

  // ---- Read-modify-write ---------------------------------------------------------------------

  /** The window as read: the file where it has bytes, zeros beyond. */
  function Window(f: seq<Byte>, w: Win): (r: seq<Byte>)
    ensures |r| == w.len
  {
    seq(w.len, i requires 0 <= i < w.len => At(f, w.start + i))
  }

  /** The window with the request's bytes put in. */
  function Patched(f: seq<Byte>, w: Win, data: seq<Byte>): (r: seq<Byte>)
    requires w.head + |data| <= w.len
    ensures |r| == w.len
  {
    Put(Window(f, w), w.head, data)
  }

  function Bounced(f: seq<Byte>, w: Win, data: seq<Byte>): seq<Byte>
    requires w.head + |data| <= w.len
  {
    Overwrite(f, w.start, Patched(f, w, data))
  }

  /** Where the written window ends; nothing is written for an empty one. */
  function WrittenEnd(w: Win): nat {
    if w.len == 0 then 0 else w.start + w.len
  }

  lemma WindowAt(f: seq<Byte>, w: Win, i: nat)
    requires i < w.len
    ensures Window(f, w)[i] == At(f, w.start + i)
  {
  }

  lemma PatchedAt(f: seq<Byte>, w: Win, data: seq<Byte>, i: nat)
    requires w.head + |data| <= w.len && i < w.len
    ensures Patched(f, w, data)[i] == if w.head <= i < w.head + |data| then data[i - w.head] else At(f, w.start + i)
  {
    WindowAt(f, w, i);
    PutAt(Window(f, w), w.head, data, i);
  }

  /** The file after the first `k` bytes of the patched window have been written. */
  lemma PrefixAt(f: seq<Byte>, w: Win, data: seq<Byte>, k: nat, i: nat)
    requires w.head + |data| <= w.len && k <= w.len
    ensures var offset := w.start + w.head;
            At(Overwrite(f, w.start, Patched(f, w, data)[..k]), i) ==
            if offset <= i < offset + |data| && i < w.start + k then data[i - offset] else At(f, i)
  {
    var prefix := Patched(f, w, data)[..k];
    OverwriteAt(f, w.start, prefix, i);
    if w.start <= i < w.start + k {
      PatchedAt(f, w, data, i - w.start);
    }
  }

  /** Byte for byte, the window write is the plain write. */
  lemma BouncedAt(f: seq<Byte>, w: Win, data: seq<Byte>, i: nat)
    requires w.head + |data| <= w.len
    ensures At(Bounced(f, w, data), i) == At(Overwrite(f, w.start + w.head, data), i)
  {
    PrefixAt(f, w, data, w.len, i);
    WholePrefix(Patched(f, w, data));
    OverwriteAt(f, w.start + w.head, data, i);
  }

  lemma WholePrefix(s: seq<Byte>)
    ensures s[..|s|] == s
  {
  }

  /** For every file and request: the plain write, then zeros up to the end of the window. */
  lemma BouncedRefinesPlain(f: seq<Byte>, w: Win, data: seq<Byte>)
    requires w.head + |data| <= w.len
    ensures Bounced(f, w, data) == PadTo(Overwrite(f, w.start + w.head, data), WrittenEnd(w))
  {
    var plain := Overwrite(f, w.start + w.head, data);
    OverwriteLen(f, w.start, Patched(f, w, data));
    OverwriteLen(f, w.start + w.head, data);
    PadLen(plain, WrittenEnd(w));
    forall i: nat ensures At(Bounced(f, w, data), i) == At(PadTo(plain, WrittenEnd(w)), i) {
      BouncedAt(f, w, data, i);
      PadAt(plain, WrittenEnd(w), i);
    }
    SameFile(Bounced(f, w, data), PadTo(plain, WrittenEnd(w)));
  }

  /** The file is exactly as after a plain write if and only if it already reaches the end of the window. */
  lemma PlainExactly(f: seq<Byte>, w: Win, data: seq<Byte>)
    requires w.head + |data| <= w.len
    ensures Bounced(f, w, data) == Overwrite(f, w.start + w.head, data) <==>
            WrittenEnd(w) <= (if data == [] || w.start + w.head + |data| < |f| then |f| else w.start + w.head + |data|)
  {
    BouncedRefinesPlain(f, w, data);
    OverwriteLen(f, w.start + w.head, data);
    PadLen(Overwrite(f, w.start + w.head, data), WrittenEnd(w));
  }

  /** If only a prefix of the window reaches the file, every byte is still the old one or the new one. */
  lemma TornWrite(f: seq<Byte>, w: Win, data: seq<Byte>, k: nat, i: nat)
    requires w.head + |data| <= w.len && k <= w.len
    ensures var torn := Overwrite(f, w.start, Patched(f, w, data)[..k]);
            At(torn, i) == At(f, i) || At(torn, i) == At(Overwrite(f, w.start + w.head, data), i)
  {
    PrefixAt(f, w, data, k, i);
    OverwriteAt(f, w.start + w.head, data, i);
  }

  /** A bounced write changes no byte outside the request. */
  lemma BouncedElsewhere(f: seq<Byte>, w: Win, data: seq<Byte>, i: nat)
    requires w.head + |data| <= w.len && (i < w.start + w.head || w.start + w.head + |data| <= i)
    ensures At(Bounced(f, w, data), i) == At(f, i)
  {
    BouncedAt(f, w, data, i);
    OverwriteAt(f, w.start + w.head, data, i);
  }

  /** And it is what a read of the same range then returns. */
  lemma ReadBack(f: seq<Byte>, w: Win, data: seq<Byte>)
    requires w.head + |data| <= w.len
    ensures Slice(Bounced(f, w, data), w.start + w.head, |data|) == data
  {
    BouncedRefinesPlain(f, w, data);
    var plain := Overwrite(f, w.start + w.head, data);
    OverwriteLen(f, w.start + w.head, data);
    if data != [] {
      SliceOfPlain(f, w.start + w.head, data);
      SliceOfPadded(plain, w.start + w.head, |data|, WrittenEnd(w));
    }
  }

  lemma SliceOfPlain(f: seq<Byte>, offset: nat, data: seq<Byte>)
    requires data != []
    ensures Slice(Overwrite(f, offset, data), offset, |data|) == data
  {
    OverwriteLen(f, offset, data);
    forall j: nat | j < |data| ensures Slice(Overwrite(f, offset, data), offset, |data|)[j] == data[j] {
      OverwriteAt(f, offset, data, offset + j);
    }
  }

  lemma SliceOfPadded(g: seq<Byte>, offset: nat, n: nat, end: nat)
    requires offset + n <= |g|
    ensures Slice(PadTo(g, end), offset, n) == Slice(g, offset, n)
  {
    PadLen(g, end);
    var a, b := Slice(PadTo(g, end), offset, n), Slice(g, offset, n);
    assert |a| == n && |b| == n;
    forall j: nat | j < n ensures a[j] == b[j] {
      PadAt(g, end, offset + j);
    }
  }

  /** What of a request is found in a window of which `total` bytes could be read. */
  function Valid(w: Win, total: nat, n: nat): nat {
    var beyond := if total < w.head then 0 else total - w.head;
    if beyond < n then beyond else n
  }

  /** The clipped window yields exactly the clipped request. */
  lemma ReadRefinesPlain(f: seq<Byte>, w: Win, n: nat)
    requires w.head + n <= w.len
    ensures Valid(w, |Slice(f, w.start, w.len)|, n) == |Slice(f, w.start + w.head, n)|
    ensures Window(f, w)[w.head..w.head + |Slice(f, w.start + w.head, n)|] == Slice(f, w.start + w.head, n)
  {
    var s := Slice(f, w.start + w.head, n);
    forall j: nat | j < |s| ensures Window(f, w)[w.head + j] == s[j] {
      WindowAt(f, w, w.head + j);
    }
  }

  // ---- Scatter and gather ------------------------------------------------------------------------

  /** A piece of guest memory. */
  datatype Iov = Iov(base: nat, len: nat)

  predicate InMemory(iovs: seq<Iov>, size: nat) {
    forall i | 0 <= i < |iovs| :: iovs[i].base + iovs[i].len <= size
  }

  function Total(iovs: seq<Iov>): nat {
    if iovs == [] then 0 else iovs[0].len + Total(iovs[1..])
  }

  /** The bytes the pieces hold, one after the other. */
  function Concat(mem: seq<Byte>, iovs: seq<Iov>): (r: seq<Byte>)
    requires InMemory(iovs, |mem|)
    ensures |r| == Total(iovs)
  {
    if iovs == [] then [] else mem[iovs[0].base..iovs[0].base + iovs[0].len] + Concat(mem, iovs[1..])
  }

  function Min(a: nat, b: nat): nat {
    if a < b then a else b
  }

  /** Memory after the pieces have been filled in order, as far as the data goes. */
  function Scattered(mem: seq<Byte>, iovs: seq<Iov>, data: seq<Byte>): (r: seq<Byte>)
    requires InMemory(iovs, |mem|)
    ensures |r| == |mem|
    decreases |iovs|
  {
    if iovs == [] || data == [] then mem
    else
      var n := Min(|data|, iovs[0].len);
      Scattered(Put(mem, iovs[0].base, data[..n]), iovs[1..], data[n..])
  }

  predicate Apart(a: Iov, b: Iov) {
    a.base + a.len <= b.base || b.base + b.len <= a.base
  }

  predicate Disjoint(iovs: seq<Iov>) {
    forall i, j | 0 <= i < j < |iovs| :: Apart(iovs[i], iovs[j])
  }

  /** Filling other pieces leaves a piece alone. */
  lemma {:induction false} ScatterElsewhere(mem: seq<Byte>, iovs: seq<Iov>, data: seq<Byte>, i: nat)
    requires InMemory(iovs, |mem|) && i < |mem|
    requires forall k | 0 <= k < |iovs| :: !(iovs[k].base <= i < iovs[k].base + iovs[k].len)
    ensures Scattered(mem, iovs, data)[i] == mem[i]
    decreases |iovs|
  {
    if iovs != [] && data != [] {
      var n := Min(|data|, iovs[0].len);
      PutAt(mem, iovs[0].base, data[..n], i);
      ScatterElsewhere(Put(mem, iovs[0].base, data[..n]), iovs[1..], data[n..], i);
    }
  }

  /** Disjoint pieces then hold the data, followed by what they held before. */
  lemma {:induction false} ScatterThenConcat(mem: seq<Byte>, iovs: seq<Iov>, data: seq<Byte>)
    requires InMemory(iovs, |mem|) && Disjoint(iovs) && |data| <= Total(iovs)
    ensures Concat(Scattered(mem, iovs, data), iovs) == data + Concat(mem, iovs)[|data|..]
    decreases |iovs|
  {
    if iovs != [] && data != [] {
      var first, rest := iovs[0], iovs[1..];
      var n := Min(|data|, first.len);
      var mem1 := Put(mem, first.base, data[..n]);
      assert iovs == [first] + rest;
      ScatterThenConcat(mem1, rest, data[n..]);
      FirstPiece(mem, mem1, Scattered(mem1, rest, data[n..]), iovs, data, n);
      RestUnchanged(mem, first, rest, data[..n], iovs);
      JoinPieces(mem[first.base..first.base + first.len], Concat(mem, rest), data, n);
    }
  }

  lemma RestUnchanged(mem: seq<Byte>, first: Iov, rest: seq<Iov>, bytes: seq<Byte>, iovs: seq<Iov>)
    requires iovs == [first] + rest && InMemory(iovs, |mem|) && Disjoint(iovs) && |bytes| <= first.len
    ensures InMemory(rest, |mem|) && first.base + |bytes| <= |mem|
    ensures Concat(Put(mem, first.base, bytes), rest) == Concat(mem, rest)
  {
    assert iovs[0] == first;
    forall k | 0 <= k < |rest| ensures Apart(first, rest[k]) && rest[k].base + rest[k].len <= |mem| {
      assert rest[k] == iovs[k + 1];
    }
    forall i | 0 <= i < |mem| && !(first.base <= i < first.base + first.len) ensures Put(mem, first.base, bytes)[i] == mem[i] {
      PutAt(mem, first.base, bytes, i);
    }
    ConcatElsewhere(mem, Put(mem, first.base, bytes), first, rest);
  }

  lemma JoinPieces(first: seq<Byte>, rest: seq<Byte>, data: seq<Byte>, n: nat)
    requires n == Min(|data|, |first|) && |data| <= |first| + |rest|
    ensures (data[..n] + first[n..]) + (data[n..] + rest[|data| - n..]) == data + (first + rest)[|data|..]
  {
    if |data| <= |first| {
      assert data[..n] == data && data[n..] == [] && rest[0..] == rest;
    } else {
      assert first[n..] == [];
      assert (first + rest)[|data|..] == rest[|data| - n..];
    }
  }

  lemma FirstPiece(mem: seq<Byte>, mem1: seq<Byte>, mem2: seq<Byte>, iovs: seq<Iov>, data: seq<Byte>, n: nat)
    requires iovs != [] && InMemory(iovs, |mem|) && Disjoint(iovs)
    requires n == Min(|data|, iovs[0].len) && mem1 == Put(mem, iovs[0].base, data[..n])
    requires mem2 == Scattered(mem1, iovs[1..], data[n..])
    ensures mem2[iovs[0].base..iovs[0].base + iovs[0].len] ==
            data[..n] + mem[iovs[0].base..iovs[0].base + iovs[0].len][n..]
  {
    hide Scattered, Put, Disjoint;
    var base, len := iovs[0].base, iovs[0].len;
    var piece, was := mem2[base..base + len], mem[base..base + len];
    forall i | 0 <= i < len ensures piece[i] == if i < n then data[i] else was[i] {
      PieceByte(mem, mem1, mem2, iovs, data, n, i);
    }
    SplitPiece(piece, data, was, n);
  }

  lemma PieceByte(mem: seq<Byte>, mem1: seq<Byte>, mem2: seq<Byte>, iovs: seq<Iov>, data: seq<Byte>, n: nat, i: nat)
    requires iovs != [] && InMemory(iovs, |mem|) && Disjoint(iovs)
    requires n == Min(|data|, iovs[0].len) && mem1 == Put(mem, iovs[0].base, data[..n])
    requires mem2 == Scattered(mem1, iovs[1..], data[n..]) && i < iovs[0].len
    ensures mem2[iovs[0].base + i] == if i < n then data[i] else mem[iovs[0].base + i]
  {
    UntouchedByRest(mem1, iovs, data[n..], iovs[0].base + i);
    PutAt(mem, iovs[0].base, data[..n], iovs[0].base + i);
  }

  lemma SplitPiece(piece: seq<Byte>, data: seq<Byte>, was: seq<Byte>, n: nat)
    requires |piece| == |was| && n <= |was| && n <= |data|
    requires forall i | 0 <= i < |was| :: piece[i] == if i < n then data[i] else was[i]
    ensures piece == data[..n] + was[n..]
  {
  }

  lemma UntouchedByRest(mem: seq<Byte>, iovs: seq<Iov>, data: seq<Byte>, i: nat)
    requires iovs != [] && InMemory(iovs, |mem|) && Disjoint(iovs)
    requires iovs[0].base <= i < iovs[0].base + iovs[0].len
    ensures Scattered(mem, iovs[1..], data)[i] == mem[i]
  {
    forall k | 0 <= k < |iovs[1..]| ensures !(iovs[1..][k].base <= i < iovs[1..][k].base + iovs[1..][k].len) {
      assert Apart(iovs[0], iovs[k + 1]);
    }
    ScatterElsewhere(mem, iovs[1..], data, i);
  }

  lemma {:induction false} ConcatElsewhere(mem: seq<Byte>, mem1: seq<Byte>, first: Iov, rest: seq<Iov>)
    requires |mem1| == |mem| && InMemory(rest, |mem|)
    requires forall k | 0 <= k < |rest| :: Apart(first, rest[k])
    requires forall i | 0 <= i < |mem| && !(first.base <= i < first.base + first.len) :: mem1[i] == mem[i]
    ensures Concat(mem1, rest) == Concat(mem, rest)
    decreases |rest|
  {
    if rest != [] {
      assert Apart(first, rest[0]);
      assert mem1[rest[0].base..rest[0].base + rest[0].len] == mem[rest[0].base..rest[0].base + rest[0].len];
      ConcatElsewhere(mem, mem1, first, rest[1..]);
    }
  }
}
