/** The copy worker as code: one block at a time under the range lock, then a flush. */
module MirrorCopyWorker {
  import opened Bytes
  import opened Arithmetic
  import opened RangeLocks
  import opened MirrorProtocol
  import opened MirrorWorld

  datatype Block = Block(off: nat, len: nat)

  /** A block is not empty and starts where the one before it ends. */
  predicate Follows(blocks: seq<Block>, i: nat)
    requires i < |blocks|
  {
    0 < blocks[i].len && blocks[i].off == if i == 0 then 0 else blocks[i - 1].off + blocks[i - 1].len
  }

  /** The blocks follow each other without gap or overlap from 0 to `end`. */
  ghost predicate Tile(blocks: seq<Block>, end: nat) {
    && (forall i: nat | i < |blocks| :: Follows(blocks, i))
    && end == if blocks == [] then 0 else blocks[|blocks| - 1].off + blocks[|blocks| - 1].len
  }

  lemma TileFront(blocks: seq<Block>, end: nat)
    requires Tile(blocks, end) && blocks != []
    ensures Tile(blocks[..|blocks| - 1], blocks[|blocks| - 1].off)
  {
    var front := blocks[..|blocks| - 1];
    assert Follows(blocks, |blocks| - 1);
    forall i: nat | i < |front| ensures Follows(front, i) {
      assert Follows(blocks, i);
    }
  }

  /** Consecutive blocks cover every byte of the disk, each byte in exactly one block. */
  lemma {:induction false} TileCovers(blocks: seq<Block>, end: nat, p: nat)
    requires Tile(blocks, end) && p < end
    ensures exists i | 0 <= i < |blocks| :: blocks[i].off <= p < blocks[i].off + blocks[i].len
    ensures forall i, j | 0 <= i < j < |blocks| :: blocks[i].off + blocks[i].len <= blocks[j].off
    decreases |blocks|
  {
    var n := |blocks| - 1;
    var front := blocks[..n];
    if p >= blocks[n].off {
      if n > 0 {
        TileOrdered(blocks, end);
      }
    } else {
      TileFront(blocks, end);
      TileCovers(front, blocks[n].off, p);
      var i :| 0 <= i < |front| && front[i].off <= p < front[i].off + front[i].len;
      assert blocks[i] == front[i];
      TileOrdered(blocks, end);
    }
  }

  lemma {:induction false} TileOrdered(blocks: seq<Block>, end: nat)
    requires Tile(blocks, end)
    ensures forall i, j | 0 <= i < j < |blocks| :: blocks[i].off + blocks[i].len <= blocks[j].off
    decreases |blocks|
  {
    if |blocks| > 1 {
      var n := |blocks| - 1;
      var front := blocks[..n];
      TileFront(blocks, end);
      TileOrdered(front, blocks[n].off);
      forall i, j | 0 <= i < j < |blocks| ensures blocks[i].off + blocks[i].len <= blocks[j].off {
        if j == n && i < n - 1 {
          assert front[i].off + front[i].len <= front[n - 1].off;
        } else if j < n {
          assert blocks[i] == front[i] && blocks[j] == front[j];
        }
      }
    }
  }

  lemma TileAppend(blocks: seq<Block>, end: nat, b: Block)
    requires Tile(blocks, end) && b.off == end && 0 < b.len
    ensures Tile(blocks + [b], end + b.len)
  {
    forall i: nat | i <= |blocks| ensures Follows(blocks + [b], i) {
      assert i < |blocks| ==> Follows(blocks, i);
    }
  }

  /** The checks made before the worker is started. */
  predicate SpawnAccepts(blockSize: nat, total: nat, ioAlignment: nat) {
    && ioAlignment > 0
    && 0 < blockSize <= I32_MAX
    && blockSize % ioAlignment == 0
    && total % ioAlignment == 0
    && total <= I64_MAX
  }

  /** Every later request is aligned and fits the integers it is converted to. */
  predicate BlockOk(b: Block, ioAlignment: nat)
    requires ioAlignment > 0
  {
    b.off % ioAlignment == 0 && b.len % ioAlignment == 0 && b.len <= I32_MAX && b.off <= I64_MAX
    && b.off + b.len < U64_LIMIT
  }

  lemma NextBlockOk(blockSize: nat, total: nat, a: nat, off: nat, len: nat)
    requires SpawnAccepts(blockSize, total, a) && off % a == 0 && off < total
    requires len == if total - off < blockSize then total - off else blockSize
    ensures BlockOk(Block(off, len), a) && (off + len) % a == 0 && 0 < len
  {
    SumOfMultiples(total, off, a);
    SumOfMultiples(off, len, a);
  }

  /** The loop returned, or the worker sleeps in the range lock. */
  datatype RunResult = Over(outcome: Outcome) | Asleep

  class CopyWorker {
    const w: World
    const ioAlignment: nat
    /** Blocks copied so far. */
    ghost var blocks: seq<Block>

    ghost predicate Valid()
      reads this, w
    {
      && w.Valid() && SpawnAccepts(w.e.blockSize, |w.s.src|, ioAlignment)
      && Tile(blocks, Frontier(w.s))
      && (forall i | 0 <= i < |blocks| :: BlockOk(blocks[i], ioAlignment))
      && (w.s.copier.Wanting? ==> WantedOk())
    }

    /** The block that the worker waits for is the next one of the tiling. */
    ghost predicate WantedOk()
      requires w.s.copier.Wanting? && ioAlignment > 0
      reads this, w
    {
      var c := w.s.copier;
      BlockOk(Block(c.off, c.len), ioAlignment) && 0 < c.len && c.off + c.len <= |w.s.src|
    }

    constructor (w: World, ioAlignment: nat)
      requires w.Valid() && SpawnAccepts(w.e.blockSize, |w.s.src|, ioAlignment)
      requires w.s.copier == Between(0)
      ensures Valid() && this.w == w && this.ioAlignment == ioAlignment
    {
      this.w := w;
      this.ioAlignment := ioAlignment;
      blocks := [];
    }

    /** Reads the block from the source, byte by byte in the world's time, unless it fails on the way. */
    method ReadBlock() returns (ok: bool)
      requires w.Valid() && w.s.copier.Reading? && w.s.copier.off + w.s.copier.len <= |w.s.src|
      modifies w
      ensures w.Valid() && w.s.copier.Reading? && |w.s.src| == old(|w.s.src|)
      ensures w.s.copier.off == old(w.s).copier.off && w.s.copier.len == old(w.s).copier.len
      ensures ok ==> BlockRead(w.s.copier)
    {
      ghost var c := w.s.copier;
      var p, end := w.s.copier.off, w.s.copier.off + w.s.copier.len;
      while p < end
        invariant c.off <= p <= end && w.Valid() && |w.s.src| == old(|w.s.src|)
        invariant w.s.copier.Reading? && w.s.copier.off == c.off && w.s.copier.len == c.len
        invariant forall i | c.off <= i < p :: i in w.s.copier.buf
      {
        w.OthersThanCopier();
        var fails: bool := *;
        if fails {
          return false;
        }
        w.Take(OfCopier(ReadByte(p)));
        p := p + 1;
      }
      return true;
    }

    /** Writes the buffered block to the destination; success means every byte has arrived. */
    method WriteBlock() returns (ok: bool)
      requires w.Valid() && w.s.copier.Writing? && w.s.copier.off + w.s.copier.len <= |w.s.src|
      requires forall i | w.s.copier.off <= i < w.s.copier.off + w.s.copier.len :: i in w.s.copier.buf
      modifies w
      ensures w.Valid() && w.s.copier.Writing? && |w.s.src| == old(|w.s.src|)
      ensures w.s.copier.off == old(w.s).copier.off && w.s.copier.len == old(w.s).copier.len
      ensures ok ==> CopierEnabled(w.e, w.s, FinishBlock)
    {
      ghost var c := w.s.copier;
      var p, end := w.s.copier.off, w.s.copier.off + w.s.copier.len;
      while p < end
        invariant c.off <= p <= end && w.Valid() && |w.s.src| == old(|w.s.src|)
        invariant w.s.copier.Writing? && w.s.copier.off == c.off && w.s.copier.len == c.len
        invariant w.s.copier.buf == c.buf
        invariant forall i | c.off <= i < p :: i in w.s.copier.landed
      {
        w.OthersThanCopier();
        var fails: bool := *;
        if fails {
          return false;
        }
        w.SameSizes();
        w.Take(OfCopier(LandCopy(p)));
        p := p + 1;
      }
      w.OthersThanCopier();
      return true;
    }

    /** Copies the block whose range is held and drops the range. */
    method CopyHeld() returns (outcome: Outcome)
      requires w.Valid() && w.s.copier.Reading? && w.s.copier.off + w.s.copier.len <= |w.s.src|
      modifies w
      ensures w.Valid() && |w.s.src| == old(|w.s.src|)
      ensures outcome.Error? || outcome.Full?
      ensures outcome.Error? ==> w.s.copier == Returned(old(w.s).copier.off, outcome)
      ensures outcome.Full? ==> w.s.copier == Between(old(w.s).copier.off + old(w.s).copier.len)
    {
      hide OverlapsAny, AllZero, QueueEnabled, ManagerEnabled;
      var ok := ReadBlock();
      w.OthersThanCopier();
      if ok {
        w.Take(OfCopier(StartWrite));
        ok := WriteBlock();
        w.OthersThanCopier();
        if ok {
          w.Take(OfCopier(FinishBlock));
          return Full;
        }
      }
      w.Take(OfCopier(CopyFails));
      return w.s.copier.outcome;
    }

    /** Copies the block that starts at the frontier. */
    method CopyBlock() returns (r: RunResult)
      requires w.Valid() && w.s.copier.Wanting? && w.s.copier.off + w.s.copier.len <= |w.s.src|
      modifies w
      ensures w.Valid() && |w.s.src| == old(|w.s.src|)
      ensures r.Asleep? ==> w.s.copier == old(w.s).copier
      ensures r.Asleep? ==> SomeOverlap(w.s.held, w.s.copier.off, w.s.copier.off + w.s.copier.len)
      ensures r.Over? ==> r.outcome.Error? || r.outcome.Full?
      ensures r.Over? && r.outcome.Error? ==> w.s.copier == Returned(old(w.s).copier.off, r.outcome)
      ensures r.Over? && r.outcome.Full? ==> w.s.copier == Between(old(w.s).copier.off + old(w.s).copier.len)
    {
      hide OverlapsAny, SomeOverlap, QueueEnabled, ManagerEnabled;
      w.OthersThanCopier();
      if OverlapsAny(w.s.held, w.s.copier.off, w.s.copier.off + w.s.copier.len) {
        w.OverlapIsReal(w.s.copier.off, w.s.copier.off + w.s.copier.len);
        return Asleep;
      }
      w.Take(OfCopier(CopyAcquire));
      var outcome := CopyHeld();
      return Over(outcome);
    }

    /**
     The worker tries for the block it wants, first when it reaches it and again at
     every wake-up: either some held range still overlaps it and it sleeps on, or the
     block is copied or fails.
     */
    method CopyWanted() returns (r: RunResult)
      requires Valid() && w.s.copier.Wanting?
      modifies this, w
      ensures Valid() && |w.s.src| == old(|w.s.src|)
      ensures r.Asleep? ==> w.s.copier == old(w.s).copier && blocks == old(blocks)
      ensures r.Asleep? ==> SomeOverlap(w.s.held, w.s.copier.off, w.s.copier.off + w.s.copier.len)
      ensures r.Over? ==> !r.outcome.Early?
      ensures r.Over? && !r.outcome.Full? ==> w.s.copier.Returned? && w.s.copier.outcome == r.outcome
      ensures r.Over? && r.outcome.Full? ==> w.s.copier == Between(old(w.s).copier.off + old(w.s).copier.len)
      ensures r.Over? && r.outcome.Full? ==> w.s.copier.off > old(w.s).copier.off
    {
      ghost var b := Block(w.s.copier.off, w.s.copier.len);
      r := CopyBlock();
      if r.Over? && r.outcome.Full? {
        TileAppend(blocks, b.off, b);
        blocks := blocks + [b];
      }
    }

    /** One iteration of the copy loop; `Over(Full)` means one more block is done. */
    method CopyNext() returns (r: RunResult)
      requires Valid() && w.s.copier.Between? && w.s.copier.off < |w.s.src|
      modifies this, w
      ensures Valid() && |w.s.src| == old(|w.s.src|)
      ensures r.Asleep? ==> w.s.copier.Wanting?
      ensures r.Over? && !r.outcome.Full? ==> w.s.copier.Returned? && w.s.copier.outcome == r.outcome
      ensures r.Over? && r.outcome.Early? ==> !w.s.phase.Running?
      ensures r.Over? && r.outcome.Full? ==> w.s.copier.Between? && w.s.copier.off > old(w.s).copier.off
    {
      OffsetAligned();
      w.OthersThanCopier();
      if !w.s.phase.Running? {
        w.Take(OfCopier(SeeStopped));
        return Over(Early);
      }
      NextBlockOk(w.e.blockSize, |w.s.src|, ioAlignment, w.s.copier.off, BlockLen(w.e, w.s, w.s.copier.off));
      w.Take(OfCopier(NextBlock));
      r := CopyWanted();
    }

    /**
     The copy loop, from its start or from a wake-up in the range lock. However the
     other parties interleave, the blocks copied so far tile the disk from its start,
     each one aligned and within range; a full run has copied the whole disk and
     flushed it, and an early return means that the mirror had left Running.
     */
    method Run() returns (r: RunResult)
      requires Valid() && (w.s.copier.Between? || w.s.copier.Wanting?)
      modifies this, w
      ensures Valid() && |w.s.src| == old(|w.s.src|)
      ensures r.Asleep? ==> w.s.copier.Wanting?
      ensures r.Over? ==> w.s.copier.Returned? && w.s.copier.outcome == r.outcome
      ensures r.Over? && r.outcome.Full? ==> Tile(blocks, |w.s.src|)
      ensures r.Over? && r.outcome.Early? ==> !w.s.phase.Running?
    {
      if w.s.copier.Wanting? {
        r := CopyWanted();
        if r.Asleep? || !r.outcome.Full? {
          return;
        }
      }
      while w.s.copier.off < |w.s.src|
        invariant Valid() && w.s.copier.Between? && |w.s.src| == old(|w.s.src|)
        decreases |w.s.src| - w.s.copier.off
      {
        r := CopyNext();
        if r.Asleep? || !r.outcome.Full? {
          return;
        }
      }
      w.OthersThanCopier();
      w.FrontierInDisk();
      var ok: bool := *;
      w.Take(OfCopier(Flush(ok)));
      w.OthersThanCopier();
      return Over(w.s.copier.outcome);
    }

    lemma OffsetAligned()
      requires Valid()
      ensures Frontier(w.s) % ioAlignment == 0
    {
      if blocks != [] {
        var b := blocks[|blocks| - 1];
        SumOfMultiples(b.off, b.len, ioAlignment);
      }
    }

    /** Reports the result: Ready only if the loop covered the disk while the mirror was still Running. */
    method FinishCopy()
      requires Valid() && w.s.copier.Returned?
      modifies w
      ensures w.Valid() && w.s.copier == Reported(old(w.s).copier.off, old(w.s).copier.outcome)
      ensures w.s.phase.Ready? && !old(w.s).phase.Ready? ==>
                old(w.s).phase.Running? && old(w.s).copier.outcome.Full? && w.s.copied == |w.s.src|
    {
      w.Take(OfCopier(Report));
      w.ReadyIsFull();
    }
  }
}
