/** The writer of turbo-persistence's static sorted files: the block writer
    and its offset table, the partition of values into value blocks, and the
    split of keys into key blocks with an index block over them. */
module SstBuilder {
  import opened Wrappers
  import opened SstLayout

  /** A value: small ones share blocks, medium ones (possibly already
      compressed) get a block each, large ones live in blob files, and
      tombstones have none. */
  datatype EntryValue =
    | Small(value: seq<Byte>)
    | Medium(value: seq<Byte>)
    | MediumCompressed(uncompressedSize: nat, block: seq<Byte>)
    | Large(blob: nat)
    | Deleted

  datatype Entry = Entry(keyHash: nat, key: seq<Byte>, value: EntryValue)

  datatype BlockKind = KeyBlock | IndexBlock | SmallValueBlock | ValueBlock | CompressedValueBlock

  /** A block as handed to the writer: its kind, its bytes before compression,
      the uncompressed size recorded in front of it, and the bytes stored. */
  datatype WrittenBlock = WrittenBlock(kind: BlockKind, data: seq<Byte>, size: nat, stored: seq<Byte>)

  /** The compressor, given the block, the dictionary and the long-term flag. */
  type Compressor = (seq<Byte>, Option<seq<Byte>>, bool) -> seq<Byte>

  /** The panic of a failed `unwrap` of an integer conversion. */
  const UnwrapFailed := "called `Result::unwrap()` on an `Err` value"

  const U32Limit: nat := 0x1_0000_0000
  const U16Limit: nat := 0x1_0000

  /** The end of the last block, 0 before the first. */
  function LastOffset(offsets: seq<nat>): nat {
    if offsets == [] then 0 else offsets[|offsets| - 1]
  }

  /** Where block `i` begins, relative to the first block. */
  function BlockStart(offsets: seq<nat>, i: nat): nat
    requires i < |offsets|
  {
    if i == 0 then 0 else offsets[i - 1]
  }

  /** The bytes of the blocks: each its 4-byte uncompressed size and its
      stored bytes. */
  function Encoded(blocks: seq<WrittenBlock>): seq<Byte> {
    if blocks == [] then []
    else
      var b := blocks[|blocks| - 1];
      Encoded(blocks[..|blocks| - 1]) + BigEndian(b.size, 4) + b.stored
  }

  /** The end offset of each block, relative to the first. */
  function Offsets(blocks: seq<WrittenBlock>): (r: seq<nat>)
    ensures |r| == |blocks|
  {
    if blocks == [] then []
    else
      var init := Offsets(blocks[..|blocks| - 1]);
      init + [LastOffset(init) + 4 + |blocks[|blocks| - 1].stored|]
  }

  lemma {:induction false} LastOffsetIsLength(blocks: seq<WrittenBlock>)
    ensures LastOffset(Offsets(blocks)) == |Encoded(blocks)|
  {
    if blocks != [] {
      LastOffsetIsLength(blocks[..|blocks| - 1]);
    }
  }

  lemma {:induction false} OffsetsPrefix(blocks: seq<WrittenBlock>, j: nat)
    requires j <= |blocks|
    ensures Offsets(blocks[..j]) == Offsets(blocks)[..j]
    ensures Encoded(blocks[..j]) <= Encoded(blocks)
  {
    if j < |blocks| {
      var init := blocks[..|blocks| - 1];
      assert init[..j] == blocks[..j];
      OffsetsPrefix(init, j);
    } else {
      assert blocks[..j] == blocks;
    }
  }

  /** Block `i` sits between the previous block's offset and its own: its size
      and then its stored bytes. */
  lemma BlockLocated(blocks: seq<WrittenBlock>, i: nat)
    requires i < |blocks|
    ensures var o := Offsets(blocks);
      && BlockStart(o, i) + 4 + |blocks[i].stored| == o[i] <= |Encoded(blocks)|
      && Encoded(blocks)[BlockStart(o, i)..o[i]] == BigEndian(blocks[i].size, 4) + blocks[i].stored
  {
    var pre := blocks[..i + 1];
    assert pre[..|pre| - 1] == blocks[..i];
    OffsetsPrefix(blocks, i + 1);
    OffsetsPrefix(blocks, i);
    LastOffsetIsLength(blocks[..i]);
    LastOffsetIsLength(pre);
    var o := Offsets(blocks);
    assert BlockStart(o, i) == LastOffset(Offsets(blocks[..i]));
    assert o[i] == LastOffset(Offsets(pre));
  }

  // ---------------------------------------------------------------------------
  // Block writer

  /** `BlockWriter`: the file written so far and the end offset of each block. */
  class BlockWriter {
    var file: seq<Byte>
    var blockOffsets: seq<nat>
    const compress: Compressor
    ghost const head: seq<Byte>
    ghost var blocks: seq<WrittenBlock>

    /** The file is what preceded the blocks and then the blocks; the offsets
        are the blocks' ends, and fit a u32. */
    ghost predicate Valid()
      reads this
    {
      && file == head + Encoded(blocks)
      && blockOffsets == Offsets(blocks)
      && LastOffset(blockOffsets) < U32Limit
    }

    /** `BlockWriter::new`, after the key dictionary has been written. */
    constructor (file: seq<Byte>, compress: Compressor)
      ensures Valid() && blocks == [] && blockOffsets == [] && this.file == file && head == file
      ensures this.compress == compress
    {
      this.file := file;
      this.compress := compress;
      head := file;
      blockOffsets := [];
      blocks := [];
    }

    /** `next_block_index`: the number of blocks so far, which must fit a u16. */
    function NextBlockIndex(): (r: Result<nat>)
      reads this
      ensures r.Ok? <==> |blockOffsets| < U16Limit
      ensures r.Ok? ==> r.value == |blockOffsets|
      ensures r.Err? ==> r.msg == "Block index overflow"
    {
      if |blockOffsets| < U16Limit then Ok(|blockOffsets|) else Err("Block index overflow")
    }

    /** `block_count`. */
    function BlockCount(): (r: Result<nat>)
      reads this
      ensures r.Ok? <==> |blockOffsets| < U16Limit
      ensures r.Ok? ==> r.value == |blockOffsets|
      ensures r.Err? ==> r.msg == "Block count overflow"
    {
      if |blockOffsets| < U16Limit then Ok(|blockOffsets|) else Err("Block count overflow")
    }

    /** Appends a block's size and stored bytes and its end offset. */
    method Append(b: WrittenBlock)
      requires Valid() && LastOffset(blockOffsets) + 4 + |b.stored| < U32Limit && b.size < U32Limit
      modifies this
      ensures Valid()
      ensures blocks == old(blocks) + [b]
      ensures blockOffsets == old(blockOffsets) + [LastOffset(old(blockOffsets)) + 4 + |b.stored|]
      ensures file == old(file) + BigEndian(b.size, 4) + b.stored
    {
      var offset := LastOffset(blockOffsets) + 4 + |b.stored|;
      file := file + BigEndian(b.size, 4) + b.stored;
      blockOffsets := blockOffsets + [offset];
      blocks := blocks + [b];
      assert blocks[..|blocks| - 1] == old(blocks);
    }

    /** `write_block`: compresses the block and appends it; the uncompressed
        size and the stored length plus 4 must fit a u32, and the new offset
        must not overflow one. */
    method WriteBlock(kind: BlockKind, block: seq<Byte>, dict: Option<seq<Byte>>, longTerm: bool) returns (r: Result<()>)
      requires Valid()
      modifies this
      ensures Valid()
      ensures var stored := compress(block, dict, longTerm);
        var offset := LastOffset(old(blockOffsets)) + |stored| + 4;
        if |block| >= U32Limit || |stored| + 4 >= U32Limit then r == Err(UnwrapFailed) && unchanged(this)
        else if offset >= U32Limit then r == Err("Block offset overflow") && unchanged(this)
        else
          && r == Ok(())
          && blocks == old(blocks) + [WrittenBlock(kind, block, |block|, stored)]
          && blockOffsets == old(blockOffsets) + [offset]
          && file == old(file) + BigEndian(|block|, 4) + stored
    {
      if |block| >= U32Limit {
        return Err(UnwrapFailed);
      }
      var stored := compress(block, dict, longTerm);
      if |stored| + 4 >= U32Limit {
        return Err(UnwrapFailed);
      }
      if LastOffset(blockOffsets) + (|stored| + 4) >= U32Limit {
        return Err("Block offset overflow");
      }
      Append(WrittenBlock(kind, block, |block|, stored));
      r := Ok(());
    }

    /** `write_compressed_block`: a block compressed beforehand, stored as is
        with the given uncompressed size. */
    method WriteCompressedBlock(uncompressedSize: nat, block: seq<Byte>) returns (r: Result<()>)
      requires Valid() && uncompressedSize < U32Limit
      modifies this
      ensures Valid()
      ensures var offset := LastOffset(old(blockOffsets)) + |block| + 4;
        if |block| + 4 >= U32Limit then r == Err(UnwrapFailed) && unchanged(this)
        else if offset >= U32Limit then r == Err("Block offset overflow") && unchanged(this)
        else
          && r == Ok(())
          && blocks == old(blocks) + [WrittenBlock(CompressedValueBlock, block, uncompressedSize, block)]
          && blockOffsets == old(blockOffsets) + [offset]
          && file == old(file) + BigEndian(uncompressedSize, 4) + block
    {
      if |block| + 4 >= U32Limit {
        return Err(UnwrapFailed);
      }
      if LastOffset(blockOffsets) + (|block| + 4) >= U32Limit {
        return Err("Block offset overflow");
      }
      Append(WrittenBlock(CompressedValueBlock, block, uncompressedSize, block));
      r := Ok(());
    }
  }

  /** Offsets grow by at least 4 per block, so they strictly increase. */
  lemma {:induction false} OffsetsIncrease(blocks: seq<WrittenBlock>, i: nat, j: nat)
    requires i < j < |blocks|
    ensures Offsets(blocks)[i] + 4 <= Offsets(blocks)[j]
    decreases j - i
  {
    BlockLocated(blocks, j);
    if i < j - 1 {
      OffsetsIncrease(blocks, i, j - 1);
    }
  }

  // ---------------------------------------------------------------------------
  // Value blocks

  /** The small values among entries `lo` to `hi`, concatenated. */
  function SmallBytes(entries: seq<Entry>, lo: nat, hi: nat): seq<Byte>
    requires lo <= hi <= |entries|
    decreases hi
  {
    if hi == lo then []
    else SmallBytes(entries, lo, hi - 1) + (if entries[hi - 1].value.Small? then entries[hi - 1].value.value else [])
  }

  /** The number of small values among entries `lo` to `hi`. */
  function SmallCount(entries: seq<Entry>, lo: nat, hi: nat): nat
    requires lo <= hi <= |entries|
    decreases hi
  {
    if hi == lo then 0
    else SmallCount(entries, lo, hi - 1) + (if entries[hi - 1].value.Small? then 1 else 0)
  }

  /** A small value sits in the concatenation at the length of the values
      before it. */
  lemma {:induction false} SmallBytesAt(entries: seq<Entry>, lo: nat, k: nat, hi: nat)
    requires lo <= k < hi <= |entries| && entries[k].value.Small?
    ensures var off := |SmallBytes(entries, lo, k)|; var v := entries[k].value.value;
      && off + |v| <= |SmallBytes(entries, lo, hi)|
      && SmallBytes(entries, lo, hi)[off..off + |v|] == v
    decreases hi
  {
    var off := |SmallBytes(entries, lo, k)|;
    var v := entries[k].value.value;
    if hi > k + 1 {
      SmallBytesAt(entries, lo, k, hi - 1);
      var init := SmallBytes(entries, lo, hi - 1);
      assert SmallBytes(entries, lo, hi)[..|init|] == init;
      assert SmallBytes(entries, lo, hi)[off..off + |v|] == init[off..off + |v|];
    } else {
      assert SmallBytes(entries, lo, hi) == SmallBytes(entries, lo, k) + v;
    }
  }

  lemma {:induction false} NoSmallValues(entries: seq<Entry>, lo: nat, hi: nat)
    requires lo <= hi <= |entries| && SmallCount(entries, lo, hi) == 0
    ensures forall j :: lo <= j < hi ==> !entries[j].value.Small?
    decreases hi
  {
    if hi > lo {
      NoSmallValues(entries, lo, hi - 1);
    }
  }

  /** Where an entry's value was put, among the blocks from `from` on: a small
      value inside a shared small-value block, a medium one in a block of its
      own at offset 0, and no location, (0, 0), for blobs and tombstones. The
      block index fits a u16 and the offset a u32. */
  predicate Located(v: EntryValue, loc: (nat, nat), blocks: seq<WrittenBlock>, from: nat) {
    && loc.0 < U16Limit && loc.1 < U32Limit
    && match v
       case Small(bytes) =>
         && from <= loc.0 < |blocks| && blocks[loc.0].kind == SmallValueBlock
         && loc.1 + |bytes| <= |blocks[loc.0].data| && blocks[loc.0].data[loc.1..loc.1 + |bytes|] == bytes
       case Medium(bytes) =>
         loc.1 == 0 && from <= loc.0 < |blocks| && blocks[loc.0].kind == ValueBlock && blocks[loc.0].data == bytes
       case MediumCompressed(size, bytes) =>
         loc.1 == 0 && from <= loc.0 < |blocks| && blocks[loc.0] == WrittenBlock(CompressedValueBlock, bytes, size, bytes)
       case Large(_) => loc == (0, 0)
       case Deleted => loc == (0, 0)
  }

  /** Entries `lo` to `hi` are located. */
  predicate AllLocated(entries: seq<Entry>, locs: seq<(nat, nat)>, lo: nat, hi: nat, blocks: seq<WrittenBlock>, from: nat)
    requires lo <= hi <= |entries| && hi <= |locs|
  {
    forall j :: lo <= j < hi ==> Located(entries[j].value, locs[j], blocks, from)
  }

  /** Entries `lo` to `hi` while their small-value block is being filled: a
      small value has its offset in the block to come, the others are
      located. */
  predicate Pending(entries: seq<Entry>, locs: seq<(nat, nat)>, lo: nat, hi: nat, blocks: seq<WrittenBlock>, from: nat)
    requires lo <= hi <= |entries| && hi <= |locs|
  {
    forall j :: lo <= j < hi ==>
      if entries[j].value.Small? then locs[j].1 == |SmallBytes(entries, lo, j)| && locs[j].1 < U32Limit
      else Located(entries[j].value, locs[j], blocks, from)
  }

  /** Appending blocks keeps every location. */
  lemma LocatedKept(entries: seq<Entry>, locs: seq<(nat, nat)>, start: nat, hi: nat,
                    blocks: seq<WrittenBlock>, blocks': seq<WrittenBlock>, from: nat)
    requires start <= hi <= |entries| && hi <= |locs| && blocks <= blocks'
    requires AllLocated(entries, locs, 0, start, blocks, from) && Pending(entries, locs, start, hi, blocks, from)
    ensures AllLocated(entries, locs, 0, start, blocks', from) && Pending(entries, locs, start, hi, blocks', from)
  {
    forall j | 0 <= j < hi && (j < start || !entries[j].value.Small?)
      ensures Located(entries[j].value, locs[j], blocks', from)
    {
      assert Located(entries[j].value, locs[j], blocks, from);
      if entries[j].value.Small? || entries[j].value.Medium? || entries[j].value.MediumCompressed? {
        assert blocks'[locs[j].0] == blocks[locs[j].0];
      }
    }
  }

  /** The small-value blocks from `from` on hold at most 64 KiB. */
  predicate SmallBlocksFit(blocks: seq<WrittenBlock>, from: nat) {
    forall b :: from <= b < |blocks| && blocks[b].kind == SmallValueBlock ==> |blocks[b].data| <= MaxSmallValueBlockSize
  }

  /** Every small value is at most 64 KiB. */
  predicate SmallValuesFit(entries: seq<Entry>) {
    forall i :: 0 <= i < |entries| && entries[i].value.Small? ==> |entries[i].value.value| <= MaxSmallValueBlockSize
  }

  /** The values of entries `lo` to `hi` gathered into one buffer, and the
      small ones' locations pointed at block `blockIndex`. */
  method GatherSmallValues(entries: seq<Entry>, lo: nat, hi: nat, locs: seq<(nat, nat)>, blockIndex: nat)
    returns (buffer: seq<Byte>, ls: seq<(nat, nat)>)
    requires lo <= hi == |locs| <= |entries|
    ensures buffer == SmallBytes(entries, lo, hi) && |ls| == hi
    ensures forall k :: 0 <= k < hi ==> ls[k] == if lo <= k && entries[k].value.Small? then (blockIndex, locs[k].1) else locs[k]
  {
    buffer := [];
    ls := locs;
    for j := lo to hi
      invariant |ls| == hi
      invariant buffer == SmallBytes(entries, lo, j)
      invariant forall k :: 0 <= k < hi ==> ls[k] == if lo <= k < j && entries[k].value.Small? then (blockIndex, locs[k].1) else locs[k]
    {
      if entries[j].value.Small? {
        buffer := buffer + entries[j].value.value;
        ls := ls[j := (blockIndex, ls[j].1)];
      } else {
        assert SmallBytes(entries, lo, j + 1) == buffer + [];
      }
    }
  }

  /** Once the block is written at `blockIndex`, the gathered entries are
      located. */
  lemma FlushedLocated(entries: seq<Entry>, lo: nat, hi: nat, locs: seq<(nat, nat)>, ls: seq<(nat, nat)>,
                       before: seq<WrittenBlock>, blocks: seq<WrittenBlock>, from: nat, blockIndex: nat)
    requires lo <= hi == |locs| == |ls| <= |entries| && before <= blocks && from <= |before|
    requires AllLocated(entries, locs, 0, lo, before, from) && Pending(entries, locs, lo, hi, before, from)
    requires forall k :: 0 <= k < hi ==> ls[k] == if lo <= k && entries[k].value.Small? then (blockIndex, locs[k].1) else locs[k]
    requires blockIndex == |before| < |blocks| && blockIndex < U16Limit
    requires blocks[blockIndex].kind == SmallValueBlock && blocks[blockIndex].data == SmallBytes(entries, lo, hi)
    ensures AllLocated(entries, ls, 0, hi, blocks, from)
  {
    LocatedKept(entries, locs, lo, hi, before, blocks, from);
    forall j | 0 <= j < hi ensures Located(entries[j].value, ls[j], blocks, from) {
      if lo <= j && entries[j].value.Small? {
        SmallBytesAt(entries, lo, j, hi);
      } else {
        assert ls[j] == locs[j];
      }
    }
  }

  /** One more block keeps the small-value blocks within 64 KiB if it does. */
  lemma FlushedFits(before: seq<WrittenBlock>, blocks: seq<WrittenBlock>, from: nat)
    requires |blocks| == |before| + 1 && before <= blocks
    ensures SmallBlocksFit(before, from)
            && (blocks[|before|].kind == SmallValueBlock ==> |blocks[|before|].data| <= MaxSmallValueBlockSize)
            ==> SmallBlocksFit(blocks, from)
  {
  }

  /** Writes the small values of entries `lo` to `hi` as one block and points
      their locations at it. */
  method FlushSmallBlock(entries: seq<Entry>, lo: nat, hi: nat, locs: seq<(nat, nat)>, writer: BlockWriter, ghost from: nat)
    returns (r: Result<seq<(nat, nat)>>)
    requires writer.Valid() && lo <= hi == |locs| <= |entries| && from <= |writer.blocks|
    requires AllLocated(entries, locs, 0, lo, writer.blocks, from) && Pending(entries, locs, lo, hi, writer.blocks, from)
    modifies writer
    ensures writer.Valid() && old(writer.blocks) <= writer.blocks
    ensures r.Ok? ==> |r.value| == hi && AllLocated(entries, r.value, 0, hi, writer.blocks, from)
    ensures var data := SmallBytes(entries, lo, hi);
      r.Ok? ==> writer.blocks == old(writer.blocks) + [WrittenBlock(SmallValueBlock, data, |data|, writer.compress(data, None, false))]
    ensures r.Ok? && SmallBlocksFit(old(writer.blocks), from) && |SmallBytes(entries, lo, hi)| <= MaxSmallValueBlockSize
            ==> SmallBlocksFit(writer.blocks, from)
  {
    var blockIndex :- writer.NextBlockIndex();
    var buffer, ls := GatherSmallValues(entries, lo, hi, locs, blockIndex);
    ghost var before := writer.blocks;
    var w := writer.WriteBlock(SmallValueBlock, buffer, None, false);
    if w.Err? {
      return Err(w.msg);
    }
    FlushedLocated(entries, lo, hi, locs, ls, before, writer.blocks, from, blockIndex);
    FlushedFits(before, writer.blocks, from);
    r := Ok(ls);
  }

  /** A small value is appended to the block being filled. */
  lemma SmallStep(entries: seq<Entry>, locs: seq<(nat, nat)>, start: nat, i: nat, blocks: seq<WrittenBlock>, from: nat)
    requires start <= i < |entries| && |locs| == i && entries[i].value.Small?
    requires AllLocated(entries, locs, 0, start, blocks, from) && Pending(entries, locs, start, i, blocks, from)
    requires |SmallBytes(entries, start, i)| < U32Limit
    ensures var locs' := locs + [(0, |SmallBytes(entries, start, i)|)];
      AllLocated(entries, locs', 0, start, blocks, from) && Pending(entries, locs', start, i + 1, blocks, from)
  {
    var locs' := locs + [(0, |SmallBytes(entries, start, i)|)];
    assert forall j :: 0 <= j < i ==> locs'[j] == locs[j];
  }

  /** A value that does not go into the small block being filled. */
  lemma OwnBlockStep(entries: seq<Entry>, locs: seq<(nat, nat)>, loc: (nat, nat), start: nat, i: nat,
                     before: seq<WrittenBlock>, blocks: seq<WrittenBlock>, from: nat)
    requires start <= i < |entries| && |locs| == i && !entries[i].value.Small? && before <= blocks
    requires AllLocated(entries, locs, 0, start, before, from) && Pending(entries, locs, start, i, before, from)
    requires Located(entries[i].value, loc, blocks, from)
    ensures AllLocated(entries, locs + [loc], 0, start, blocks, from) && Pending(entries, locs + [loc], start, i + 1, blocks, from)
  {
    LocatedKept(entries, locs, start, i, before, blocks, from);
    var locs' := locs + [loc];
    assert forall j :: 0 <= j < i ==> locs'[j] == locs[j];
  }

  /** The value types' integer fields fit their u32s. */
  predicate ValuesTyped(entries: seq<Entry>) {
    forall i :: 0 <= i < |entries| ==>
      match entries[i].value
      case MediumCompressed(size, _) => size < U32Limit
      case Large(blob) => blob < U32Limit
      case _ => true
  }

  /** The state of `write_value_blocks` after `i` entries: the block being
      filled starts at `start` and holds `size` bytes in `count` small values;
      the entries before it are located and those in it are pending. */
  predicate Filling(entries: seq<Entry>, locs: seq<(nat, nat)>, start: nat, i: nat, size: nat, count: nat,
                    blocks: seq<WrittenBlock>, from: nat)
  {
    && start <= i == |locs| <= |entries| && from <= |blocks|
    && size == |SmallBytes(entries, start, i)| && count == SmallCount(entries, start, i)
    && AllLocated(entries, locs, 0, start, blocks, from)
    && Pending(entries, locs, start, i, blocks, from)
    && (SmallValuesFit(entries) ==> size <= MaxSmallValueBlockSize && SmallBlocksFit(blocks, from))
  }

  /** One small value of `write_value_blocks`: the block being filled is
      flushed first if the value would take it past 64 KiB or the count limit
      is reached; the value's offset is the block's size so far. */
  method PlaceSmall(entries: seq<Entry>, i: nat, locs: seq<(nat, nat)>, start: nat, size: nat, count: nat,
                    writer: BlockWriter, ghost from: nat)
    returns (r: Result<(seq<(nat, nat)>, nat, nat, nat)>)
    requires writer.Valid() && i < |entries| && entries[i].value.Small?
    requires Filling(entries, locs, start, i, size, count, writer.blocks, from)
    modifies writer
    ensures writer.Valid() && old(writer.blocks) <= writer.blocks
    ensures r.Ok? ==> Filling(entries, r.value.0, r.value.1, i + 1, r.value.2, r.value.3, writer.blocks, from)
  {
    var value := entries[i].value.value;
    var locs, blockStart, blockSize, blockCount := locs, start, size, count;
    if blockSize + |value| > MaxSmallValueBlockSize || blockCount + 1 >= MaxSmallValueBlockEntries {
      var flushed := FlushSmallBlock(entries, blockStart, i, locs, writer, from);
      if flushed.Err? {
        return Err(flushed.msg);
      }
      locs := flushed.value;
      blockStart := i;
      blockSize := 0;
      blockCount := 0;
      EmptyFilling(entries, locs, i, writer.blocks, from);
    }
    if blockSize >= U32Limit {
      return Err(UnwrapFailed);
    }
    AddSmall(entries, locs, blockStart, i, blockSize, blockCount, writer.blocks, from);
    r := Ok((locs + [(0, blockSize)], blockStart, blockSize + |value|, blockCount + 1));
  }

  /** A fresh small-value block after a flush. */
  lemma EmptyFilling(entries: seq<Entry>, locs: seq<(nat, nat)>, i: nat, blocks: seq<WrittenBlock>, from: nat)
    requires i == |locs| <= |entries| && from <= |blocks| && AllLocated(entries, locs, 0, i, blocks, from)
    requires SmallValuesFit(entries) ==> SmallBlocksFit(blocks, from)
    ensures Filling(entries, locs, i, i, 0, 0, blocks, from)
  {
  }

  /** Appending a small value to the block being filled, when it fits. */
  lemma AddSmall(entries: seq<Entry>, locs: seq<(nat, nat)>, start: nat, i: nat, size: nat, count: nat,
                 blocks: seq<WrittenBlock>, from: nat)
    requires i < |entries| && entries[i].value.Small? && size < U32Limit
    requires Filling(entries, locs, start, i, size, count, blocks, from)
    requires size == 0 || size + |entries[i].value.value| <= MaxSmallValueBlockSize
    ensures Filling(entries, locs + [(0, size)], start, i + 1, size + |entries[i].value.value|, count + 1, blocks, from)
  {
    SmallStep(entries, locs, start, i, blocks, from);
  }

  /** The location of a value that is not small: a medium value is written
      as a block of its own, a blob or a tombstone gets (0, 0). */
  method WriteOwnBlock(v: EntryValue, writer: BlockWriter, ghost from: nat) returns (r: Result<(nat, nat)>)
    requires writer.Valid() && !v.Small? && from <= |writer.blocks|
    requires v.MediumCompressed? ==> v.uncompressedSize < U32Limit
    modifies writer
    ensures writer.Valid() && old(writer.blocks) <= writer.blocks
    ensures SmallBlocksFit(old(writer.blocks), from) ==> SmallBlocksFit(writer.blocks, from)
    ensures r.Ok? ==> Located(v, r.value, writer.blocks, from)
  {
    match v {
      case Medium(value) =>
        var blockIndex :- writer.NextBlockIndex();
        var w := writer.WriteBlock(ValueBlock, value, None, true);
        if w.Err? {
          return Err(w.msg);
        }
        r := Ok((blockIndex, 0));
      case MediumCompressed(uncompressedSize, block) =>
        var blockIndex :- writer.NextBlockIndex();
        var w := writer.WriteCompressedBlock(uncompressedSize, block);
        if w.Err? {
          return Err(w.msg);
        }
        r := Ok((blockIndex, 0));
      case Large(_) =>
        r := Ok((0, 0));
      case Deleted =>
        r := Ok((0, 0));
    }
  }

  /** One entry of `write_value_blocks` that is not small. */
  method PlaceOther(entries: seq<Entry>, i: nat, locs: seq<(nat, nat)>, start: nat, size: nat, count: nat,
                    writer: BlockWriter, ghost from: nat)
    returns (r: Result<seq<(nat, nat)>>)
    requires writer.Valid() && i < |entries| && !entries[i].value.Small? && ValuesTyped(entries)
    requires Filling(entries, locs, start, i, size, count, writer.blocks, from)
    modifies writer
    ensures writer.Valid() && old(writer.blocks) <= writer.blocks
    ensures r.Ok? ==> Filling(entries, r.value, start, i + 1, size, count, writer.blocks, from)
  {
    ghost var before := writer.blocks;
    var loc :- WriteOwnBlock(entries[i].value, writer, from);
    OwnBlockStep(entries, locs, loc, start, i, before, writer.blocks, from);
    assert SmallBytes(entries, start, i + 1) == SmallBytes(entries, start, i) + [];
    r := Ok(locs + [loc]);
  }

  /** `write_value_blocks`: each entry's value location. Small values are
      gathered into a block until the next one would take it past 64 KiB or
      the count limit is reached; medium values each get a block of their
      own. */
  method WriteValueBlocks(entries: seq<Entry>, writer: BlockWriter) returns (r: Result<seq<(nat, nat)>>)
    requires writer.Valid() && ValuesTyped(entries)
    modifies writer
    ensures writer.Valid() && old(writer.blocks) <= writer.blocks
    ensures r.Ok? ==> |r.value| == |entries| && AllLocated(entries, r.value, 0, |entries|, writer.blocks, |old(writer.blocks)|)
    ensures r.Ok? && SmallValuesFit(entries) ==> SmallBlocksFit(writer.blocks, |old(writer.blocks)|)
  {
    ghost var from := |writer.blocks|;
    var locs: seq<(nat, nat)> := [];
    var blockStart := 0;
    var blockCount := 0;
    var blockSize := 0;
    for i := 0 to |entries|
      invariant writer.Valid() && old(writer.blocks) <= writer.blocks && from == |old(writer.blocks)|
      invariant Filling(entries, locs, blockStart, i, blockSize, blockCount, writer.blocks, from)
    {
      var placed := PlaceValue(entries, i, locs, blockStart, blockSize, blockCount, writer, from);
      if placed.Err? {
        return Err(placed.msg);
      }
      locs, blockStart, blockSize, blockCount := placed.value.0, placed.value.1, placed.value.2, placed.value.3;
    }
    r := FlushLast(entries, locs, blockStart, blockSize, blockCount, writer, from);
  }

  /** One entry of `write_value_blocks`. */
  method PlaceValue(entries: seq<Entry>, i: nat, locs: seq<(nat, nat)>, start: nat, size: nat, count: nat,
                    writer: BlockWriter, ghost from: nat)
    returns (r: Result<(seq<(nat, nat)>, nat, nat, nat)>)
    requires writer.Valid() && i < |entries| && ValuesTyped(entries)
    requires Filling(entries, locs, start, i, size, count, writer.blocks, from)
    modifies writer
    ensures writer.Valid() && old(writer.blocks) <= writer.blocks
    ensures r.Ok? ==> Filling(entries, r.value.0, r.value.1, i + 1, r.value.2, r.value.3, writer.blocks, from)
  {
    if entries[i].value.Small? {
      r := PlaceSmall(entries, i, locs, start, size, count, writer, from);
    } else {
      var placed :- PlaceOther(entries, i, locs, start, size, count, writer, from);
      r := Ok((placed, start, size, count));
    }
  }

  /** The end of `write_value_blocks`: the block being filled is written if it
      holds any value. */
  method FlushLast(entries: seq<Entry>, locs: seq<(nat, nat)>, start: nat, size: nat, count: nat,
                   writer: BlockWriter, ghost from: nat)
    returns (r: Result<seq<(nat, nat)>>)
    requires writer.Valid() && Filling(entries, locs, start, |entries|, size, count, writer.blocks, from)
    modifies writer
    ensures writer.Valid() && old(writer.blocks) <= writer.blocks
    ensures r.Ok? ==> |r.value| == |entries| && AllLocated(entries, r.value, 0, |entries|, writer.blocks, from)
    ensures r.Ok? && SmallValuesFit(entries) ==> SmallBlocksFit(writer.blocks, from)
  {
    if count > 0 {
      r := FlushSmallBlock(entries, start, |entries|, locs, writer, from);
    } else {
      NoSmallValues(entries, start, |entries|);
      r := Ok(locs);
    }
  }

  // ---------------------------------------------------------------------------
  // Key blocks and the index block

  const U64Limit: nat := 0x1_0000_0000_0000_0000

  /** The panic of `key_block_boundaries[0]` when there are no key blocks. */
  const NoKeyBlocks := "index out of bounds: the len is 0 but the index is 0"

  /** The panic of the debug assertion in `KeyBlockBuilder::new`. */
  const TooManyKeyEntries := "assertion failed: entry_count < (1 << 24)"

  /** The key-block record of an entry whose value is at `loc`: a small value
      by its block, offset and size, a medium one by its block, a blob by its
      number, a tombstone by nothing. */
  function RecordOf(codes: TypeCodes, e: Entry, loc: (nat, nat)): KeyRecord {
    match e.value
    case Small(value) => KeyRecord(codes.smallEntry, e.keyHash, e.key, SmallTrailer(loc.0, loc.1, |value|))
    case Medium(_) => KeyRecord(codes.mediumEntry, e.keyHash, e.key, BigEndian(loc.0, 2))
    case MediumCompressed(_, _) => KeyRecord(codes.mediumEntry, e.keyHash, e.key, BigEndian(loc.0, 2))
    case Large(blob) => KeyRecord(codes.blobEntry, e.keyHash, e.key, BigEndian(blob, 4))
    case Deleted => KeyRecord(codes.deletedEntry, e.keyHash, e.key, [])
  }

  /** The records of entries `lo` to `hi`. */
  function Records(codes: TypeCodes, entries: seq<Entry>, locs: seq<(nat, nat)>, lo: nat, hi: nat): (r: seq<KeyRecord>)
    requires lo <= hi <= |entries| && hi <= |locs|
    ensures |r| == hi - lo
    decreases hi
  {
    if hi == lo then []
    else Records(codes, entries, locs, lo, hi - 1) + [RecordOf(codes, entries[hi - 1], locs[hi - 1])]
  }

  /** Value locations fit their (u16, u32) pair. */
  predicate LocsFit(locs: seq<(nat, nat)>) {
    forall k :: 0 <= k < |locs| ==> locs[k].0 < U16Limit && locs[k].1 < U32Limit
  }

  /** Key hashes fit their u64. */
  predicate HashesFit(entries: seq<Entry>) {
    forall k :: 0 <= k < |entries| ==> entries[k].keyHash < U64Limit
  }

  /** `add_entry_to_block`: a small value's size must fit a u16. */
  method AddEntryToBlock(e: Entry, loc: (nat, nat), block: KeyBlockBuilder) returns (r: Result<()>)
    requires block.Valid() && block.currentEntry < block.entryCount
    requires loc.0 < U16Limit && loc.1 < U32Limit && (e.value.Large? ==> e.value.blob < U32Limit)
    modifies block
    ensures block.Valid()
    ensures r.Ok? <==> !(e.value.Small? && |e.value.value| >= U16Limit)
    ensures r.Ok? ==> block.records == old(block.records) + [RecordOf(block.codes, e, loc)]
    ensures r.Err? ==> r.msg == UnwrapFailed && unchanged(block)
  {
    match e.value {
      case Small(value) =>
        if |value| >= U16Limit {
          return Err(UnwrapFailed);
        }
        block.PutSmall(e.keyHash, e.key, loc.0, loc.1, |value|);
      case Medium(_) =>
        block.PutMedium(e.keyHash, e.key, loc.0);
      case MediumCompressed(_, _) =>
        block.PutMedium(e.keyHash, e.key, loc.0);
      case Large(blob) =>
        block.PutBlob(e.keyHash, e.key, blob);
      case Deleted =>
        block.Delete(e.keyHash, e.key);
    }
    r := Ok(());
  }

  /** A key block for entries `lo` to `hi`. */
  predicate IsKeyBlock(b: WrittenBlock, codes: TypeCodes, entries: seq<Entry>, locs: seq<(nat, nat)>, lo: nat, hi: nat)
    requires lo <= hi <= |entries| && hi <= |locs|
  {
    b.kind == KeyBlock && b.data == KeyBlockBytes(codes, Records(codes, entries, locs, lo, hi))
  }

  /** The bytes of the key block for entries `lo` to `hi`: a builder for
      `hi - lo` entries, and each entry added. */
  method BuildKeyBlock(codes: TypeCodes, entries: seq<Entry>, locs: seq<(nat, nat)>, lo: nat, hi: nat)
    returns (r: Result<seq<Byte>>)
    requires lo <= hi <= |entries| == |locs| && LocsFit(locs) && ValuesTyped(entries)
    ensures r.Ok? ==> r.value == KeyBlockBytes(codes, Records(codes, entries, locs, lo, hi))
    ensures hi - lo >= 0x100_0000 ==> r == Err(TooManyKeyEntries)
    ensures r.Ok? <==> hi - lo < 0x100_0000 && SmallSizesFit(entries, lo, hi)
  {
    if hi - lo >= 0x100_0000 {
      return Err(TooManyKeyEntries);
    }
    var block := new KeyBlockBuilder(codes, hi - lo);
    for j := lo to hi
      invariant block.Valid() && block.codes == codes && block.entryCount == hi - lo
      invariant block.records == Records(codes, entries, locs, lo, j)
      invariant SmallSizesFit(entries, lo, j)
    {
      var added := AddEntryToBlock(entries[j], locs[j], block);
      if added.Err? {
        return Err(added.msg);
      }
    }
    var bytes := block.Finish();
    r := Ok(bytes);
  }

  /** Every small value among entries `lo` to `hi` has a size that fits a u16. */
  predicate SmallSizesFit(entries: seq<Entry>, lo: nat, hi: nat)
    requires lo <= hi <= |entries|
  {
    forall j :: lo <= j < hi && entries[j].value.Small? ==> |entries[j].value.value| < U16Limit
  }

  /** One key block of `write_key_blocks_and_compute_amqf`, written with the
      key dictionary; the result is the block's index. */
  method WriteKeyBlock(codes: TypeCodes, dict: seq<Byte>, entries: seq<Entry>, locs: seq<(nat, nat)>, lo: nat, hi: nat,
                       writer: BlockWriter)
    returns (r: Result<nat>)
    requires writer.Valid() && lo < hi <= |entries| == |locs| && LocsFit(locs) && ValuesTyped(entries)
    modifies writer
    ensures writer.Valid() && old(writer.blocks) <= writer.blocks
    ensures r.Ok? ==> r.value == |old(writer.blocks)| < U16Limit && |writer.blocks| == r.value + 1
    ensures r.Ok? ==> IsKeyBlock(writer.blocks[r.value], codes, entries, locs, lo, hi)
  {
    var bytes :- BuildKeyBlock(codes, entries, locs, lo, hi);
    var blockIndex :- writer.NextBlockIndex();
    var w := writer.WriteBlock(KeyBlock, bytes, Some(dict), false);
    if w.Err? {
      return Err(w.msg);
    }
    r := Ok(blockIndex);
  }

  /** The bytes entries `lo` to `hi` count towards a key block: each key and
      its 8 bytes of overhead. */
  function KeySize(entries: seq<Entry>, lo: nat, hi: nat): nat
    requires lo <= hi <= |entries|
    decreases hi
  {
    if hi == lo then 0 else KeySize(entries, lo, hi - 1) + |entries[hi - 1].key| + KeyBlockEntryMetaOverhead
  }

  /** Whether the key block started at `start` is closed before entry `j`:
      it holds an entry, adding entry `j` would take it past 16 KiB or it
      already holds the maximum number of entries, and entry `j`'s hash
      differs from the one before it, so that equal hashes stay together. */
  predicate Closes(entries: seq<Entry>, start: nat, j: nat) {
    && start < j < |entries|
    && (|| KeySize(entries, start, j) + |entries[j].key| + KeyBlockEntryMetaOverhead > MaxKeyBlockSize
        || j - start >= MaxKeyBlockEntries)
    && entries[j - 1].keyHash != entries[j].keyHash
  }

  /** Where block `k` of the split `cuts` of `n` entries ends. */
  function BlockEnd(cuts: seq<nat>, k: nat, n: nat): nat
    requires k < |cuts|
  {
    if k + 1 < |cuts| then cuts[k + 1] else n
  }

  /** `cuts` are the starts of the key blocks the split of the first `n`
      entries makes: the first block starts at 0, each block is closed
      before the entry that starts the next, and at no entry before. */
  ghost predicate Splits(entries: seq<Entry>, cuts: seq<nat>, n: nat)
    requires n <= |entries|
  {
    && |cuts| > 0 && cuts[0] == 0
    && (forall a, b :: 0 <= a < b < |cuts| ==> cuts[a] < cuts[b])
    && cuts[|cuts| - 1] <= n && (n > 0 ==> cuts[|cuts| - 1] < n)
    && (forall k :: 0 <= k < |cuts| - 1 ==> Closes(entries, cuts[k], cuts[k + 1]))
    && (forall k, j :: 0 <= k < |cuts| && cuts[k] < j < BlockEnd(cuts, k, n) ==> !Closes(entries, cuts[k], j))
  }

  /** A block that holds entries has a positive size. */
  lemma {:induction false} KeySizePositive(entries: seq<Entry>, lo: nat, hi: nat)
    requires lo < hi <= |entries|
    ensures KeySize(entries, lo, hi) >= KeyBlockEntryMetaOverhead
  {
    if hi - 1 > lo {
      KeySizePositive(entries, lo, hi - 1);
    }
  }

  /** Closing the current block before entry `i`. */
  lemma SplitsClose(entries: seq<Entry>, cuts: seq<nat>, i: nat)
    requires i < |entries| && Splits(entries, cuts, i) && Closes(entries, cuts[|cuts| - 1], i)
    ensures Splits(entries, cuts + [i], i + 1)
  {
    var cuts' := cuts + [i];
    forall k, j | 0 <= k < |cuts'| && cuts'[k] < j < BlockEnd(cuts', k, i + 1)
      ensures !Closes(entries, cuts'[k], j)
    {
      assert k < |cuts|;
      assert BlockEnd(cuts', k, i + 1) == BlockEnd(cuts, k, i);
    }
  }

  /** Keeping entry `i` in the current block. */
  lemma SplitsContinue(entries: seq<Entry>, cuts: seq<nat>, i: nat)
    requires i < |entries| && Splits(entries, cuts, i) && !Closes(entries, cuts[|cuts| - 1], i)
    ensures Splits(entries, cuts, i + 1)
  {
    forall k, j | 0 <= k < |cuts| && cuts[k] < j < BlockEnd(cuts, k, i + 1)
      ensures !Closes(entries, cuts[k], j)
    {
      if k + 1 < |cuts| || j < i {
        assert j < BlockEnd(cuts, k, i);
      }
    }
  }

  /** The split is determined by the entries: two splits of the same entries
      agree block by block. */
  lemma {:induction false} SplitsAgree(entries: seq<Entry>, c1: seq<nat>, c2: seq<nat>, n: nat, k: nat)
    requires n <= |entries| && Splits(entries, c1, n) && Splits(entries, c2, n) && k < |c1| && k < |c2|
    ensures c1[k] == c2[k]
  {
    if k > 0 {
      SplitsAgree(entries, c1, c2, n, k - 1);
      FirstClose(entries, c1[k - 1], c1[k], c2[k]);
      FirstClose(entries, c2[k - 1], c2[k], c1[k]);
    }
  }

  /** A block closes no earlier than the first entry that closes it. */
  lemma FirstClose(entries: seq<Entry>, s: nat, a: nat, b: nat)
    requires Closes(entries, s, a) && forall j :: s < j < b ==> !Closes(entries, s, j)
    ensures b <= a
  {
  }

  /** The split of `write_key_blocks_and_compute_amqf` is the only one that
      meets `Splits`. */
  lemma SplitsUnique(entries: seq<Entry>, c1: seq<nat>, c2: seq<nat>, n: nat)
    requires n <= |entries| && Splits(entries, c1, n) && Splits(entries, c2, n)
    ensures c1 == c2
  {
    forall k | 0 <= k < |c1| && k < |c2| ensures c1[k] == c2[k] {
      SplitsAgree(entries, c1, c2, n, k);
    }
    SplitsNotShorter(entries, c1, c2, n);
    SplitsNotShorter(entries, c2, c1, n);
  }

  /** A split that agrees with another on their common blocks has at least
      as many blocks. */
  lemma SplitsNotShorter(entries: seq<Entry>, c1: seq<nat>, c2: seq<nat>, n: nat)
    requires n <= |entries| && Splits(entries, c1, n) && Splits(entries, c2, n)
    requires forall k :: 0 <= k < |c1| && k < |c2| ==> c1[k] == c2[k]
    ensures |c1| >= |c2|
  {
    CutAfter(entries, c2, |c1| - 1, n);
  }

  /** A cut after block `k` is an entry, before `n`, that closes block `k`. */
  lemma CutAfter(entries: seq<Entry>, c: seq<nat>, k: nat, n: nat)
    requires n <= |entries| && Splits(entries, c, n)
    ensures k + 1 < |c| ==> Closes(entries, c[k], c[k + 1]) && c[k + 1] < n
  {
    if k + 1 < |c| {
      assert c[k + 1] <= c[|c| - 1];
    }
  }

  /** Adjacent entries have different hashes. */
  predicate AdjacentHashesDiffer(entries: seq<Entry>) {
    forall j :: 0 < j < |entries| ==> entries[j - 1].keyHash != entries[j].keyHash
  }

  /** Without hash collisions and with keys that fit a block, every key block
      stays within 16 KiB and the maximum number of entries. */
  lemma BlocksBounded(entries: seq<Entry>, cuts: seq<nat>, k: nat)
    requires Splits(entries, cuts, |entries|) && k < |cuts| && |entries| > 0
    requires AdjacentHashesDiffer(entries)
    requires forall j :: 0 <= j < |entries| ==> |entries[j].key| + KeyBlockEntryMetaOverhead <= MaxKeyBlockSize
    ensures cuts[k] < BlockEnd(cuts, k, |entries|) <= |entries|
    ensures KeySize(entries, cuts[k], BlockEnd(cuts, k, |entries|)) <= MaxKeyBlockSize
    ensures BlockEnd(cuts, k, |entries|) - cuts[k] <= MaxKeyBlockEntries
  {
    var s, e := cuts[k], BlockEnd(cuts, k, |entries|);
    if k + 1 < |cuts| {
      assert cuts[k + 1] <= cuts[|cuts| - 1];
    }
    BoundedUpTo(entries, s, e, e);
  }

  lemma {:induction false} BoundedUpTo(entries: seq<Entry>, s: nat, e: nat, j: nat)
    requires s < j <= e <= |entries| && AdjacentHashesDiffer(entries)
    requires forall j :: 0 <= j < |entries| ==> |entries[j].key| + KeyBlockEntryMetaOverhead <= MaxKeyBlockSize
    requires forall j' :: s < j' < e ==> !Closes(entries, s, j')
    ensures KeySize(entries, s, j) <= MaxKeyBlockSize && j - s <= MaxKeyBlockEntries
  {
    if j - 1 > s {
      BoundedUpTo(entries, s, e, j - 1);
      assert !Closes(entries, s, j - 1);
    }
  }

  /** Key hashes never decrease. */
  predicate HashesSorted(entries: seq<Entry>) {
    forall a, b :: 0 <= a < b < |entries| ==> entries[a].keyHash <= entries[b].keyHash
  }

  /** With sorted hashes, each key block starts at a strictly larger hash than
      the one before: the hashes an index block lists increase. */
  lemma BoundaryHashesIncrease(entries: seq<Entry>, cuts: seq<nat>, k: nat)
    requires Splits(entries, cuts, |entries|) && HashesSorted(entries) && k + 1 < |cuts|
    ensures entries[cuts[k]].keyHash < entries[cuts[k + 1]].keyHash
  {
    var c := cuts[k + 1];
    assert Closes(entries, cuts[k], c);
    assert entries[cuts[k]].keyHash <= entries[c - 1].keyHash;
  }

  /** The first `count` key blocks of the split `cuts` are written at `base`
      on, and `boundaries` holds each one's first hash and block index. */
  ghost predicate KeysWritten(codes: TypeCodes, entries: seq<Entry>, locs: seq<(nat, nat)>, cuts: seq<nat>, count: nat,
                              boundaries: seq<(nat, nat)>, blocks: seq<WrittenBlock>, base: nat)
    requires |entries| == |locs|
  {
    && count <= |cuts| && |boundaries| == count && |blocks| >= base + count
    && forall k {:trigger boundaries[k]} :: 0 <= k < count ==>
         && boundaries[k].1 == base + k < U16Limit
         && cuts[k] < BlockEnd(cuts, k, |entries|) <= |entries|
         && boundaries[k].0 == entries[cuts[k]].keyHash
         && IsKeyBlock(blocks[base + k], codes, entries, locs, cuts[k], BlockEnd(cuts, k, |entries|))
  }

  /** Writing the block that ends before entry `i` and cutting there. */
  lemma KeysWrittenStep(codes: TypeCodes, entries: seq<Entry>, locs: seq<(nat, nat)>, cuts: seq<nat>, i: nat,
                        boundaries: seq<(nat, nat)>, blocks: seq<WrittenBlock>, blocks': seq<WrittenBlock>, base: nat)
    requires |entries| == |locs| && i < |entries| && |cuts| > 0
    requires KeysWritten(codes, entries, locs, cuts, |cuts| - 1, boundaries, blocks, base)
    requires blocks <= blocks' && |blocks'| == |blocks| + 1 && cuts[|cuts| - 1] < i
    requires |blocks| == base + |cuts| - 1 < U16Limit
    requires IsKeyBlock(blocks'[|blocks|], codes, entries, locs, cuts[|cuts| - 1], i)
    ensures var last := cuts[|cuts| - 1];
      KeysWritten(codes, entries, locs, cuts + [i], |cuts|, boundaries + [(entries[last].keyHash, |blocks|)], blocks', base)
  {
    var cuts' := cuts + [i];
    var last := |cuts| - 1;
    var b' := boundaries + [(entries[cuts[last]].keyHash, |blocks|)];
    forall k {:trigger b'[k]} | 0 <= k < |cuts|
      ensures b'[k].1 == base + k
      ensures cuts'[k] < BlockEnd(cuts', k, |entries|) <= |entries| && b'[k].0 == entries[cuts'[k]].keyHash
      ensures IsKeyBlock(blocks'[base + k], codes, entries, locs, cuts'[k], BlockEnd(cuts', k, |entries|))
    {
      if k < last {
        assert b'[k] == boundaries[k];
        assert blocks'[base + k] == blocks[base + k];
        assert BlockEnd(cuts', k, |entries|) == BlockEnd(cuts, k, |entries|);
      }
    }
  }

  /** Writing the last block, which ends at the last entry. */
  lemma KeysWrittenLast(codes: TypeCodes, entries: seq<Entry>, locs: seq<(nat, nat)>, cuts: seq<nat>,
                        boundaries: seq<(nat, nat)>, blocks: seq<WrittenBlock>, blocks': seq<WrittenBlock>, base: nat)
    requires |entries| == |locs| && |cuts| > 0 && cuts[|cuts| - 1] < |entries|
    requires KeysWritten(codes, entries, locs, cuts, |cuts| - 1, boundaries, blocks, base)
    requires blocks <= blocks' && |blocks'| == |blocks| + 1 && |blocks| == base + |cuts| - 1 < U16Limit
    requires IsKeyBlock(blocks'[|blocks|], codes, entries, locs, cuts[|cuts| - 1], |entries|)
    ensures var last := cuts[|cuts| - 1];
      KeysWritten(codes, entries, locs, cuts, |cuts|, boundaries + [(entries[last].keyHash, |blocks|)], blocks', base)
  {
    var last := |cuts| - 1;
    var b' := boundaries + [(entries[cuts[last]].keyHash, |blocks|)];
    forall k {:trigger b'[k]} | 0 <= k < |cuts|
      ensures b'[k].1 == base + k
      ensures cuts[k] < BlockEnd(cuts, k, |entries|) <= |entries| && b'[k].0 == entries[cuts[k]].keyHash
      ensures IsKeyBlock(blocks'[base + k], codes, entries, locs, cuts[k], BlockEnd(cuts, k, |entries|))
    {
      if k < last {
        assert b'[k] == boundaries[k];
        assert blocks'[base + k] == blocks[base + k];
      }
    }
  }

  /** Whether the key-block loop closes the current block before entry `i`,
      as `write_key_blocks_and_compute_amqf` decides it from its running
      size and last hash. */
  method ShouldClose(entries: seq<Entry>, start: nat, i: nat, size: nat, lastHash: nat) returns (close: bool)
    requires start <= i < |entries| && size == KeySize(entries, start, i)
    requires start < i ==> lastHash == entries[i - 1].keyHash
    ensures close <==> Closes(entries, start, i)
  {
    if start < i {
      KeySizePositive(entries, start, i);
    }
    close := size > 0
      && (size + |entries[i].key| + KeyBlockEntryMetaOverhead > MaxKeyBlockSize || i - start >= MaxKeyBlockEntries)
      && lastHash != entries[i].keyHash;
  }

  /** The state of the split loop before entry `i`: the cuts so far, the
      current block's start, size and last hash, and the blocks written. */
  ghost predicate Splitting(codes: TypeCodes, entries: seq<Entry>, locs: seq<(nat, nat)>, cuts: seq<nat>, i: nat,
                            start: nat, size: nat, lastHash: nat, boundaries: seq<(nat, nat)>,
                            blocks: seq<WrittenBlock>, base: nat)
  {
    && i <= |entries| == |locs|
    && Splits(entries, cuts, i) && start == cuts[|cuts| - 1]
    && size == KeySize(entries, start, i) && (start < i ==> lastHash == entries[i - 1].keyHash)
    && KeysWritten(codes, entries, locs, cuts, |cuts| - 1, boundaries, blocks, base)
    && |blocks| == base + |cuts| - 1
  }

  /** Entry `i` of the split loop: the current block is written and a new one
      started if it closes here; the entry is then counted in. */
  method SplitStep(codes: TypeCodes, dict: seq<Byte>, entries: seq<Entry>, locs: seq<(nat, nat)>, writer: BlockWriter,
                   i: nat, start: nat, size: nat, lastHash: nat, boundaries: seq<(nat, nat)>,
                   ghost cuts: seq<nat>, ghost base: nat)
    returns (r: Result<(nat, nat, nat, seq<(nat, nat)>)>, ghost cuts': seq<nat>)
    requires writer.Valid() && i < |entries| && LocsFit(locs) && ValuesTyped(entries)
    requires Splitting(codes, entries, locs, cuts, i, start, size, lastHash, boundaries, writer.blocks, base)
    modifies writer
    ensures writer.Valid() && old(writer.blocks) <= writer.blocks
    ensures r.Ok? ==> Splitting(codes, entries, locs, cuts', i + 1, r.value.0, r.value.1, r.value.2, r.value.3,
                                writer.blocks, base)
  {
    var start, size, boundaries := start, size, boundaries;
    cuts' := cuts;
    var close := ShouldClose(entries, start, i, size, lastHash);
    if close {
      ghost var before := writer.blocks;
      var index := WriteKeyBlock(codes, dict, entries, locs, start, i, writer);
      if index.Err? {
        return Err(index.msg), cuts';
      }
      KeysWrittenStep(codes, entries, locs, cuts, i, boundaries, before, writer.blocks, base);
      SplitsClose(entries, cuts, i);
      boundaries := boundaries + [(entries[start].keyHash, index.value)];
      cuts' := cuts + [i];
      start := i;
      size := 0;
    } else {
      SplitsContinue(entries, cuts, i);
    }
    r := Ok((start, size + |entries[i].key| + KeyBlockEntryMetaOverhead, entries[i].keyHash, boundaries));
  }

  /** The split loop of `write_key_blocks_and_compute_amqf`: the keys are
      accumulated until a block is closed, each closed block and the last one
      is written, and each block's first hash and index is recorded. */
  method WriteKeyBlocksSplit(codes: TypeCodes, dict: seq<Byte>, entries: seq<Entry>, locs: seq<(nat, nat)>,
                             writer: BlockWriter)
    returns (r: Result<seq<(nat, nat)>>, ghost cuts: seq<nat>)
    requires writer.Valid() && |entries| == |locs| && LocsFit(locs) && ValuesTyped(entries)
    modifies writer
    ensures writer.Valid() && old(writer.blocks) <= writer.blocks
    ensures r.Ok? ==> Splits(entries, cuts, |entries|)
    ensures |entries| == 0 ==> r == Ok([])
    ensures var count := if |entries| == 0 then 0 else |cuts|;
      r.Ok? ==> (&& KeysWritten(codes, entries, locs, cuts, count, r.value, writer.blocks, |old(writer.blocks)|)
                 && |writer.blocks| == |old(writer.blocks)| + count)
  {
    ghost var base := |writer.blocks|;
    var boundaries: seq<(nat, nat)> := [];
    var start: nat := 0;
    var size: nat := 0;
    var lastHash: nat := 0;
    cuts := [0];
    for i := 0 to |entries|
      invariant writer.Valid() && old(writer.blocks) <= writer.blocks && base == |old(writer.blocks)|
      invariant Splitting(codes, entries, locs, cuts, i, start, size, lastHash, boundaries, writer.blocks, base)
    {
      var step;
      step, cuts := SplitStep(codes, dict, entries, locs, writer, i, start, size, lastHash, boundaries, cuts, base);
      if step.Err? {
        return Err(step.msg), cuts;
      }
      start, size, lastHash, boundaries := step.value.0, step.value.1, step.value.2, step.value.3;
    }
    if size > 0 {
      ghost var before := writer.blocks;
      var index := WriteKeyBlock(codes, dict, entries, locs, start, |entries|, writer);
      if index.Err? {
        return Err(index.msg), cuts;
      }
      KeysWrittenLast(codes, entries, locs, cuts, boundaries, before, writer.blocks, base);
      boundaries := boundaries + [(entries[start].keyHash, index.value)];
    }
    r := Ok(boundaries);
  }

  /** Appending blocks keeps the key blocks written. */
  lemma KeysWrittenKept(codes: TypeCodes, entries: seq<Entry>, locs: seq<(nat, nat)>, cuts: seq<nat>, count: nat,
                        boundaries: seq<(nat, nat)>, blocks: seq<WrittenBlock>, blocks': seq<WrittenBlock>, base: nat)
    requires |entries| == |locs| && blocks <= blocks'
    requires KeysWritten(codes, entries, locs, cuts, count, boundaries, blocks, base)
    ensures KeysWritten(codes, entries, locs, cuts, count, boundaries, blocks', base)
  {
    forall k {:trigger boundaries[k]} | 0 <= k < count
      ensures boundaries[k].1 == base + k
      ensures IsKeyBlock(blocks'[base + k], codes, entries, locs, cuts[k], BlockEnd(cuts, k, |entries|))
    {
      assert blocks'[base + k] == blocks[base + k];
    }
  }

  /** The index block of `write_key_blocks_and_compute_amqf`: the first key
      block, then each later block's first hash and index. Its entry count
      must fit a u16, and there must be a key block. */
  method WriteIndexBlock(codes: TypeCodes, dict: seq<Byte>, boundaries: seq<(nat, nat)>, writer: BlockWriter)
    returns (r: Result<()>)
    requires writer.Valid()
    requires forall k :: 0 <= k < |boundaries| ==> boundaries[k].0 < U64Limit && boundaries[k].1 < U16Limit
    modifies writer
    ensures writer.Valid() && old(writer.blocks) <= writer.blocks
    ensures |boundaries| >= U16Limit ==> r == Err("Index entries count overflow")
    ensures |boundaries| == 0 ==> r == Err(NoKeyBlocks)
    ensures r.Ok? ==> && 0 < |boundaries| < U16Limit && |writer.blocks| == |old(writer.blocks)| + 1
                      && writer.blocks[|old(writer.blocks)|].kind == IndexBlock
                      && writer.blocks[|old(writer.blocks)|].data == IndexBlockBytes(codes, boundaries[0].1, boundaries[1..])
  {
    if |boundaries| >= U16Limit {
      return Err("Index entries count overflow");
    }
    if |boundaries| == 0 {
      return Err(NoKeyBlocks);
    }
    var index := new IndexBlockBuilder(codes, boundaries[0].1);
    assert Pow256(8) == U64Limit;
    for k := 1 to |boundaries|
      invariant index.Valid() && index.codes == codes && index.firstBlock == boundaries[0].1
      invariant index.entries == boundaries[1..k]
      invariant unchanged(writer)
    {
      index.Put(boundaries[k].0, boundaries[k].1);
      assert boundaries[1..k + 1] == boundaries[1..k] + [boundaries[k]];
    }
    var next := writer.NextBlockIndex();
    if next.Err? {
      return Err(next.msg);
    }
    var bytes := index.Finish();
    assert boundaries[1..|boundaries|] == boundaries[1..];
    r := writer.WriteBlock(IndexBlock, bytes, Some(dict), false);
  }

  /** `write_key_blocks_and_compute_amqf` without the filter: the key blocks
      of the split, then the index block over them. With no entries there is
      no key block and the index block's first block cannot be read. */
  method WriteKeyBlocks(codes: TypeCodes, dict: seq<Byte>, entries: seq<Entry>, locs: seq<(nat, nat)>,
                        writer: BlockWriter)
    returns (r: Result<seq<(nat, nat)>>, ghost cuts: seq<nat>)
    requires writer.Valid() && |entries| == |locs| && LocsFit(locs) && ValuesTyped(entries) && HashesFit(entries)
    modifies writer
    ensures writer.Valid() && old(writer.blocks) <= writer.blocks
    ensures |entries| == 0 ==> r == Err(NoKeyBlocks)
    ensures var base := |old(writer.blocks)|;
      r.Ok? ==>
        && Splits(entries, cuts, |entries|) && |r.value| == |cuts|
        && KeysWritten(codes, entries, locs, cuts, |cuts|, r.value, writer.blocks, base)
        && |writer.blocks| == base + |cuts| + 1
        && writer.blocks[base + |cuts|].kind == IndexBlock
        && writer.blocks[base + |cuts|].data == IndexBlockBytes(codes, base, r.value[1..])
  {
    ghost var base := |writer.blocks|;
    var boundaries;
    boundaries, cuts := WriteKeyBlocksSplit(codes, dict, entries, locs, writer);
    if boundaries.Err? {
      return Err(boundaries.msg), cuts;
    }
    ghost var before := writer.blocks;
    var bs := boundaries.value;
    assert forall k :: 0 <= k < |bs| ==> bs[k].0 < U64Limit && bs[k].1 < U16Limit by {
      forall k | 0 <= k < |bs| ensures bs[k].0 < U64Limit && bs[k].1 < U16Limit {
        assert bs[k] == (entries[cuts[k]].keyHash, base + k);
      }
    }
    var w := WriteIndexBlock(codes, dict, bs, writer);
    if w.Err? {
      return Err(w.msg), cuts;
    }
    KeysWrittenKept(codes, entries, locs, cuts, |cuts|, bs, before, writer.blocks, base);
    r := Ok(bs);
  }
}
