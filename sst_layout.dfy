/** The byte layouts of turbo-persistence's static sorted files: big-endian
    integers, the key block with its header slots, the index block, and the
    capacity of the key-compression buffer. */
module SstLayout {
  type Byte = b: int | 0 <= b < 256

  /** The largest key block, in bytes; offsets in a key block are 24-bit. */
  const MaxKeyBlockSize: nat := 16 * 1024
  /** The bytes counted per key in addition to the key itself. */
  const KeyBlockEntryMetaOverhead: nat := 8
  const MaxKeyBlockEntries: nat := MaxKeyBlockSize / KeyBlockEntryMetaOverhead
  const MaxSmallValueBlockSize: nat := 64 * 1024
  const MaxSmallValueBlockEntries: nat := MaxSmallValueBlockSize
  /** The most key bytes sampled for a compression dictionary. */
  const KeyCompressionSamplesSize: nat := 256 * 1024
  /** Below this many key bytes no compression dictionary is built. */
  const MinKeyCompressionSamplesSize: nat := 1024
  /** The type byte and the 24-bit entry count. */
  const KeyBlockHeaderSize: nat := 4

  /** The block and entry type codes. They are defined in
      static_sorted_file.rs, which is not part of this model, so they are a
      parameter here. */
  datatype TypeCodes = TypeCodes(indexBlock: Byte, keyBlock: Byte, smallEntry: Byte, mediumEntry: Byte,
                                 blobEntry: Byte, deletedEntry: Byte)

  // ---------------------------------------------------------------------------
  // Compression buffer

  function Min(a: nat, b: nat): nat {
    if a <= b then a else b
  }

  /** `get_compression_buffer_capacity`. */
  function CompressionBufferCapacity(totalKeySize: nat): nat {
    if totalKeySize >= MinKeyCompressionSamplesSize then Min(KeyCompressionSamplesSize, totalKeySize / 16) else 0
  }

  /** No buffer below 1 KiB of keys; otherwise a sixteenth of the keys, at
      most 256 KiB, and never empty. */
  lemma CompressionBufferCapacityBounds(totalKeySize: nat)
    ensures CompressionBufferCapacity(totalKeySize) == 0 <==> totalKeySize < MinKeyCompressionSamplesSize
    ensures CompressionBufferCapacity(totalKeySize) <= KeyCompressionSamplesSize
    ensures CompressionBufferCapacity(totalKeySize) <= totalKeySize / 16
    ensures totalKeySize >= MinKeyCompressionSamplesSize && totalKeySize / 16 <= KeyCompressionSamplesSize ==>
      CompressionBufferCapacity(totalKeySize) == totalKeySize / 16
    ensures totalKeySize >= 16 * KeyCompressionSamplesSize ==> CompressionBufferCapacity(totalKeySize) == KeyCompressionSamplesSize
  {
  }

  // ---------------------------------------------------------------------------
  // Big-endian integers

  function Pow256(width: nat): (r: nat)
    ensures r > 0
  {
    if width == 0 then 1 else 256 * Pow256(width - 1)
  }

  /** `write_u16/u24/u32/u64::<BE>`: the low `width` bytes of `n`, most
      significant first. */
  function BigEndian(n: nat, width: nat): (r: seq<Byte>)
    ensures |r| == width
  {
    if width == 0 then [] else BigEndian(n / 256, width - 1) + [n % 256]
  }

  /** `BE::read_*`: the number that big-endian bytes spell. */
  function FromBigEndian(bs: seq<Byte>): (r: nat)
    ensures r < Pow256(|bs|)
  {
    if bs == [] then 0 else FromBigEndian(bs[..|bs| - 1]) * 256 + bs[|bs| - 1]
  }

  /** Reading back what was written gives the number, when it fits. */
  lemma {:induction false} BigEndianRoundTrip(n: nat, width: nat)
    requires n < Pow256(width)
    ensures FromBigEndian(BigEndian(n, width)) == n
  {
    if width > 0 {
      var bs := BigEndian(n, width);
      assert bs[..|bs| - 1] == BigEndian(n / 256, width - 1);
      BigEndianRoundTrip(n / 256, width - 1);
    }
  }

  /** Writing back what was read gives the bytes. */
  lemma {:induction false} FromBigEndianRoundTrip(bs: seq<Byte>)
    ensures BigEndian(FromBigEndian(bs), |bs|) == bs
  {
    if bs != [] {
      var init := bs[..|bs| - 1];
      var n := FromBigEndian(bs);
      assert n / 256 == FromBigEndian(init);
      assert n % 256 == bs[|bs| - 1];
      FromBigEndianRoundTrip(init);
      assert bs == init + [bs[|bs| - 1]];
    }
  }

  /** Zero is written as zero bytes. */
  lemma {:induction false} BigEndianZero(width: nat)
    ensures BigEndian(0, width) == Zeros(width)
  {
    if width > 0 {
      BigEndianZero(width - 1);
    }
  }

  function Zeros(n: nat): (r: seq<Byte>)
    ensures |r| == n
    ensures forall i :: 0 <= i < n ==> r[i] == 0
  {
    seq(n, _ => 0)
  }

  // ---------------------------------------------------------------------------
  // Header slots

  function Pow2(bits: nat): (r: nat)
    ensures r > 0
  {
    if bits == 0 then 1 else 2 * Pow2(bits - 1)
  }

  /** The bitwise or of the low `bits` bits of `a` and `b`. */
  function BitOr(a: nat, b: nat, bits: nat): (r: nat)
    ensures r < Pow2(bits)
  {
    if bits == 0 then 0
    else 2 * BitOr(a / 2, b / 2, bits - 1) + (if a % 2 == 1 || b % 2 == 1 then 1 else 0)
  }

  /** Or with zero keeps the other side. */
  lemma {:induction false} BitOrZero(b: nat, bits: nat)
    requires b < Pow2(bits)
    ensures BitOr(0, b, bits) == b
  {
    if bits > 0 {
      BitOrZero(b / 2, bits - 1);
    }
  }

  /** Division with remainder is unique. */
  lemma DivModUnique(w: int, q: int, r: int, m: int)
    requires m > 0 && w == q * m + r && 0 <= r < m
    ensures w / m == q && w % m == r
  {
    var d := q - w / m;
    assert d * m == w % m - r;
    MulBound(d, m);
  }

  lemma MulBound(d: int, m: int)
    requires m > 0
    ensures d >= 1 ==> d * m >= m
    ensures d <= -1 ==> d * m <= -m
  {
  }

  /** A key block's header slot, `(pos as u32) | (type << 24)`: the low 24 bits
      of the position, with the type or-ed into the top byte. */
  function HeaderWord(pos: nat, entryType: Byte): (r: nat)
    ensures r < 0x1_0000_0000
  {
    var p := pos % 0x1_0000_0000;
    p % 0x100_0000 + 0x100_0000 * BitOr(p / 0x100_0000, entryType, 8)
  }

  function SlotPosition(word: nat): nat {
    word % 0x100_0000
  }

  function SlotType(word: nat): nat {
    word / 0x100_0000
  }

  /** A slot keeps the position's low 24 bits; a position below 2^24 and the
      entry type both read back exactly. */
  lemma HeaderWordDecodes(pos: nat, entryType: Byte)
    ensures SlotPosition(HeaderWord(pos, entryType)) == pos % 0x100_0000
    ensures pos < 0x100_0000 ==> SlotType(HeaderWord(pos, entryType)) == entryType
    ensures pos < 0x100_0000 ==> HeaderWord(pos, entryType) == entryType * 0x100_0000 + pos
  {
    var M := 0x100_0000;
    var p := pos % 0x1_0000_0000;
    var a := pos / 0x1_0000_0000;
    DivModUnique(pos, a * 256 + p / M, p % M, M);
    var x := BitOr(p / M, entryType, 8);
    DivModUnique(HeaderWord(pos, entryType), x, p % M, M);
    if pos < M {
      DivModUnique(pos, 0, pos, 0x1_0000_0000);
      assert Pow2(8) == 256;
      BitOrZero(entryType, 8);
    }
  }

  // ---------------------------------------------------------------------------
  // Key blocks

  /** One key-block entry: its type, key hash, key, and the type's trailer. */
  datatype KeyRecord = KeyRecord(entryType: Byte, hash: nat, key: seq<Byte>, trailer: seq<Byte>)

  function RecordBytes(r: KeyRecord): seq<Byte> {
    BigEndian(r.hash, 8) + r.key + r.trailer
  }

  /** The entries' bytes after the header, in order. */
  function Body(recs: seq<KeyRecord>): seq<Byte> {
    if recs == [] then [] else Body(recs[..|recs| - 1]) + RecordBytes(recs[|recs| - 1])
  }

  /** The header slots of the entries put so far: each the entry's offset in
      the body and its type. */
  function Slots(recs: seq<KeyRecord>): (r: seq<Byte>)
    ensures |r| == 4 * |recs|
  {
    if recs == [] then []
    else
      var init := recs[..|recs| - 1];
      Slots(init) + BigEndian(HeaderWord(|Body(init)|, recs[|recs| - 1].entryType), 4)
  }

  /** A key block for `count` entries with `recs` put: the type byte, the
      24-bit count, the filled slots, zeroed slots for the rest, and the body. */
  function PartialKeyBlock(codes: TypeCodes, count: nat, recs: seq<KeyRecord>): seq<Byte>
    requires |recs| <= count
  {
    [codes.keyBlock] + BigEndian(count, 3) + Slots(recs) + Zeros(4 * (count - |recs|)) + Body(recs)
  }

  function KeyBlockBytes(codes: TypeCodes, recs: seq<KeyRecord>): seq<Byte> {
    PartialKeyBlock(codes, |recs|, recs)
  }

  /** The slots and body of a prefix of the entries are prefixes of the
      whole's. */
  lemma {:induction false} PrefixLayout(recs: seq<KeyRecord>, j: nat)
    requires j <= |recs|
    ensures Slots(recs[..j]) <= Slots(recs)
    ensures Body(recs[..j]) <= Body(recs)
  {
    if j < |recs| {
      var init := recs[..|recs| - 1];
      assert init[..j] == recs[..j];
      PrefixLayout(init, j);
    } else {
      assert recs[..j] == recs;
    }
  }

  /** Putting an entry: its slot is filled with its body offset and type, and
      its bytes are appended. */
  lemma PutLayout(codes: TypeCodes, count: nat, recs: seq<KeyRecord>, rec: KeyRecord, b: seq<Byte>, off: nat, pos: int)
    requires |recs| < count && b == PartialKeyBlock(codes, count, recs)
    requires off == KeyBlockHeaderSize + 4 * |recs| && pos == |b| - (KeyBlockHeaderSize + 4 * count)
    ensures off + 4 <= |b| && pos == |Body(recs)|
    ensures b[..off] + BigEndian(HeaderWord(pos, rec.entryType), 4) + b[off + 4..] + RecordBytes(rec)
         == PartialKeyBlock(codes, count, recs + [rec])
  {
    var head := [codes.keyBlock] + BigEndian(count, 3);
    var rest := Zeros(4 * (count - |recs|) - 4);
    PartialSplit(codes, count, recs);
    var w := BigEndian(HeaderWord(|Body(recs)|, rec.entryType), 4);
    Splice(head + Slots(recs), Zeros(4), rest + Body(recs), w, RecordBytes(rec));
    SnocPieces(recs, rec);
    Regroup(head, Slots(recs), w, rest, Body(recs), RecordBytes(rec));
    PartialUnfold(codes, count, recs + [rec], Slots(recs) + w, rest, Body(recs) + RecordBytes(rec));
  }

  /** A partial key block around its first zeroed slot. */
  lemma PartialSplit(codes: TypeCodes, count: nat, recs: seq<KeyRecord>)
    requires |recs| < count
    ensures var head := [codes.keyBlock] + BigEndian(count, 3);
      PartialKeyBlock(codes, count, recs)
        == (head + Slots(recs)) + Zeros(4) + (Zeros(4 * (count - |recs|) - 4) + Body(recs))
  {
    ZerosSplit(4 * (count - |recs|) - 4);
  }

  /** The slots and body after one more entry. */
  lemma SnocPieces(recs: seq<KeyRecord>, rec: KeyRecord)
    ensures Slots(recs + [rec]) == Slots(recs) + BigEndian(HeaderWord(|Body(recs)|, rec.entryType), 4)
    ensures Body(recs + [rec]) == Body(recs) + RecordBytes(rec)
  {
    var recs' := recs + [rec];
    assert recs'[..|recs'| - 1] == recs;
  }

  lemma PartialUnfold(codes: TypeCodes, count: nat, recs: seq<KeyRecord>, slots: seq<Byte>, zeros: seq<Byte>, body: seq<Byte>)
    requires |recs| <= count && slots == Slots(recs) && zeros == Zeros(4 * (count - |recs|)) && body == Body(recs)
    ensures PartialKeyBlock(codes, count, recs) == [codes.keyBlock] + BigEndian(count, 3) + slots + zeros + body
  {
  }

  lemma Regroup<T>(h: seq<T>, s: seq<T>, w: seq<T>, rest: seq<T>, bd: seq<T>, r: seq<T>)
    ensures (h + s) + w + (rest + bd) + r == h + (s + w) + rest + (bd + r)
  {
  }

  lemma ZerosSplit(n: nat)
    ensures Zeros(n + 4) == Zeros(4) + Zeros(n)
  {
  }

  /** Overwriting four bytes after `x` and appending `r`. */
  lemma Splice<T>(x: seq<T>, z: seq<T>, y: seq<T>, w: seq<T>, r: seq<T>)
    requires |z| == 4 && |w| == 4
    ensures (x + z + y)[..|x|] + w + (x + z + y)[|x| + 4..] + r == x + w + y + r
  {
    assert (x + z + y)[..|x|] == x;
    assert (x + z + y)[|x| + 4..] == y;
  }

  /** Entry `i`'s slot and bytes in the whole block. */
  lemma EntryLayout(recs: seq<KeyRecord>, i: nat)
    requires i < |recs|
    ensures Slots(recs)[4 * i..4 * i + 4] == BigEndian(HeaderWord(|Body(recs[..i])|, recs[i].entryType), 4)
    ensures |Body(recs[..i])| + |RecordBytes(recs[i])| <= |Body(recs)|
    ensures Body(recs)[|Body(recs[..i])|..|Body(recs[..i])| + |RecordBytes(recs[i])|] == RecordBytes(recs[i])
  {
    var pre := recs[..i + 1];
    assert pre == recs[..i] + [recs[i]];
    PrefixLayout(recs, i + 1);
    SnocPieces(recs[..i], recs[i]);
    var w := BigEndian(HeaderWord(|Body(recs[..i])|, recs[i].entryType), 4);
    PieceOfPrefix(Slots(recs), Slots(pre), Slots(recs[..i]), w, 4 * i, 4);
    PieceOfPrefix(Body(recs), Body(pre), Body(recs[..i]), RecordBytes(recs[i]), |Body(recs[..i])|, |RecordBytes(recs[i])|);
  }

  /** The last piece of a prefix of `whole`. */
  lemma PieceOfPrefix<T>(whole: seq<T>, pre: seq<T>, a: seq<T>, w: seq<T>, start: nat, len: nat)
    requires pre <= whole && pre == a + w && start == |a| && len == |w|
    ensures start + len <= |whole| && whole[start..start + len] == w
  {
    assert forall j :: start <= j < start + len ==> whole[j] == pre[j];
  }

  /** A complete key block: the type byte, the 24-bit count, the slots and the
      body. */
  lemma KeyBlockPieces(codes: TypeCodes, recs: seq<KeyRecord>)
    ensures var b := KeyBlockBytes(codes, recs);
      && |b| == KeyBlockHeaderSize + 4 * |recs| + |Body(recs)|
      && b[0] == codes.keyBlock
      && b[1..4] == BigEndian(|recs|, 3)
      && b[KeyBlockHeaderSize..KeyBlockHeaderSize + 4 * |recs|] == Slots(recs)
      && b[KeyBlockHeaderSize + 4 * |recs|..|b|] == Body(recs)
  {
    assert Zeros(0) == [];
    PartialUnfold(codes, |recs|, recs, Slots(recs), [], Body(recs));
    ThreePieces(codes.keyBlock, BigEndian(|recs|, 3), Slots(recs), Body(recs));
  }

  lemma ThreePieces<T>(x: T, y: seq<T>, s: seq<T>, t: seq<T>)
    requires |y| == 3
    ensures var b := [x] + y + s + [] + t;
      && |b| == 4 + |s| + |t| && b[0] == x && b[1..4] == y && b[4..4 + |s|] == s && b[4 + |s|..|b|] == t
  {
    var b := [x] + y + s + [] + t;
    assert b == ([x] + y) + (s + t);
    assert b[..4] == [x] + y;
    assert b[4..] == s + t;
  }

  /** What a reader finds in a key block: the type byte and the entry count. */
  lemma KeyBlockHeaderReadable(codes: TypeCodes, recs: seq<KeyRecord>)
    requires |recs| < 0x100_0000
    ensures KeyBlockBytes(codes, recs)[0] == codes.keyBlock
    ensures FromBigEndian(KeyBlockBytes(codes, recs)[1..4]) == |recs|
  {
    KeyBlockPieces(codes, recs);
    assert Pow256(3) == 0x100_0000;
    BigEndianRoundTrip(|recs|, 3);
  }

  /** What a reader finds in entry `i`'s slot: the entry's type, and its
      offset in the body. */
  lemma KeyBlockSlotReadable(codes: TypeCodes, recs: seq<KeyRecord>, i: nat)
    requires |Body(recs)| < 0x100_0000 && i < |recs|
    ensures var b := KeyBlockBytes(codes, recs);
      && KeyBlockHeaderSize + 4 * i + 4 <= |b|
      && SlotType(FromBigEndian(b[KeyBlockHeaderSize + 4 * i..KeyBlockHeaderSize + 4 * i + 4])) == recs[i].entryType
      && SlotPosition(FromBigEndian(b[KeyBlockHeaderSize + 4 * i..KeyBlockHeaderSize + 4 * i + 4])) == |Body(recs[..i])|
  {
    var b := KeyBlockBytes(codes, recs);
    KeyBlockPieces(codes, recs);
    EntryLayout(recs, i);
    SliceOfPiece(b, Slots(recs), KeyBlockHeaderSize, KeyBlockHeaderSize + 4 * |recs|, 4 * i, 4);
    SlotDecodes(b[KeyBlockHeaderSize + 4 * i..KeyBlockHeaderSize + 4 * i + 4], |Body(recs[..i])|, recs[i].entryType);
  }

  /** A slot's four bytes decode to the offset and type written into them. */
  lemma SlotDecodes(bytes: seq<Byte>, pos: nat, entryType: Byte)
    requires pos < 0x100_0000 && bytes == BigEndian(HeaderWord(pos, entryType), 4)
    ensures SlotType(FromBigEndian(bytes)) == entryType && SlotPosition(FromBigEndian(bytes)) == pos
  {
    assert Pow256(4) == 0x1_0000_0000;
    BigEndianRoundTrip(HeaderWord(pos, entryType), 4);
    HeaderWordDecodes(pos, entryType);
  }

  /** What a reader finds at the offset in entry `i`'s slot, counted from the
      end of the header: its hash, key and trailer. */
  lemma KeyBlockEntryReadable(codes: TypeCodes, recs: seq<KeyRecord>, i: nat)
    requires i < |recs|
    ensures EntryAt(KeyBlockBytes(codes, recs), KeyBlockHeaderSize + 4 * |recs| + |Body(recs[..i])|, RecordBytes(recs[i]))
  {
    var b := KeyBlockBytes(codes, recs);
    KeyBlockPieces(codes, recs);
    EntryLayout(recs, i);
    var base := KeyBlockHeaderSize + 4 * |recs|;
    var pos := |Body(recs[..i])|;
    var rb := RecordBytes(recs[i]);
    assert base <= |b| && b[base..|b|] == Body(recs);
    assert pos + |rb| <= |Body(recs)| && Body(recs)[pos..pos + |rb|] == rb;
    PieceOfSuffix(b, Body(recs), base, pos, rb);
  }

  /** `piece` sits in `b` at `start`. */
  predicate EntryAt<T(==)>(b: seq<T>, start: nat, piece: seq<T>) {
    start + |piece| <= |b| && b[start..start + |piece|] == piece
  }

  /** A piece of the suffix of `b` that starts at `base` sits in `b` shifted
      by `base`. */
  lemma PieceOfSuffix<T>(b: seq<T>, suffix: seq<T>, base: nat, pos: nat, piece: seq<T>)
    requires base <= |b| && b[base..|b|] == suffix
    requires pos + |piece| <= |suffix| && suffix[pos..pos + |piece|] == piece
    ensures EntryAt(b, base + pos, piece)
  {
    SliceOfPiece(b, suffix, base, |b|, pos, |piece|);
  }

  /** A slice of a piece of `b` is the same slice of `b`, shifted. */
  lemma SliceOfPiece<T>(b: seq<T>, piece: seq<T>, base: nat, end: nat, pos: nat, len: nat)
    requires base <= end <= |b| && b[base..end] == piece && pos + len <= end - base
    ensures b[base + pos..base + pos + len] == piece[pos..pos + len]
  {
    assert forall j :: base + pos <= j < base + pos + len ==> b[j] == piece[j - base];
  }

  /** `KeyBlockBuilder`: writes the header with zeroed slots, then each put
      fills the next slot and appends the entry. */
  class KeyBlockBuilder {
    var buffer: seq<Byte>
    var currentEntry: nat
    var headerSize: nat
    const entryCount: nat
    const codes: TypeCodes
    ghost var records: seq<KeyRecord>

    ghost predicate Valid()
      reads this
    {
      && |records| == currentEntry <= entryCount
      && headerSize == KeyBlockHeaderSize + 4 * entryCount
      && buffer == PartialKeyBlock(codes, entryCount, records)
    }

    /** `KeyBlockBuilder::new`: the type byte, the 24-bit count and a zeroed
        slot per entry; the count must fit in 24 bits. */
    constructor (codes: TypeCodes, entryCount: nat)
      requires entryCount < 0x100_0000
      ensures Valid() && records == [] && this.codes == codes && this.entryCount == entryCount
    {
      this.codes := codes;
      this.entryCount := entryCount;
      var b := [codes.keyBlock] + BigEndian(entryCount, 3);
      for k := 0 to entryCount
        invariant b == [codes.keyBlock] + BigEndian(entryCount, 3) + Zeros(4 * k)
      {
        BigEndianZero(4);
        b := b + BigEndian(0, 4);
        assert Zeros(4 * k) + Zeros(4) == Zeros(4 * (k + 1));
      }
      buffer := b;
      currentEntry := 0;
      headerSize := |b|;
      records := [];
      assert Slots([]) == [] && Body([]) == [];
      assert b == PartialKeyBlock(codes, entryCount, []);
    }

    /** The common part of the puts: fill slot `currentEntry` with the entry's
        body offset and type, then append the hash, the key and the trailer. */
    method Put(entryType: Byte, hash: nat, key: seq<Byte>, trailer: seq<Byte>)
      requires Valid() && currentEntry < entryCount
      modifies this
      ensures Valid()
      ensures records == old(records) + [KeyRecord(entryType, hash, key, trailer)]
    {
      var pos := |buffer| - headerSize;
      var headerOffset := KeyBlockHeaderSize + currentEntry * 4;
      var header := HeaderWord(pos, entryType);
      var rec := KeyRecord(entryType, hash, key, trailer);
      PutLayout(codes, entryCount, records, rec, buffer, headerOffset, pos);
      buffer := buffer[..headerOffset] + BigEndian(header, 4) + buffer[headerOffset + 4..] + RecordBytes(rec);
      records := records + [rec];
      currentEntry := currentEntry + 1;
    }

    /** `put_small`: the value's block, size and offset. */
    method PutSmall(hash: nat, key: seq<Byte>, valueBlock: nat, valueOffset: nat, valueSize: nat)
      requires Valid() && currentEntry < entryCount
      requires valueBlock < 0x1_0000 && valueSize < 0x1_0000 && valueOffset < 0x1_0000_0000
      modifies this
      ensures Valid()
      ensures records == old(records) + [KeyRecord(codes.smallEntry, hash, key, SmallTrailer(valueBlock, valueOffset, valueSize))]
    {
      Put(codes.smallEntry, hash, key, SmallTrailer(valueBlock, valueOffset, valueSize));
    }

    /** `put_medium`: the value's own block. */
    method PutMedium(hash: nat, key: seq<Byte>, valueBlock: nat)
      requires Valid() && currentEntry < entryCount && valueBlock < 0x1_0000
      modifies this
      ensures Valid()
      ensures records == old(records) + [KeyRecord(codes.mediumEntry, hash, key, BigEndian(valueBlock, 2))]
    {
      Put(codes.mediumEntry, hash, key, BigEndian(valueBlock, 2));
    }

    /** `delete`: a tombstone, with no trailer. */
    method Delete(hash: nat, key: seq<Byte>)
      requires Valid() && currentEntry < entryCount
      modifies this
      ensures Valid()
      ensures records == old(records) + [KeyRecord(codes.deletedEntry, hash, key, [])]
    {
      Put(codes.deletedEntry, hash, key, []);
    }

    /** `put_blob`: the blob file's number. */
    method PutBlob(hash: nat, key: seq<Byte>, blob: nat)
      requires Valid() && currentEntry < entryCount && blob < 0x1_0000_0000
      modifies this
      ensures Valid()
      ensures records == old(records) + [KeyRecord(codes.blobEntry, hash, key, BigEndian(blob, 4))]
    {
      Put(codes.blobEntry, hash, key, BigEndian(blob, 4));
    }

    /** `finish`: once every slot is filled, the block is the complete
        layout of its entries. */
    method Finish() returns (b: seq<Byte>)
      requires Valid()
      ensures b == buffer
      ensures currentEntry == entryCount ==> b == KeyBlockBytes(codes, records)
    {
      b := buffer;
    }
  }

  /** A small value's trailer: its block (u16), its size (u16) and its offset
      in the block (u32). */
  function SmallTrailer(valueBlock: nat, valueOffset: nat, valueSize: nat): seq<Byte> {
    BigEndian(valueBlock, 2) + BigEndian(valueSize, 2) + BigEndian(valueOffset, 4)
  }

  /** The small trailer reads back as the block, the size and the offset. */
  lemma SmallTrailerReadable(valueBlock: nat, valueOffset: nat, valueSize: nat)
    requires valueBlock < 0x1_0000 && valueSize < 0x1_0000 && valueOffset < 0x1_0000_0000
    ensures var t := SmallTrailer(valueBlock, valueOffset, valueSize);
      && |t| == 8
      && FromBigEndian(t[..2]) == valueBlock
      && FromBigEndian(t[2..4]) == valueSize
      && FromBigEndian(t[4..]) == valueOffset
  {
    var t := SmallTrailer(valueBlock, valueOffset, valueSize);
    assert t[..2] == BigEndian(valueBlock, 2);
    assert t[2..4] == BigEndian(valueSize, 2);
    assert t[4..] == BigEndian(valueOffset, 4);
    assert Pow256(2) == 0x1_0000;
    assert Pow256(4) == 0x1_0000_0000;
    BigEndianRoundTrip(valueBlock, 2);
    BigEndianRoundTrip(valueSize, 2);
    BigEndianRoundTrip(valueOffset, 4);
  }

  // ---------------------------------------------------------------------------
  // Index blocks

  /** The (hash, block) pairs of the index, 10 bytes each. */
  function IndexEntries(es: seq<(nat, nat)>): (r: seq<Byte>)
    ensures |r| == 10 * |es|
  {
    if es == [] then []
    else IndexEntries(es[..|es| - 1]) + BigEndian(es[|es| - 1].0, 8) + BigEndian(es[|es| - 1].1, 2)
  }

  /** An index block: the type byte, the first key block, then a (hash, block)
      pair for each later key block. */
  function IndexBlockBytes(codes: TypeCodes, firstBlock: nat, es: seq<(nat, nat)>): seq<Byte> {
    [codes.indexBlock] + BigEndian(firstBlock, 2) + IndexEntries(es)
  }

  lemma {:induction false} IndexEntriesPrefix(es: seq<(nat, nat)>, k: nat)
    requires k < |es|
    ensures IndexEntries(es)[10 * k..10 * k + 10] == BigEndian(es[k].0, 8) + BigEndian(es[k].1, 2)
  {
    var init := es[..|es| - 1];
    if k < |es| - 1 {
      IndexEntriesPrefix(init, k);
      assert IndexEntries(es)[10 * k..10 * k + 10] == IndexEntries(init)[10 * k..10 * k + 10];
    }
  }

  /** What a reader finds in an index block: the first block, and entry `k`'s
      hash and block at offset 3 + 10k. */
  lemma IndexBlockReadable(codes: TypeCodes, firstBlock: nat, es: seq<(nat, nat)>, k: nat)
    requires firstBlock < 0x1_0000 && k < |es| && es[k].0 < Pow256(8) && es[k].1 < 0x1_0000
    ensures var b := IndexBlockBytes(codes, firstBlock, es);
      && |b| == 3 + 10 * |es|
      && b[0] == codes.indexBlock
      && FromBigEndian(b[1..3]) == firstBlock
      && FromBigEndian(b[3 + 10 * k..11 + 10 * k]) == es[k].0
      && FromBigEndian(b[11 + 10 * k..13 + 10 * k]) == es[k].1
  {
    var b := IndexBlockBytes(codes, firstBlock, es);
    var hash := BigEndian(es[k].0, 8);
    var block := BigEndian(es[k].1, 2);
    HeadPieces(codes.indexBlock, BigEndian(firstBlock, 2), IndexEntries(es));
    IndexEntriesPrefix(es, k);
    SliceOfPiece(b, IndexEntries(es), 3, |b|, 10 * k, 10);
    PairAt(b, 3 + 10 * k, hash, block);
    assert Pow256(2) == 0x1_0000;
    BigEndianRoundTrip(firstBlock, 2);
    BigEndianRoundTrip(es[k].0, 8);
    BigEndianRoundTrip(es[k].1, 2);
  }

  /** A type byte, a two-byte field and the rest. */
  lemma HeadPieces<T>(x: T, y: seq<T>, rest: seq<T>)
    requires |y| == 2
    ensures var b := [x] + y + rest;
      |b| == 3 + |rest| && b[0] == x && b[1..3] == y && b[3..|b|] == rest
  {
    var b := [x] + y + rest;
    assert b[..3] == [x] + y;
  }

  /** Two adjacent pieces of `b` at `base`. */
  lemma PairAt<T>(b: seq<T>, base: nat, u: seq<T>, v: seq<T>)
    requires base + |u| + |v| <= |b| && b[base..base + |u| + |v|] == u + v
    ensures b[base..base + |u|] == u && b[base + |u|..base + |u| + |v|] == v
  {
    assert forall j :: base <= j < base + |u| + |v| ==> b[j] == (u + v)[j - base];
  }

  /** `IndexBlockBuilder`. */
  class IndexBlockBuilder {
    var buffer: seq<Byte>
    const codes: TypeCodes
    const firstBlock: nat
    ghost var entries: seq<(nat, nat)>

    ghost predicate Valid()
      reads this
    {
      buffer == IndexBlockBytes(codes, firstBlock, entries)
    }

    /** `IndexBlockBuilder::new`: the type byte and the first block. The entry
        count only sizes the source's reservation and is not modelled. */
    constructor (codes: TypeCodes, firstBlock: nat)
      requires firstBlock < 0x1_0000
      ensures Valid() && entries == [] && this.codes == codes && this.firstBlock == firstBlock
    {
      this.codes := codes;
      this.firstBlock := firstBlock;
      buffer := [codes.indexBlock] + BigEndian(firstBlock, 2);
      entries := [];
    }

    /** `put`: a hash boundary and its key block. */
    method Put(hash: nat, block: nat)
      requires Valid() && hash < Pow256(8) && block < 0x1_0000
      modifies this
      ensures Valid() && entries == old(entries) + [(hash, block)]
    {
      buffer := buffer + BigEndian(hash, 8) + BigEndian(block, 2);
      entries := entries + [(hash, block)];
      assert entries[..|entries| - 1] == old(entries);
    }

    method Finish() returns (b: seq<Byte>)
      requires Valid()
      ensures b == IndexBlockBytes(codes, firstBlock, entries)
    {
      b := buffer;
    }
  }
}
