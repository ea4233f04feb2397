/** A whole static sorted file of turbo-persistence: the key-compression
    dictionary sampled from the keys, the value blocks, the key blocks and
    the index block, the block offset table, and the file's metadata. */
module SstFile {
  import opened Wrappers
  import opened SstLayout
  import opened SstBuilder

  /** The bytes sampled per key, and the fewest worth sampling. */
  const CompressionDictionarySamplePerEntry: nat := 100
  const MinCompressionDictionarySamplePerEntry: nat := 16
  /** The largest key-compression dictionary. */
  const KeyCompressionDictionarySize: nat := 64 * 1024 - 1

  /** The panic of `i % entries.len()` with no entries. */
  const RemainderByZero := "attempt to calculate the remainder with a divisor of zero"

  /** The dictionary trainer, given the samples, their sizes and the largest
      dictionary. */
  type Trainer = (seq<Byte>, seq<nat>, nat) -> Result<seq<Byte>>

  function Sum(s: seq<nat>): nat {
    if s == [] then 0 else Sum(s[..|s| - 1]) + s[|s| - 1]
  }

  // ---------------------------------------------------------------------------
  // Key samples

  /** Sample `k` takes `sizes[k]` bytes of the key of entry `picks[k].0` from
      offset `picks[k].1`, inside that key. */
  predicate PicksInKeys(entries: seq<Entry>, picks: seq<(nat, nat)>, sizes: seq<nat>) {
    && |picks| == |sizes|
    && forall k :: 0 <= k < |picks| ==> picks[k].0 < |entries| && picks[k].1 + sizes[k] <= |entries[picks[k].0].key|
  }

  /** The samples laid end to end. */
  function Picked(entries: seq<Entry>, picks: seq<(nat, nat)>, sizes: seq<nat>): seq<Byte>
    requires PicksInKeys(entries, picks, sizes)
  {
    if picks == [] then []
    else
      var n := |picks| - 1;
      var key := entries[picks[n].0].key;
      Picked(entries, picks[..n], sizes[..n]) + key[picks[n].1..picks[n].1 + sizes[n]]
  }

  lemma PickedSnoc(entries: seq<Entry>, picks: seq<(nat, nat)>, sizes: seq<nat>, pick: (nat, nat), size: nat)
    requires PicksInKeys(entries, picks, sizes)
    requires pick.0 < |entries| && pick.1 + size <= |entries[pick.0].key|
    ensures PicksInKeys(entries, picks + [pick], sizes + [size])
    ensures Picked(entries, picks + [pick], sizes + [size])
         == Picked(entries, picks, sizes) + entries[pick.0].key[pick.1..pick.1 + size]
    ensures Sum(sizes + [size]) == Sum(sizes) + size
  {
    assert (picks + [pick])[..|picks|] == picks;
    assert (sizes + [size])[..|sizes|] == sizes;
  }

  /** The samples so far: their bytes are the picked windows, each of 16 to
      100 bytes, and they stay within the budget. */
  ghost predicate Sampled(entries: seq<Entry>, samples: seq<Byte>, sizes: seq<nat>, picks: seq<(nat, nat)>, budget: nat) {
    && |samples| == Sum(sizes) <= budget
    && (forall k :: 0 <= k < |sizes| ==>
          MinCompressionDictionarySamplePerEntry <= sizes[k] <= CompressionDictionarySamplePerEntry)
    && PicksInKeys(entries, picks, sizes) && samples == Picked(entries, picks, sizes)
  }

  /** Taking one more window keeps the samples well formed. */
  lemma SampledSnoc(entries: seq<Entry>, samples: seq<Byte>, sizes: seq<nat>, picks: seq<(nat, nat)>, budget: nat,
                    e: nat, p: nat, size: nat)
    requires Sampled(entries, samples, sizes, picks, budget)
    requires e < |entries| && p + size <= |entries[e].key| && |samples| + size <= budget
    requires MinCompressionDictionarySamplePerEntry <= size <= CompressionDictionarySamplePerEntry
    ensures Sampled(entries, samples + entries[e].key[p..p + size], sizes + [size], picks + [(e, p)], budget)
  {
    PickedSnoc(entries, picks, sizes, (e, p), size);
  }

  /** One step of the sampling loop on a key, with the bytes sampled so far:
      a key under 16 bytes adds nothing; a key that fits both the remaining
      budget and the 100-byte share is taken whole; a longer key gives a
      window of that share, at the bytes sampled so far modulo the bytes the
      window leaves out. */
  function SampleStep(key: seq<Byte>, samples: seq<Byte>, sizes: seq<nat>, budget: nat): (r: (seq<Byte>, seq<nat>))
    requires |samples| <= budget
    ensures |r.0| <= budget && samples <= r.0 && sizes <= r.1
    ensures |key| < MinCompressionDictionarySamplePerEntry <==> r == (samples, sizes)
    ensures |key| >= MinCompressionDictionarySamplePerEntry ==>
      |r.1| == |sizes| + 1 && |r.0| == |samples| + r.1[|sizes|]
      && r.1[|sizes|] == Min(|key|, Min(budget - |samples|, CompressionDictionarySamplePerEntry))
  {
    var len := |key|;
    if len < MinCompressionDictionarySamplePerEntry then (samples, sizes)
    else
      var used := Min(budget - |samples|, CompressionDictionarySamplePerEntry);
      if len <= used then (samples + key, sizes + [len])
      else
        var p := Window(|samples|, len - used);
        (samples + key[p..p + used], sizes + [used])
  }

  /** The sampling loop from iteration `i`: entry `i % |entries|` is looked
      at, and the loop ends after `maxIterations` iterations or as soon as
      fewer than 16 bytes of the budget remain. */
  function SampleLoop(entries: seq<Entry>, budget: nat, i: nat, maxIterations: nat, samples: seq<Byte>, sizes: seq<nat>)
    : (r: (seq<Byte>, seq<nat>))
    requires |entries| > 0 && i <= maxIterations && |samples| <= budget
    ensures |r.0| <= budget && samples <= r.0 && sizes <= r.1
    decreases maxIterations - i
  {
    if i == maxIterations || budget - |samples| < MinCompressionDictionarySamplePerEntry then (samples, sizes)
    else
      var next := SampleStep(entries[i % |entries|].key, samples, sizes, budget);
      SampleLoop(entries, budget, i + 1, maxIterations, next.0, next.1)
  }

  /** With every key at least 100 bytes long, the loop ends with its budget
      spent, or it takes one sample in each remaining iteration. */
  lemma {:induction false} SampleLoopLongKeys(entries: seq<Entry>, budget: nat, i: nat, maxIterations: nat,
                                              samples: seq<Byte>, sizes: seq<nat>)
    requires |entries| > 0 && i <= maxIterations && |samples| <= budget
    requires forall e :: 0 <= e < |entries| ==> |entries[e].key| >= CompressionDictionarySamplePerEntry
    ensures var r := SampleLoop(entries, budget, i, maxIterations, samples, sizes);
      budget - |r.0| < MinCompressionDictionarySamplePerEntry || |r.1| == |sizes| + (maxIterations - i)
    decreases maxIterations - i
  {
    if i < maxIterations && budget - |samples| >= MinCompressionDictionarySamplePerEntry {
      var next := SampleStep(entries[i % |entries|].key, samples, sizes, budget);
      SampleLoopLongKeys(entries, budget, i + 1, maxIterations, next.0, next.1);
    }
  }

  /** Where the loop goes on from iteration `i`: it stops there after the
      last iteration or with under 16 bytes of budget left, and otherwise
      continues after the step on entry `i % |entries|`. */
  lemma SampleLoopUnfold(entries: seq<Entry>, budget: nat, i: nat, maxIterations: nat, samples: seq<Byte>, sizes: seq<nat>)
    requires |entries| > 0 && i <= maxIterations && |samples| <= budget
    ensures i == maxIterations || budget - |samples| < MinCompressionDictionarySamplePerEntry ==>
      SampleLoop(entries, budget, i, maxIterations, samples, sizes) == (samples, sizes)
    ensures i < maxIterations && budget - |samples| >= MinCompressionDictionarySamplePerEntry ==>
      var next := SampleStep(entries[i % |entries|].key, samples, sizes, budget);
      SampleLoop(entries, budget, i, maxIterations, samples, sizes)
        == SampleLoop(entries, budget, i + 1, maxIterations, next.0, next.1)
  {
  }

  /** The windows recorded after one step on entry `e`, whose key has `len`
      bytes, with `at` bytes sampled so far: none for a short key, the whole
      key from offset 0 when it fits, else the window at `at % (len - used)`. */
  ghost function StepPicks(picks: seq<(nat, nat)>, e: nat, len: nat, at: nat, budget: nat): seq<(nat, nat)>
    requires at <= budget
  {
    if len < MinCompressionDictionarySamplePerEntry then picks
    else
      var used := Min(budget - at, CompressionDictionarySamplePerEntry);
      if len <= used then picks + [(e, 0)] else picks + [(e, Window(at, len - used))]
  }

  /** The step keeps the samples well formed: its bytes are the recorded
      window of entry `e`'s key. */
  lemma StepSampled(entries: seq<Entry>, e: nat, samples: seq<Byte>, sizes: seq<nat>, picks: seq<(nat, nat)>, budget: nat)
    requires e < |entries| && Sampled(entries, samples, sizes, picks, budget)
    requires budget - |samples| >= MinCompressionDictionarySamplePerEntry
    ensures var next := SampleStep(entries[e].key, samples, sizes, budget);
      Sampled(entries, next.0, next.1, StepPicks(picks, e, |entries[e].key|, |samples|, budget), budget)
  {
    var len := |entries[e].key|;
    if len >= MinCompressionDictionarySamplePerEntry {
      if len <= Min(budget - |samples|, CompressionDictionarySamplePerEntry) {
        WholeKeySampled(entries, e, samples, sizes, picks, budget);
      } else {
        WindowSampled(entries, e, samples, sizes, picks, budget);
      }
    }
  }

  /** A key that fits the share is sampled whole, from offset 0. */
  lemma WholeKeySampled(entries: seq<Entry>, e: nat, samples: seq<Byte>, sizes: seq<nat>, picks: seq<(nat, nat)>, budget: nat)
    requires e < |entries| && Sampled(entries, samples, sizes, picks, budget)
    requires MinCompressionDictionarySamplePerEntry <= |entries[e].key|
             <= Min(budget - |samples|, CompressionDictionarySamplePerEntry)
    ensures SampleStep(entries[e].key, samples, sizes, budget) == (samples + entries[e].key, sizes + [|entries[e].key|])
    ensures StepPicks(picks, e, |entries[e].key|, |samples|, budget) == picks + [(e, 0)]
    ensures Sampled(entries, samples + entries[e].key, sizes + [|entries[e].key|], picks + [(e, 0)], budget)
  {
    var key := entries[e].key;
    SampledSnoc(entries, samples, sizes, picks, budget, e, 0, |key|);
    assert key[0..|key|] == key;
  }

  /** A longer key gives its window at the bytes sampled so far modulo the
      bytes the window leaves out. */
  lemma WindowSampled(entries: seq<Entry>, e: nat, samples: seq<Byte>, sizes: seq<nat>, picks: seq<(nat, nat)>, budget: nat)
    requires e < |entries| && Sampled(entries, samples, sizes, picks, budget)
    requires budget - |samples| >= MinCompressionDictionarySamplePerEntry
    requires |entries[e].key| > Min(budget - |samples|, CompressionDictionarySamplePerEntry)
    ensures var used := Min(budget - |samples|, CompressionDictionarySamplePerEntry);
      var p := Window(|samples|, |entries[e].key| - used);
      && SampleStep(entries[e].key, samples, sizes, budget) == (samples + entries[e].key[p..p + used], sizes + [used])
      && StepPicks(picks, e, |entries[e].key|, |samples|, budget) == picks + [(e, p)]
      && Sampled(entries, samples + entries[e].key[p..p + used], sizes + [used], picks + [(e, p)], budget)
  {
    var used := Min(budget - |samples|, CompressionDictionarySamplePerEntry);
    SampledSnoc(entries, samples, sizes, picks, budget, e, Window(|samples|, |entries[e].key| - used), used);
  }

  /** One sample of entry `e`'s key with the bytes sampled so far: the step
      `SampleStep` describes, with the window it takes recorded in `picks'`. */
  method SampleKey(entries: seq<Entry>, e: nat, samples: seq<Byte>, sizes: seq<nat>, ghost picks: seq<(nat, nat)>,
                   budget: nat)
    returns (samples': seq<Byte>, sizes': seq<nat>, ghost picks': seq<(nat, nat)>)
    requires e < |entries| && Sampled(entries, samples, sizes, picks, budget)
    requires budget - |samples| >= MinCompressionDictionarySamplePerEntry
    ensures (samples', sizes') == SampleStep(entries[e].key, samples, sizes, budget)
    ensures picks' == StepPicks(picks, e, |entries[e].key|, |samples|, budget)
    ensures Sampled(entries, samples', sizes', picks', budget)
  {
    var key := entries[e].key;
    var len := |key|;
    samples', sizes', picks' := samples, sizes, picks;
    if len >= MinCompressionDictionarySamplePerEntry {
      var used := Min(budget - |samples|, CompressionDictionarySamplePerEntry);
      if len <= used {
        sizes', picks' := sizes + [len], picks + [(e, 0)];
        samples' := samples + key;
      } else {
        var p := Window(|samples|, len - used);
        sizes', picks' := sizes + [used], picks + [(e, p)];
        samples' := samples + key[p..p + used];
      }
    }
    StepSampled(entries, e, samples, sizes, picks, budget);
  }

  /** The offset of a window: `at % spare`, below `spare`. */
  function Window(at: nat, spare: nat): (p: nat)
    requires spare > 0
    ensures p < spare
  {
    at % spare
  }

  /** Sample `k` comes from entry `k % n`: the entries taken in turn. */
  predicate RoundRobin(picks: seq<(nat, nat)>, n: nat)
    requires n > 0
  {
    forall k :: 0 <= k < |picks| ==> picks[k].0 == k % n
  }

  /** Taking the next entry in turn keeps the picks round-robin. */
  lemma RoundRobinSnoc(picks: seq<(nat, nat)>, n: nat, pick: (nat, nat))
    requires n > 0 && RoundRobin(picks, n) && pick.0 == |picks| % n
    ensures RoundRobin(picks + [pick], n)
  {
    forall k | 0 <= k < |picks| + 1
      ensures (picks + [pick])[k].0 == k % n
    {
      if k < |picks| {
        assert (picks + [pick])[k] == picks[k];
      }
    }
  }

  /** The `for` loop of `compute_key_compression_dictionary` over a non-empty
      entry list: `maxIterations` iterations over the entries round-robin,
      until fewer than 16 bytes of the sample budget remain. */
  method SampleRounds(entries: seq<Entry>, budget: nat, maxIterations: nat)
    returns (samples: seq<Byte>, sizes: seq<nat>, ghost picks: seq<(nat, nat)>)
    requires |entries| > 0
    ensures Sampled(entries, samples, sizes, picks, budget)
    ensures (samples, sizes) == SampleLoop(entries, budget, 0, maxIterations, [], [])
    ensures (forall e :: 0 <= e < |entries| ==> |entries[e].key| >= MinCompressionDictionarySamplePerEntry)
            ==> RoundRobin(picks, |entries|)
  {
    ghost var allLong := forall e :: 0 <= e < |entries| ==> |entries[e].key| >= MinCompressionDictionarySamplePerEntry;
    samples, sizes, picks := [], [], [];
    ghost var target := SampleLoop(entries, budget, 0, maxIterations, [], []);
    for i := 0 to maxIterations
      invariant Sampled(entries, samples, sizes, picks, budget)
      invariant SampleLoop(entries, budget, i, maxIterations, samples, sizes) == target
      invariant allLong ==> |picks| == i && RoundRobin(picks, |entries|)
    {
      var e := i % |entries|;
      SampleLoopUnfold(entries, budget, i, maxIterations, samples, sizes);
      if budget - |samples| < MinCompressionDictionarySamplePerEntry {
        break;
      }
      ghost var picks0 := picks;
      samples, sizes, picks := SampleKey(entries, e, samples, sizes, picks, budget);
      if allLong {
        assert |entries[e].key| >= MinCompressionDictionarySamplePerEntry;
        assert picks == picks0 + [picks[|picks0|]] && picks[|picks0|].0 == e;
        RoundRobinSnoc(picks0, |entries|, picks[|picks0|]);
      }
    }
    SampleLoopUnfold(entries, budget, maxIterations, maxIterations, samples, sizes);
  }

  /** The sampling of `compute_key_compression_dictionary`, entered with at
      least 1 KiB of keys: the budget is the sample buffer's capacity, and
      there are twice a hundredth of the key bytes iterations, so at least
      one. The first iteration picks entry `0 % entries.len()`, which with no
      entries is a division by zero. */
  method SampleKeys(entries: seq<Entry>, totalKeySize: nat)
    returns (r: Result<(seq<Byte>, seq<nat>)>, ghost picks: seq<(nat, nat)>)
    requires totalKeySize >= MinKeyCompressionSamplesSize
    ensures r.Err? <==> |entries| == 0
    ensures r.Err? ==> r.msg == RemainderByZero
    ensures r.Ok? ==> Sampled(entries, r.value.0, r.value.1, picks, CompressionBufferCapacity(totalKeySize))
    ensures r.Ok? ==> r.value == SampleLoop(entries, CompressionBufferCapacity(totalKeySize), 0,
                                            totalKeySize / CompressionDictionarySamplePerEntry * 2, [], [])
    ensures r.Ok? && (forall e :: 0 <= e < |entries| ==> |entries[e].key| >= MinCompressionDictionarySamplePerEntry)
            ==> RoundRobin(picks, |entries|)
  {
    var budget := Min(KeyCompressionSamplesSize, totalKeySize / 16);
    var maxIterations := totalKeySize / CompressionDictionarySamplePerEntry * 2;
    assert maxIterations > 0;
    if |entries| == 0 {
      return Err(RemainderByZero), [];
    }
    var samples, sizes;
    samples, sizes, picks := SampleRounds(entries, budget, maxIterations);
    r := Ok((samples, sizes));
  }

  /** `compute_key_compression_dictionary`: no dictionary below 1 KiB of keys;
      otherwise the keys are sampled, and a dictionary is trained only from
      more than 1 KiB of samples in more than five pieces. */
  method ComputeKeyDictionary(entries: seq<Entry>, totalKeySize: nat, train: Trainer)
    returns (r: Result<seq<Byte>>, ghost samples: seq<Byte>, ghost sizes: seq<nat>)
    ensures totalKeySize < MinKeyCompressionSamplesSize ==> r == Ok([])
    ensures totalKeySize >= MinKeyCompressionSamplesSize && |entries| == 0 ==> r == Err(RemainderByZero)
    ensures totalKeySize >= MinKeyCompressionSamplesSize && |entries| > 0 ==>
      && (exists picks :: Sampled(entries, samples, sizes, picks, CompressionBufferCapacity(totalKeySize)))
      && r == if |samples| > MinKeyCompressionSamplesSize && |sizes| > 5
              then train(samples, sizes, KeyCompressionDictionarySize) else Ok([])
  {
    samples, sizes := [], [];
    if totalKeySize < MinKeyCompressionSamplesSize {
      return Ok([]), samples, sizes;
    }
    var sampled;
    ghost var picks;
    sampled, picks := SampleKeys(entries, totalKeySize);
    if sampled.Err? {
      return Err(sampled.msg), samples, sizes;
    }
    var sampledBytes, sampleSizes := sampled.value.0, sampled.value.1;
    samples, sizes := sampledBytes, sampleSizes;
    if |sampledBytes| > MinKeyCompressionSamplesSize && |sampleSizes| > 5 {
      r := train(sampledBytes, sampleSizes, KeyCompressionDictionarySize);
    } else {
      r := Ok([]);
    }
  }

  // ---------------------------------------------------------------------------
  // The file

  /** `StaticSortedFileBuilderMeta` without the filter. */
  datatype Meta = Meta(minHash: nat, maxHash: nat, keyDictionaryLength: nat, blockCount: nat, size: nat, entries: nat)

  const U64Max: nat := U64Limit - 1

  /** The block offsets, each a big-endian u32. */
  function OffsetTable(offsets: seq<nat>): (r: seq<Byte>)
    ensures |r| == 4 * |offsets|
  {
    if offsets == [] then [] else OffsetTable(offsets[..|offsets| - 1]) + BigEndian(offsets[|offsets| - 1], 4)
  }

  /** Offset `k` is read back from its four bytes in the table. */
  lemma {:induction false} OffsetTableReadable(offsets: seq<nat>, k: nat)
    requires k < |offsets| && offsets[k] < U32Limit
    ensures 4 * k + 4 <= |OffsetTable(offsets)|
    ensures FromBigEndian(OffsetTable(offsets)[4 * k..4 * k + 4]) == offsets[k]
  {
    var n := |offsets| - 1;
    var init := offsets[..n];
    assert OffsetTable(offsets) == OffsetTable(init) + BigEndian(offsets[n], 4);
    if k < n {
      OffsetTableReadable(init, k);
      assert OffsetTable(offsets)[4 * k..4 * k + 4] == OffsetTable(init)[4 * k..4 * k + 4];
    } else {
      assert OffsetTable(offsets)[4 * k..4 * k + 4] == BigEndian(offsets[n], 4);
      assert Pow256(4) == U32Limit;
      BigEndianRoundTrip(offsets[n], 4);
    }
  }

  /** Appends the offset table to the file, one offset at a time. */
  method WriteOffsets(file: seq<Byte>, offsets: seq<nat>) returns (out: seq<Byte>)
    ensures out == file + OffsetTable(offsets)
  {
    out := file;
    for k := 0 to |offsets|
      invariant out == file + OffsetTable(offsets[..k])
    {
      assert offsets[..k + 1][..k] == offsets[..k];
      out := out + BigEndian(offsets[k], 4);
    }
    assert offsets[..|offsets|] == offsets;
  }

  /** The smallest hash, or u64::MAX with no entries. */
  function MinHash(entries: seq<Entry>): nat {
    if entries == [] then U64Max else entries[0].keyHash
  }

  /** The largest hash, or 0 with no entries. */
  function MaxHash(entries: seq<Entry>): nat {
    if entries == [] then 0 else entries[|entries| - 1].keyHash
  }

  /** With sorted hashes the metadata's hashes bound every key's hash. */
  lemma HashesBounded(entries: seq<Entry>)
    requires HashesSorted(entries) && HashesFit(entries)
    ensures forall j :: 0 <= j < |entries| ==> MinHash(entries) <= entries[j].keyHash <= MaxHash(entries)
    ensures entries == [] ==> MinHash(entries) > MaxHash(entries)
  {
    forall j | 0 <= j < |entries|
      ensures MinHash(entries) <= entries[j].keyHash <= MaxHash(entries)
    {
      if 0 < j {
        assert entries[0].keyHash <= entries[j].keyHash;
      }
      if j < |entries| - 1 {
        assert entries[j].keyHash <= entries[|entries| - 1].keyHash;
      }
    }
  }

  /** What the blocks hold: the value blocks, then the key blocks of the
      split `cuts` from `keysFrom` on, then the index block over them. */
  ghost predicate BlocksHold(codes: TypeCodes, entries: seq<Entry>, locs: seq<(nat, nat)>, cuts: seq<nat>,
                             boundaries: seq<(nat, nat)>, blocks: seq<WrittenBlock>, keysFrom: nat)
  {
    && |locs| == |entries|
    && AllLocated(entries, locs, 0, |entries|, blocks, 0)
    && Splits(entries, cuts, |entries|)
    && KeysWritten(codes, entries, locs, cuts, |cuts|, boundaries, blocks, keysFrom)
    && |blocks| == keysFrom + |cuts| + 1
    && blocks[keysFrom + |cuts|].kind == IndexBlock
    && blocks[keysFrom + |cuts|].data == IndexBlockBytes(codes, keysFrom, boundaries[1..])
  }

  /** What a file holds: the dictionary, the blocks and the offset table. */
  ghost predicate IsFile(file: seq<Byte>, codes: TypeCodes, dict: seq<Byte>, entries: seq<Entry>, locs: seq<(nat, nat)>,
                         cuts: seq<nat>, boundaries: seq<(nat, nat)>, blocks: seq<WrittenBlock>, keysFrom: nat)
  {
    && file == dict + Encoded(blocks) + OffsetTable(Offsets(blocks))
    && BlocksHold(codes, entries, locs, cuts, boundaries, blocks, keysFrom)
  }

  /** Every value location fits its (u16, u32) pair. */
  lemma LocationsFit(entries: seq<Entry>, locs: seq<(nat, nat)>, blocks: seq<WrittenBlock>)
    requires |locs| == |entries| && AllLocated(entries, locs, 0, |entries|, blocks, 0)
    ensures LocsFit(locs)
  {
    forall k | 0 <= k < |locs| ensures locs[k].0 < U16Limit && locs[k].1 < U32Limit {
      assert Located(entries[k].value, locs[k], blocks, 0);
    }
  }

  /** The blocks of `write_static_stored_file`: the value blocks, then the
      key blocks and the index block. */
  method WriteBlocks(codes: TypeCodes, dict: seq<Byte>, entries: seq<Entry>, writer: BlockWriter)
    returns (r: Result<()>, ghost locs: seq<(nat, nat)>, ghost cuts: seq<nat>, ghost boundaries: seq<(nat, nat)>,
             ghost keysFrom: nat)
    requires writer.Valid() && writer.blocks == [] && ValuesTyped(entries) && HashesFit(entries)
    modifies writer
    ensures writer.Valid()
    ensures |entries| == 0 ==> r.Err?
    ensures r.Ok? ==> BlocksHold(codes, entries, locs, cuts, boundaries, writer.blocks, keysFrom)
  {
    locs, cuts, boundaries, keysFrom := [], [], [], 0;
    var placed := WriteValueBlocks(entries, writer);
    if placed.Err? {
      return Err(placed.msg), locs, cuts, boundaries, keysFrom;
    }
    var valueLocs := placed.value;
    locs := valueLocs;
    keysFrom := |writer.blocks|;
    ghost var valueBlocks := writer.blocks;
    LocationsFit(entries, valueLocs, writer.blocks);
    var written;
    written, cuts := WriteKeyBlocks(codes, dict, entries, valueLocs, writer);
    if written.Err? {
      return Err(written.msg), locs, cuts, boundaries, keysFrom;
    }
    boundaries := written.value;
    LocatedKept(entries, locs, |entries|, |entries|, valueBlocks, writer.blocks, 0);
    r := Ok(());
  }

  /** `write_static_stored_file` without the filter: the dictionary, then
      the blocks and the offset table, and the metadata. With no entries
      there is no key block to index. */
  method WriteStaticSortedFile(codes: TypeCodes, entries: seq<Entry>, totalKeySize: nat, compress: Compressor,
                               train: Trainer)
    returns (r: Result<(Meta, seq<Byte>)>, ghost locs: seq<(nat, nat)>, ghost cuts: seq<nat>,
             ghost boundaries: seq<(nat, nat)>, ghost blocks: seq<WrittenBlock>, ghost keysFrom: nat)
    requires ValuesTyped(entries) && HashesFit(entries) && HashesSorted(entries)
    ensures |entries| == 0 ==> r.Err?
    ensures r.Ok? ==>
      var (meta, file) := r.value;
      && meta.keyDictionaryLength < U16Limit && meta.keyDictionaryLength <= |file|
      && IsFile(file, codes, file[..meta.keyDictionaryLength], entries, locs, cuts, boundaries, blocks, keysFrom)
      && meta.blockCount == |blocks| < U16Limit
      && meta.size == |file| && meta.entries == |entries|
      && meta.minHash == MinHash(entries) && meta.maxHash == MaxHash(entries)
      && forall j :: 0 <= j < |entries| ==> meta.minHash <= entries[j].keyHash <= meta.maxHash
  {
    locs, cuts, boundaries, blocks, keysFrom := [], [], [], [], 0;
    var dict;
    ghost var samples, sizes;
    dict, samples, sizes := ComputeKeyDictionary(entries, totalKeySize, train);
    if dict.Err? {
      return Err(dict.msg), locs, cuts, boundaries, blocks, keysFrom;
    }
    var writer := new BlockWriter(dict.value, compress);
    var minHash := MinHash(entries);
    var written;
    written, locs, cuts, boundaries, keysFrom := WriteBlocks(codes, dict.value, entries, writer);
    if written.Err? {
      return Err(written.msg), locs, cuts, boundaries, blocks, keysFrom;
    }
    blocks := writer.blocks;
    var maxHash := MaxHash(entries);
    var blockCount := writer.BlockCount();
    if blockCount.Err? {
      return Err(blockCount.msg), locs, cuts, boundaries, blocks, keysFrom;
    }
    var file := WriteOffsets(writer.file, writer.blockOffsets);
    if |dict.value| >= U16Limit {
      return Err(UnwrapFailed), locs, cuts, boundaries, blocks, keysFrom;
    }
    assert file[..|dict.value|] == dict.value;
    HashesBounded(entries);
    r := Ok((Meta(minHash, maxHash, |dict.value|, blockCount.value, |file|, |entries|), file));
  }
}
