/** Utilities of turbo-tasks: owned chunking of a vector for parallel work,
    the chunk size that spreads work over the threads, the serialised form of
    a shared error, and `StaticOrArc` equality. */
module TasksUtil {
  import opened Wrappers

  // ---------------------------------------------------------------------------
  // Chunk sizes

  /** `usize::div_ceil`. */
  function DivCeil(a: nat, b: nat): (r: nat)
    requires b > 0
    ensures r * b >= a && (r == 0 || (r - 1) * b < a)
    ensures r == 0 <==> a == 0
  {
    (a + b - 1) / b
  }

  /** The chunk count aimed at: four per thread, or 16 when the parallelism
      is unknown. */
  function GoodChunkCount(parallelism: Option<nat>): (r: nat)
    requires parallelism != Some(0)
    ensures r > 0
  {
    match parallelism
    case None => 16
    case Some(c) => c * 4
  }

  /** `good_chunk_size`: the smallest size that splits `len` items into at
      most the aimed-at number of chunks. */
  function GoodChunkSize(len: nat, parallelism: Option<nat>): (r: nat)
    requires parallelism != Some(0)
    ensures r * GoodChunkCount(parallelism) >= len
    ensures r == 0 || (r - 1) * GoodChunkCount(parallelism) < len
    ensures r == 0 <==> len == 0
  {
    var count := GoodChunkCount(parallelism);
    DivCeil(len, count)
  }

  // ---------------------------------------------------------------------------
  // Owned chunks

  /** The ranges the chunk iterator yields from `index` on: consecutive
      ranges of `chunkSize` items, the last one cut at `len`. */
  function ChunkRanges(len: nat, chunkSize: nat, index: nat): (r: seq<(nat, nat)>)
    requires chunkSize > 0
    decreases len - index
  {
    if index < len then
      var end := if len < index + chunkSize then len else index + chunkSize;
      [(index, end)] + ChunkRanges(len, chunkSize, end)
    else []
  }

  /** The ranges start at `index`, follow each other without gap or overlap,
      each holds between 1 and `chunkSize` items, and the last ends at `len`. */
  lemma {:induction false} ChunkRangesCover(len: nat, chunkSize: nat, index: nat)
    requires chunkSize > 0 && index <= len
    ensures var rs := ChunkRanges(len, chunkSize, index);
      && (rs == [] <==> index == len)
      && (rs != [] ==> rs[0].0 == index && rs[|rs| - 1].1 == len)
      && (forall k :: 0 <= k < |rs| ==> rs[k].0 < rs[k].1 <= rs[k].0 + chunkSize)
      && (forall k :: 0 <= k < |rs| - 1 ==> rs[k].1 == rs[k + 1].0 && rs[k].1 - rs[k].0 == chunkSize)
    decreases len - index
  {
    if index < len {
      var end := if len < index + chunkSize then len else index + chunkSize;
      ChunkRangesCover(len, chunkSize, end);
    }
  }

  /** The items of the ranges, concatenated in order, are the items from
      `index` on: every item lands in exactly one chunk. */
  lemma {:induction false} ChunkRangesConcat<T>(data: seq<T>, chunkSize: nat, index: nat)
    requires chunkSize > 0 && index <= |data|
    ensures Flatten(data, ChunkRanges(|data|, chunkSize, index)) == data[index..]
    decreases |data| - index
  {
    if index < |data| {
      var end := if |data| < index + chunkSize then |data| else index + chunkSize;
      ChunkRangesConcat(data, chunkSize, end);
      var rest := ChunkRanges(|data|, chunkSize, end);
      calc {
        Flatten(data, ChunkRanges(|data|, chunkSize, index));
        Flatten(data, [(index, end)] + rest);
        { FlattenCons(data, (index, end), rest); }
        data[index..end] + Flatten(data, rest);
        data[index..end] + data[end..];
        { SliceSplit(data, index, end); }
        data[index..];
      }
    }
  }

  /** The items of consecutive index ranges, in order. */
  function Flatten<T>(data: seq<T>, ranges: seq<(nat, nat)>): seq<T>
  {
    if ranges == [] then []
    else if ranges[0].0 <= ranges[0].1 <= |data| then data[ranges[0].0..ranges[0].1] + Flatten(data, ranges[1..])
    else Flatten(data, ranges[1..])
  }

  lemma SliceSplit<T>(data: seq<T>, i: nat, j: nat)
    requires i <= j <= |data|
    ensures data[i..j] + data[j..] == data[i..]
  {
  }

  /** Flattening a first range in bounds puts its items first. */
  lemma FlattenCons<T>(data: seq<T>, range: (nat, nat), rest: seq<(nat, nat)>)
    requires range.0 <= range.1 <= |data|
    ensures Flatten(data, [range] + rest) == data[range.0..range.1] + Flatten(data, rest)
  {
    assert ([range] + rest)[1..] == rest;
  }

  /** `into_chunks`: an iterator of chunks over a shared buffer; `index` is
      the first item not yet handed out. */
  class IntoChunks<T> {
    const data: seq<T>
    var index: nat
    const chunkSize: nat

    predicate Valid()
      reads this
    {
      index <= |data|
    }

    constructor (data: seq<T>, chunkSize: nat)
      ensures this.data == data && index == 0 && this.chunkSize == chunkSize && Valid()
    {
      this.data := data;
      index := 0;
      this.chunkSize := chunkSize;
    }

    /** `Iterator::next`: the next range as a chunk of the same buffer. */
    method Next() returns (r: Option<Chunk<T>>)
      requires Valid()
      modifies this
      ensures Valid()
      ensures old(index) < |data| ==>
        && r.Some? && fresh(r.value) && r.value.Valid()
        && r.value.data == data && r.value.index == old(index)
        && r.value.end == (if |data| < old(index) + chunkSize then |data| else old(index) + chunkSize)
        && index == r.value.end
      ensures old(index) >= |data| ==> r.None? && index == old(index)
    {
      if index < |data| {
        var end := if |data| < index + chunkSize then |data| else index + chunkSize;
        var item := new Chunk(data, index, end);
        index := end;
        r := Some(item);
      } else {
        r := None;
      }
    }

    /** All remaining chunks, as the ranges they cover. */
    method CollectRanges() returns (ranges: seq<(nat, nat)>)
      requires Valid() && chunkSize > 0
      modifies this
      ensures Valid() && index == |data|
      ensures ranges == ChunkRanges(|data|, chunkSize, old(index))
    {
      ranges := [];
      while true
        invariant Valid()
        invariant ranges + ChunkRanges(|data|, chunkSize, index) == ChunkRanges(|data|, chunkSize, old(index))
        decreases |data| - index
      {
        var c := Next();
        if c.None? {
          break;
        }
        ranges := ranges + [(c.value.index, c.value.end)];
      }
    }

    /** `next_item`: takes the next item not yet handed out in a chunk. */
    method NextItem() returns (r: Option<T>)
      requires Valid()
      modifies this
      ensures Valid()
      ensures old(index) < |data| ==> r == Some(data[old(index)]) && index == old(index) + 1
      ensures old(index) >= |data| ==> r.None? && index == old(index)
    {
      if index < |data| {
        r := Some(data[index]);
        index := index + 1;
      } else {
        r := None;
      }
    }

    /** `Drop`: drops every item not yet handed out in a chunk. */
    method Drop() returns (dropped: seq<T>)
      requires Valid()
      modifies this
      ensures Valid() && index == |data|
      ensures dropped == old(data[index..])
    {
      dropped := [];
      while true
        invariant Valid() && old(index) <= index
        invariant dropped == data[old(index)..index]
        decreases |data| - index
      {
        var item := NextItem();
        if item.None? {
          break;
        }
        dropped := dropped + [item.value];
      }
    }
  }

  /** `Chunk`: the items `index..end` of the shared buffer. */
  class Chunk<T> {
    const data: seq<T>
    var index: nat
    const end: nat

    predicate Valid()
      reads this
    {
      index <= end <= |data|
    }

    constructor (data: seq<T>, index: nat, end: nat)
      requires index <= end <= |data|
      ensures this.data == data && this.index == index && this.end == end && Valid()
    {
      this.data := data;
      this.index := index;
      this.end := end;
    }

    /** `Iterator::next`: the items in index order. */
    method Next() returns (r: Option<T>)
      requires Valid()
      modifies this
      ensures Valid()
      ensures old(index) < end ==> r == Some(data[old(index)]) && index == old(index) + 1
      ensures old(index) >= end ==> r.None? && index == old(index)
    {
      if index < end {
        r := Some(data[index]);
        index := index + 1;
      } else {
        r := None;
      }
    }

    /** Draining the chunk, as `Drop` and collecting do: the remaining items
        in order. */
    method Drain() returns (items: seq<T>)
      requires Valid()
      modifies this
      ensures Valid() && index == end
      ensures items == old(data[index..end])
    {
      items := [];
      while true
        invariant Valid() && old(index) <= index
        invariant items == data[old(index)..index]
        decreases end - index
      {
        var item := Next();
        if item.None? {
          break;
        }
        items := items + [item.value];
      }
    }
  }

  /** The unit test's walk over ten items in chunks of three. */
  method ChunkIteratorExample()
  {
    var data := [0, 1, 2, 3, 4, 5, 6, 7, 8, 9];
    var chunks := new IntoChunks(data, 3);
    var first := chunks.Next();
    var second := chunks.Next();
    var rest := chunks.Drop();
    assert rest == [6, 7, 8, 9];
    var items := second.value.Drain();
    assert items == [3, 4, 5];
    var a := first.value.Next();
    var b := first.value.Next();
    assert a == Some(0) && b == Some(1);
    var dropped := first.value.Drain();
    assert dropped == [2];
  }

  // ---------------------------------------------------------------------------
  // Shared errors

  /** An error with its chain of causes: a root message, or a context message
      around a source error. */
  datatype ErrorChain = Message(msg: string) | WithContext(context: string, source: ErrorChain)

  function Display(e: ErrorChain): string {
    match e
    case Message(m) => m
    case WithContext(c, _) => c
  }

  function Source(e: ErrorChain): Option<ErrorChain> {
    match e
    case Message(_) => None
    case WithContext(_, s) => Some(s)
  }

  /** The serialised messages: the error's own, then its sources' in turn. */
  function Messages(e: ErrorChain): (r: seq<string>)
    ensures |r| >= 1 && r[0] == Display(e)
  {
    match e
    case Message(m) => [m]
    case WithContext(c, s) => [c] + Messages(s)
  }

  /** `Serialize for SharedError`. */
  method Serialize(e: ErrorChain) returns (v: seq<string>)
    ensures v == Messages(e)
  {
    v := [Display(e)];
    var source := Source(e);
    while source.Some?
      invariant source.Some? ==> v + Messages(source.value) == Messages(e)
      invariant source.None? ==> v == Messages(e)
      decreases if source.Some? then |Messages(source.value)| else 0
    {
      var s := source.value;
      v := v + [Display(s)];
      source := Source(s);
    }
  }

  /** The error whose serialisation is `messages`: the last message is the
      root and each earlier one wraps the rest as context. */
  function FromMessages(messages: seq<string>): (r: Result<ErrorChain>)
    ensures r.Err? <==> messages == []
    ensures r.Err? ==> r.msg == "expected at least 1 error message"
  {
    if messages == [] then Err("expected at least 1 error message")
    else Ok(Wrap(messages[..|messages| - 1], Message(messages[|messages| - 1])))
  }

  /** `e` wrapped in the contexts `contexts`, the first outermost. */
  function Wrap(contexts: seq<string>, e: ErrorChain): ErrorChain
  {
    if contexts == [] then e
    else Wrap(contexts[..|contexts| - 1], WithContext(contexts[|contexts| - 1], e))
  }

  /** `Deserialize for SharedError`: pops the messages from the back. */
  method Deserialize(messages: seq<string>) returns (r: Result<ErrorChain>)
    ensures r == FromMessages(messages)
  {
    if messages == [] {
      return Err("expected at least 1 error message");
    }
    var rest := messages[..|messages| - 1];
    var e := Message(messages[|messages| - 1]);
    while rest != []
      invariant Wrap(rest, e) == FromMessages(messages).value
      decreases |rest|
    {
      e := WithContext(rest[|rest| - 1], e);
      rest := rest[..|rest| - 1];
    }
    r := Ok(e);
  }

  lemma {:induction false} MessagesWrap(contexts: seq<string>, e: ErrorChain)
    ensures Messages(Wrap(contexts, e)) == contexts + Messages(e)
    decreases |contexts|
  {
    if contexts != [] {
      var last := contexts[|contexts| - 1];
      MessagesWrap(contexts[..|contexts| - 1], WithContext(last, e));
      assert contexts == contexts[..|contexts| - 1] + [last];
    }
  }

  /** Deserialising a serialised list gives the list back. */
  lemma SerializeDeserialize(messages: seq<string>)
    requires messages != []
    ensures Messages(FromMessages(messages).value) == messages
  {
    MessagesWrap(messages[..|messages| - 1], Message(messages[|messages| - 1]));
  }

  lemma {:induction false} WrapMessages(e: ErrorChain, contexts: seq<string>)
    ensures FromMessages(contexts + Messages(e)) == Ok(Wrap(contexts, e))
  {
    match e
    case Message(m) =>
      assert contexts + [m] != [];
      assert (contexts + [m])[..|contexts|] == contexts;
    case WithContext(c, s) =>
      WrapMessages(s, contexts + [c]);
      assert contexts + Messages(e) == (contexts + [c]) + Messages(s);
      assert contexts + [c] == contexts[..|contexts|] + [c];
  }

  /** Serialising and deserialising gives the same chain of messages. */
  lemma DeserializeSerialize(e: ErrorChain)
    ensures FromMessages(Messages(e)) == Ok(e)
  {
    WrapMessages(e, []);
    assert [] + Messages(e) == Messages(e);
  }

  // ---------------------------------------------------------------------------
  // StaticOrArc

  /** `StaticOrArc`: a static reference or a shared allocation, identified by
      `id`, of a value. */
  datatype StaticOrArc<T> = Static(value: T) | Shared(id: nat, value: T)

  /** `Deref`. */
  function Deref<T>(s: StaticOrArc<T>): T {
    s.value
  }

  /** `PartialEq`: by the values pointed to, whatever holds them. */
  predicate PointeeEqual<T(==)>(a: StaticOrArc<T>, b: StaticOrArc<T>) {
    Deref(a) == Deref(b)
  }

  /** Equality is an equivalence that ignores how the value is held, and the
      hash of equal values agrees. */
  lemma PointeeEqualProperties<T>(a: StaticOrArc<T>, b: StaticOrArc<T>, c: StaticOrArc<T>, hash: T -> nat)
    ensures PointeeEqual(a, a)
    ensures PointeeEqual(a, b) ==> PointeeEqual(b, a)
    ensures PointeeEqual(a, b) && PointeeEqual(b, c) ==> PointeeEqual(a, c)
    ensures PointeeEqual(a, b) ==> hash(Deref(a)) == hash(Deref(b))
    ensures PointeeEqual(Static(Deref(a)), Shared(0, Deref(a)))
  {
  }
}
