/** The resolve results of turbopack-core: request keys with their export
    conditions, the merging of alternative results, and the rewriting of the
    keys of a result. Items and affecting sources are values the model does
    not look into, so they are type parameters. */
module Resolve {
  import opened Wrappers
  import opened Text
  import opened Ordering

  // ---------------------------------------------------------------------------
  // Conditions: a `BTreeMap<String, bool>`, as its entries in name order

  predicate SortedNames(cs: seq<(string, bool)>) {
    forall i, j :: 0 <= i < j < |cs| ==> StringLess(cs[i].0, cs[j].0)
  }

  function Lookup(cs: seq<(string, bool)>, name: string): Option<bool> {
    if cs == [] then None else if cs[0].0 == name then Some(cs[0].1) else Lookup(cs[1..], name)
  }

  /** `BTreeMap::insert`: replaces the value of an existing name, or adds the
      name in its place in the order. */
  function Put(cs: seq<(string, bool)>, name: string, value: bool): seq<(string, bool)> {
    if cs == [] then [(name, value)]
    else if cs[0].0 == name then [(name, value)] + cs[1..]
    else if StringLess(name, cs[0].0) then [(name, value)] + cs
    else [cs[0]] + Put(cs[1..], name, value)
  }

  /** An insertion holds the new pair and pairs of the old list. */
  lemma {:induction false} PutFrom(cs: seq<(string, bool)>, name: string, value: bool)
    ensures (name, value) in Put(cs, name, value)
    ensures forall p :: p in Put(cs, name, value) ==> p == (name, value) || p in cs
  {
    if cs != [] && cs[0].0 != name && !StringLess(name, cs[0].0) {
      PutFrom(cs[1..], name, value);
    }
  }

  /** After an insertion the name has the new value and every other name
      keeps its own. */
  lemma {:induction false} PutLookup(cs: seq<(string, bool)>, name: string, value: bool, n: string)
    requires SortedNames(cs)
    ensures Lookup(Put(cs, name, value), n) == if n == name then Some(value) else Lookup(cs, n)
  {
    if cs != [] && cs[0].0 != name {
      if StringLess(name, cs[0].0) {
        NotBeforeFirst(cs, name);
      } else {
        PutLookup(cs[1..], name, value, n);
      }
    }
  }

  /** An insertion keeps the names in order. */
  lemma {:induction false} PutSorted(cs: seq<(string, bool)>, name: string, value: bool)
    requires SortedNames(cs)
    ensures SortedNames(Put(cs, name, value))
  {
    StringLessStrictTotal();
    if cs != [] && cs[0].0 != name && !StringLess(name, cs[0].0) {
      var rest := Put(cs[1..], name, value);
      PutSorted(cs[1..], name, value);
      PutFrom(cs[1..], name, value);
      forall j | 0 < j < |[cs[0]] + rest| ensures StringLess(cs[0].0, ([cs[0]] + rest)[j].0) {
        var p := rest[j - 1];
        assert p in rest;
        if p != (name, value) {
          assert p in cs[1..];
          var k :| 0 <= k < |cs[1..]| && cs[1..][k] == p;
          assert cs[k + 1] == p;
        }
      }
    }
  }

  /** After an insertion the names stay in order, the name has the new value
      and every other name keeps its own. */
  lemma PutSpec(cs: seq<(string, bool)>, name: string, value: bool)
    requires SortedNames(cs)
    ensures SortedNames(Put(cs, name, value))
    ensures forall n :: Lookup(Put(cs, name, value), n) == if n == name then Some(value) else Lookup(cs, n)
  {
    PutSorted(cs, name, value);
    forall n ensures Lookup(Put(cs, name, value), n) == if n == name then Some(value) else Lookup(cs, n) {
      PutLookup(cs, name, value, n);
    }
  }

  /** A name below the first name of a sorted list is not in it. */
  lemma NotBeforeFirst(cs: seq<(string, bool)>, name: string)
    requires SortedNames(cs) && cs != [] && StringLess(name, cs[0].0)
    ensures Lookup(cs, name) == None
    ensures forall p :: p in cs ==> p.0 != name
  {
    StringLessStrictTotal();
    NotAfterLookup(cs, name);
  }

  lemma {:induction false} NotAfterLookup(cs: seq<(string, bool)>, name: string)
    requires SortedNames(cs) && cs != [] && StringLess(name, cs[0].0) && StrictTotal(StringLess)
    ensures Lookup(cs, name) == None
    ensures forall p :: p in cs ==> p.0 != name
    decreases |cs|
  {
    forall p | p in cs ensures p.0 != name {
      var k :| 0 <= k < |cs| && cs[k] == p;
      if k > 0 {
        assert StringLess(cs[0].0, cs[k].0);
      }
    }
    if |cs| > 1 {
      assert StringLess(cs[0].0, cs[1].0);
      NotAfterLookup(cs[1..], name);
    }
  }

  // ---------------------------------------------------------------------------
  // Request keys

  /** `RequestKey`: the request, if any, and its conditions. */
  datatype RequestKey = RequestKey(request: Option<string>, conditions: seq<(string, bool)>)

  function BoolText(b: bool): string {
    if b then "true" else "false"
  }

  function ConditionTexts(cs: seq<(string, bool)>): (r: seq<string>)
    ensures |r| == |cs|
    ensures forall i :: 0 <= i < |cs| ==> r[i] == cs[i].0 + "=" + BoolText(cs[i].1)
  {
    if cs == [] then [] else [cs[0].0 + "=" + BoolText(cs[0].1)] + ConditionTexts(cs[1..])
  }

  /** `RequestKey`'s `Display`: the request or "<default>", then the
      conditions as "name=value" in name order, in parentheses, if any. */
  function KeyText(k: RequestKey): (r: string)
    ensures var head := if k.request.Some? then k.request.value else "<default>";
      && (k.conditions == [] ==> r == head)
      && (k.conditions != [] ==> r == head + " (" + Join(ConditionTexts(k.conditions), ", ") + ")")
  {
    (if k.request.Some? then k.request.value else "<default>")
      + (if k.conditions == [] then "" else " (" + Join(ConditionTexts(k.conditions), ", ") + ")")
  }

  /** Two keys without conditions display alike exactly when their requests
      do, "<default>" standing for no request. */
  lemma KeyTextPlain(k: RequestKey, s: string)
    requires k.conditions == []
    ensures KeyText(k) == s <==> (k.request == Some(s) || (k.request.None? && s == "<default>"))
  {
  }

  /** With conditions, the text is the plain text followed by " (" and ends
      with ")". */
  lemma KeyTextConditions(k: RequestKey)
    requires k.conditions != []
    ensures StartsWith(KeyText(k), KeyText(RequestKey(k.request, [])) + " (")
    ensures EndsWith(KeyText(k), ")")
  {
  }

  // ---------------------------------------------------------------------------
  // Results

  /** `ResolveResult` (and `ModuleResolveResult`, which differs only in its
      items): the keyed items and the affecting sources. */
  datatype ResolveResult<V, S> = ResolveResult(primary: seq<(RequestKey, V)>, affectingSources: seq<S>)

  function Unresolvable<V, S>(): ResolveResult<V, S> {
    ResolveResult([], [])
  }

  /** `is_unresolvable_ref`. */
  predicate IsUnresolvable<V, S>(r: ResolveResult<V, S>) {
    r.primary == []
  }

  predicate DistinctKeys<V>(entries: seq<(RequestKey, V)>) {
    forall i, j :: 0 <= i < j < |entries| ==> entries[i].0 != entries[j].0
  }

  /** The item of the first entry with the key. */
  function ItemOf<V>(entries: seq<(RequestKey, V)>, k: RequestKey): Option<V> {
    if entries == [] then None else if entries[0].0 == k then Some(entries[0].1) else ItemOf(entries[1..], k)
  }

  /** A key has no item exactly when no entry has it. */
  lemma {:induction false} ItemOfNone<V>(entries: seq<(RequestKey, V)>, k: RequestKey)
    ensures ItemOf(entries, k).None? <==> forall i :: 0 <= i < |entries| ==> entries[i].0 != k
    decreases |entries|
  {
    if entries != [] {
      ItemOfNone(entries[1..], k);
      if ItemOf(entries, k).None? {
        forall i | 0 <= i < |entries| ensures entries[i].0 != k {
          if i > 0 {
            assert entries[i] == entries[1..][i - 1];
          }
        }
      }
    }
  }

  lemma {:induction false} ItemOfSnoc<V>(entries: seq<(RequestKey, V)>, e: (RequestKey, V), k: RequestKey)
    ensures ItemOf(entries + [e], k) == if ItemOf(entries, k).Some? then ItemOf(entries, k) else if e.0 == k then Some(e.1) else None
    decreases |entries|
  {
    if entries != [] {
      assert (entries + [e])[1..] == entries[1..] + [e];
      ItemOfSnoc(entries[1..], e, k);
    }
  }

  /** The item of the last entry with the key. */
  function LastItemOf<V>(entries: seq<(RequestKey, V)>, k: RequestKey): Option<V> {
    if entries == [] then None
    else if entries[|entries| - 1].0 == k then Some(entries[|entries| - 1].1)
    else LastItemOf(entries[..|entries| - 1], k)
  }

  /** A key has a last item exactly when it has a first one. */
  lemma {:induction false} LastItemOfSome<V>(entries: seq<(RequestKey, V)>, k: RequestKey)
    ensures LastItemOf(entries, k).Some? <==> ItemOf(entries, k).Some?
  {
    if entries != [] {
      var init := entries[..|entries| - 1];
      LastItemOfSome(init, k);
      assert entries == init + [entries[|entries| - 1]];
      ItemOfSnoc(init, entries[|entries| - 1], k);
    }
  }

  lemma DistinctCons<V>(x: (RequestKey, V), rest: seq<(RequestKey, V)>)
    requires DistinctKeys(rest) && ItemOf(rest, x.0).None?
    ensures DistinctKeys([x] + rest)
  {
    ItemOfNone(rest, x.0);
    forall i, j | 0 <= i < j < |[x] + rest| ensures ([x] + rest)[i].0 != ([x] + rest)[j].0 {
      if i > 0 {
        assert ([x] + rest)[i] == rest[i - 1];
      }
      assert ([x] + rest)[j] == rest[j - 1];
    }
  }

  lemma DistinctSnoc<V>(m: seq<(RequestKey, V)>, e: (RequestKey, V))
    requires DistinctKeys(m) && ItemOf(m, e.0).None?
    ensures DistinctKeys(m + [e])
  {
    ItemOfNone(m, e.0);
  }

  lemma DistinctTail<V>(entries: seq<(RequestKey, V)>)
    requires DistinctKeys(entries) && entries != []
    ensures DistinctKeys(entries[1..]) && ItemOf(entries[1..], entries[0].0).None?
  {
    ItemOfNone(entries[1..], entries[0].0);
  }

  /** Inserting into an `FxIndexMap`: an existing key keeps its place and
      takes the item, a new key goes last. */
  function IndexMapInsert<V>(entries: seq<(RequestKey, V)>, e: (RequestKey, V)): seq<(RequestKey, V)> {
    if entries == [] then [e]
    else if entries[0].0 == e.0 then [e] + entries[1..]
    else [entries[0]] + IndexMapInsert(entries[1..], e)
  }

  /** After an insertion into a map with distinct keys, the key has the new
      item, every other key keeps its own, keys stay distinct, and a new key
      is appended. */
  lemma {:induction false} IndexMapInsertSpec<V>(entries: seq<(RequestKey, V)>, e: (RequestKey, V))
    requires DistinctKeys(entries)
    ensures DistinctKeys(IndexMapInsert(entries, e))
    ensures forall k :: ItemOf(IndexMapInsert(entries, e), k) == if k == e.0 then Some(e.1) else ItemOf(entries, k)
    ensures ItemOf(entries, e.0).None? ==> IndexMapInsert(entries, e) == entries + [e]
  {
    if entries != [] {
      DistinctTail(entries);
      if entries[0].0 == e.0 {
        DistinctCons(e, entries[1..]);
      } else {
        var rest := IndexMapInsert(entries[1..], e);
        IndexMapInsertSpec(entries[1..], e);
        assert ItemOf(rest, entries[0].0).None?;
        DistinctCons(entries[0], rest);
        if ItemOf(entries, e.0).None? {
          assert [entries[0]] + (entries[1..] + [e]) == entries + [e];
        }
      }
    }
  }

  /** Collecting a list of entries into an `FxIndexMap`. */
  function Collect<V>(entries: seq<(RequestKey, V)>): seq<(RequestKey, V)> {
    if entries == [] then [] else IndexMapInsert(Collect(entries[..|entries| - 1]), entries[|entries| - 1])
  }

  /** A collected map has each key once, a repeated key takes its last item,
      and only no entries collect to nothing. */
  lemma {:induction false} CollectSpec<V>(entries: seq<(RequestKey, V)>)
    ensures DistinctKeys(Collect(entries))
    ensures forall k :: ItemOf(Collect(entries), k) == LastItemOf(entries, k)
    ensures Collect(entries) == [] <==> entries == []
  {
    if entries != [] {
      var e := entries[|entries| - 1];
      CollectSpec(entries[..|entries| - 1]);
      IndexMapInsertSpec(Collect(entries[..|entries| - 1]), e);
      assert ItemOf(Collect(entries), e.0).Some?;
    }
  }

  /** Entries with distinct keys are collected unchanged. */
  lemma {:induction false} CollectDistinct<V>(entries: seq<(RequestKey, V)>)
    requires DistinctKeys(entries)
    ensures Collect(entries) == entries
  {
    if entries != [] {
      var init := entries[..|entries| - 1];
      var e := entries[|entries| - 1];
      assert DistinctKeys(init);
      CollectDistinct(init);
      ItemOfNone(init, e.0);
      IndexMapInsertSpec(init, e);
      assert init + [e] == entries;
    }
  }

  // ---------------------------------------------------------------------------
  // Merging alternatives

  /** The keyed items after merging `others` into `entries`: a key already
      present keeps its item, a new key is added after the others in order. */
  function MergeKeys<V>(entries: seq<(RequestKey, V)>, others: seq<(RequestKey, V)>): seq<(RequestKey, V)> {
    if others == [] then entries
    else
      var m := MergeKeys(entries, others[..|others| - 1]);
      var e := others[|others| - 1];
      if ItemOf(m, e.0).Some? then m else m + [e]
  }

  /** Merging keeps the existing entries in front. */
  lemma {:induction false} MergeKeysPrefix<V>(entries: seq<(RequestKey, V)>, others: seq<(RequestKey, V)>)
    ensures entries <= MergeKeys(entries, others)
  {
    if others != [] {
      MergeKeysPrefix(entries, others[..|others| - 1]);
    }
  }

  /** Merging keeps keys distinct. */
  lemma {:induction false} MergeKeysDistinct<V>(entries: seq<(RequestKey, V)>, others: seq<(RequestKey, V)>)
    requires DistinctKeys(entries)
    ensures DistinctKeys(MergeKeys(entries, others))
  {
    if others != [] {
      MergeKeysDistinct(entries, others[..|others| - 1]);
      var m := MergeKeys(entries, others[..|others| - 1]);
      if ItemOf(m, others[|others| - 1].0).None? {
        DistinctSnoc(m, others[|others| - 1]);
      }
    }
  }

  /** After merging, a key's item is the existing one if there is one, and
      otherwise the first among the others: the first alternative wins. */
  lemma {:induction false} MergeKeysItem<V>(entries: seq<(RequestKey, V)>, others: seq<(RequestKey, V)>, k: RequestKey)
    ensures ItemOf(MergeKeys(entries, others), k) == if ItemOf(entries, k).Some? then ItemOf(entries, k) else ItemOf(others, k)
  {
    if others != [] {
      var init := others[..|others| - 1];
      var e := others[|others| - 1];
      MergeKeysItem(entries, init, k);
      MergeKeysItem(entries, init, e.0);
      assert others == init + [e];
      ItemOfSnoc(init, e, k);
      var m := MergeKeys(entries, init);
      if ItemOf(m, e.0).None? {
        ItemOfSnoc(m, e, k);
      }
    }
  }

  /** A merge is empty only when both sides are. */
  lemma {:induction false} MergeKeysEmpty<V>(entries: seq<(RequestKey, V)>, others: seq<(RequestKey, V)>)
    ensures MergeKeys(entries, others) == [] <==> entries == [] && others == []
  {
    MergeKeysPrefix(entries, others);
    if others != [] {
      var m := MergeKeys(entries, others[..|others| - 1]);
      assert ItemOf(m, others[|others| - 1].0).Some? ==> m != [];
    }
  }

  /** The sources of `others` not among `existing`, in order. */
  function NotAmong<S(==)>(others: seq<S>, existing: seq<S>): (r: seq<S>)
    ensures forall i :: 0 <= i < |r| ==> r[i] in others && r[i] !in existing
    ensures forall i :: 0 <= i < |others| && others[i] !in existing ==> others[i] in r
  {
    if others == [] then []
    else (if others[0] in existing then [] else [others[0]]) + NotAmong(others[1..], existing)
  }

  lemma {:induction false} NotAmongSnoc<S>(others: seq<S>, s: S, existing: seq<S>)
    ensures NotAmong(others + [s], existing) == NotAmong(others, existing) + (if s in existing then [] else [s])
    decreases |others|
  {
    if others != [] {
      assert (others + [s])[1..] == others[1..] + [s];
      NotAmongSnoc(others[1..], s, existing);
    }
  }

  /** `ResolveResultBuilder` (and `ModuleResolveResultBuilder`, the same code
      over module items): an `FxIndexMap` of keyed items and the affecting
      sources. */
  class ResolveResultBuilder<V(==), S(==)> {
    var primary: seq<(RequestKey, V)>
    var affectingSources: seq<S>

    ghost predicate Valid()
      reads this
    {
      DistinctKeys(primary)
    }

    /** `From<ResolveResult>`: the items collected into the map. */
    constructor (r: ResolveResult<V, S>)
      ensures Valid() && primary == Collect(r.primary) && affectingSources == r.affectingSources
    {
      primary := Collect(r.primary);
      affectingSources := r.affectingSources;
      CollectSpec(r.primary);
    }

    /** `merge_alternatives`: the other result's entries whose keys are new,
        in order, and its affecting sources that were not among this
        builder's original ones. */
    method MergeAlternatives(other: ResolveResult<V, S>)
      requires Valid()
      modifies this
      ensures Valid()
      ensures primary == MergeKeys(old(primary), other.primary)
      ensures affectingSources == old(affectingSources) + NotAmong(other.affectingSources, old(affectingSources))
    {
      ghost var start := primary;
      for i := 0 to |other.primary|
        invariant primary == MergeKeys(start, other.primary[..i])
        invariant affectingSources == old(affectingSources)
      {
        assert other.primary[..i + 1][..i] == other.primary[..i];
        var (k, v) := other.primary[i];
        if ItemOf(primary, k).None? {
          primary := primary + [(k, v)];
        }
      }
      assert other.primary[..|other.primary|] == other.primary;
      MergeKeysDistinct(start, other.primary);
      var existing := affectingSources;
      for i := 0 to |other.affectingSources|
        invariant primary == MergeKeys(start, other.primary)
        invariant affectingSources == existing + NotAmong(other.affectingSources[..i], existing)
      {
        NotAmongSnoc(other.affectingSources[..i], other.affectingSources[i], existing);
        assert other.affectingSources[..i + 1] == other.affectingSources[..i] + [other.affectingSources[i]];
        if other.affectingSources[i] !in existing {
          affectingSources := affectingSources + [other.affectingSources[i]];
        }
      }
      assert other.affectingSources[..|other.affectingSources|] == other.affectingSources;
    }

    /** `From<ResolveResultBuilder>`. */
    function Build(): (r: ResolveResult<V, S>)
      reads this
      ensures r.primary == primary && r.affectingSources == affectingSources
    {
      ResolveResult(primary, affectingSources)
    }
  }

  /** The merge of `results[1..]` into the first result's builder. */
  function MergeAll<V, S(==)>(results: seq<ResolveResult<V, S>>): ResolveResult<V, S>
    requires results != []
  {
    if |results| == 1 then ResolveResult(Collect(results[0].primary), results[0].affectingSources)
    else
      var m := MergeAll(results[..|results| - 1]);
      var other := results[|results| - 1];
      ResolveResult(MergeKeys(m.primary, other.primary),
                    m.affectingSources + NotAmong(other.affectingSources, m.affectingSources))
  }

  /** `merge_results`, and `ResolveResult::alternatives`: no result is
      unresolvable, one is itself, more are merged. */
  function MergeResults<V, S(==)>(results: seq<ResolveResult<V, S>>): ResolveResult<V, S> {
    if results == [] then Unresolvable() else if |results| == 1 then results[0] else MergeAll(results)
  }

  /** The item for `k` in the first of `results` that has `k`. */
  function FirstIn<V, S>(results: seq<ResolveResult<V, S>>, k: RequestKey): Option<V> {
    if results == [] then None
    else if ItemOf(results[0].primary, k).Some? then ItemOf(results[0].primary, k)
    else FirstIn(results[1..], k)
  }

  lemma {:induction false} FirstInSnoc<V, S>(results: seq<ResolveResult<V, S>>, r: ResolveResult<V, S>, k: RequestKey)
    ensures FirstIn(results + [r], k) == if FirstIn(results, k).Some? then FirstIn(results, k) else ItemOf(r.primary, k)
    decreases |results|
  {
    if results != [] {
      assert (results + [r])[1..] == results[1..] + [r];
      FirstInSnoc(results[1..], r, k);
    }
  }

  /** In a merge of alternatives, a key of the first result keeps that
      result's last item for it, and any other key takes the item of the
      first later result that has it. */
  lemma {:induction false} MergeAllItem<V, S>(results: seq<ResolveResult<V, S>>, k: RequestKey)
    requires results != []
    ensures ItemOf(MergeAll(results).primary, k)
         == if ItemOf(results[0].primary, k).Some? then LastItemOf(results[0].primary, k) else FirstIn(results[1..], k)
  {
    LastItemOfSome(results[0].primary, k);
    if |results| == 1 {
      CollectSpec(results[0].primary);
    } else {
      var init := results[..|results| - 1];
      var last := results[|results| - 1];
      MergeAllItem(init, k);
      MergeKeysItem(MergeAll(init).primary, last.primary, k);
      assert init[0] == results[0];
      assert results[1..] == init[1..] + [last];
      FirstInSnoc(init[1..], last, k);
    }
  }

  /** A merge of alternatives has each key once. */
  lemma {:induction false} MergeAllDistinct<V, S>(results: seq<ResolveResult<V, S>>)
    requires results != []
    ensures DistinctKeys(MergeAll(results).primary)
  {
    if |results| == 1 {
      CollectSpec(results[0].primary);
    } else {
      MergeAllDistinct(results[..|results| - 1]);
      MergeKeysDistinct(MergeAll(results[..|results| - 1]).primary, results[|results| - 1].primary);
    }
  }

  /** The merge is unresolvable exactly when every result is. */
  lemma MergeResultsUnresolvable<V, S>(results: seq<ResolveResult<V, S>>)
    ensures IsUnresolvable(MergeResults(results)) <==> forall i :: 0 <= i < |results| ==> IsUnresolvable(results[i])
  {
    if |results| > 1 {
      MergeAllEmpty(results);
    }
  }

  lemma {:induction false} MergeAllEmpty<V, S>(results: seq<ResolveResult<V, S>>)
    requires results != []
    ensures MergeAll(results).primary == [] <==> forall i :: 0 <= i < |results| ==> results[i].primary == []
  {
    CollectSpec(results[0].primary);
    if |results| > 1 {
      var init := results[..|results| - 1];
      MergeAllEmpty(init);
      MergeKeysEmpty(MergeAll(init).primary, results[|results| - 1].primary);
    }
  }

  /** `ResolveResult::alternatives`: a single result as it is, none as
      unresolvable, otherwise the first collected and each later one merged
      into it. */
  method Alternatives<V(==), S(==)>(results: seq<ResolveResult<V, S>>) returns (r: ResolveResult<V, S>)
    ensures r == MergeResults(results)
  {
    if |results| == 1 {
      return results[0];
    }
    if results == [] {
      return Unresolvable();
    }
    var current := new ResolveResultBuilder(results[0]);
    for i := 1 to |results|
      invariant current.Valid() && current.Build() == MergeAll(results[..i])
    {
      assert results[..i + 1][..i] == results[..i];
      current.MergeAlternatives(results[i]);
    }
    assert results[..|results|] == results;
    r := current.Build();
  }

  /** `with_affecting_sources`: the sources appended. */
  function WithAffectingSources<V, S>(r: ResolveResult<V, S>, sources: seq<S>): (r': ResolveResult<V, S>)
    ensures r'.primary == r.primary && r.affectingSources <= r'.affectingSources
    ensures r'.affectingSources[|r.affectingSources|..] == sources
  {
    ResolveResult(r.primary, r.affectingSources + sources)
  }

  /** `merge_results_with_affecting_sources`: without sources the plain
      merge; otherwise unresolvable with the sources, the single result with
      them appended, or the merge with them appended. */
  function MergeResultsWithSources<V, S(==)>(results: seq<ResolveResult<V, S>>, sources: seq<S>): (r: ResolveResult<V, S>)
    ensures r.primary == MergeResults(results).primary
    ensures r.affectingSources == MergeResults(results).affectingSources + sources
  {
    if sources == [] then MergeResults(results)
    else if results == [] then ResolveResult([], sources)
    else if |results| == 1 then WithAffectingSources(results[0], sources)
    else WithAffectingSources(MergeAll(results), sources)
  }
  // ---------------------------------------------------------------------------
  // Rewriting keys

  /** `with_request_ref` and `with_request`: every key gets the request and
      keeps its conditions; items and sources are kept. */
  function WithRequest<V, S>(r: ResolveResult<V, S>, request: string): (r': ResolveResult<V, S>)
    ensures |r'.primary| == |r.primary| && r'.affectingSources == r.affectingSources
    ensures forall i :: 0 <= i < |r.primary| ==>
      r'.primary[i] == (RequestKey(Some(request), r.primary[i].0.conditions), r.primary[i].1)
  {
    ResolveResult(Rerequest(r.primary, request), r.affectingSources)
  }

  function Rerequest<V>(entries: seq<(RequestKey, V)>, request: string): (r: seq<(RequestKey, V)>)
    ensures |r| == |entries|
    ensures forall i :: 0 <= i < |entries| ==> r[i] == (RequestKey(Some(request), entries[i].0.conditions), entries[i].1)
  {
    if entries == [] then []
    else [(RequestKey(Some(request), entries[0].0.conditions), entries[0].1)] + Rerequest(entries[1..], request)
  }

  /** Setting the request twice is setting the second, and it keeps a
      result unresolvable or not. */
  lemma WithRequestTwice<V, S>(r: ResolveResult<V, S>, a: string, b: string)
    ensures WithRequest(WithRequest(r, a), b) == WithRequest(r, b)
    ensures IsUnresolvable(WithRequest(r, a)) <==> IsUnresolvable(r)
  {
  }

  /** The rest of `k`'s request after `prefix`, if it has a request that
      starts with it. */
  function RequestRest(k: RequestKey, prefix: string): (r: Option<string>)
    ensures r.Some? <==> k.request.Some? && StartsWith(k.request.value, prefix)
    ensures r.Some? ==> k.request.value == prefix + r.value
  {
    if k.request.Some? && StartsWith(k.request.value, prefix) then
      assert k.request.value == k.request.value[..|prefix|] + k.request.value[|prefix|..];
      Some(k.request.value[|prefix|..])
    else None
  }

  /** The entries whose request starts with `prefix`, each with the rest of
      its request as request, in order. */
  function StripEntries<V>(entries: seq<(RequestKey, V)>, prefix: string): seq<(RequestKey, V)> {
    if entries == [] then []
    else
      var rest := RequestRest(entries[0].0, prefix);
      (if rest.Some? then [(RequestKey(rest, entries[0].0.conditions), entries[0].1)] else [])
      + StripEntries(entries[1..], prefix)
  }

  /** The entries whose request starts with `from`, each with the new key's
      conditions and its request, if it has one, followed by the rest. */
  function ReplaceEntries<V>(entries: seq<(RequestKey, V)>, from: string, key: RequestKey): seq<(RequestKey, V)> {
    if entries == [] then []
    else
      var rest := RequestRest(entries[0].0, from);
      (if rest.Some? then [(RequestKey(if key.request.Some? then Some(key.request.value + rest.value) else None,
                                       key.conditions), entries[0].1)] else [])
      + ReplaceEntries(entries[1..], from, key)
  }

  /** `with_stripped_request_key_prefix`: the keys are stripped of the
      prefix, keys without it are dropped, and the sources are kept. */
  function WithStrippedRequestKeyPrefix<V, S>(r: ResolveResult<V, S>, prefix: string): (r': ResolveResult<V, S>)
    ensures r'.primary == StripEntries(r.primary, prefix) && |r'.primary| <= |r.primary|
    ensures r'.affectingSources == r.affectingSources
  {
    StripShorter(r.primary, prefix);
    ResolveResult(StripEntries(r.primary, prefix), r.affectingSources)
  }

  /** `with_replaced_request_key`: the keys with the old prefix are
      rewritten under the new key, the others dropped, and the sources are
      kept. */
  function WithReplacedRequestKey<V, S>(r: ResolveResult<V, S>, from: string, key: RequestKey): (r': ResolveResult<V, S>)
    ensures r'.primary == ReplaceEntries(r.primary, from, key)
    ensures |r'.primary| == |StripEntries(r.primary, from)|
    ensures r'.affectingSources == r.affectingSources
  {
    ReplaceIsStrip(r.primary, from, key);
    ResolveResult(ReplaceEntries(r.primary, from, key), r.affectingSources)
  }

  lemma {:induction false} StripShorter<V>(entries: seq<(RequestKey, V)>, prefix: string)
    ensures |StripEntries(entries, prefix)| <= |entries|
  {
    if entries != [] {
      StripShorter(entries[1..], prefix);
    }
  }

  /** Every stripped entry comes from an entry with the same conditions and
      item whose request was the prefix followed by the stripped request. */
  lemma {:induction false} StripSound<V>(entries: seq<(RequestKey, V)>, prefix: string, i: nat)
    requires i < |StripEntries(entries, prefix)|
    ensures var e := StripEntries(entries, prefix)[i];
      && e.0.request.Some?
      && (RequestKey(Some(prefix + e.0.request.value), e.0.conditions), e.1) in entries
  {
    var rest := RequestRest(entries[0].0, prefix);
    if rest.Some? && i == 0 {
      assert entries[0] == (RequestKey(Some(prefix + rest.value), entries[0].0.conditions), entries[0].1);
    } else {
      StripSound(entries[1..], prefix, if rest.Some? then i - 1 else i);
    }
  }

  /** Every entry whose request starts with the prefix is kept, stripped. */
  lemma {:induction false} StripComplete<V>(entries: seq<(RequestKey, V)>, prefix: string, j: nat)
    requires j < |entries| && RequestRest(entries[j].0, prefix).Some?
    ensures (RequestKey(RequestRest(entries[j].0, prefix), entries[j].0.conditions), entries[j].1)
            in StripEntries(entries, prefix)
  {
    if j > 0 {
      StripComplete(entries[1..], prefix, j - 1);
    }
  }

  /** Replacing the prefix is stripping it and then putting the new key's
      request in front and its conditions in place. */
  lemma {:induction false} ReplaceIsStrip<V>(entries: seq<(RequestKey, V)>, from: string, key: RequestKey)
    ensures |ReplaceEntries(entries, from, key)| == |StripEntries(entries, from)|
    ensures forall i :: 0 <= i < |StripEntries(entries, from)| ==>
      var e := StripEntries(entries, from)[i];
      && e.0.request.Some?
      && ReplaceEntries(entries, from, key)[i]
         == (RequestKey(if key.request.Some? then Some(key.request.value + e.0.request.value) else None, key.conditions), e.1)
  {
    if entries != [] {
      ReplaceIsStrip(entries[1..], from, key);
    }
  }

  lemma {:induction false} StripAppend<V>(x: seq<(RequestKey, V)>, y: seq<(RequestKey, V)>, prefix: string)
    ensures StripEntries(x + y, prefix) == StripEntries(x, prefix) + StripEntries(y, prefix)
    decreases |x|
  {
    if x != [] {
      var rest := RequestRest(x[0].0, prefix);
      var h := if rest.Some? then [(RequestKey(rest, x[0].0.conditions), x[0].1)] else [];
      assert (x + y)[0] == x[0];
      assert (x + y)[1..] == x[1..] + y;
      assert StripEntries(x + y, prefix) == h + StripEntries(x[1..] + y, prefix);
      assert StripEntries(x, prefix) == h + StripEntries(x[1..], prefix);
      StripAppend(x[1..], y, prefix);
      assert h + (StripEntries(x[1..], prefix) + StripEntries(y, prefix))
          == (h + StripEntries(x[1..], prefix)) + StripEntries(y, prefix);
    } else {
      assert x + y == y;
    }
  }

  /** `s` starts with `a + b` exactly when it starts with `a` and the rest
      starts with `b`. */
  lemma PrefixThenPrefix(s: string, a: string, b: string)
    ensures StartsWith(s, a + b) <==> StartsWith(s, a) && StartsWith(s[|a|..], b)
    ensures StartsWith(s, a + b) ==> s[|a|..][|b|..] == s[|a + b|..]
  {
    if StartsWith(s, a + b) {
      assert s[..|a|] == (a + b)[..|a|];
      assert s[|a|..][..|b|] == s[..|a + b|][|a|..];
    }
    if StartsWith(s, a) && StartsWith(s[|a|..], b) {
      assert s[..|a + b|] == s[..|a|] + s[|a|..][..|b|];
    }
  }

  /** Stripping `a` and then `b` is stripping `a + b`. */
  lemma {:induction false} StripTwice<V>(entries: seq<(RequestKey, V)>, a: string, b: string)
    ensures StripEntries(StripEntries(entries, a), b) == StripEntries(entries, a + b)
    decreases |entries|
  {
    if entries != [] {
      StripTwice(entries[1..], a, b);
      var head := StripEntries([entries[0]], a);
      assert entries == [entries[0]] + entries[1..];
      StripAppend([entries[0]], entries[1..], a);
      StripAppend([entries[0]], entries[1..], a + b);
      StripAppend(head, StripEntries(entries[1..], a), b);
      var k := entries[0].0;
      if k.request.Some? {
        PrefixThenPrefix(k.request.value, a, b);
      }
    }
  }

  /** Stripping the empty prefix keeps exactly the keys with a request. */
  lemma {:induction false} StripNothing<V>(entries: seq<(RequestKey, V)>)
    requires forall i :: 0 <= i < |entries| ==> entries[i].0.request.Some?
    ensures StripEntries(entries, "") == entries
  {
    if entries != [] {
      StripNothing(entries[1..]);
      assert entries[0].0.request.value[0..] == entries[0].0.request.value;
    }
  }

  // ---------------------------------------------------------------------------
  // Adding conditions

  /** The conditions after inserting each of `conditions` in order. */
  function PutAll(cs: seq<(string, bool)>, conditions: seq<(string, bool)>): seq<(string, bool)> {
    if conditions == [] then cs
    else Put(PutAll(cs, conditions[..|conditions| - 1]), conditions[|conditions| - 1].0, conditions[|conditions| - 1].1)
  }

  /** The value of the last of `conditions` with the name. */
  function LastValue(conditions: seq<(string, bool)>, n: string): Option<bool> {
    if conditions == [] then None
    else if conditions[|conditions| - 1].0 == n then Some(conditions[|conditions| - 1].1)
    else LastValue(conditions[..|conditions| - 1], n)
  }

  /** After inserting a list of conditions, a name has its last value in the
      list, or its old value if it is not listed, and the names stay in
      order. */
  lemma {:induction false} PutAllSpec(cs: seq<(string, bool)>, conditions: seq<(string, bool)>, n: string)
    requires SortedNames(cs)
    ensures SortedNames(PutAll(cs, conditions))
    ensures Lookup(PutAll(cs, conditions), n) == if LastValue(conditions, n).Some? then LastValue(conditions, n) else Lookup(cs, n)
  {
    if conditions != [] {
      var init := conditions[..|conditions| - 1];
      var c := conditions[|conditions| - 1];
      PutAllSpec(cs, init, n);
      PutSpec(PutAll(cs, init), c.0, c.1);
    }
  }

  /** Every key of the entries with the condition inserted. */
  function AddCondition<V>(entries: seq<(RequestKey, V)>, name: string, value: bool): (r: seq<(RequestKey, V)>)
    ensures |r| == |entries|
    ensures forall i :: 0 <= i < |entries| ==>
      r[i] == (RequestKey(entries[i].0.request, Put(entries[i].0.conditions, name, value)), entries[i].1)
  {
    if entries == [] then []
    else [(RequestKey(entries[0].0.request, Put(entries[0].0.conditions, name, value)), entries[0].1)]
         + AddCondition(entries[1..], name, value)
  }

  /** Every key of the entries with each condition inserted in order. */
  function WithConditions<V>(entries: seq<(RequestKey, V)>, conditions: seq<(string, bool)>): (r: seq<(RequestKey, V)>)
    ensures |r| == |entries|
  {
    if conditions == [] then entries
    else
      var c := conditions[|conditions| - 1];
      AddCondition(WithConditions(entries, conditions[..|conditions| - 1]), c.0, c.1)
  }

  /** `add_conditions`: every condition is inserted into every key, in the
      order given, and the keys that became equal are then merged, each in
      its first place with its last item. */
  method AddConditions<V, S>(r: ResolveResult<V, S>, conditions: seq<(string, bool)>) returns (r': ResolveResult<V, S>)
    ensures r'.primary == Collect(WithConditions(r.primary, conditions))
    ensures r'.affectingSources == r.affectingSources
  {
    var primary := r.primary;
    for c := 0 to |conditions|
      invariant primary == WithConditions(r.primary, conditions[..c])
    {
      assert conditions[..c + 1][..c] == conditions[..c];
      primary := AddConditionTo(primary, conditions[c].0, conditions[c].1);
    }
    assert conditions[..|conditions|] == conditions;
    var deduped := CollectEntries(primary);
    r' := ResolveResult(deduped, r.affectingSources);
  }

  /** The inner loop of `add_conditions`: the condition inserted into every
      key. */
  method AddConditionTo<V>(primary: seq<(RequestKey, V)>, name: string, value: bool) returns (updated: seq<(RequestKey, V)>)
    ensures updated == AddCondition(primary, name, value)
  {
    updated := [];
    for i := 0 to |primary|
      invariant |updated| == i
      invariant forall j :: 0 <= j < i ==>
        updated[j] == (RequestKey(primary[j].0.request, Put(primary[j].0.conditions, name, value)), primary[j].1)
    {
      var (key, item) := primary[i];
      updated := updated + [(RequestKey(key.request, Put(key.conditions, name, value)), item)];
    }
  }

  /** Collecting into an `FxIndexMap`, one insertion at a time. */
  method CollectEntries<V>(entries: seq<(RequestKey, V)>) returns (r: seq<(RequestKey, V)>)
    ensures r == Collect(entries)
  {
    r := [];
    for i := 0 to |entries|
      invariant r == Collect(entries[..i])
    {
      assert entries[..i + 1][..i] == entries[..i];
      r := IndexMapInsert(r, entries[i]);
    }
    assert entries[..|entries|] == entries;
  }

  /** Every key has each condition inserted in its order, the rest of the
      key and the item unchanged. */
  lemma {:induction false} WithConditionsEach<V>(entries: seq<(RequestKey, V)>, conditions: seq<(string, bool)>, i: nat)
    requires i < |entries|
    ensures |WithConditions(entries, conditions)| == |entries|
    ensures WithConditions(entries, conditions)[i]
         == (RequestKey(entries[i].0.request, PutAll(entries[i].0.conditions, conditions)), entries[i].1)
  {
    if conditions != [] {
      WithConditionsEach(entries, conditions[..|conditions| - 1], i);
    }
  }

  /** After adding conditions the keys are distinct, and each key has every
      added condition with its last value in the list. */
  lemma AddConditionsSpec<V>(entries: seq<(RequestKey, V)>, conditions: seq<(string, bool)>, i: nat, n: string)
    requires i < |Collect(WithConditions(entries, conditions))|
    requires forall j :: 0 <= j < |entries| ==> SortedNames(entries[j].0.conditions)
    requires LastValue(conditions, n).Some?
    ensures DistinctKeys(Collect(WithConditions(entries, conditions)))
    ensures Lookup(Collect(WithConditions(entries, conditions))[i].0.conditions, n) == LastValue(conditions, n)
  {
    var w := WithConditions(entries, conditions);
    CollectSpec(w);
    var k := Collect(w)[i].0;
    ItemOfNone(Collect(w), k);
    LastItemOfSome(w, k);
    ItemOfNone(w, k);
    var j :| 0 <= j < |w| && w[j].0 == k;
    WithConditionsEach(entries, conditions, j);
    PutAllSpec(entries[j].0.conditions, conditions, n);
  }

  /** Adding no conditions to distinct keys changes nothing. */
  lemma AddNoConditions<V>(entries: seq<(RequestKey, V)>)
    requires DistinctKeys(entries)
    ensures Collect(WithConditions(entries, [])) == entries
  {
    CollectDistinct(entries);
  }

  // ---------------------------------------------------------------------------
  // Package-internal requests

  /** A package-internal specifier Node.js rejects: "#", one starting with
      "#/", or one ending with "/". */
  predicate InvalidImportsSpecifier(specifier: string) {
    specifier == "#" || StartsWith(specifier, "#/") || EndsWith(specifier, "/")
  }

  /** `resolve_package_internal_with_imports_field` up to the lookup of the
      imports field: a rejected specifier or a package without an imports
      field is unresolvable, otherwise the imports field decides. */
  function ResolvePackageInternal<X, V, S>(specifier: string, importsField: Option<X>,
                                          resolveImports: (X, string) -> ResolveResult<V, S>): (r: ResolveResult<V, S>)
    ensures InvalidImportsSpecifier(specifier) ==> IsUnresolvable(r) && r.affectingSources == []
    ensures importsField.None? ==> IsUnresolvable(r)
    ensures !InvalidImportsSpecifier(specifier) && importsField.Some? ==>
      r == resolveImports(importsField.value, specifier)
  {
    if InvalidImportsSpecifier(specifier) then Unresolvable()
    else if importsField.None? then Unresolvable()
    else resolveImports(importsField.value, specifier)
  }

  /** `ExternalType`: how an external module is loaded at run time. */
  datatype ExternalType = Url | CommonJs | EcmaScriptModule | Global | Script
}
