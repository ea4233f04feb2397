/** Invalidation reasons of turbo-tasks: the set that deduplicates reasons
    and merges those of one kind into one entry, its length and its
    description, and the identity of an invalidator. */
module Invalidation {
  import opened Wrappers

  /** A reason: its description and, for typed reasons, its kind. Reasons
      compare by value. */
  datatype Reason = Reason(text: string, kind: Option<string>)

  datatype MapKey = Untyped(tag: nat) | Typed(kind: string)

  datatype MapEntry = Single(reason: Reason) | Multiple(reasons: seq<Reason>)

  /** `InvalidationReasonSet` as a value: the next untyped tag and an
      insertion-ordered map (its keys in order, and its entries). */
  datatype ReasonSet = ReasonSet(nextUniqueTag: nat, keys: seq<MapKey>, entries: map<MapKey, MapEntry>)

  const EmptySet := ReasonSet(0, [], map[])

  function EntryReasons(e: MapEntry): seq<Reason> {
    match e
    case Single(r) => [r]
    case Multiple(rs) => rs
  }

  /** The keys list the entries' keys in order, without repeats. */
  ghost predicate KeysMatch(s: ReasonSet) {
    && (forall i, j :: 0 <= i < j < |s.keys| ==> s.keys[i] != s.keys[j])
    && (forall i :: 0 <= i < |s.keys| ==> s.keys[i] in s.entries)
    && (forall k :: k in s.entries ==> k in s.keys)
  }

  /** An entry under `key` holds what its key allows: one untyped reason under
      a tag already handed out, or reasons of the key's kind, at least two
      distinct ones when multiple. */
  ghost predicate EntryFits(key: MapKey, e: MapEntry, nextUniqueTag: nat) {
    match key
    case Untyped(tag) => tag < nextUniqueTag && e.Single? && e.reason.kind.None?
    case Typed(kind) =>
      && (forall r :: r in EntryReasons(e) ==> r.kind == Some(kind))
      && (e.Multiple? ==> |e.reasons| >= 2 && Distinct(e.reasons))
  }

  predicate Distinct<T(==)>(xs: seq<T>) {
    forall i, j :: 0 <= i < j < |xs| ==> xs[i] != xs[j]
  }

  /** The set's invariant. */
  ghost predicate WellFormed(s: ReasonSet) {
    && KeysMatch(s)
    && (forall k :: k in s.entries ==> EntryFits(k, s.entries[k], s.nextUniqueTag))
  }

  /** An insertion into the index map: a new key goes last, an existing key
      keeps its place. */
  function Put(s: ReasonSet, key: MapKey, e: MapEntry): ReasonSet {
    ReasonSet(s.nextUniqueTag, if key in s.entries then s.keys else s.keys + [key], s.entries[key := e])
  }

  lemma PutKeysMatch(s: ReasonSet, key: MapKey, e: MapEntry)
    requires KeysMatch(s)
    ensures KeysMatch(Put(s, key, e))
  {
  }

  /** `insert`. */
  function Inserted(s: ReasonSet, reason: Reason): ReasonSet {
    match reason.kind
    case None =>
      var t := Put(s, Untyped(s.nextUniqueTag), Single(reason));
      t.(nextUniqueTag := s.nextUniqueTag + 1)
    case Some(kind) =>
      var key := Typed(kind);
      if key !in s.entries then Put(s, key, Single(reason))
      else
        match s.entries[key]
        case Single(existing) =>
          if reason == existing then s else Put(s, key, Multiple([existing, reason]))
        case Multiple(rs) =>
          Put(s, key, Multiple(if reason in rs then rs else rs + [reason]))
  }

  /** The entry a typed reason is merged into. */
  function MergedEntry(old_: Option<MapEntry>, reason: Reason): MapEntry {
    match old_
    case None => Single(reason)
    case Some(Single(existing)) => if reason == existing then Single(existing) else Multiple([existing, reason])
    case Some(Multiple(rs)) => Multiple(if reason in rs then rs else rs + [reason])
  }

  lemma MergedEntryFits(key: MapKey, e: Option<MapEntry>, reason: Reason, tag: nat)
    requires key.Typed? && reason.kind == Some(key.kind)
    requires e.Some? ==> EntryFits(key, e.value, tag)
    ensures EntryFits(key, MergedEntry(e, reason), tag)
  {
    if e.Some? && e.value.Multiple? {
      var rs := e.value.reasons;
      if reason !in rs {
        var rs' := rs + [reason];
        forall i, j | 0 <= i < j < |rs'| ensures rs'[i] != rs'[j] {
          if j == |rs| {
            assert rs'[i] == rs[i];
          }
        }
      }
    }
  }

  /** Insertion keeps the invariant. */
  lemma InsertWellFormed(s: ReasonSet, reason: Reason)
    requires WellFormed(s)
    ensures WellFormed(Inserted(s, reason))
  {
    var t := Inserted(s, reason);
    if reason.kind.None? {
      var key := Untyped(s.nextUniqueTag);
      UntypedTagsBelow(s);
      PutKeysMatch(s, key, Single(reason));
      forall k | k in t.entries ensures EntryFits(k, t.entries[k], t.nextUniqueTag) {
        if k != key {
          assert EntryFits(k, s.entries[k], s.nextUniqueTag);
        }
      }
    } else {
      var key := Typed(reason.kind.value);
      var e := if key in s.entries then Some(s.entries[key]) else None;
      MergedEntryFits(key, e, reason, s.nextUniqueTag);
      assert t == s || t == Put(s, key, MergedEntry(e, reason));
      PutKeysMatch(s, key, MergedEntry(e, reason));
    }
  }

  /** An untyped reason always gets an entry of its own under a fresh tag,
      even when an equal reason is in the set. */
  lemma UntypedAlwaysAdded(s: ReasonSet, reason: Reason)
    requires WellFormed(s) && reason.kind.None?
    ensures Inserted(s, reason).keys == s.keys + [Untyped(s.nextUniqueTag)]
    ensures Inserted(s, reason).nextUniqueTag == s.nextUniqueTag + 1
    ensures Inserted(s, reason).entries[Untyped(s.nextUniqueTag)] == Single(reason)
  {
    UntypedTagsBelow(s);
  }

  /** An untyped key holds a single reason. */
  lemma UntypedEntriesSingle(s: ReasonSet)
    requires WellFormed(s)
    ensures forall i :: 0 <= i < |s.keys| ==> s.keys[i] in s.entries && (s.keys[i].Typed? || s.entries[s.keys[i]].Single?)
  {
    forall i | 0 <= i < |s.keys| ensures s.keys[i] in s.entries && (s.keys[i].Typed? || s.entries[s.keys[i]].Single?) {
      assert EntryFits(s.keys[i], s.entries[s.keys[i]], s.nextUniqueTag);
    }
  }

  /** Every untyped key holds a tag already handed out. */
  lemma UntypedTagsBelow(s: ReasonSet)
    requires WellFormed(s)
    ensures forall k :: k in s.entries && k.Untyped? ==> k.tag < s.nextUniqueTag
  {
    forall k | k in s.entries && k.Untyped? ensures k.tag < s.nextUniqueTag {
      assert EntryFits(k, s.entries[k], s.nextUniqueTag);
    }
  }

  /** A typed reason: the first of its kind is a single entry at the end; the
      same reason again changes nothing; a second reason turns the entry into
      both; later ones are added to the entry, each once. */
  lemma TypedMerged(s: ReasonSet, reason: Reason)
    requires WellFormed(s) && reason.kind.Some?
    ensures var key := Typed(reason.kind.value); var t := Inserted(s, reason);
      && t.nextUniqueTag == s.nextUniqueTag
      && (key !in s.entries ==> t.keys == s.keys + [key] && t.entries[key] == Single(reason))
      && (key in s.entries ==> t.keys == s.keys)
      && (key in s.entries && s.entries[key] == Single(reason) ==> t == s)
      && (key in s.entries && s.entries[key].Single? && s.entries[key].reason != reason ==>
            t.entries[key] == Multiple([s.entries[key].reason, reason]))
      && (key in s.entries ==>
            || EntryReasons(t.entries[key]) == EntryReasons(s.entries[key])
            || EntryReasons(t.entries[key]) == EntryReasons(s.entries[key]) + [reason])
  {
  }

  /** One insertion adds an entry exactly for an untyped reason or a new
      kind. */
  lemma InsertCounts(s: ReasonSet, reason: Reason)
    requires WellFormed(s)
    ensures var t := Inserted(s, reason);
      && t.nextUniqueTag == s.nextUniqueTag + (if reason.kind.None? then 1 else 0)
      && TypedKinds(t) == TypedKinds(s) + (if reason.kind.Some? then {reason.kind.value} else {})
      && |t.keys| == |s.keys| + (if reason.kind.None? || reason.kind.value !in TypedKinds(s) then 1 else 0)
  {
    var t := Inserted(s, reason);
    if reason.kind.None? {
      UntypedAlwaysAdded(s, reason);
      assert TypedKinds(t) == TypedKinds(s) by {
        assert forall k :: k in t.entries && k.Typed? ==> k in s.entries;
      }
    } else {
      var key := Typed(reason.kind.value);
      assert key in s.entries <==> reason.kind.value in TypedKinds(s);
      assert forall k :: k in t.entries <==> k in s.entries || k == key;
    }
  }

  /** Inserting the reasons in order. */
  function InsertAll(s: ReasonSet, reasons: seq<Reason>): ReasonSet {
    if reasons == [] then s else Inserted(InsertAll(s, reasons[..|reasons| - 1]), reasons[|reasons| - 1])
  }

  function CountUntyped(reasons: seq<Reason>): nat {
    if reasons == [] then 0
    else CountUntyped(reasons[..|reasons| - 1]) + (if reasons[|reasons| - 1].kind.None? then 1 else 0)
  }

  /** The kinds of the typed reasons. */
  function Kinds(reasons: seq<Reason>): set<string> {
    set i | 0 <= i < |reasons| && reasons[i].kind.Some? :: reasons[i].kind.value
  }

  function TypedKinds(s: ReasonSet): set<string> {
    set k | k in s.entries && k.Typed? :: k.kind
  }

  /** `len` counts entries, one per untyped reason and one per kind, not the
      reasons merged into them. */
  lemma {:induction false} LenCountsEntries(reasons: seq<Reason>)
    ensures var s := InsertAll(EmptySet, reasons);
      && WellFormed(s)
      && s.nextUniqueTag == CountUntyped(reasons)
      && TypedKinds(s) == Kinds(reasons)
      && |s.keys| == CountUntyped(reasons) + |Kinds(reasons)|
  {
    if reasons != [] {
      var init := reasons[..|reasons| - 1];
      var r := reasons[|reasons| - 1];
      LenCountsEntries(init);
      assert init + [r] == reasons;
      LenCountsStep(init, r);
    } else {
      assert Kinds(reasons) == {};
      assert TypedKinds(EmptySet) == {};
    }
  }

  lemma LenCountsStep(init: seq<Reason>, r: Reason)
    requires var s := InsertAll(EmptySet, init);
      && WellFormed(s)
      && s.nextUniqueTag == CountUntyped(init)
      && TypedKinds(s) == Kinds(init)
      && |s.keys| == CountUntyped(init) + |Kinds(init)|
    ensures var s := InsertAll(EmptySet, init + [r]);
      && WellFormed(s)
      && s.nextUniqueTag == CountUntyped(init + [r])
      && TypedKinds(s) == Kinds(init + [r])
      && |s.keys| == CountUntyped(init + [r]) + |Kinds(init + [r])|
  {
    var s0 := InsertAll(EmptySet, init);
    var reasons := init + [r];
    assert reasons[..|reasons| - 1] == init;
    assert InsertAll(EmptySet, reasons) == Inserted(s0, r);
    assert CountUntyped(reasons) == CountUntyped(init) + (if r.kind.None? then 1 else 0);
    InsertWellFormed(s0, r);
    InsertCounts(s0, r);
    KindsSnoc(init, r);
    KindsSnocCard(init, r);
  }

  lemma KindsSnocCard(init: seq<Reason>, r: Reason)
    ensures |Kinds(init + [r])| == |Kinds(init)| + (if r.kind.Some? && r.kind.value !in Kinds(init) then 1 else 0)
  {
    KindsSnoc(init, r);
    if r.kind.Some? && r.kind.value !in Kinds(init) {
      assert Kinds(init + [r]) == Kinds(init) + {r.kind.value};
    } else {
      assert Kinds(init + [r]) == Kinds(init);
    }
  }

  lemma KindsSnoc(init: seq<Reason>, r: Reason)
    ensures Kinds(init + [r]) == Kinds(init) + (if r.kind.Some? then {r.kind.value} else {})
  {
    var reasons := init + [r];
    forall k | k in Kinds(reasons) ensures k in Kinds(init) + (if r.kind.Some? then {r.kind.value} else {}) {
      var i :| 0 <= i < |reasons| && reasons[i].kind.Some? && reasons[i].kind.value == k;
      if i < |init| {
        assert init[i] == reasons[i];
      }
    }
    forall k | k in Kinds(init) ensures k in Kinds(reasons) {
      var i :| 0 <= i < |init| && init[i].kind.Some? && init[i].kind.value == k;
      assert reasons[i] == init[i];
    }
    if r.kind.Some? {
      assert reasons[|init|] == r;
    }
  }

  /** Every inserted reason is described by the entry of its key. */
  lemma InsertedReasonKept(s: ReasonSet, reason: Reason)
    requires WellFormed(s) && reason.kind.Some?
    ensures Typed(reason.kind.value) in Inserted(s, reason).entries
    ensures reason in EntryReasons(Inserted(s, reason).entries[Typed(reason.kind.value)])
  {
  }

  // ---------------------------------------------------------------------------
  // Display

  /** The separator before entry `i` of `count`: none first, ", and " before
      the last, ", " elsewhere. */
  function Separator(i: nat, count: nat): string {
    if i == 0 then "" else if i == count - 1 then ", and " else ", "
  }

  /** The separator as written: ", " and then "and " before the last. */
  lemma SeparatorSpelled(i: nat, count: nat)
    ensures (if i > 0 then ", " + (if i == count - 1 then "and " else "") else "") == Separator(i, count)
  {
    assert ", " + "and " == ", and ";
    assert ", " + "" == ", ";
  }

  /** The first `n` items with their separators. */
  function Listing(items: seq<string>, n: nat): string
    requires n <= |items|
  {
    if n == 0 then "" else Listing(items, n - 1) + Separator(n - 1, |items|) + items[n - 1]
  }

  lemma ListingExamples(a: string, b: string, c: string)
    ensures Listing([a], 1) == a
    ensures Listing([a, b], 2) == a + ", and " + b
    ensures Listing([a, b, c], 3) == a + ", " + b + ", and " + c
  {
    assert Listing([a], 1) == "" + "" + a;
    assert Listing([a, b], 1) == "" + "" + a;
    assert Listing([a, b, c], 1) == "" + "" + a;
    assert Listing([a, b, c], 2) == a + ", " + b;
  }

  /** A listing of two or more items ends with ", and " and the last item. */
  lemma ListingEndsWithAnd(items: seq<string>)
    requires |items| >= 2
    ensures Listing(items, |items|) == Listing(items, |items| - 1) + ", and " + items[|items| - 1]
  {
  }

  /** The description of one entry; a multiple entry is described by its
      kind, given as `kindFmt`. */
  function EntryText(key: MapKey, e: MapEntry, kindFmt: (string, seq<Reason>) -> string): string {
    match e
    case Single(r) => r.text
    case Multiple(rs) => if key.Typed? then kindFmt(key.kind, rs) else ""
  }

  /** The descriptions of the entries, in order. */
  function EntryTexts(keys: seq<MapKey>, entries: map<MapKey, MapEntry>, kindFmt: (string, seq<Reason>) -> string): (r: seq<string>)
    requires forall i :: 0 <= i < |keys| ==> keys[i] in entries
    ensures |r| == |keys|
    ensures forall i :: 0 <= i < |keys| ==> r[i] == EntryText(keys[i], entries[keys[i]], kindFmt)
  {
    if keys == [] then []
    else [EntryText(keys[0], entries[keys[0]], kindFmt)] + EntryTexts(keys[1..], entries, kindFmt)
  }

  /** `Display`: the entries' descriptions, separated by ", " and with "and "
      before the last. */
  function Describe(s: ReasonSet, kindFmt: (string, seq<Reason>) -> string): string
    requires forall i :: 0 <= i < |s.keys| ==> s.keys[i] in s.entries
  {
    Listing(EntryTexts(s.keys, s.entries, kindFmt), |s.keys|)
  }

  // ---------------------------------------------------------------------------
  // The mutable set

  class InvalidationReasonSet {
    var nextUniqueTag: nat
    var keys: seq<MapKey>
    var entries: map<MapKey, MapEntry>

    function State(): ReasonSet
      reads this
    {
      ReasonSet(nextUniqueTag, keys, entries)
    }

    constructor ()
      ensures State() == EmptySet
    {
      nextUniqueTag := 0;
      keys := [];
      entries := map[];
    }

    /** `insert`. */
    method Insert(reason: Reason)
      requires WellFormed(State())
      modifies this
      ensures WellFormed(State())
      ensures State() == Inserted(old(State()), reason)
    {
      InsertWellFormed(State(), reason);
      if reason.kind.Some? {
        var key := Typed(reason.kind.value);
        if key in entries {
          match entries[key]
          case Single(existing) =>
            if reason == existing {
              return;
            }
            entries := entries[key := Multiple([existing, reason])];
          case Multiple(rs) =>
            if reason !in rs {
              rs := rs + [reason];
            }
            entries := entries[key := Multiple(rs)];
        } else {
          keys := keys + [key];
          entries := entries[key := Single(reason)];
        }
      } else {
        var key := Untyped(nextUniqueTag);
        nextUniqueTag := nextUniqueTag + 1;
        if key !in entries {
          keys := keys + [key];
        }
        entries := entries[key := Single(reason)];
      }
    }

    function IsEmpty(): (r: bool)
      reads this
      ensures r <==> |keys| == 0
    {
      keys == []
    }

    function Len(): (r: nat)
      reads this
      ensures r == |keys|
    {
      |keys|
    }

    /** `Display`: the entries in insertion order. */
    method Fmt(kindFmt: (string, seq<Reason>) -> string) returns (out: string)
      requires WellFormed(State())
      ensures out == Describe(State(), kindFmt)
    {
      var items := EntryTexts(keys, entries, kindFmt);
      UntypedEntriesSingle(State());
      out := "";
      var count := |keys|;
      for i := 0 to count
        invariant out == Listing(items, i)
      {
        var sep := "";
        if i > 0 {
          sep := ", ";
          if i == count - 1 {
            sep := sep + "and ";
          }
        }
        SeparatorSpelled(i, count);
        var text := EntryDescription(keys[i], entries[keys[i]], kindFmt);
        out := out + sep + text;
      }
    }
  }

  /** One entry's description; an untyped key never holds several reasons. */
  method EntryDescription(key: MapKey, e: MapEntry, kindFmt: (string, seq<Reason>) -> string) returns (text: string)
    requires key.Typed? || e.Single?
    ensures text == EntryText(key, e, kindFmt)
  {
    match e
    case Single(r) =>
      text := r.text;
    case Multiple(rs) =>
      text := kindFmt(key.kind, rs);
  }

  // ---------------------------------------------------------------------------
  // Invalidators

  /** An invalidator: the task it invalidates and the runtime it reaches it
      through. */
  datatype Invalidator = Invalidator(task: nat, runtime: nat)

  /** Invalidators are equal, and hash alike, when their tasks are. */
  predicate SameInvalidator(a: Invalidator, b: Invalidator) {
    a.task == b.task
  }

  lemma SameInvalidatorIgnoresRuntime(a: Invalidator, b: Invalidator, hash: nat -> nat)
    ensures SameInvalidator(a, b) <==> a.task == b.task
    ensures SameInvalidator(a, b) ==> hash(a.task) == hash(b.task)
    ensures SameInvalidator(a, a.(runtime := b.runtime))
  {
  }
}
