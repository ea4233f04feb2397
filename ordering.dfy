/** Orders used by the model: the lexicographic order Rust derives for
    slices, strings and `Option`, and a sort over sequences. */
module Ordering {

  /** `less` is irreflexive, transitive and relates any two distinct values. */
  ghost predicate StrictTotal<T(!new)>(less: (T, T) -> bool) {
    && (forall x :: !less(x, x))
    && (forall x, y, z :: less(x, y) && less(y, z) ==> less(x, z))
    && (forall x, y :: x != y ==> less(x, y) || less(y, x))
  }

  /** Lexicographic order of sequences: the first differing element decides,
      and a proper prefix comes first. */
  function LexLess<T(==)>(a: seq<T>, b: seq<T>, less: (T, T) -> bool): bool
    decreases |a|
  {
    if a == [] then b != []
    else if b == [] then false
    else less(a[0], b[0]) || (a[0] == b[0] && LexLess(a[1..], b[1..], less))
  }

  lemma {:induction false} LexIrreflexive<T(!new)>(a: seq<T>, less: (T, T) -> bool)
    requires StrictTotal(less)
    ensures !LexLess(a, a, less)
    decreases |a|
  {
    if a != [] {
      LexIrreflexive(a[1..], less);
    }
  }

  lemma {:induction false} LexTransitive<T(!new)>(a: seq<T>, b: seq<T>, c: seq<T>, less: (T, T) -> bool)
    requires StrictTotal(less)
    requires LexLess(a, b, less) && LexLess(b, c, less)
    ensures LexLess(a, c, less)
    decreases |a|
  {
    if a != [] && a[0] == b[0] && b[0] == c[0] {
      LexTransitive(a[1..], b[1..], c[1..], less);
    }
  }

  lemma {:induction false} LexTotal<T(!new)>(a: seq<T>, b: seq<T>, less: (T, T) -> bool)
    requires StrictTotal(less)
    requires a != b
    ensures LexLess(a, b, less) || LexLess(b, a, less)
    decreases |a|
  {
    if a != [] && b != [] && a[0] == b[0] {
      assert a == [a[0]] + a[1..] && b == [b[0]] + b[1..];
      LexTotal(a[1..], b[1..], less);
    }
  }

  /** The lexicographic order over a strict total order is a strict total order. */
  lemma LexStrictTotal<T(!new)>(less: (T, T) -> bool)
    requires StrictTotal(less)
    ensures StrictTotal((a: seq<T>, b: seq<T>) => LexLess(a, b, less))
  {
    forall a: seq<T> ensures !LexLess(a, a, less) {
      LexIrreflexive(a, less);
    }
    forall a: seq<T>, b: seq<T>, c: seq<T> | LexLess(a, b, less) && LexLess(b, c, less)
      ensures LexLess(a, c, less)
    {
      LexTransitive(a, b, c, less);
    }
    forall a: seq<T>, b: seq<T> | a != b ensures LexLess(a, b, less) || LexLess(b, a, less) {
      LexTotal(a, b, less);
    }
  }

  function CharLess(a: char, b: char): bool { a < b }

  /** Byte-wise (for ASCII, character-wise) order of strings. */
  function StringLess(a: string, b: string): bool { LexLess(a, b, CharLess) }

  lemma StringLessStrictTotal()
    ensures StrictTotal(StringLess)
  {
    assert StrictTotal(CharLess);
    forall a: string ensures !StringLess(a, a) {
      LexIrreflexive(a, CharLess);
    }
    forall a: string, b: string, c: string | StringLess(a, b) && StringLess(b, c)
      ensures StringLess(a, c)
    {
      LexTransitive(a, b, c, CharLess);
    }
    forall a: string, b: string | a != b ensures StringLess(a, b) || StringLess(b, a) {
      LexTotal(a, b, CharLess);
    }
  }

  /** `less` restricted to a non-strict comparison. */
  predicate LessOrEqual<T(==)>(less: (T, T) -> bool, a: T, b: T) {
    a == b || less(a, b)
  }

  /** The sequence is sorted, each element being at most the next ones. */
  predicate Sorted<T(==)>(s: seq<T>, less: (T, T) -> bool) {
    forall i, j :: 0 <= i < j < |s| ==> LessOrEqual(less, s[i], s[j])
  }

  /** Inserts `x` into a sorted sequence before the first larger element. */
  function Insert<T(==)>(s: seq<T>, x: T, less: (T, T) -> bool): (r: seq<T>)
    ensures multiset(r) == multiset(s) + multiset{x}
    ensures |r| == |s| + 1
  {
    if s == [] then [x]
    else if LessOrEqual(less, x, s[0]) then [x] + s
    else
      assert s == [s[0]] + s[1..];
      [s[0]] + Insert(s[1..], x, less)
  }

  lemma {:induction false} InsertSorted<T(!new)>(s: seq<T>, x: T, less: (T, T) -> bool)
    requires StrictTotal(less) && Sorted(s, less)
    ensures Sorted(Insert(s, x, less), less)
    decreases |s|
  {
    if s != [] && !LessOrEqual(less, x, s[0]) {
      InsertSorted(s[1..], x, less);
      var r := Insert(s, x, less);
      assert less(s[0], x);
      forall j | 0 < j < |r| ensures LessOrEqual(less, r[0], r[j]) {
        var t := Insert(s[1..], x, less);
        assert r[j] == t[j - 1];
        assert t[j - 1] in multiset(t);
        assert t[j - 1] == x || t[j - 1] in multiset(s[1..]);
        if t[j - 1] != x {
          var k :| 0 <= k < |s[1..]| && s[1..][k] == t[j - 1];
          assert s[k + 1] == t[j - 1];
        }
      }
    }
  }

  /** Sorting by insertion. */
  function SortBy<T(==)>(s: seq<T>, less: (T, T) -> bool): (r: seq<T>)
    ensures multiset(r) == multiset(s)
    ensures |r| == |s|
  {
    if s == [] then []
    else
      assert s == s[..|s| - 1] + [s[|s| - 1]];
      Insert(SortBy(s[..|s| - 1], less), s[|s| - 1], less)
  }

  lemma {:induction false} SortBySorted<T(!new)>(s: seq<T>, less: (T, T) -> bool)
    requires StrictTotal(less)
    ensures Sorted(SortBy(s, less), less)
    decreases |s|
  {
    if s != [] {
      SortBySorted(s[..|s| - 1], less);
      InsertSorted(SortBy(s[..|s| - 1], less), s[|s| - 1], less);
    }
  }
}
