/** `longest_common_prefix` and `longest_common_suffix` of the resolver's
    pattern module (turbopack-core/src/resolve/pattern.rs). Each is a loop
    that narrows a length over the strings after the first; the loop is
    proved against a recursive definition, and the definition is proved to
    give a common prefix (suffix) that cannot be extended. */
module PatternAffix {
  import opened Text

  function Min(a: nat, b: nat): nat {
    if a <= b then a else b
  }

  // ---------------------------------------------------------------------
  // Prefixes
  // ---------------------------------------------------------------------

  /** Number of leading characters on which `a` and `b` agree
      (`a.chars().zip(b.chars()).take_while(eq).count()`). */
  function CommonPrefixCount(a: string, b: string): (r: nat)
    ensures r <= |a| && r <= |b|
    ensures a[..r] == b[..r]
    ensures r == |a| || r == |b| || a[r] != b[r]
  {
    if |a| == 0 || |b| == 0 || a[0] != b[0] then 0
    else
      var k := CommonPrefixCount(a[1..], b[1..]);
      assert a[..k + 1] == [a[0]] + a[1..][..k];
      assert b[..k + 1] == [b[0]] + b[1..][..k];
      1 + k
  }

  /** The length kept by the loop after it has seen `others`. */
  function PrefixLen(first: string, others: seq<string>): (r: nat)
    ensures r <= |first|
  {
    if |others| == 0 then |first|
    else Min(PrefixLen(first, others[..|others| - 1]), CommonPrefixCount(others[|others| - 1], first))
  }

  /** What `longest_common_prefix` returns. */
  function LongestCommonPrefixOf(strings: seq<string>): (r: string)
    ensures |strings| > 0 ==> |r| <= |strings[0]|
  {
    if |strings| == 0 then ""
    else if |strings| == 1 then strings[0]
    else strings[0][..PrefixLen(strings[0], strings[1..])]
  }

  /** The loop of `longest_common_prefix`. */
  method LongestCommonPrefix(strings: seq<string>) returns (r: string)
    ensures r == LongestCommonPrefixOf(strings)
  {
    if |strings| == 0 {
      return "";
    }
    if |strings| == 1 {
      return strings[0];
    }
    var first := strings[0];
    var len := |first|;
    var i := 1;
    while i < |strings|
      invariant 1 <= i <= |strings|
      invariant len == PrefixLen(first, strings[1..i])
    {
      assert strings[1..i + 1][..i - 1] == strings[1..i];
      len := Min(len, CommonPrefixCount(strings[i], first));
      i := i + 1;
    }
    assert strings[1..i] == strings[1..];
    r := first[..len];
  }

  /** Every input after the first agrees with the first on the kept length. */
  lemma {:induction false} PrefixLenCommon(first: string, others: seq<string>, k: nat)
    requires k < |others|
    ensures PrefixLen(first, others) <= |others[k]|
    ensures others[k][..PrefixLen(first, others)] == first[..PrefixLen(first, others)]
  {
    var init := others[..|others| - 1];
    var r := PrefixLen(first, others);
    if k < |others| - 1 {
      PrefixLenCommon(first, init, k);
      assert others[k] == init[k];
      var p := PrefixLen(first, init);
      assert others[k][..r] == others[k][..p][..r];
      assert first[..r] == first[..p][..r];
    } else {
      var c := CommonPrefixCount(others[k], first);
      assert others[k][..r] == others[k][..c][..r];
      assert first[..r] == first[..c][..r];
    }
  }

  /** The kept length is the whole first string or is reached by some input:
      `k` names that input, or is -1 for the first case. */
  lemma {:induction false} PrefixLenReached(first: string, others: seq<string>) returns (k: int)
    ensures k == -1 ==> PrefixLen(first, others) == |first|
    ensures k != -1 ==> 0 <= k < |others| && PrefixLen(first, others) == CommonPrefixCount(others[k], first)
  {
    if |others| == 0 {
      k := -1;
    } else {
      var init := others[..|others| - 1];
      var c := CommonPrefixCount(others[|others| - 1], first);
      if PrefixLen(first, others) == c {
        k := |others| - 1;
      } else {
        k := PrefixLenReached(first, init);
        if k != -1 {
          assert others[k] == init[k];
        }
      }
    }
  }

  /** The result is a prefix of every input: for one input it is that input,
      for none it is empty. */
  lemma LongestCommonPrefixIsCommon(strings: seq<string>)
    ensures |strings| == 0 ==> LongestCommonPrefixOf(strings) == ""
    ensures |strings| == 1 ==> LongestCommonPrefixOf(strings) == strings[0]
    ensures forall j | 0 <= j < |strings| :: StartsWith(strings[j], LongestCommonPrefixOf(strings))
  {
    if |strings| > 1 {
      var first := strings[0];
      var r := LongestCommonPrefixOf(strings);
      forall j | 0 <= j < |strings|
        ensures StartsWith(strings[j], r)
      {
        if j > 0 {
          PrefixLenCommon(first, strings[1..], j - 1);
          assert strings[j] == strings[1..][j - 1];
        }
      }
    }
  }

  /** The result cannot be extended: it is the whole first string, or some
      input ends there or differs from the first string at the next
      character. */
  lemma LongestCommonPrefixIsLongest(strings: seq<string>)
    requires |strings| >= 1
    ensures var r := LongestCommonPrefixOf(strings);
      r == strings[0]
      || exists j | 0 <= j < |strings| :: |strings[j]| <= |r| || strings[j][|r|] != strings[0][|r|]
  {
    if |strings| > 1 {
      var first := strings[0];
      var n := PrefixLen(first, strings[1..]);
      var k := PrefixLenReached(first, strings[1..]);
      if k != -1 && n < |first| {
        assert strings[k + 1] == strings[1..][k];
        assert |strings[k + 1]| == n || strings[k + 1][n] != first[n];
      }
    }
  }

  // ---------------------------------------------------------------------
  // Suffixes
  // ---------------------------------------------------------------------

  /** `s.chars().rev()` */
  function Reverse(s: string): (r: string)
    ensures |r| == |s| && forall i | 0 <= i < |s| :: r[i] == s[|s| - 1 - i]
  {
    seq(|s|, i requires 0 <= i < |s| => s[|s| - 1 - i])
  }

  function ReverseAll(list: seq<string>): (r: seq<string>)
    ensures |r| == |list| && forall i | 0 <= i < |list| :: r[i] == Reverse(list[i])
  {
    seq(|list|, i requires 0 <= i < |list| => Reverse(list[i]))
  }

  lemma ReversePrefix(x: string, n: nat)
    requires n <= |x|
    ensures Reverse(x)[..n] == Reverse(x[|x| - n..])
  {
  }

  lemma ReverseInjective(x: string, y: string)
    requires Reverse(x) == Reverse(y)
    ensures x == y
  {
    assert |x| == |y|;
    forall i | 0 <= i < |x|
      ensures x[i] == y[i]
    {
      assert Reverse(x)[|x| - 1 - i] == Reverse(y)[|x| - 1 - i];
    }
  }

  /** Number of trailing characters on which `a` and `b` agree
      (`a.chars().rev().zip(b.chars().rev()).take_while(eq).count()`). */
  function CommonSuffixCount(a: string, b: string): (r: nat)
    ensures r <= |a| && r <= |b|
  {
    CommonPrefixCount(Reverse(a), Reverse(b))
  }

  /** The length kept by the suffix loop after it has seen `others`. */
  function SuffixLen(first: string, others: seq<string>): (r: nat)
    ensures r <= |first|
  {
    if |others| == 0 then |first|
    else Min(SuffixLen(first, others[..|others| - 1]), CommonSuffixCount(others[|others| - 1], first))
  }

  lemma {:induction false} SuffixLenIsPrefixLen(first: string, others: seq<string>)
    ensures SuffixLen(first, others) == PrefixLen(Reverse(first), ReverseAll(others))
  {
    if |others| > 0 {
      SuffixLenIsPrefixLen(first, others[..|others| - 1]);
      assert ReverseAll(others)[..|others| - 1] == ReverseAll(others[..|others| - 1]);
    }
  }

  /** What `longest_common_suffix` returns; unlike the prefix it has no
      special case for a single string, which gives the same result. */
  function LongestCommonSuffixOf(strings: seq<string>): (r: string)
    ensures |strings| > 0 ==> |r| <= |strings[0]|
  {
    if |strings| == 0 then ""
    else strings[0][|strings[0]| - SuffixLen(strings[0], strings[1..])..]
  }

  /** The loop of `longest_common_suffix`. */
  method LongestCommonSuffix(strings: seq<string>) returns (r: string)
    ensures r == LongestCommonSuffixOf(strings)
  {
    if |strings| == 0 {
      return "";
    }
    var first := strings[0];
    var len := |first|;
    var i := 1;
    while i < |strings|
      invariant 1 <= i <= |strings|
      invariant len == SuffixLen(first, strings[1..i])
    {
      assert strings[1..i + 1][..i - 1] == strings[1..i];
      len := Min(len, CommonSuffixCount(strings[i], first));
      i := i + 1;
    }
    assert strings[1..i] == strings[1..];
    r := first[|first| - len..];
  }

  /** Every input after the first ends with the kept suffix of the first. */
  lemma SuffixLenCommon(first: string, others: seq<string>, k: nat)
    requires k < |others|
    ensures SuffixLen(first, others) <= |others[k]|
    ensures EndsWith(others[k], first[|first| - SuffixLen(first, others)..])
  {
    var n := SuffixLen(first, others);
    var s := others[k];
    SuffixLenIsPrefixLen(first, others);
    PrefixLenCommon(Reverse(first), ReverseAll(others), k);
    ReversePrefix(s, n);
    ReversePrefix(first, n);
    ReverseInjective(s[|s| - n..], first[|first| - n..]);
  }

  /** The result is a suffix of every input; no input gives "". */
  lemma LongestCommonSuffixIsCommon(strings: seq<string>)
    ensures |strings| == 0 ==> LongestCommonSuffixOf(strings) == ""
    ensures |strings| == 1 ==> LongestCommonSuffixOf(strings) == strings[0]
    ensures forall j | 0 <= j < |strings| :: EndsWith(strings[j], LongestCommonSuffixOf(strings))
  {
    if |strings| > 0 {
      var r := LongestCommonSuffixOf(strings);
      forall j | 0 <= j < |strings|
        ensures EndsWith(strings[j], r)
      {
        if j > 0 {
          SuffixLenCommon(strings[0], strings[1..], j - 1);
          assert strings[j] == strings[1..][j - 1];
        }
      }
    }
  }

  /** The kept suffix length is the whole first string, or some input `k`
      ends there or differs from the first string just before it. */
  lemma SuffixLenReached(first: string, others: seq<string>) returns (k: int)
    ensures k == -1 ==> SuffixLen(first, others) == |first|
    ensures k != -1 ==> 0 <= k < |others| && SuffixLen(first, others) < |first|
    ensures k != -1 ==>
      |others[k]| <= SuffixLen(first, others)
      || others[k][|others[k]| - SuffixLen(first, others) - 1] != first[|first| - SuffixLen(first, others) - 1]
  {
    var n := SuffixLen(first, others);
    SuffixLenIsPrefixLen(first, others);
    k := PrefixLenReached(Reverse(first), ReverseAll(others));
    if k != -1 && n < |first| {
      var s := others[k];
      assert |s| <= n || Reverse(s)[n] != Reverse(first)[n];
    } else {
      k := -1;
    }
  }

  /** The result cannot be extended to the left: it is the whole first
      string, or some input ends there or differs from the first string at
      the next character to the left. */
  lemma LongestCommonSuffixIsLongest(strings: seq<string>)
    requires |strings| >= 1
    ensures var r := LongestCommonSuffixOf(strings);
      r == strings[0]
      || exists j | 0 <= j < |strings| ::
        |strings[j]| <= |r| || strings[j][|strings[j]| - |r| - 1] != strings[0][|strings[0]| - |r| - 1]
  {
    var k := SuffixLenReached(strings[0], strings[1..]);
    if k != -1 {
      assert strings[k + 1] == strings[1..][k];
    }
  }

  /** A shorter middle input bounds the result. */
  lemma LongestCommonPrefixExample()
    ensures LongestCommonPrefixOf(["abc", "a", "abc"]) == "a"
  {
    var s := ["abc", "a", "abc"];
    assert s[1..] == ["a", "abc"];
    assert ["a", "abc"][..1] == ["a"];
    assert "a"[1..] == "" && "abc"[1..] == "bc";
    assert CommonPrefixCount("a", "abc") == 1;
    assert PrefixLen("abc", ["a"]) == 1;
  }
}
