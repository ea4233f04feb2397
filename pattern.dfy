/** The request `Pattern` language of the resolver
    (turbopack-core/src/resolve/pattern.rs): constants, dynamic parts,
    alternatives and concatenations, with the operations that build, normalise,
    strip and match them. */
module Patterns {
  import opened Wrappers
  import opened Text

  datatype Pattern =
    | Constant(value: string)
    | Dynamic
    | DynamicNoSlash
    | Alternatives(list: seq<Pattern>)
    | Concatenation(list: seq<Pattern>)

  /** `Pattern::default()` */
  const Default: Pattern := Dynamic

  // ---------------------------------------------------------------------
  // Meaning of an alternative-free pattern: the sequence of characters and
  // dynamic placeholders it stands for.
  // ---------------------------------------------------------------------

  datatype Token = Char(c: char) | Any | AnyNoSlash

  predicate AltFree(p: Pattern) {
    match p
    case Alternatives(_) => false
    case Concatenation(list) => forall i | 0 <= i < |list| :: AltFree(list[i])
    case _ => true
  }

  predicate AltFreeList(list: seq<Pattern>) {
    forall i | 0 <= i < |list| :: AltFree(list[i])
  }

  function CharTokens(s: string): (r: seq<Token>)
    ensures |r| == |s| && forall i | 0 <= i < |s| :: r[i] == Char(s[i])
  {
    seq(|s|, i requires 0 <= i < |s| => Char(s[i]))
  }

  function Tokens(p: Pattern): seq<Token>
    requires AltFree(p)
  {
    match p
    case Constant(s) => CharTokens(s)
    case Dynamic => [Any]
    case DynamicNoSlash => [AnyNoSlash]
    case Concatenation(list) => TokensList(list)
  }

  function TokensList(list: seq<Pattern>): seq<Token>
    requires AltFreeList(list)
  {
    if |list| == 0 then [] else Tokens(list[0]) + TokensList(list[1..])
  }

  lemma {:induction false} TokensListAppend(a: seq<Pattern>, b: seq<Pattern>)
    requires AltFreeList(a) && AltFreeList(b)
    ensures AltFreeList(a + b) && TokensList(a + b) == TokensList(a) + TokensList(b)
  {
    if |a| > 0 {
      assert (a + b)[1..] == a[1..] + b;
      TokensListAppend(a[1..], b);
    } else {
      assert a + b == b;
    }
  }

  lemma CharTokensAppend(a: string, b: string)
    ensures CharTokens(a + b) == CharTokens(a) + CharTokens(b)
  {
  }

  // ---------------------------------------------------------------------
  // push / push_front / concat
  // ---------------------------------------------------------------------

  /** `concatenation_push_or_merge_item`: a constant pushed after a constant
      is merged into it. */
  function PushOrMerge(list: seq<Pattern>, pat: Pattern): (r: seq<Pattern>)
    ensures |r| == |list| || |r| == |list| + 1
  {
    if pat.Constant? && |list| > 0 && list[|list| - 1].Constant? then
      list[..|list| - 1] + [Constant(list[|list| - 1].value + pat.value)]
    else
      list + [pat]
  }

  /** `concatenation_push_front_or_merge_item` */
  function PushFrontOrMerge(list: seq<Pattern>, pat: Pattern): (r: seq<Pattern>)
    ensures |r| == |list| || |r| == |list| + 1
  {
    if pat.Constant? && |list| > 0 && list[0].Constant? then
      [Constant(pat.value + list[0].value)] + list[1..]
    else
      [pat] + list
  }

  /** `concatenation_extend_or_merge_items`: only the first item may merge. */
  function ExtendOrMerge(list: seq<Pattern>, items: seq<Pattern>): seq<Pattern>
  {
    if |items| == 0 then list else PushOrMerge(list, items[0]) + items[1..]
  }

  lemma PushOrMergeTokens(list: seq<Pattern>, pat: Pattern)
    requires AltFreeList(list) && AltFree(pat)
    ensures AltFreeList(PushOrMerge(list, pat))
    ensures TokensList(PushOrMerge(list, pat)) == TokensList(list) + Tokens(pat)
  {
    var n := |list|;
    if pat.Constant? && n > 0 && list[n - 1].Constant? {
      var init, last := list[..n - 1], list[n - 1];
      var merged := Constant(last.value + pat.value);
      assert list == init + [last];
      TokensListAppend(init, [merged]);
      calc {
        TokensList(PushOrMerge(list, pat));
        TokensList(init + [merged]);
        TokensList(init) + TokensList([merged]);
        { TokensSingle(merged); }
        TokensList(init) + CharTokens(last.value + pat.value);
        { CharTokensAppend(last.value, pat.value); }
        TokensList(init) + (CharTokens(last.value) + Tokens(pat));
        { TokensSingle(last); }
        (TokensList(init) + TokensList([last])) + Tokens(pat);
        { TokensListAppend(init, [last]); }
        TokensList(list) + Tokens(pat);
      }
    } else {
      TokensListAppend(list, [pat]);
      TokensSingle(pat);
    }
  }

  lemma PushFrontOrMergeTokens(list: seq<Pattern>, pat: Pattern)
    requires AltFreeList(list) && AltFree(pat)
    ensures AltFreeList(PushFrontOrMerge(list, pat))
    ensures TokensList(PushFrontOrMerge(list, pat)) == Tokens(pat) + TokensList(list)
  {
    if pat.Constant? && |list| > 0 && list[0].Constant? {
      CharTokensAppend(pat.value, list[0].value);
    }
  }

  lemma ExtendOrMergeTokens(list: seq<Pattern>, items: seq<Pattern>)
    requires AltFreeList(list) && AltFreeList(items)
    ensures AltFreeList(ExtendOrMerge(list, items))
    ensures TokensList(ExtendOrMerge(list, items)) == TokensList(list) + TokensList(items)
  {
    if |items| > 0 {
      PushOrMergeTokens(list, items[0]);
      TokensListAppend(PushOrMerge(list, items[0]), items[1..]);
    }
  }

  predicate IsEmptyConstant(p: Pattern) {
    p.Constant? && p.value == ""
  }

  /** `Pattern::push`: appends `pat` to `self`. */
  function Push(self: Pattern, pat: Pattern): Pattern
  {
    if IsEmptyConstant(self) then pat
    else if IsEmptyConstant(pat) then self
    else match (self, pat)
      case (Concatenation(list), Concatenation(more)) => Concatenation(ExtendOrMerge(list, more))
      case (Concatenation(list), _) => Concatenation(PushOrMerge(list, pat))
      case (_, Concatenation(list)) => Concatenation(PushFrontOrMerge(list, self))
      case (Constant(a), Constant(b)) => Constant(a + b)
      case _ => Concatenation([self, pat])
  }

  /** `Pattern::push_front`: prepends `pat` to `self`. */
  function PushFront(self: Pattern, pat: Pattern): Pattern
  {
    match (self, pat)
    case (Concatenation(list), Concatenation(more)) => Concatenation(ExtendOrMerge(more, list))
    case (Concatenation(list), _) => Concatenation(PushFrontOrMerge(list, pat))
    case (_, Concatenation(list)) => Concatenation(PushOrMerge(list, self))
    case (Constant(s), Constant(other)) => Constant(other + s)
    case _ => Concatenation([pat, self])
  }

  /** The push rules for constants. */
  lemma PushConstantRules(a: string, b: string, p: Pattern)
    ensures Push(Constant(a), Constant(b)) == Constant(a + b)
    ensures Push(Constant(""), p) == p
    ensures !IsEmptyConstant(p) ==> Push(p, Constant("")) == p
  {
    if a == "" {
      assert Constant(a) == Constant("");
    } else if b == "" {
      assert a + b == a;
    }
  }

  /** Pushing concatenates the meanings of the two patterns. */
  lemma PushTokens(self: Pattern, pat: Pattern)
    requires AltFree(self) && AltFree(pat)
    ensures AltFree(Push(self, pat))
    ensures Tokens(Push(self, pat)) == Tokens(self) + Tokens(pat)
  {
    if IsEmptyConstant(self) || IsEmptyConstant(pat) {
    } else if self.Concatenation? && pat.Concatenation? {
      ExtendOrMergeTokens(self.list, pat.list);
    } else if self.Concatenation? {
      PushOrMergeTokens(self.list, pat);
    } else if pat.Concatenation? {
      PushFrontOrMergeTokens(pat.list, self);
    } else if self.Constant? && pat.Constant? {
      CharTokensAppend(self.value, pat.value);
    } else {
      TokensListAppend([self], [pat]);
      assert [self] + [pat] == [self, pat];
    }
  }

  /** Prepending puts the meaning of `pat` before that of `self`. */
  lemma PushFrontTokens(self: Pattern, pat: Pattern)
    requires AltFree(self) && AltFree(pat)
    ensures AltFree(PushFront(self, pat))
    ensures Tokens(PushFront(self, pat)) == Tokens(pat) + Tokens(self)
  {
    if self.Concatenation? && pat.Concatenation? {
      ExtendOrMergeTokens(pat.list, self.list);
    } else if self.Concatenation? {
      PushFrontOrMergeTokens(self.list, pat);
    } else if pat.Concatenation? {
      PushOrMergeTokens(pat.list, self);
    } else if self.Constant? && pat.Constant? {
      CharTokensAppend(pat.value, self.value);
    } else {
      TokensListAppend([pat], [self]);
      assert [pat] + [self] == [pat, self];
    }
  }

  /** The fold of `Pattern::concat` after its first item. */
  function PushAll(current: Pattern, items: seq<Pattern>): Pattern
    decreases |items|
  {
    if |items| == 0 then current else PushAll(Push(current, items[0]), items[1..])
  }

  /** `Pattern::concat`: pushes every item onto the first; no item gives the
      default pattern. */
  function Concat(items: seq<Pattern>): Pattern
  {
    if |items| == 0 then Default else PushAll(items[0], items[1..])
  }

  lemma {:induction false} PushAllTokens(current: Pattern, items: seq<Pattern>)
    requires AltFree(current) && AltFreeList(items)
    ensures AltFree(PushAll(current, items))
    ensures Tokens(PushAll(current, items)) == Tokens(current) + TokensList(items)
    decreases |items|
  {
    if |items| > 0 {
      PushTokens(current, items[0]);
      PushAllTokens(Push(current, items[0]), items[1..]);
    }
  }

  /** Concatenating a non-empty list of patterns means the concatenation of
      their meanings; an empty list gives `Dynamic`. */
  lemma ConcatTokens(items: seq<Pattern>)
    requires AltFreeList(items)
    ensures AltFree(Concat(items))
    ensures Tokens(Concat(items)) == if |items| == 0 then [Any] else TokensList(items)
  {
    if |items| > 0 {
      PushAllTokens(items[0], items[1..]);
    }
  }

  /** `Pattern::alternatives`: nested alternatives are spliced one level. */
  function AlternativesOf(alts: seq<Pattern>): (r: Pattern)
    ensures r.Alternatives?
  {
    Alternatives(FlattenAlternatives(alts))
  }

  function FlattenAlternatives(alts: seq<Pattern>): seq<Pattern>
  {
    if |alts| == 0 then []
    else (if alts[0].Alternatives? then alts[0].list else [alts[0]]) + FlattenAlternatives(alts[1..])
  }

  /** An alternative of `Pattern::alternatives` is a given pattern that is
      not itself alternatives, or one of the alternatives of one that is. */
  predicate SplicedFrom(alts: seq<Pattern>, p: Pattern) {
    exists i | 0 <= i < |alts| :: if alts[i].Alternatives? then p in alts[i].list else p == alts[i]
  }

  lemma {:induction false} AlternativesOfMembers(alts: seq<Pattern>, p: Pattern)
    ensures p in AlternativesOf(alts).list <==> SplicedFrom(alts, p)
    decreases |alts|
  {
    if |alts| > 0 {
      AlternativesOfMembers(alts[1..], p);
      var head := if alts[0].Alternatives? then alts[0].list else [alts[0]];
      assert FlattenAlternatives(alts) == head + FlattenAlternatives(alts[1..]);
      if SplicedFrom(alts[1..], p) {
        var i :| 0 <= i < |alts[1..]| && if alts[1..][i].Alternatives? then p in alts[1..][i].list else p == alts[1..][i];
        assert alts[i + 1] == alts[1..][i];
      }
      if SplicedFrom(alts, p) {
        var i :| 0 <= i < |alts| && if alts[i].Alternatives? then p in alts[i].list else p == alts[i];
        if i > 0 {
          assert alts[1..][i - 1] == alts[i];
        }
      }
    }
  }

  // ---------------------------------------------------------------------
  // normalize
  // ---------------------------------------------------------------------

  /** One part of a normalised concatenation: a non-empty constant or a
      dynamic part. */
  predicate IsAtom(p: Pattern) {
    (p.Constant? && p.value != "") || p.Dynamic? || p.DynamicNoSlash?
  }

  /** The shape `add_part` keeps a list in: atoms only, no two constants in a
      row, no `Dynamic` after a dynamic part, no `DynamicNoSlash` after a
      `DynamicNoSlash`. */
  predicate FlatList(list: seq<Pattern>) {
    && (forall i | 0 <= i < |list| :: IsAtom(list[i]))
    && (forall i | 0 < i < |list| :: !(list[i - 1].Constant? && list[i].Constant?))
    && (forall i | 0 < i < |list| :: !(list[i].Dynamic? && (list[i - 1].Dynamic? || list[i - 1].DynamicNoSlash?)))
    && (forall i | 0 < i < |list| :: !(list[i].DynamicNoSlash? && list[i - 1].DynamicNoSlash?))
  }

  /** `add_part` of the concatenation branch of `normalize`. */
  function AddPart(acc: seq<Pattern>, part: Pattern): seq<Pattern>
    requires AltFree(part)
    decreases part
  {
    match part
    case Constant(c) =>
      if c == "" then acc
      else if |acc| > 0 && acc[|acc| - 1].Constant? then acc[..|acc| - 1] + [Constant(acc[|acc| - 1].value + c)]
      else acc + [part]
    case Dynamic =>
      if |acc| > 0 && (acc[|acc| - 1].Dynamic? || acc[|acc| - 1].DynamicNoSlash?) then acc else acc + [Dynamic]
    case DynamicNoSlash =>
      if |acc| > 0 && acc[|acc| - 1].DynamicNoSlash? then acc else acc + [DynamicNoSlash]
    case Concatenation(parts) => AddParts(acc, parts)
  }

  function AddParts(acc: seq<Pattern>, parts: seq<Pattern>): seq<Pattern>
    requires AltFreeList(parts)
    decreases parts
  {
    if |parts| == 0 then acc else AddParts(AddPart(acc, parts[0]), parts[1..])
  }

  lemma {:induction false} AddPartFlat(acc: seq<Pattern>, part: Pattern)
    requires AltFree(part) && FlatList(acc)
    ensures FlatList(AddPart(acc, part))
    decreases part
  {
    if part.Concatenation? {
      AddPartsFlat(acc, part.list);
    }
  }

  lemma {:induction false} AddPartsFlat(acc: seq<Pattern>, parts: seq<Pattern>)
    requires AltFreeList(parts) && FlatList(acc)
    ensures FlatList(AddParts(acc, parts))
    decreases parts
  {
    if |parts| > 0 {
      AddPartFlat(acc, parts[0]);
      AddPartsFlat(AddPart(acc, parts[0]), parts[1..]);
    }
  }

  lemma {:induction false} AddPartsSnoc(acc: seq<Pattern>, parts: seq<Pattern>, p: Pattern)
    requires AltFreeList(parts) && AltFree(p)
    ensures AltFreeList(parts + [p])
    ensures AddParts(acc, parts + [p]) == AddPart(AddParts(acc, parts), p)
    decreases |parts|
  {
    if |parts| == 0 {
      assert [p][1..] == [];
    } else {
      assert (parts + [p])[1..] == parts[1..] + [p];
      AddPartsSnoc(AddPart(acc, parts[0]), parts[1..], p);
    }
  }

  // The effect of `normalize` on the meaning: dynamic placeholders absorb a
  // following `Dynamic`, and `AnyNoSlash` absorbs a following `AnyNoSlash`.

  function AbsorbToken(acc: seq<Token>, t: Token): seq<Token>
  {
    match t
    case Char(_) => acc + [t]
    case Any => if |acc| > 0 && (acc[|acc| - 1].Any? || acc[|acc| - 1].AnyNoSlash?) then acc else acc + [t]
    case AnyNoSlash => if |acc| > 0 && acc[|acc| - 1].AnyNoSlash? then acc else acc + [t]
  }

  function AbsorbTokens(acc: seq<Token>, ts: seq<Token>): seq<Token>
    decreases |ts|
  {
    if |ts| == 0 then acc else AbsorbTokens(AbsorbToken(acc, ts[0]), ts[1..])
  }

  lemma {:induction false} AbsorbTokensAppend(acc: seq<Token>, a: seq<Token>, b: seq<Token>)
    ensures AbsorbTokens(acc, a + b) == AbsorbTokens(AbsorbTokens(acc, a), b)
    decreases |a|
  {
    if |a| > 0 {
      assert (a + b)[1..] == a[1..] + b;
      AbsorbTokensAppend(AbsorbToken(acc, a[0]), a[1..], b);
    } else {
      assert a + b == b;
    }
  }

  lemma {:induction false} AbsorbChars(acc: seq<Token>, s: string)
    ensures AbsorbTokens(acc, CharTokens(s)) == acc + CharTokens(s)
    decreases |s|
  {
    if |s| > 0 {
      assert CharTokens(s)[1..] == CharTokens(s[1..]);
      AbsorbChars(acc + [Char(s[0])], s[1..]);
    }
  }

  lemma {:induction false} FlatListTokensLast(list: seq<Pattern>)
    requires FlatList(list) && |list| > 0
    ensures AltFreeList(list)
    ensures var ts := TokensList(list);
      |ts| > 0 &&
      (list[|list| - 1].Constant? ==> ts[|ts| - 1].Char?) &&
      (list[|list| - 1].Dynamic? ==> ts[|ts| - 1] == Any) &&
      (list[|list| - 1].DynamicNoSlash? ==> ts[|ts| - 1] == AnyNoSlash)
  {
    var n := |list|;
    assert list == list[..n - 1] + [list[n - 1]];
    TokensListAppend(list[..n - 1], [list[n - 1]]);
  }

  lemma AddConstantTokens(acc: seq<Pattern>, c: string)
    requires FlatList(acc)
    ensures AltFreeList(acc) && AltFreeList(AddPart(acc, Constant(c)))
    ensures TokensList(AddPart(acc, Constant(c))) == AbsorbTokens(TokensList(acc), CharTokens(c))
  {
    AddPartFlat(acc, Constant(c));
    AbsorbChars(TokensList(acc), c);
    var n := |acc|;
    if c != "" && n > 0 && acc[n - 1].Constant? {
      MergedConstantTokens(acc[..n - 1], acc[n - 1].value, c);
      assert acc == acc[..n - 1] + [acc[n - 1]];
    } else if c != "" {
      TokensListAppend(acc, [Constant(c)]);
    }
  }

  /** Merging `c` into a last constant `d` writes the characters of `c`
      after those of `d`. */
  lemma MergedConstantTokens(init: seq<Pattern>, d: string, c: string)
    requires AltFreeList(init)
    ensures AltFreeList(init + [Constant(d)]) && AltFreeList(init + [Constant(d + c)])
    ensures TokensList(init + [Constant(d + c)]) == TokensList(init + [Constant(d)]) + CharTokens(c)
  {
    TokensListAppend(init, [Constant(d)]);
    TokensListAppend(init, [Constant(d + c)]);
    calc {
      TokensList(init + [Constant(d + c)]);
      TokensList(init) + TokensList([Constant(d + c)]);
      { TokensSingle(Constant(d + c)); }
      TokensList(init) + CharTokens(d + c);
      { CharTokensAppend(d, c); }
      TokensList(init) + CharTokens(d) + CharTokens(c);
      { TokensSingle(Constant(d)); }
      TokensList(init + [Constant(d)]) + CharTokens(c);
    }
  }

  lemma TokensListCons(p: Pattern, rest: seq<Pattern>)
    requires AltFree(p) && AltFreeList(rest)
    ensures AltFreeList([p] + rest) && TokensList([p] + rest) == Tokens(p) + TokensList(rest)
  {
    assert ([p] + rest)[0] == p && ([p] + rest)[1..] == rest;
  }

  lemma TokensSingle(p: Pattern)
    requires AltFree(p)
    ensures AltFreeList([p]) && TokensList([p]) == Tokens(p)
  {
    assert [p][1..] == [];
  }

  lemma AddDynamicTokens(acc: seq<Pattern>, part: Pattern)
    requires (part.Dynamic? || part.DynamicNoSlash?) && FlatList(acc)
    ensures AltFreeList(acc) && AltFreeList(AddPart(acc, part))
    ensures TokensList(AddPart(acc, part)) == AbsorbTokens(TokensList(acc), Tokens(part))
  {
    AddPartFlat(acc, part);
    if |acc| > 0 {
      FlatListTokensLast(acc);
    }
    assert Tokens(part)[1..] == [];
    TokensListAppend(acc, [part]);
  }

  /** `add_part` keeps the meaning up to absorbed dynamic parts. */
  lemma {:induction false} AddPartTokens(acc: seq<Pattern>, part: Pattern)
    requires AltFree(part) && FlatList(acc)
    ensures AltFreeList(acc) && AltFreeList(AddPart(acc, part))
    ensures TokensList(AddPart(acc, part)) == AbsorbTokens(TokensList(acc), Tokens(part))
    decreases part
  {
    match part
    case Concatenation(parts) => AddPartsTokens(acc, parts);
    case Constant(c) => AddConstantTokens(acc, c);
    case _ => AddDynamicTokens(acc, part);
  }

  lemma {:induction false} AddPartsTokens(acc: seq<Pattern>, parts: seq<Pattern>)
    requires AltFreeList(parts) && FlatList(acc)
    ensures AltFreeList(acc) && AltFreeList(AddParts(acc, parts))
    ensures TokensList(AddParts(acc, parts)) == AbsorbTokens(TokensList(acc), TokensList(parts))
    decreases parts
  {
    AddPartsFlat(acc, parts);
    if |parts| == 0 {
    } else {
      AddPartTokens(acc, parts[0]);
      AddPartFlat(acc, parts[0]);
      AddPartsTokens(AddPart(acc, parts[0]), parts[1..]);
      AbsorbTokensAppend(TokensList(acc), Tokens(parts[0]), TokensList(parts[1..]));
    }
  }

  /** The `add_part` loop of the concatenation branch of `normalize`: the
      parts are folded into a flat list that means the same, up to absorbed
      dynamic parts. */
  method NormalizeConcatenationParts(parts: seq<Pattern>) returns (newParts: seq<Pattern>)
    requires AltFreeList(parts)
    ensures newParts == AddParts([], parts)
    ensures FlatList(newParts) && AltFreeList(newParts)
    ensures TokensList(newParts) == AbsorbTokens([], TokensList(parts))
  {
    newParts := [];
    var i := 0;
    while i < |parts|
      invariant 0 <= i <= |parts|
      invariant AltFreeList(parts[..i])
      invariant newParts == AddParts([], parts[..i])
    {
      AddPartsSnoc([], parts[..i], parts[i]);
      assert parts[..i + 1] == parts[..i] + [parts[i]];
      newParts := AddPart(newParts, parts[i]);
      i := i + 1;
    }
    assert parts[..i] == parts;
    AddPartsFlat([], parts);
    AddPartsTokens([], parts);
  }

  /** The concatenation branch of `normalize` without alternatives: a list of
      one item collapses to that item. */
  function CollapseConcatenation(parts: seq<Pattern>): Pattern
  {
    if |parts| == 1 then parts[0] else Concatenation(parts)
  }

  /** `normalize` on a pattern without alternatives. */
  function NormalizeAltFree(p: Pattern): (r: Pattern)
    requires AltFree(p)
    ensures AltFree(r)
    ensures r.Concatenation? ==> FlatList(r.list)
    ensures r.Constant? || r.Dynamic? || r.DynamicNoSlash? || r.Concatenation?
  {
    match p
    case Concatenation(list) =>
      var parts := NormalizeEachAltFree(list);
      AddPartsFlat([], parts);
      CollapseConcatenation(AddParts([], parts))
    case _ => p
  }

  function NormalizeEachAltFree(list: seq<Pattern>): (r: seq<Pattern>)
    requires AltFreeList(list)
    ensures |r| == |list| && AltFreeList(r)
    ensures forall i | 0 <= i < |list| :: r[i] == NormalizeAltFree(list[i])
  {
    if |list| == 0 then [] else [NormalizeAltFree(list[0])] + NormalizeEachAltFree(list[1..])
  }

  /** `normalize` keeps the meaning of a pattern without alternatives, up to
      a dynamic part absorbing a following one. */
  lemma {:induction false} NormalizeAltFreeTokens(p: Pattern)
    requires AltFree(p)
    ensures Tokens(NormalizeAltFree(p)) == AbsorbTokens([], Tokens(p))
    decreases p, 1
  {
    match p
    case Constant(s) => AbsorbChars([], s);
    case Dynamic => assert [Any][1..] == [];
    case DynamicNoSlash => assert [AnyNoSlash][1..] == [];
    case Concatenation(list) =>
      var parts := NormalizeEachAltFree(list);
      AddPartsTokens([], parts);
      var flat := AddParts([], parts);
      NormalizeEachTokens(list, []);
      if |flat| == 1 {
        assert TokensList(flat) == Tokens(flat[0]) + TokensList([]);
      }
  }

  /** Normalising the parts one by one and then absorbing gives the same
      meaning as absorbing the original parts. */
  lemma {:induction false} NormalizeEachTokens(list: seq<Pattern>, acc: seq<Token>)
    requires AltFreeList(list)
    ensures AbsorbTokens(acc, TokensList(NormalizeEachAltFree(list))) == AbsorbTokens(acc, TokensList(list))
    decreases list, 0
  {
    if |list| > 0 {
      var r := NormalizeEachAltFree(list);
      assert r[1..] == NormalizeEachAltFree(list[1..]);
      NormalizeAltFreeTokens(list[0]);
      AbsorbTokensAppend(acc, Tokens(r[0]), TokensList(r[1..]));
      AbsorbTokensAppend(acc, Tokens(list[0]), TokensList(list[1..]));
      AbsorbIdempotent(acc, Tokens(list[0]));
      NormalizeEachTokens(list[1..], AbsorbTokens(acc, Tokens(list[0])));
    }
  }

  /** What a final token absorbs. */
  predicate Absorbs(last: Token, t: Token) {
    (t.Any? && (last.Any? || last.AnyNoSlash?)) || (t.AnyNoSlash? && last.AnyNoSlash?)
  }

  /** The end of an absorbed list absorbs at least what the end of the
      absorbed tokens does. */
  lemma AbsorbLast(acc: seq<Token>, b: seq<Token>, t: Token)
    requires |b| > 0 && Absorbs(b[|b| - 1], t)
    ensures var r := AbsorbTokens(acc, b); |r| > 0 && Absorbs(r[|r| - 1], t)
  {
    var n := |b|;
    assert b == b[..n - 1] + [b[n - 1]];
    AbsorbTokensAppend(acc, b[..n - 1], [b[n - 1]]);
  }

  /** Absorbing in two stages is absorbing in one. */
  lemma {:induction false} AbsorbAssociative(acc: seq<Token>, b: seq<Token>, ts: seq<Token>)
    ensures AbsorbTokens(acc, AbsorbTokens(b, ts)) == AbsorbTokens(AbsorbTokens(acc, b), ts)
    decreases |ts|
  {
    if |ts| > 0 {
      var t := ts[0];
      var b' := AbsorbToken(b, t);
      AbsorbAssociative(acc, b', ts[1..]);
      if b' == b + [t] {
        AbsorbTokensAppend(acc, b, [t]);
      } else {
        assert |b| > 0 && Absorbs(b[|b| - 1], t);
        AbsorbLast(acc, b, t);
      }
    }
  }

  /** Absorbing twice is absorbing once. */
  lemma AbsorbIdempotent(acc: seq<Token>, ts: seq<Token>)
    ensures AbsorbTokens(acc, AbsorbTokens([], ts)) == AbsorbTokens(acc, ts)
  {
    AbsorbAssociative(acc, [], ts);
  }

  /** The shape `normalize` produces: a pattern without alternatives, or
      alternatives of patterns without alternatives. */
  predicate NormalForm(p: Pattern) {
    AltFree(p) || (p.Alternatives? && AltFreeList(p.list))
  }

  /** `Pattern::normalize`: orders a pattern into alternatives of
      concatenations of constants and dynamic parts, merging where possible. */
  function Normalize(p: Pattern): (r: Pattern)
    ensures NormalForm(r)
    ensures AltFree(p) ==> r == NormalizeAltFree(p)
  {
    if AltFree(p) then NormalizeAltFree(p)
    else match p
      case Alternatives(list) => FinishAlternatives(NormalizeEach(list))
      case Concatenation(list) => NormalizeConcatenation(NormalizeEach(list))
  }

  /** The concatenation branch of `normalize` once every part is normalised:
      a part with alternatives makes the concatenation distribute over them. */
  function NormalizeConcatenation(parts: seq<Pattern>): (r: Pattern)
    requires forall i | 0 <= i < |parts| :: NormalForm(parts[i])
    ensures NormalForm(r)
  {
    if exists i | 0 <= i < |parts| :: parts[i].Alternatives? then
      DistributeShape([[]], parts);
      FinishAlternatives(NormalizeEachAltFree(CollapseEach(Distribute([[]], parts))))
    else
      NoAlternativesAltFree(parts);
      AddPartsFlat([], parts);
      CollapseConcatenation(AddParts([], parts))
  }

  function NormalizeEach(list: seq<Pattern>): (r: seq<Pattern>)
    ensures |r| == |list|
    ensures forall i | 0 <= i < |list| :: r[i] == Normalize(list[i]) && NormalForm(r[i])
  {
    if |list| == 0 then [] else [Normalize(list[0])] + NormalizeEach(list[1..])
  }

  /** The parts a pattern contributes to a concatenation being distributed. */
  function Pieces(p: Pattern): (r: seq<Pattern>)
    requires AltFree(p)
    ensures AltFreeList(r)
  {
    if p.Concatenation? then p.list else [p]
  }

  function AppendToEach(cur: seq<seq<Pattern>>, ps: seq<Pattern>): (r: seq<seq<Pattern>>)
    ensures |r| == |cur|
    ensures forall i | 0 <= i < |cur| :: r[i] == cur[i] + ps
  {
    seq(|cur|, i requires 0 <= i < |cur| => cur[i] + ps)
  }

  /** Every alternative of a part, in order, after every concatenation built
      so far, in order. */
  function Combine(alts: seq<Pattern>, cur: seq<seq<Pattern>>): (r: seq<seq<Pattern>>)
    requires AltFreeList(alts)
    ensures |r| == |alts| * |cur|
  {
    if |alts| == 0 then [] else AppendToEach(cur, Pieces(alts[0])) + Combine(alts[1..], cur)
  }

  /** The distribution loop of the concatenation branch of `normalize`. */
  function Distribute(cur: seq<seq<Pattern>>, parts: seq<Pattern>): seq<seq<Pattern>>
    requires forall i | 0 <= i < |parts| :: NormalForm(parts[i])
    decreases |parts|
  {
    if |parts| == 0 then cur
    else
      var part := parts[0];
      assert NormalForm(part);
      var next := if part.Alternatives? then Combine(part.list, cur) else AppendToEach(cur, Pieces(part));
      Distribute(next, parts[1..])
  }

  /** How many alternatives a part contributes. */
  function Choices(p: Pattern): nat {
    if p.Alternatives? then |p.list| else 1
  }

  function ChoicesProduct(parts: seq<Pattern>): nat {
    if |parts| == 0 then 1 else Choices(parts[0]) * ChoicesProduct(parts[1..])
  }

  predicate AllAltFree(cur: seq<seq<Pattern>>) {
    forall i | 0 <= i < |cur| :: AltFreeList(cur[i])
  }

  lemma CombineAltFree(alts: seq<Pattern>, cur: seq<seq<Pattern>>)
    requires AltFreeList(alts) && AllAltFree(cur)
    ensures AllAltFree(Combine(alts, cur))
  {
    if |alts| > 0 {
      CombineAltFree(alts[1..], cur);
    }
  }

  lemma NoAlternativesAltFree(parts: seq<Pattern>)
    requires forall i | 0 <= i < |parts| :: NormalForm(parts[i])
    requires !exists i | 0 <= i < |parts| :: parts[i].Alternatives?
    ensures AltFreeList(parts)
  {
    forall i | 0 <= i < |parts| ensures AltFree(parts[i]) {
      assert NormalForm(parts[i]) && !parts[i].Alternatives?;
    }
  }

  /** Every concatenation built by distribution is free of alternatives. */
  lemma {:induction false} DistributeAltFree(cur: seq<seq<Pattern>>, parts: seq<Pattern>)
    requires forall i | 0 <= i < |parts| :: NormalForm(parts[i])
    requires AllAltFree(cur)
    ensures AllAltFree(Distribute(cur, parts))
    decreases |parts|
  {
    if |parts| > 0 {
      var part := parts[0];
      assert NormalForm(part);
      if part.Alternatives? {
        CombineAltFree(part.list, cur);
        DistributeAltFree(Combine(part.list, cur), parts[1..]);
      } else {
        DistributeAltFree(AppendToEach(cur, Pieces(part)), parts[1..]);
      }
    }
  }

  /** Distribution builds one concatenation per choice of one alternative of
      every part. */
  lemma {:induction false} DistributeCount(cur: seq<seq<Pattern>>, parts: seq<Pattern>)
    requires forall i | 0 <= i < |parts| :: NormalForm(parts[i])
    ensures |Distribute(cur, parts)| == |cur| * ChoicesProduct(parts)
    decreases |parts|
  {
    if |parts| > 0 {
      var part := parts[0];
      assert NormalForm(part);
      var next := if part.Alternatives? then Combine(part.list, cur) else AppendToEach(cur, Pieces(part));
      assert Distribute(cur, parts) == Distribute(next, parts[1..]);
      DistributeCount(next, parts[1..]);
      assert |next| == Choices(part) * |cur|;
      assert ChoicesProduct(parts) == Choices(part) * ChoicesProduct(parts[1..]);
      MulRegroup(|cur|, Choices(part), ChoicesProduct(parts[1..]));
    }
  }

  lemma MulRegroup(a: nat, b: nat, c: nat)
    ensures (b * a) * c == a * (b * c)
  {
  }

  lemma DistributeShape(cur: seq<seq<Pattern>>, parts: seq<Pattern>)
    requires forall i | 0 <= i < |parts| :: NormalForm(parts[i])
    requires AllAltFree(cur)
    ensures |Distribute(cur, parts)| == |cur| * ChoicesProduct(parts)
    ensures AllAltFree(Distribute(cur, parts))
  {
    DistributeAltFree(cur, parts);
    DistributeCount(cur, parts);
  }

  function CollapseEach(alts: seq<seq<Pattern>>): (r: seq<Pattern>)
    requires AllAltFree(alts)
    ensures |r| == |alts| && AltFreeList(r)
  {
    if |alts| == 0 then [] else [CollapseConcatenation(alts[0])] + CollapseEach(alts[1..])
  }

  /** The alternatives branch of `normalize` after its children are
      normalised: nested alternatives are spliced, only the first `Dynamic`
      alternative is kept, and a single alternative stands for itself. */
  function FinishAlternatives(children: seq<Pattern>): (r: Pattern)
    requires forall i | 0 <= i < |children| :: NormalForm(children[i])
    ensures NormalForm(r)
  {
    FlattenNormalForms(children);
    var kept := KeepFirstDynamic(FlattenAlternatives(children), false);
    if |kept| == 1 then kept[0] else Alternatives(kept)
  }

  lemma FlattenNormalForms(children: seq<Pattern>)
    requires forall i | 0 <= i < |children| :: NormalForm(children[i])
    ensures AltFreeList(FlattenAlternatives(children))
  {
    if |children| > 0 {
      FlattenNormalForms(children[1..]);
      var head := if children[0].Alternatives? then children[0].list else [children[0]];
      assert AltFreeList(head);
    }
  }

  function KeepFirstDynamic(list: seq<Pattern>, seen: bool): (r: seq<Pattern>)
    ensures forall i | 0 <= i < |r| :: r[i] in list
  {
    if |list| == 0 then []
    else if list[0] == Dynamic then
      (if seen then [] else [Dynamic]) + KeepFirstDynamic(list[1..], true)
    else [list[0]] + KeepFirstDynamic(list[1..], seen)
  }

  function WithoutDynamic(list: seq<Pattern>): seq<Pattern> {
    if |list| == 0 then []
    else (if list[0] == Dynamic then [] else [list[0]]) + WithoutDynamic(list[1..])
  }

  /** Deduplicating `Dynamic` alternatives keeps every other alternative in
      order, keeps one `Dynamic` if there was one, and never two. */
  lemma {:induction false} KeepFirstDynamicSpec(list: seq<Pattern>, seen: bool)
    ensures WithoutDynamic(KeepFirstDynamic(list, seen)) == WithoutDynamic(list)
    ensures !seen && Dynamic in list ==> Dynamic in KeepFirstDynamic(list, seen)
    ensures seen ==> Dynamic !in KeepFirstDynamic(list, seen)
    ensures forall i, j | 0 <= i < j < |KeepFirstDynamic(list, seen)| ::
      !(KeepFirstDynamic(list, seen)[i] == Dynamic && KeepFirstDynamic(list, seen)[j] == Dynamic)
  {
    if |list| > 0 {
      var rest := KeepFirstDynamic(list[1..], list[0] == Dynamic || seen);
      KeepFirstDynamicSpec(list[1..], list[0] == Dynamic || seen);
      var head := if list[0] == Dynamic then (if seen then [] else [Dynamic]) else [list[0]];
      assert KeepFirstDynamic(list, seen) == head + rest;
      WithoutDynamicAppend(head, rest);
    }
  }

  lemma WithoutDynamicAppend(a: seq<Pattern>, b: seq<Pattern>)
    ensures WithoutDynamic(a + b) == WithoutDynamic(a) + WithoutDynamic(b)
  {
    if |a| > 0 {
      assert (a + b)[1..] == a[1..] + b;
      WithoutDynamicAppend(a[1..], b);
    } else {
      assert a + b == b;
    }
  }

  /** A normalised alternatives pattern has no nested alternatives, at most
      one `Dynamic` alternative and never exactly one alternative. */
  lemma NormalizedAlternatives(children: seq<Pattern>)
    requires forall i | 0 <= i < |children| :: NormalForm(children[i])
    ensures var r := FinishAlternatives(children);
      r.Alternatives? ==>
        && |r.list| != 1
        && AltFreeList(r.list)
        && forall i, j | 0 <= i < j < |r.list| :: !(r.list[i] == Dynamic && r.list[j] == Dynamic)
  {
    var flat := FlattenAlternatives(children);
    FlattenNormalForms(children);
    KeepFirstDynamicSpec(flat, false);
    var kept := KeepFirstDynamic(flat, false);
    assert forall i | 0 <= i < |kept| :: kept[i] in flat;
    if |kept| == 1 {
      assert kept[0] in flat;
    }
  }
}
