/** Prefix matching of request patterns against a string
    (`Pattern::match_internal`, `match_collect_internal`, `MatchResult` and
    `match_apply_template` in turbopack-core/src/resolve/pattern.rs).

    A constant must appear next in the value, or, after a dynamic part, at
    or before the offset up to which that dynamic part may extend. A dynamic
    part may extend over the whole rest of the value, except that it stops
    before the first "forbidden" segment ("ROOT", anything starting with
    ".", an empty segment, "node_modules", "__tests__" or "__test__"), and it
    never completes a value ending in ".d.ts" or ".map". The two regular
    expressions of the source are written out as the predicates
    `ForbiddenAt` and `ForbiddenMatch`. */
module PatternMatch {
  import opened Wrappers
  import opened Text
  import opened Patterns

  /** Whether the text matched so far ends in a `node_modules` folder. */
  datatype InNodeModules = NotInNodeModules | FolderMatched | FolderSlashMatched

  /** `InNodeModules::check` */
  function CheckNodeModules(value: string): InNodeModules {
    if EndsWith(value, "node_modules/") then FolderSlashMatched
    else if EndsWith(value, "node_modules") then FolderMatched
    else NotInNodeModules
  }

  datatype MatchResult =
    | NoMatch
    | Partial
      /** The whole pattern matched. `anyOffset` is set when it ends with a
          dynamic part that could extend that many characters further. */
    | Consumed(remaining: string, anyOffset: Option<nat>, inNodeModules: InNodeModules)
  {
    /** The whole pattern matches the whole string. */
    predicate IsMatch() {
      Consumed? && (if anyOffset.Some? then anyOffset.value == |remaining| else remaining == "")
    }

    /** Part of the pattern matches the whole string and could match more. */
    predicate CouldMatchOthers() {
      Partial? || (Consumed? && anyOffset.Some? && anyOffset.value == |remaining|)
    }

    /** Part of the pattern matches the whole string. */
    predicate CouldMatch() {
      Partial? || IsMatch()
    }
  }

  // ---------------------------------------------------------------------
  // The two regular expressions
  // ---------------------------------------------------------------------

  /** `w` starts with the segment `name`, followed by "/" or the end. */
  predicate SegmentAt(w: string, name: string) {
    StartsWith(w, name) && (|w| == |name| || w[|name|] == '/')
  }

  /** The part of `ROOT|\.|/|(node_modules|__tests?__)(/|$)` after the
      leading "/" or start of text. */
  predicate ForbiddenRest(w: string) {
    || StartsWith(w, "ROOT")
    || StartsWith(w, ".")
    || StartsWith(w, "/")
    || SegmentAt(w, "node_modules")
    || SegmentAt(w, "__tests__")
    || SegmentAt(w, "__test__")
  }

  /** `(/|^)(…)` matches starting at index `i`. */
  predicate ForbiddenAt(v: string, i: nat) {
    || (i < |v| && v[i] == '/' && ForbiddenRest(v[i + 1..]))
    || (i == 0 && ForbiddenRest(v))
  }

  function FindForbiddenFrom(v: string, i: nat): (r: Option<nat>)
    ensures r.Some? ==> i <= r.value < |v| && ForbiddenAt(v, r.value)
    ensures r.Some? ==> forall j: nat | i <= j < r.value :: !ForbiddenAt(v, j)
    ensures r.None? ==> forall j: nat | i <= j :: !ForbiddenAt(v, j)
    decreases |v| - i
  {
    if i >= |v| then None
    else if ForbiddenAt(v, i) then Some(i)
    else FindForbiddenFrom(v, i + 1)
  }

  /** `FORBIDDEN.find(value)`: the start of the leftmost match. */
  function FindForbidden(v: string): (r: Option<nat>)
    ensures r.Some? ==> r.value < |v| && ForbiddenAt(v, r.value)
    ensures r.Some? ==> forall j: nat | j < r.value :: !ForbiddenAt(v, j)
    ensures r.None? <==> forall j: nat :: !ForbiddenAt(v, j)
  {
    FindForbiddenFrom(v, 0)
  }

  /** `FORBIDDEN_MATCH`: `\.d\.ts$|\.map$` */
  predicate ForbiddenMatch(v: string) {
    EndsWith(v, ".d.ts") || EndsWith(v, ".map")
  }

  // ---------------------------------------------------------------------
  // match_internal
  // ---------------------------------------------------------------------

  function MatchConstant(c: string, value: string, anyOffset: Option<nat>): MatchResult {
    match anyOffset
    case Some(offset) =>
      (match Find(value, c)
       case Some(index) =>
         if index <= offset then Consumed(value[index + |c|..], None, CheckNodeModules(c))
         else NoMatch
       case None => if offset >= |value| then Partial else NoMatch)
    case None =>
      if StartsWith(value, c) then Consumed(value[|c|..], None, CheckNodeModules(c))
      else if StartsWith(c, value) then Partial
      else NoMatch
  }

  /** How far a dynamic part may extend over `value` when nothing forbidden
      stops it: all of it, or up to the first "/" for `DynamicNoSlash`. */
  function DynamicExtent(noSlash: bool, value: string): (r: nat)
    ensures r <= |value|
  {
    if noSlash then
      match IndexOf(value, '/')
      case Some(k) => k
      case None => |value|
    else |value|
  }

  function MatchDynamic(noSlash: bool, value: string, inNodeModules: InNodeModules, ignoreDynamic: bool)
    : MatchResult
  {
    if inNodeModules == FolderSlashMatched || (inNodeModules == FolderMatched && StartsWith(value, "/")) then
      NoMatch
    else match FindForbidden(value)
      case Some(m) => Consumed(value, Some(m), NotInNodeModules)
      case None =>
        if ForbiddenMatch(value) then Partial
        else if ignoreDynamic then NoMatch
        else Consumed(value, Some(DynamicExtent(noSlash, value)), NotInNodeModules)
  }

  /** `match_internal` on an alternative-free pattern (alternatives make the
      source panic: a pattern must be normalised before it is matched). */
  function MatchInternal(p: Pattern, value: string, anyOffset: Option<nat>, inNodeModules: InNodeModules,
                         ignoreDynamic: bool): MatchResult
    requires AltFree(p)
    decreases p, 1
  {
    match p
    case Constant(c) => MatchConstant(c, value, anyOffset)
    case Dynamic => MatchDynamic(false, value, inNodeModules, ignoreDynamic)
    case DynamicNoSlash => MatchDynamic(true, value, inNodeModules, ignoreDynamic)
    case Concatenation(list) => MatchList(list, value, anyOffset, inNodeModules, ignoreDynamic)
  }

  /** The loop over a concatenation: stop at the first part that does not
      consume, otherwise carry its remaining value and state to the next. */
  function MatchList(list: seq<Pattern>, value: string, anyOffset: Option<nat>, inNodeModules: InNodeModules,
                     ignoreDynamic: bool): MatchResult
    requires AltFreeList(list)
    decreases list, 0
  {
    if |list| == 0 then Consumed(value, anyOffset, inNodeModules)
    else match MatchInternal(list[0], value, anyOffset, inNodeModules, ignoreDynamic)
      case NoMatch => NoMatch
      case Partial => Partial
      case Consumed(v, o, n) => MatchList(list[1..], v, o, n, ignoreDynamic)
  }

  /** `match_internal` as the source runs it: a loop over a concatenation
      that updates the value, the offset and the node_modules state. */
  method MatchPattern(p: Pattern, value: string, anyOffset: Option<nat>, inNodeModules: InNodeModules,
                      ignoreDynamic: bool) returns (r: MatchResult)
    requires AltFree(p)
    ensures r == MatchInternal(p, value, anyOffset, inNodeModules, ignoreDynamic)
    decreases p
  {
    match p {
      case Constant(c) =>
        r := MatchConstant(c, value, anyOffset);
      case Dynamic =>
        r := MatchDynamic(false, value, inNodeModules, ignoreDynamic);
      case DynamicNoSlash =>
        r := MatchDynamic(true, value, inNodeModules, ignoreDynamic);
      case Concatenation(list) =>
        var v, o, n := value, anyOffset, inNodeModules;
        var i := 0;
        while i < |list|
          invariant 0 <= i <= |list|
          invariant MatchList(list, value, anyOffset, inNodeModules, ignoreDynamic)
            == MatchList(list[i..], v, o, n, ignoreDynamic)
        {
          assert list[i..][0] == list[i] && list[i..][1..] == list[i + 1..];
          var part := MatchPattern(list[i], v, o, n, ignoreDynamic);
          match part {
            case NoMatch =>
              return NoMatch;
            case Partial =>
              return Partial;
            case Consumed(v', o', n') =>
              v, o, n := v', o', n';
          }
          i := i + 1;
        }
        r := Consumed(v, o, n);
    }
  }

  // ---------------------------------------------------------------------
  // The pattern-level queries
  // ---------------------------------------------------------------------

  /** Matching from the start of a value with no pending dynamic part. */
  function Start(p: Pattern, value: string, ignoreDynamic: bool): MatchResult
    requires AltFree(p)
  {
    MatchInternal(p, value, None, NotInNodeModules, ignoreDynamic)
  }

  /** The first alternative whose match result satisfies `IsMatch`. */
  function FirstMatch(list: seq<Pattern>, value: string): (r: Option<nat>)
    requires AltFreeList(list)
    ensures r.Some? ==> r.value < |list| && Start(list[r.value], value, false).IsMatch()
    ensures r.Some? ==> forall j | 0 <= j < r.value :: !Start(list[j], value, false).IsMatch()
    ensures r.None? ==> forall j | 0 <= j < |list| :: !Start(list[j], value, false).IsMatch()
  {
    if |list| == 0 then None
    else if Start(list[0], value, false).IsMatch() then Some(0)
    else match FirstMatch(list[1..], value)
      case None => None
      case Some(k) => Some(k + 1)
  }

  /** `Pattern::is_match`: some alternative matches the whole value. */
  predicate IsMatch(p: Pattern, value: string)
    requires NormalForm(p)
  {
    if p.Alternatives? then exists i | 0 <= i < |p.list| :: Start(p.list[i], value, false).IsMatch()
    else Start(p, value, false).IsMatch()
  }

  /** `Pattern::is_match_ignore_dynamic` */
  predicate IsMatchIgnoreDynamic(p: Pattern, value: string)
    requires NormalForm(p)
  {
    if p.Alternatives? then exists i | 0 <= i < |p.list| :: Start(p.list[i], value, true).IsMatch()
    else Start(p, value, true).IsMatch()
  }

  /** `Pattern::could_match`: some alternative could match a value starting
      with `value`. */
  predicate CouldMatch(p: Pattern, value: string)
    requires NormalForm(p)
  {
    if p.Alternatives? then exists i | 0 <= i < |p.list| :: Start(p.list[i], value, false).CouldMatch()
    else Start(p, value, false).CouldMatch()
  }

  /** `Pattern::must_match`: every alternative could match. */
  predicate MustMatch(p: Pattern, value: string)
    requires NormalForm(p)
  {
    if p.Alternatives? then forall i | 0 <= i < |p.list| :: Start(p.list[i], value, false).CouldMatch()
    else Start(p, value, false).CouldMatch()
  }

  /** `Pattern::could_match_others` */
  predicate CouldMatchOthers(p: Pattern, value: string)
    requires NormalForm(p)
  {
    if p.Alternatives? then exists i | 0 <= i < |p.list| :: Start(p.list[i], value, false).CouldMatchOthers()
    else Start(p, value, false).CouldMatchOthers()
  }

  /** `Pattern::match_position`: the index of the first alternative that
      matches, or 0 for a pattern without alternatives that matches. */
  function MatchPosition(p: Pattern, value: string): (r: Option<nat>)
    requires NormalForm(p)
    ensures r.Some? <==> IsMatch(p, value)
    ensures r.Some? && !p.Alternatives? ==> r.value == 0
    ensures r.Some? && p.Alternatives? ==>
      r.value < |p.list| && Start(p.list[r.value], value, false).IsMatch()
      && forall j | 0 <= j < r.value :: !Start(p.list[j], value, false).IsMatch()
  {
    if p.Alternatives? then FirstMatch(p.list, value)
    else if Start(p, value, false).IsMatch() then Some(0)
    else None
  }

  // ---------------------------------------------------------------------
  // Properties of single parts
  // ---------------------------------------------------------------------

  /** A constant matches exactly itself. */
  lemma ConstantIsMatch(c: string, v: string)
    ensures IsMatch(Constant(c), v) <==> v == c
  {
    if StartsWith(v, c) {
      assert v == c + v[|c|..];
    }
  }

  /** A constant could match exactly the prefixes of itself. */
  lemma ConstantCouldMatch(c: string, v: string)
    ensures CouldMatch(Constant(c), v) <==> StartsWith(c, v)
  {
    if StartsWith(v, c) && |v| > |c| {
      assert v[|c|..] != "";
    }
  }

  /** A bare dynamic part matches a value iff no forbidden segment occurs in
      it and it does not end in ".d.ts" or ".map". */
  lemma DynamicIsMatch(v: string)
    ensures IsMatch(Dynamic, v) <==> (forall j: nat :: !ForbiddenAt(v, j)) && !ForbiddenMatch(v)
  {
  }

  /** `DynamicNoSlash` additionally never spans a "/". */
  lemma DynamicNoSlashIsMatch(v: string)
    ensures IsMatch(DynamicNoSlash, v) <==> (forall j: nat :: !ForbiddenAt(v, j)) && !ForbiddenMatch(v) && '/' !in v
  {
  }

  /** A dynamic part could match any start of a value without forbidden
      segments, including one ending in ".d.ts" or ".map" (which might go on). */
  lemma DynamicCouldMatch(v: string)
    ensures CouldMatch(Dynamic, v) <==> forall j: nat :: !ForbiddenAt(v, j)
  {
  }

  /** A forbidden segment after a "/" or at the start of the value stops any
      dynamic part: neither kind matches, nor could match, such a value. */
  lemma ForbiddenSegmentStopsDynamic(before: string, w: string, noSlash: bool)
    requires ForbiddenRest(w)
    ensures var p := if noSlash then DynamicNoSlash else Dynamic;
      && !CouldMatch(p, w) && !IsMatch(p, w)
      && !CouldMatch(p, before + "/" + w) && !IsMatch(p, before + "/" + w)
  {
    assert ForbiddenAt(w, 0);
    var v := before + "/" + w;
    assert v[|before|] == '/' && v[|before| + 1..] == w;
    assert ForbiddenAt(v, |before|);
  }

  /** The segments the tests name are all forbidden. */
  lemma ForbiddenSegments(rest: string)
    ensures ForbiddenRest("." + rest) && ForbiddenRest("/" + rest) && ForbiddenRest("ROOT" + rest)
    ensures ForbiddenRest("node_modules") && ForbiddenRest("node_modules/" + rest)
    ensures ForbiddenRest("__tests__") && ForbiddenRest("__tests__/" + rest)
    ensures ForbiddenRest("__test__") && ForbiddenRest("__test__/" + rest)
  {
    assert ("." + rest)[..1] == ".";
    assert ("/" + rest)[..1] == "/";
    assert ("ROOT" + rest)[..4] == "ROOT";
    assert ("node_modules/" + rest)[..12] == "node_modules";
    assert ("__tests__/" + rest)[..9] == "__tests__";
    assert ("__test__/" + rest)[..8] == "__test__";
  }

  /** After a constant ending in "node_modules/", no dynamic part matches
      anything: a pattern never enumerates the packages of a folder. */
  lemma NodeModulesStopsDynamic(c: string, v: string, noSlash: bool)
    requires EndsWith(c, "node_modules/")
    ensures var p := Concatenation([Constant(c), if noSlash then DynamicNoSlash else Dynamic]);
      NormalForm(p) && !CouldMatch(p, c + v) && !IsMatch(p, c + v)
  {
    var d := if noSlash then DynamicNoSlash else Dynamic;
    var list := [Constant(c), d];
    assert AltFree(Concatenation(list));
    assert (c + v)[..|c|] == c && (c + v)[|c|..] == v;
    assert list[1..] == [d];
    assert CheckNodeModules(c) == FolderSlashMatched;
    assert MatchInternal(Constant(c), c + v, None, NotInNodeModules, false) == Consumed(v, None, FolderSlashMatched);
    assert MatchList(list[1..], v, None, FolderSlashMatched, false) == NoMatch;
    assert MatchList(list, c + v, None, NotInNodeModules, false) == NoMatch;
  }

  /** A constant head is consumed and the rest of the pattern continues on the
      rest of the value. */
  lemma ConstantHead(c: string, rest: seq<Pattern>, v: string, ignoreDynamic: bool)
    requires AltFreeList(rest)
    ensures AltFreeList([Constant(c)] + rest)
    ensures MatchList([Constant(c)] + rest, c + v, None, NotInNodeModules, ignoreDynamic)
      == MatchList(rest, v, None, CheckNodeModules(c), ignoreDynamic)
  {
    var list := [Constant(c)] + rest;
    assert list[0] == Constant(c) && list[1..] == rest;
    assert (c + v)[..|c|] == c && (c + v)[|c|..] == v;
    assert AltFreeList(list) by {
      forall i | 0 <= i < |list| ensures AltFree(list[i]) {
        if i > 0 { assert list[i] == rest[i - 1]; }
      }
    }
  }

  /** A constant followed by a dynamic part matches the constant followed by
      any value the dynamic part matches on its own (when the constant does
      not end in a node_modules folder). */
  lemma ConstantThenDynamic(c: string, v: string)
    requires CheckNodeModules(c) == NotInNodeModules
    ensures NormalForm(Concatenation([Constant(c), Dynamic]))
    ensures IsMatch(Concatenation([Constant(c), Dynamic]), c + v) <==> IsMatch(Dynamic, v)
  {
    ConstantHead(c, [Dynamic], v, false);
    assert [Constant(c)] + [Dynamic] == [Constant(c), Dynamic];
    assert [Dynamic][1..] == [];
  }

  /** Ignoring dynamic parts only ever turns a result into `NoMatch`: any
      other result is the one the plain match gives. */
  lemma {:induction false} IgnoreDynamicAgrees(p: Pattern, value: string, anyOffset: Option<nat>,
                                              inNodeModules: InNodeModules)
    requires AltFree(p)
    ensures var r := MatchInternal(p, value, anyOffset, inNodeModules, true);
      r.NoMatch? || r == MatchInternal(p, value, anyOffset, inNodeModules, false)
    decreases p, 1
  {
    if p.Concatenation? {
      IgnoreDynamicAgreesList(p.list, value, anyOffset, inNodeModules);
    }
  }

  lemma {:induction false} IgnoreDynamicAgreesList(list: seq<Pattern>, value: string, anyOffset: Option<nat>,
                                                  inNodeModules: InNodeModules)
    requires AltFreeList(list)
    ensures var r := MatchList(list, value, anyOffset, inNodeModules, true);
      r.NoMatch? || r == MatchList(list, value, anyOffset, inNodeModules, false)
    decreases list, 0
  {
    if |list| > 0 {
      IgnoreDynamicAgrees(list[0], value, anyOffset, inNodeModules);
      match MatchInternal(list[0], value, anyOffset, inNodeModules, true)
      case NoMatch =>
      case Partial =>
      case Consumed(v, o, n) =>
        IgnoreDynamicAgreesList(list[1..], v, o, n);
    }
  }

  /** How the pattern-level queries relate: `is_match_ignore_dynamic`
      implies `is_match`, which implies `could_match`; `could_match_others`
      implies `could_match`; and `must_match` implies `could_match` unless
      the pattern is an empty list of alternatives. */
  lemma QueriesImply(p: Pattern, value: string)
    requires NormalForm(p)
    ensures IsMatchIgnoreDynamic(p, value) ==> IsMatch(p, value)
    ensures IsMatch(p, value) ==> CouldMatch(p, value)
    ensures CouldMatchOthers(p, value) ==> CouldMatch(p, value)
    ensures MustMatch(p, value) && !(p.Alternatives? && |p.list| == 0) ==> CouldMatch(p, value)
  {
    if p.Alternatives? {
      if IsMatchIgnoreDynamic(p, value) {
        var i :| 0 <= i < |p.list| && Start(p.list[i], value, true).IsMatch();
        IgnoreDynamicAgrees(p.list[i], value, None, NotInNodeModules);
      }
      if MustMatch(p, value) && |p.list| > 0 {
        assert Start(p.list[0], value, false).CouldMatch();
      }
    } else {
      IgnoreDynamicAgrees(p, value, None, NotInNodeModules);
    }
  }

  /** Ignoring dynamic parts, a bare dynamic part matches no value. */
  lemma DynamicIgnoredNeverMatches(v: string)
    ensures !IsMatchIgnoreDynamic(Dynamic, v) && !IsMatchIgnoreDynamic(DynamicNoSlash, v)
  {
  }

  // ---------------------------------------------------------------------
  // match_collect_internal and match_apply_template
  // ---------------------------------------------------------------------

  /** `match_collect_internal`: `match_internal` without `ignore_dynamic`,
      that also appends to `dynamics` the text matched by each dynamic part
      that a following constant or the end of the value delimits. As
      written (`keepEmpty` false) the text before a constant is appended only
      when it is non-empty; with `keepEmpty` it is always appended, as it is
      at the end of a concatenation. */
  function MatchCollect(p: Pattern, value: string, anyOffset: Option<nat>, inNodeModules: InNodeModules,
                        dynamics: seq<string>, keepEmpty: bool): (r: (MatchResult, seq<string>))
    requires AltFree(p)
    ensures r.0 == MatchInternal(p, value, anyOffset, inNodeModules, false)
    ensures |dynamics| <= |r.1| && r.1[..|dynamics|] == dynamics
    decreases p, 1
  {
    match p
    case Constant(c) =>
      var m := MatchConstant(c, value, anyOffset);
      if anyOffset.Some? && m.Consumed? then
        var index := Find(value, c).value;
        if index > 0 || keepEmpty then (m, dynamics + [value[..index]]) else (m, dynamics)
      else (m, dynamics)
    case Dynamic => (MatchDynamic(false, value, inNodeModules, false), dynamics)
    case DynamicNoSlash => (MatchDynamic(true, value, inNodeModules, false), dynamics)
    case Concatenation(list) =>
      var r := MatchCollectList(list, value, anyOffset, inNodeModules, dynamics, keepEmpty);
      if r.0.Consumed? && r.0.anyOffset.Some? && r.0.anyOffset.value == |r.0.remaining| then
        (r.0, r.1 + [r.0.remaining])
      else r
  }

  function MatchCollectList(list: seq<Pattern>, value: string, anyOffset: Option<nat>,
                            inNodeModules: InNodeModules, dynamics: seq<string>, keepEmpty: bool)
    : (r: (MatchResult, seq<string>))
    requires AltFreeList(list)
    ensures r.0 == MatchList(list, value, anyOffset, inNodeModules, false)
    ensures |dynamics| <= |r.1| && r.1[..|dynamics|] == dynamics
    decreases list, 0
  {
    if |list| == 0 then (Consumed(value, anyOffset, inNodeModules), dynamics)
    else
      var first := MatchCollect(list[0], value, anyOffset, inNodeModules, dynamics, keepEmpty);
      match first.0
      case NoMatch => (NoMatch, first.1)
      case Partial => (Partial, first.1)
      case Consumed(v, o, n) =>
        var r := MatchCollectList(list[1..], v, o, n, first.1, keepEmpty);
        assert r.1[..|dynamics|] == r.1[..|first.1|][..|dynamics|];
        r
  }

  /** A template target: constants and dynamic parts, possibly concatenated
      (anything else makes the source panic). */
  predicate TemplatePart(p: Pattern) {
    p.Constant? || p.Dynamic? || p.DynamicNoSlash?
  }

  predicate Template(p: Pattern) {
    TemplatePart(p) || (p.Concatenation? && forall i | 0 <= i < |p.list| :: TemplatePart(p.list[i]))
  }

  predicate TemplateTarget(p: Pattern) {
    Template(p) || (p.Alternatives? && forall i | 0 <= i < |p.list| :: Template(p.list[i]))
  }

  /** Fills the dynamic parts of a template with the collected texts in
      order, returning the text and the texts left over; None when a dynamic
      part finds none left. */
  function FillList(list: seq<Pattern>, dynamics: seq<string>): (r: Option<(string, seq<string>)>)
    requires forall i | 0 <= i < |list| :: TemplatePart(list[i])
    ensures r.Some? ==> |r.value.1| <= |dynamics|
  {
    if |list| == 0 then Some(("", dynamics))
    else
      var head: Option<(string, seq<string>)> :=
        if list[0].Constant? then Some((list[0].value, dynamics))
        else if |dynamics| == 0 then None
        else Some((dynamics[0], dynamics[1..]));
      match head
      case None => None
      case Some((text, left)) =>
        match FillList(list[1..], left)
        case None => None
        case Some((more, left')) => Some((text + more, left'))
  }

  function Fill(target: Pattern, dynamics: seq<string>): Option<(string, seq<string>)>
    requires Template(target)
  {
    if target.Concatenation? then FillList(target.list, dynamics) else FillList([target], dynamics)
  }

  /** The alternative `match_apply_template` selects from `p`: the one at
      `idx`, or `p` itself for index 0 when it is a constant, `Dynamic` or a
      concatenation (a bare `DynamicNoSlash` is not selected). */
  function Select(p: Pattern, idx: nat): Option<Pattern> {
    if p.Alternatives? then (if idx < |p.list| then Some(p.list[idx]) else None)
    else if (p.Constant? || p.Dynamic? || p.Concatenation?) && idx == 0 then Some(p)
    else None
  }

  function MatchApplyTemplateImpl(p: Pattern, value: string, target: Pattern, keepEmpty: bool): (r: Option<string>)
    requires NormalForm(p) && TemplateTarget(target)
    ensures r.Some? ==> IsMatch(p, value)
  {
    var idx :- MatchPosition(p, value);
    var source :- Select(p, idx);
    var t :- Select(target, idx);
    assert AltFree(source);
    var dynamics := MatchCollect(source, value, None, NotInNodeModules, [], keepEmpty).1;
    var filled :- Fill(t, dynamics);
    if filled.1 != [] then None else Some(filled.0)
  }

  /** `Pattern::match_apply_template` as written. */
  function MatchApplyTemplateAsWritten(p: Pattern, value: string, target: Pattern): (r: Option<string>)
    requires NormalForm(p) && TemplateTarget(target)
    ensures r.Some? ==> IsMatch(p, value)
  {
    MatchApplyTemplateImpl(p, value, target, false)
  }

  /** `Pattern::match_apply_template`: match `value` against `p`, collect the
      texts of its dynamic parts, and write them into the dynamic parts of
      the corresponding alternative of `target`; None when `p` does not
      match, when the alternative is missing, or when the numbers of dynamic
      texts and places differ. An empty dynamic text before a constant is
      kept (see `EmptyDynamicLostAsWritten`). */
  function MatchApplyTemplate(p: Pattern, value: string, target: Pattern): (r: Option<string>)
    requires NormalForm(p) && TemplateTarget(target)
    ensures r.Some? ==> IsMatch(p, value)
  {
    MatchApplyTemplateImpl(p, value, target, true)
  }

  /** A constant template ignores the match but needs a pattern without
      dynamic texts: matching `c` and writing `d` gives `d`. */
  lemma ConstantTemplate(c: string, d: string)
    ensures MatchApplyTemplate(Constant(c), c, Constant(d)) == Some(d)
  {
    ConstantIsMatch(c, c);
    assert c[|c|..] == "";
    assert MatchPosition(Constant(c), c) == Some(0);
    assert MatchCollect(Constant(c), c, None, NotInNodeModules, [], true).1 == [];
    assert [Constant(d)][1..] == [];
    assert d + "" == d;
    assert FillList([Constant(d)][1..], []) == Some(("", []));
    assert FillList([Constant(d)], []) == Some((d, []));
  }

  /** A single trailing dynamic part carries its text over:
      matching "c" + v against c·Dynamic and writing d·Dynamic gives d + v
      (the last test of `match_apply_template`). */
  lemma TrailingDynamicTemplate(c: string, d: string, v: string)
    requires CheckNodeModules(c) == NotInNodeModules
    requires IsMatch(Dynamic, v)
    ensures MatchApplyTemplate(Concatenation([Constant(c), Dynamic]), c + v, Concatenation([Constant(d), Dynamic]))
      == Some(d + v)
  {
    var p := Concatenation([Constant(c), Dynamic]);
    ConstantThenDynamic(c, v);
    var list := [Constant(c), Dynamic];
    assert list[1..] == [Dynamic] && list[1..][1..] == [];
    assert (c + v)[..|c|] == c && (c + v)[|c|..] == v;
    DynamicIsMatch(v);
    assert MatchCollect(Constant(c), c + v, None, NotInNodeModules, [], true) == (Consumed(v, None, NotInNodeModules), []);
    assert MatchCollect(Dynamic, v, None, NotInNodeModules, [], true) == (Consumed(v, Some(|v|), NotInNodeModules), []);
    assert MatchCollectList(list[1..], v, None, NotInNodeModules, [], true) == (Consumed(v, Some(|v|), NotInNodeModules), []);
    var r := MatchCollectList(list, c + v, None, NotInNodeModules, [], true);
    assert r == (Consumed(v, Some(|v|), NotInNodeModules), []);
    assert MatchCollect(p, c + v, None, NotInNodeModules, [], true).1 == [v];
    var target := [Constant(d), Dynamic];
    assert target[1..] == [Dynamic] && target[1..][1..] == [];
    assert [v][1..] == [];
    assert v + "" == v;
    assert FillList(target[1..], [v]) == Some((v, []));
    assert FillList(target, [v]) == Some((d + v, []));
  }

  /** The three-part pattern a·Dynamic·b, and its texts after each part. */
  function Between(a: string, b: string): Pattern {
    Concatenation([Constant(a), Dynamic, Constant(b)])
  }

  /** Finding: as written, a dynamic part that matches the empty text before
      a constant is not collected, so a value that matches a·Dynamic·b finds
      no text for the target's dynamic part. With b starting with "." the
      dynamic part is stopped at once by the forbidden-segment rule and
      matches "". */
  lemma EmptyDynamicLostAsWritten(a: string, b: string, a': string, b': string)
    requires StartsWith(b, ".")
    requires CheckNodeModules(a) == NotInNodeModules
    ensures NormalForm(Between(a, b))
    ensures IsMatch(Between(a, b), a + b)
    ensures MatchApplyTemplateAsWritten(Between(a, b), a + b, Between(a', b')) == None
    ensures MatchApplyTemplate(Between(a, b), a + b, Between(a', b')) == Some(a' + b')
  {
    var list := [Constant(a), Dynamic, Constant(b)];
    assert AltFree(Between(a, b));
    assert list[1..] == [Dynamic, Constant(b)] && list[1..][1..] == [Constant(b)] && list[1..][1..][1..] == [];
    assert (a + b)[..|a|] == a && (a + b)[|a|..] == b;
    assert ForbiddenAt(b, 0);
    assert FindForbidden(b) == Some(0);
    assert OccursAt(b, b, 0);
    assert Find(b, b) == Some(0);
    assert b[|b|..] == "";
    var after := Consumed("", None, CheckNodeModules(b));
    assert MatchInternal(Constant(a), a + b, None, NotInNodeModules, false) == Consumed(b, None, NotInNodeModules);
    assert MatchInternal(Dynamic, b, None, NotInNodeModules, false) == Consumed(b, Some(0), NotInNodeModules);
    assert MatchInternal(Constant(b), b, Some(0), NotInNodeModules, false) == after;
    assert MatchList(list[1..][1..], b, Some(0), NotInNodeModules, false) == after;
    assert MatchList(list[1..], b, None, NotInNodeModules, false) == after;
    assert MatchList(list, a + b, None, NotInNodeModules, false) == after;
    assert MatchPosition(Between(a, b), a + b) == Some(0);
    // As written: nothing is collected.
    assert MatchCollectList(list[1..][1..], b, Some(0), NotInNodeModules, [], false) == (after, []);
    assert MatchCollectList(list[1..], b, None, NotInNodeModules, [], false) == (after, []);
    assert MatchCollectList(list, a + b, None, NotInNodeModules, [], false) == (after, []);
    var target := [Constant(a'), Dynamic, Constant(b')];
    assert target[1..] == [Dynamic, Constant(b')] && target[1..][1..] == [Constant(b')] && target[1..][1..][1..] == [];
    assert FillList(target[1..], []) == None;
    // Corrected: the empty text is collected and written.
    assert b[..0] == "";
    assert MatchCollectList(list[1..][1..], b, Some(0), NotInNodeModules, [], true) == (after, [""]);
    assert MatchCollectList(list[1..], b, None, NotInNodeModules, [], true) == (after, [""]);
    assert MatchCollectList(list, a + b, None, NotInNodeModules, [], true) == (after, [""]);
    assert FillList(target[1..][1..], []) == Some((b' + "", []));
    assert [""][1..] == [];
    assert FillList(target[1..], [""]) == Some(("" + (b' + ""), []));
    assert a' + ("" + (b' + "")) == a' + b';
  }

  /** A concatenation that consumes has consumed with its first part, and
      the rest continued from there. */
  lemma ConsumedHead(list: seq<Pattern>, v: string, o: Option<nat>, n: InNodeModules, ignoreDynamic: bool)
    requires AltFreeList(list) && |list| > 0
    requires MatchList(list, v, o, n, ignoreDynamic).Consumed?
    ensures MatchInternal(list[0], v, o, n, ignoreDynamic).Consumed?
    ensures var m := MatchInternal(list[0], v, o, n, ignoreDynamic);
      MatchList(list, v, o, n, ignoreDynamic) == MatchList(list[1..], m.remaining, m.anyOffset, m.inNodeModules, ignoreDynamic)
  {
  }

  /** A dynamic part that consumes keeps the value and leaves an offset. */
  lemma DynamicConsumed(noSlash: bool, v: string, n: InNodeModules, ignoreDynamic: bool)
    requires MatchDynamic(noSlash, v, n, ignoreDynamic).Consumed?
    ensures var m := MatchDynamic(noSlash, v, n, ignoreDynamic);
      m.remaining == v && m.anyOffset.Some? && m.inNodeModules == NotInNodeModules
  {
  }

  /** A constant after a dynamic part consumes up to its first occurrence,
      which must lie within the offset. */
  lemma ConstantAfterDynamic(c: string, v: string, o: nat)
    requires MatchConstant(c, v, Some(o)).Consumed?
    ensures Find(v, c).Some? && Find(v, c).value <= o
    ensures var m := MatchConstant(c, v, Some(o));
      m.remaining == v[Find(v, c).value + |c|..] && m.anyOffset == None && m.inNodeModules == CheckNodeModules(c)
  {
  }

  /** The first two parts of a match of a·Dynamic·b on `v`: `a` consumes
      its text, and the dynamic part keeps the rest with an offset. */
  lemma BetweenHead(a: string, b: string, v: string) returns (o: nat, nm: InNodeModules)
    requires IsMatch(Between(a, b), v)
    ensures StartsWith(v, a)
    ensures MatchInternal(Constant(a), v, None, NotInNodeModules, false) == Consumed(v[|a|..], None, nm)
    ensures MatchInternal(Dynamic, v[|a|..], None, nm, false) == Consumed(v[|a|..], Some(o), NotInNodeModules)
    ensures MatchList([Constant(b)], v[|a|..], Some(o), NotInNodeModules, false).IsMatch()
  {
    var list := [Constant(a), Dynamic, Constant(b)];
    assert AltFree(Between(a, b));
    assert list[1..] == [Dynamic, Constant(b)] && list[1..][1..] == [Constant(b)];
    var whole := MatchList(list, v, None, NotInNodeModules, false);
    assert Start(Between(a, b), v, false) == whole;
    ConsumedHead(list, v, None, NotInNodeModules, false);
    var r1 := v[|a|..];
    nm := MatchInternal(Constant(a), v, None, NotInNodeModules, false).inNodeModules;
    ConsumedHead(list[1..], r1, None, nm, false);
    DynamicConsumed(false, r1, nm, false);
    o := MatchInternal(Dynamic, r1, None, nm, false).anyOffset.value;
  }

  /** The last part of a match of a·Dynamic·b: after the dynamic part, the
      first occurrence of `b` lies within the offset and ends the value. */
  lemma BetweenTail(b: string, r1: string, o: nat) returns (x: string)
    requires MatchList([Constant(b)], r1, Some(o), NotInNodeModules, false).IsMatch()
    ensures r1 == x + b
    ensures Find(x + b, b) == Some(|x|) && |x| <= o
  {
    assert [Constant(b)][1..] == [];
    var m3 := MatchInternal(Constant(b), r1, Some(o), NotInNodeModules, false);
    assert m3.Consumed?;
    assert MatchList([Constant(b)], r1, Some(o), NotInNodeModules, false) == m3;
    ConstantAfterDynamic(b, r1, o);
    var index := Find(r1, b).value;
    assert m3.remaining == r1[index + |b|..] == "";
    x := r1[..index];
    OccurrenceAtEnd(r1, b, index);
  }

  /** What a match of a·Dynamic·b on `v` goes through: `a`, then the
      dynamic part on the rest, then the first occurrence of `b`, which ends
      the value. */
  lemma BetweenShape(a: string, b: string, v: string) returns (x: string, o: nat, nm: InNodeModules)
    requires IsMatch(Between(a, b), v)
    ensures v == a + x + b
    ensures MatchInternal(Constant(a), v, None, NotInNodeModules, false) == Consumed(x + b, None, nm)
    ensures MatchInternal(Dynamic, x + b, None, nm, false) == Consumed(x + b, Some(o), NotInNodeModules)
    ensures Find(x + b, b) == Some(|x|) && |x| <= o
  {
    o, nm := BetweenHead(a, b, v);
    x := BetweenTail(b, v[|a|..], o);
    assert v == v[..|a|] + v[|a|..];
  }

  /** A text in which `t` occurs at `i` with nothing after it is its
      first `i` characters followed by `t`. */
  lemma OccurrenceAtEnd(s: string, t: string, i: nat)
    requires OccursAt(s, t, i) && s[i + |t|..] == ""
    ensures s == s[..i] + t
  {
    assert s == s[..i] + s[i..i + |t|] + s[i + |t|..];
  }

  /** Collecting over a concatenation whose first part consumes goes on
      with the rest from where that part stopped. */
  lemma CollectListCons(p: Pattern, rest: seq<Pattern>, v: string, o: Option<nat>, n: InNodeModules,
                        dynamics: seq<string>, keepEmpty: bool)
    requires AltFree(p) && AltFreeList(rest)
    requires MatchInternal(p, v, o, n, false).Consumed?
    ensures AltFreeList([p] + rest)
    ensures var first := MatchCollect(p, v, o, n, dynamics, keepEmpty);
      MatchCollectList([p] + rest, v, o, n, dynamics, keepEmpty)
      == MatchCollectList(rest, first.0.remaining, first.0.anyOffset, first.0.inNodeModules, first.1, keepEmpty)
  {
    assert ([p] + rest)[0] == p && ([p] + rest)[1..] == rest;
  }

  /** After a dynamic part, the constant `b` that first occurs at the end of
      x + b collects `x`. */
  lemma CollectsTail(b: string, x: string, o: nat)
    requires Find(x + b, b) == Some(|x|) && |x| <= o
    ensures MatchCollectList([Constant(b)], x + b, Some(o), NotInNodeModules, [], true)
      == (Consumed("", None, CheckNodeModules(b)), [x])
  {
    var r1 := x + b;
    assert r1[|x| + |b|..] == "" && r1[..|x|] == x;
    var after := Consumed("", None, CheckNodeModules(b));
    var m := MatchConstant(b, r1, Some(o));
    assert m == after;
    var collected := MatchCollect(Constant(b), r1, Some(o), NotInNodeModules, [], true);
    assert collected == (m, [] + [r1[..|x|]]);
    assert [] + [r1[..|x|]] == [x];
    CollectListCons(Constant(b), [], r1, Some(o), NotInNodeModules, [], true);
    assert [Constant(b)] + [] == [Constant(b)];
  }

  /** The corrected collection of a match of a·Dynamic·b on a + x + b
      collects exactly `x`. */
  lemma BetweenCollects(a: string, b: string, x: string, o: nat, nm: InNodeModules)
    requires MatchInternal(Constant(a), a + x + b, None, NotInNodeModules, false) == Consumed(x + b, None, nm)
    requires MatchInternal(Dynamic, x + b, None, nm, false) == Consumed(x + b, Some(o), NotInNodeModules)
    requires Find(x + b, b) == Some(|x|) && |x| <= o
    ensures MatchCollectList([Constant(a), Dynamic, Constant(b)], a + x + b, None, NotInNodeModules, [], true)
      == (Consumed("", None, CheckNodeModules(b)), [x])
  {
    var r1 := x + b;
    CollectsTail(b, x, o);
    CollectListCons(Dynamic, [Constant(b)], r1, None, nm, [], true);
    assert [Dynamic] + [Constant(b)] == [Dynamic, Constant(b)];
    CollectListCons(Constant(a), [Dynamic, Constant(b)], a + x + b, None, NotInNodeModules, [], true);
    assert [Constant(a)] + [Dynamic, Constant(b)] == [Constant(a), Dynamic, Constant(b)];
  }

  /** Writing a'·Dynamic·b' with the one text `x` gives a' + x + b'. */
  lemma BetweenFills(a': string, b': string, x: string)
    ensures FillList([Constant(a'), Dynamic, Constant(b')], [x]) == Some((a' + x + b', []))
  {
    var target := [Constant(a'), Dynamic, Constant(b')];
    assert target[1..] == [Dynamic, Constant(b')] && target[1..][1..] == [Constant(b')] && target[1..][1..][1..] == [];
    assert FillList(target[1..][1..], []) == Some((b' + "", []));
    assert [x][1..] == [];
    assert FillList(target[1..], [x]) == Some((x + (b' + ""), []));
    assert a' + (x + (b' + "")) == a' + x + b';
  }

  /** With the corrected collection, every value that a·Dynamic·b matches is
      a + x + b, and rewriting it to a'·Dynamic·b' gives a' + x + b'. */
  lemma BetweenTemplate(a: string, b: string, a': string, b': string, v: string) returns (x: string)
    requires IsMatch(Between(a, b), v)
    ensures v == a + x + b
    ensures MatchApplyTemplate(Between(a, b), v, Between(a', b')) == Some(a' + x + b')
  {
    var o, nm;
    x, o, nm := BetweenShape(a, b, v);
    assert AltFree(Between(a, b));
    assert MatchPosition(Between(a, b), v) == Some(0);
    BetweenCollects(a, b, x, o, nm);
    BetweenFills(a', b', x);
  }
}
