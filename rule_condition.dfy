/** `RuleCondition` of the Turbopack module options: the condition tree of a
    module rule, its simplification (`flatten`) and its evaluation against a
    source (`matches`), which walks the tree with an explicit stack. Leaves
    that need the source, a glob or a regular expression are answered by the
    oracles of an `Env`. */
module RuleConditions {
  import opened Wrappers
  import opened Text
  import opened FsPath

  datatype RuleCondition =
    | All(conditions: seq<RuleCondition>)
    | Any(conditions: seq<RuleCondition>)
    | Not(condition: RuleCondition)
    | True
    | False
    | ReferenceType(referenceType: nat)
    | ResourceIsVirtualSource
    | ResourcePathEquals(equals: FileSystemPath)
    | ResourcePathHasNoExtension
    | ResourcePathEndsWith(end: string)
    | ResourcePathInDirectory(dir: string)
    | ResourcePathInExactDirectory(parent: FileSystemPath)
    | ContentTypeStartsWith(start: string)
    | ContentTypeEmpty
    | ResourcePathRegex
    | ResourcePathEsRegex(pathRegex: nat)
    | ResourceContentEsRegex(contentRegex: nat)
    | ResourcePathGlob(base: FileSystemPath, pathGlob: nat)
    | ResourceBasePathGlob(baseGlob: nat)
    | ResourceQueryContains(query: string)

  /** What a leaf may ask about the source being matched: its path, whether
      it is virtual, its content type, query and content, and oracles for
      reference types, regular expressions, globs and relative paths. */
  datatype Env = Env(
    path: FileSystemPath,
    isVirtualSource: bool,
    contentType: Option<string>,
    query: string,
    content: FileContent,
    includesReferenceType: nat -> bool,
    regexMatches: (nat, string) -> bool,
    globMatches: (nat, string) -> bool,
    relativePath: (string, string) -> string)

  // ---------------------------------------------------------------------------
  // Leaves

  /** The `ResourcePathHasNoExtension` test: no "." at all, or a "/" after the last ".". */
  function HasNoExtension(path: string): (r: bool)
    ensures r <==> '.' !in FileName(path)
  {
    match LastIndexOf(path, '.')
    case Some(i) =>
      (match LastIndexOf(path, '/')
       case Some(j) =>
         NoDotAfterSlash(path, i, j);
         j > i
       case None =>
         assert FileName(path) == path by { assert SplitFileName(path).0.None?; }
         assert path[i] in path;
         false)
    case None =>
      assert forall k :: 0 <= k < |FileName(path)| ==> FileName(path)[k] == path[|path| - |FileName(path)| + k];
      true
  }

  lemma NoDotAfterSlash(path: string, i: nat, j: nat)
    requires LastIndexOf(path, '.') == Some(i) && LastIndexOf(path, '/') == Some(j)
    ensures j > i <==> '.' !in FileName(path)
  {
    var name := path[j + 1..];
    assert path == path[..j] + "/" + name;
    FileNameOf(path[..j], name);
    if j < i {
      assert name[i - j - 1] == '.';
    }
  }

  /** The `ResourcePathInDirectory` test. */
  function InDirectory(path: string, dir: string): (r: bool)
  {
    StartsWith(path, dir + "/") || Contains(path, "/" + dir + "/")
  }

  /** `dir` occurs in the path as a whole directory segment. */
  lemma InDirectorySegment(path: string, dir: string)
    ensures InDirectory(path, dir) <==>
      exists i: nat | i <= |path| :: (i == 0 || path[i - 1] == '/') && OccursAt(path, dir + "/", i)
  {
    var seg := dir + "/";
    assert "/" + dir + "/" == "/" + seg;
    if StartsWith(path, seg) {
      assert OccursAt(path, seg, 0);
    } else if Contains(path, "/" + seg) {
      var j: nat :| j <= |path| && OccursAt(path, "/" + seg, j);
      assert path[j..j + 1 + |seg|] == "/" + seg;
      assert path[j + 1..j + 1 + |seg|] == path[j..j + 1 + |seg|][1..];
      assert OccursAt(path, seg, j + 1) && path[j] == '/';
    }
    if exists i: nat | i <= |path| :: (i == 0 || path[i - 1] == '/') && OccursAt(path, seg, i) {
      var i: nat :| i <= |path| && (i == 0 || path[i - 1] == '/') && OccursAt(path, seg, i);
      if i == 0 {
        assert StartsWith(path, seg);
      } else {
        assert path[i - 1..i + |seg|] == [path[i - 1]] + path[i..i + |seg|];
        assert OccursAt(path, "/" + seg, i - 1);
      }
    }
  }

  /** The base name the `ResourceBasePathGlob` leaf matches. */
  function BaseName(path: string): (r: string)
    ensures r == FileName(path)
  {
    match RSplitOnce(path, '/')
    case None => path
    case Some((_, b)) => b
  }

  /** Evaluation of a leaf. */
  function EvalLeaf(c: RuleCondition, env: Env): Result<bool>
    requires !c.All? && !c.Any? && !c.Not?
  {
    match c
    case True => Ok(true)
    case False => Ok(false)
    case ReferenceType(t) => Ok(env.includesReferenceType(t))
    case ResourceIsVirtualSource => Ok(env.isVirtualSource)
    case ResourcePathEquals(other) => Ok(env.path == other)
    case ResourcePathEndsWith(end) => Ok(EndsWith(env.path.path, end))
    case ResourcePathHasNoExtension => Ok(HasNoExtension(env.path.path))
    case ResourcePathInDirectory(dir) => Ok(InDirectory(env.path.path, dir))
    case ResourcePathInExactDirectory(parent) => Ok(IsInsideRef(env.path, parent))
    case ContentTypeStartsWith(start) =>
      Ok(env.contentType.Some? && StartsWith(env.contentType.value, start))
    case ContentTypeEmpty => Ok(env.contentType.None?)
    case ResourcePathGlob(base, glob) =>
      if base.fs == env.path.fs then Ok(env.globMatches(glob, env.relativePath(base.path, env.path.path)))
      else Ok(env.globMatches(glob, env.path.path))
    case ResourceBasePathGlob(glob) => Ok(env.globMatches(glob, BaseName(env.path.path)))
    case ResourcePathRegex => Err("ResourcePathRegex not implemented yet")
    case ResourcePathEsRegex(regex) => Ok(env.regexMatches(regex, env.path.path))
    case ResourceQueryContains(query) => Ok(Contains(env.query, query))
    case ResourceContentEsRegex(regex) =>
      match env.content
      case NotFound => Ok(false)
      case Content(None) => Err("content is not valid UTF-8")
      case Content(Some(text)) => Ok(env.regexMatches(regex, text))
  }

  // ---------------------------------------------------------------------------
  // Reference evaluation

  /** The meaning of a condition: children of `All` and `Any` are evaluated
      left to right and the first deciding child stops the evaluation; an
      error stops it too. */
  function Eval(c: RuleCondition, env: Env): Result<bool>
    decreases c
  {
    match c
    case All(cs) => EvalJunction(false, cs, env)
    case Any(cs) => EvalJunction(true, cs, env)
    case Not(inner) =>
      (match Eval(inner, env)
       case Err(e) => Err(e)
       case Ok(b) => Ok(!b))
    case _ => EvalLeaf(c, env)
  }

  /** `Any` (`isAny`) or `All` over `cs`: stops at the first child whose
      value is `isAny`; with none, the value is `!isAny`. */
  function EvalJunction(isAny: bool, cs: seq<RuleCondition>, env: Env): Result<bool>
    decreases cs
  {
    if cs == [] then Ok(!isAny)
    else
      match Eval(cs[0], env)
      case Err(e) => Err(e)
      case Ok(b) => if b == isAny then Ok(isAny) else EvalJunction(isAny, cs[1..], env)
  }

  /** A junction takes its neutral value exactly when every child does. */
  lemma {:induction false} EvalJunctionNeutral(isAny: bool, cs: seq<RuleCondition>, env: Env)
    ensures EvalJunction(isAny, cs, env) == Ok(!isAny) <==>
      forall i :: 0 <= i < |cs| ==> Eval(cs[i], env) == Ok(!isAny)
    decreases cs
  {
    if cs != [] {
      EvalJunctionNeutral(isAny, cs[1..], env);
      assert forall i :: 1 <= i < |cs| ==> cs[i] == cs[1..][i - 1];
    }
  }

  /** A junction takes its deciding value exactly when some child does and
      every child before it takes the neutral value. */
  lemma {:induction false} EvalJunctionDecided(isAny: bool, cs: seq<RuleCondition>, env: Env)
    ensures EvalJunction(isAny, cs, env) == Ok(isAny) <==>
      exists k :: 0 <= k < |cs| && Eval(cs[k], env) == Ok(isAny) &&
        forall j :: 0 <= j < k ==> Eval(cs[j], env) == Ok(!isAny)
    decreases cs
  {
    if cs != [] {
      EvalJunctionDecided(isAny, cs[1..], env);
      if EvalJunction(isAny, cs, env) == Ok(isAny) {
        if Eval(cs[0], env) != Ok(isAny) {
          var k :| 0 <= k < |cs[1..]| && Eval(cs[1..][k], env) == Ok(isAny) &&
            forall j :: 0 <= j < k ==> Eval(cs[1..][j], env) == Ok(!isAny);
          assert forall j :: 0 <= j < k + 1 ==> Eval(cs[j], env) == Ok(!isAny) by {
            forall j | 0 <= j < k + 1 ensures Eval(cs[j], env) == Ok(!isAny) {
              if j > 0 { assert cs[j] == cs[1..][j - 1]; }
            }
          }
          assert Eval(cs[k + 1], env) == Ok(isAny);
        }
      }
      if exists k :: 0 <= k < |cs| && Eval(cs[k], env) == Ok(isAny) &&
          forall j :: 0 <= j < k ==> Eval(cs[j], env) == Ok(!isAny) {
        var k :| 0 <= k < |cs| && Eval(cs[k], env) == Ok(isAny) &&
          forall j :: 0 <= j < k ==> Eval(cs[j], env) == Ok(!isAny);
        if k > 0 {
          assert Eval(cs[0], env) == Ok(!isAny);
          assert Eval(cs[1..][k - 1], env) == Ok(isAny);
          assert forall j :: 0 <= j < k - 1 ==> Eval(cs[1..][j], env) == Ok(!isAny) by {
            forall j | 0 <= j < k - 1 ensures Eval(cs[1..][j], env) == Ok(!isAny) {
              assert cs[1..][j] == cs[j + 1];
            }
          }
        }
      }
    }
  }

  /** An empty `All` is true, an empty `Any` false, and `Not` inverts. */
  lemma EvalBasics(c: RuleCondition, env: Env)
    ensures Eval(All([]), env) == Ok(true)
    ensures Eval(Any([]), env) == Ok(false)
    ensures Eval(c, env).Ok? ==> Eval(Not(c), env) == Ok(!Eval(c, env).value)
    ensures Eval(c, env).Err? ==> Eval(Not(c), env) == Eval(c, env)
  {
  }

  // ---------------------------------------------------------------------------
  // flatten

  function Absorbing(isAny: bool): RuleCondition { if isAny then True else False }
  function Neutral(isAny: bool): RuleCondition { if isAny then False else True }
  function Junction(isAny: bool, cs: seq<RuleCondition>): RuleCondition {
    if isAny then Any(cs) else All(cs)
  }

  /** `c` is a junction of the same kind, whose children are spliced in. */
  predicate SameJunction(isAny: bool, c: RuleCondition) {
    if isAny then c.Any? else c.All?
  }

  /** `c` is spliced out of a junction: a nested junction of the same kind or
      the neutral constant. */
  predicate Spliced(isAny: bool, c: RuleCondition) {
    SameJunction(isAny, c) || c == Neutral(isAny)
  }

  /** The flattened children of a junction: nested junctions of the same kind
      are spliced in and the neutral constant is dropped. */
  function Splice(isAny: bool, cs: seq<RuleCondition>): seq<RuleCondition>
  {
    if cs == [] then [] else SpliceOne(isAny, cs[0]) + Splice(isAny, cs[1..])
  }

  function SpliceOne(isAny: bool, c: RuleCondition): seq<RuleCondition> {
    if SameJunction(isAny, c) then c.conditions
    else if c == Neutral(isAny) then []
    else [c]
  }

  /** `flatten` as a value: the simplified condition. */
  function Flatten(c: RuleCondition): RuleCondition
    decreases c
  {
    match c
    case Any(cs) => FlattenJunction(true, cs)
    case All(cs) => FlattenJunction(false, cs)
    case Not(inner) =>
      (match inner
       case Not(x) => Flatten(x)
       case True => False
       case False => True
       case _ => Not(Flatten(inner)))
    case _ => c
  }

  function FlattenEach(cs: seq<RuleCondition>): (r: seq<RuleCondition>)
    ensures |r| == |cs|
    decreases cs, 0
  {
    if cs == [] then [] else [Flatten(cs[0])] + FlattenEach(cs[1..])
  }

  /** An absorbing child makes the junction that constant; otherwise the
      spliced children are collapsed: none gives the neutral constant, one
      gives that child. */
  function FlattenJunction(isAny: bool, cs: seq<RuleCondition>): RuleCondition
    decreases cs, 1
  {
    var flat := FlattenEach(cs);
    if Absorbing(isAny) in flat then Absorbing(isAny)
    else Collapse(isAny, Splice(isAny, flat))
  }

  function Collapse(isAny: bool, cs: seq<RuleCondition>): RuleCondition {
    if |cs| == 0 then Neutral(isAny)
    else if |cs| == 1 then cs[0]
    else Junction(isAny, cs)
  }

  /** Evaluating a concatenation of children. */
  lemma {:induction false} EvalJunctionAppend(isAny: bool, a: seq<RuleCondition>, b: seq<RuleCondition>, env: Env)
    ensures EvalJunction(isAny, a + b, env) ==
      if EvalJunction(isAny, a, env) == Ok(!isAny) then EvalJunction(isAny, b, env)
      else EvalJunction(isAny, a, env)
    decreases a
  {
    if a != [] {
      assert (a + b)[0] == a[0] && (a + b)[1..] == a[1..] + b;
      EvalJunctionAppend(isAny, a[1..], b, env);
      match Eval(a[0], env)
      case Err(e) =>
      case Ok(b0) =>
        if b0 != isAny {
          assert EvalJunction(isAny, a + b, env) == EvalJunction(isAny, a[1..] + b, env);
          assert EvalJunction(isAny, a, env) == EvalJunction(isAny, a[1..], env);
        }
    } else {
      assert a + b == b;
    }
  }

  /** Splicing does not change the value of a junction, errors included. */
  lemma {:induction false} SpliceEval(isAny: bool, cs: seq<RuleCondition>, env: Env)
    ensures EvalJunction(isAny, Splice(isAny, cs), env) == EvalJunction(isAny, cs, env)
    decreases cs
  {
    if cs != [] {
      SpliceEval(isAny, cs[1..], env);
      var c := cs[0];
      var head := SpliceOne(isAny, c);
      EvalJunctionAppend(isAny, head, Splice(isAny, cs[1..]), env);
      if head == [c] {
        assert [c][1..] == [];
      }
    }
  }

  lemma CollapseEval(isAny: bool, cs: seq<RuleCondition>, env: Env)
    ensures Eval(Collapse(isAny, cs), env) == EvalJunction(isAny, cs, env)
  {
    if |cs| == 1 {
      assert cs[1..] == [];
    }
  }

  /** A junction whose value is known and that holds its absorbing constant
      has the absorbing value. */
  lemma {:induction false} AbsorbingEval(isAny: bool, cs: seq<RuleCondition>, env: Env)
    requires Absorbing(isAny) in cs && EvalJunction(isAny, cs, env).Ok?
    ensures EvalJunction(isAny, cs, env) == Ok(isAny)
    decreases cs
  {
    if cs[0] != Absorbing(isAny) {
      assert Absorbing(isAny) in cs[1..];
      if Eval(cs[0], env) != Ok(isAny) {
        AbsorbingEval(isAny, cs[1..], env);
      }
    }
  }

  /** Flattening the children keeps the value of a junction that has one. */
  lemma {:induction false} FlattenEachEval(isAny: bool, cs: seq<RuleCondition>, env: Env)
    requires EvalJunction(isAny, cs, env).Ok?
    ensures EvalJunction(isAny, FlattenEach(cs), env) == EvalJunction(isAny, cs, env)
    decreases cs, 0
  {
    if cs != [] {
      FlattenEval(cs[0], env);
      assert FlattenEach(cs)[0] == Flatten(cs[0]) && FlattenEach(cs)[1..] == FlattenEach(cs[1..]);
      if Eval(cs[0], env) != Ok(isAny) {
        FlattenEachEval(isAny, cs[1..], env);
      }
    }
  }

  /** `flatten` keeps the value of every condition whose evaluation does not
      fail. */
  lemma {:induction false} FlattenEval(c: RuleCondition, env: Env)
    requires Eval(c, env).Ok?
    ensures Eval(Flatten(c), env) == Eval(c, env)
    decreases c
  {
    match c
    case Any(cs) => FlattenJunctionEval(true, cs, env);
    case All(cs) => FlattenJunctionEval(false, cs, env);
    case Not(inner) =>
      if inner.Not? {
        FlattenEval(inner.condition, env);
      } else if inner != True && inner != False {
        FlattenEval(inner, env);
      }
    case _ =>
  }

  lemma {:induction false} FlattenJunctionEval(isAny: bool, cs: seq<RuleCondition>, env: Env)
    requires EvalJunction(isAny, cs, env).Ok?
    ensures Eval(FlattenJunction(isAny, cs), env) == EvalJunction(isAny, cs, env)
    decreases cs, 1
  {
    var flat := FlattenEach(cs);
    FlattenEachEval(isAny, cs, env);
    if Absorbing(isAny) in flat {
      AbsorbingEval(isAny, flat, env);
    } else {
      SpliceEval(isAny, flat, env);
      CollapseEval(isAny, Splice(isAny, flat), env);
    }
  }

  /** `flatten` may turn a failing condition into a constant: `Any` drops the
      children after an always-true one without evaluating them, so an
      earlier failing child no longer fails the match. */
  lemma FlattenDropsFailure(env: Env)
    ensures Eval(Any([ResourcePathRegex, True]), env).Err?
    ensures Flatten(Any([ResourcePathRegex, True])) == True
  {
    assert FlattenEach([ResourcePathRegex, True]) == [ResourcePathRegex, True];
  }

  /** `flatten` as the source writes it: the children are flattened in place
      one by one, stopping at the first absorbing one; the nested junctions
      and neutral constants are spliced out only when one was seen. */
  method FlattenInPlace(c: RuleCondition) returns (r: RuleCondition)
    ensures r == Flatten(c)
    decreases c, 1
  {
    match c {
      case Any(cs) => r := FlattenJunctionInPlace(true, cs);
      case All(cs) => r := FlattenJunctionInPlace(false, cs);
      case Not(inner) =>
        match inner {
          case Not(x) => r := FlattenInPlace(x);
          case True => r := False;
          case False => r := True;
          case _ =>
            var flat := FlattenInPlace(inner);
            r := Not(flat);
        }
      case _ => r := c;
    }
  }

  method FlattenJunctionInPlace(isAny: bool, cs: seq<RuleCondition>) returns (r: RuleCondition)
    ensures r == FlattenJunction(isAny, cs)
    decreases cs, 1
  {
    var conds, absorbed, needsFlattening := FlattenChildren(isAny, cs);
    if absorbed {
      return Absorbing(isAny);
    }
    if needsFlattening {
      conds := SpliceInPlace(isAny, conds);
    } else {
      SpliceNothing(isAny, conds);
    }
    if |conds| == 0 {
      r := Neutral(isAny);
    } else if |conds| == 1 {
      r := conds[0];
    } else {
      r := Junction(isAny, conds);
    }
  }

  /** The loop over the children of a junction: each is flattened in place,
      stopping at the first absorbing one, and noting whether any must be
      spliced. */
  method FlattenChildren(isAny: bool, cs: seq<RuleCondition>) returns (conds: seq<RuleCondition>, absorbed: bool, needsFlattening: bool)
    ensures absorbed <==> Absorbing(isAny) in FlattenEach(cs)
    ensures !absorbed ==> conds == FlattenEach(cs)
    ensures !absorbed ==> (needsFlattening <==> exists k :: 0 <= k < |conds| && Spliced(isAny, conds[k]))
    decreases cs, 0
  {
    conds := cs;
    needsFlattening := false;
    var i := 0;
    while i < |conds|
      invariant 0 <= i <= |conds| == |cs|
      invariant conds[..i] == FlattenEach(cs)[..i] && conds[i..] == cs[i..]
      invariant Absorbing(isAny) !in conds[..i]
      invariant needsFlattening <==> exists k :: 0 <= k < i && Spliced(isAny, conds[k])
    {
      FlattenEachAt(cs, i);
      assert FlattenEach(cs)[..i + 1] == FlattenEach(cs)[..i] + [FlattenEach(cs)[i]];
      var flat := FlattenInPlace(cs[i]);
      conds := conds[i := flat];
      if flat == Absorbing(isAny) {
        assert FlattenEach(cs)[i] == flat;
        return conds, true, needsFlattening;
      }
      needsFlattening := needsFlattening || SameJunction(isAny, flat) || flat == Neutral(isAny);
      assert conds[..i + 1] == conds[..i] + [flat];
      i := i + 1;
    }
    assert conds == FlattenEach(cs);
    absorbed := false;
  }

  lemma {:induction false} FlattenEachAt(cs: seq<RuleCondition>, i: nat)
    requires i < |cs|
    ensures FlattenEach(cs)[i] == Flatten(cs[i])
  {
    if i > 0 {
      FlattenEachAt(cs[1..], i - 1);
      assert FlattenEach(cs)[i] == FlattenEach(cs[1..])[i - 1];
    }
  }

  /** Without nested junctions or neutral constants splicing changes nothing. */
  lemma {:induction false} SpliceNothing(isAny: bool, cs: seq<RuleCondition>)
    requires forall k :: 0 <= k < |cs| ==> !Spliced(isAny, cs[k])
    ensures Splice(isAny, cs) == cs
    decreases cs
  {
    if cs != [] {
      SpliceNothing(isAny, cs[1..]);
    }
  }

  /** The `flat_map` of the source, collecting into a new list. */
  method SpliceInPlace(isAny: bool, cs: seq<RuleCondition>) returns (r: seq<RuleCondition>)
    ensures r == Splice(isAny, cs)
  {
    r := [];
    var i := 0;
    while i < |cs|
      invariant 0 <= i <= |cs|
      invariant r + Splice(isAny, cs[i..]) == Splice(isAny, cs)
    {
      var c := cs[i];
      SpliceAt(isAny, cs, i, r);
      ghost var before := r;
      if SameJunction(isAny, c) {
        r := r + c.conditions;
      } else if c == Neutral(isAny) {
      } else {
        r := r + [c];
      }
      assert r == before + SpliceOne(isAny, c);
      i := i + 1;
    }
    assert cs[i..] == [];
  }

  lemma SpliceAt(isAny: bool, cs: seq<RuleCondition>, i: nat, done: seq<RuleCondition>)
    requires i < |cs| && done + Splice(isAny, cs[i..]) == Splice(isAny, cs)
    ensures (done + SpliceOne(isAny, cs[i])) + Splice(isAny, cs[i + 1..]) == Splice(isAny, cs)
  {
    assert cs[i..][0] == cs[i] && cs[i..][1..] == cs[i + 1..];
  }

  /** Cases from the tests of `flatten`; `ContentTypeEmpty` stands for any leaf. */
  lemma FlattenAnyExamples()
    ensures Flatten(Any([True])) == True
    ensures Flatten(Any([ContentTypeEmpty])) == ContentTypeEmpty
    ensures Flatten(Any([False, Any([ContentTypeEmpty, False])])) == ContentTypeEmpty
    ensures Flatten(Any([False, True, ContentTypeEmpty])) == True
    ensures Flatten(Any([])) == False
  {
    assert FlattenEach([ContentTypeEmpty]) == [ContentTypeEmpty];
    assert Splice(true, [ContentTypeEmpty]) == [ContentTypeEmpty];
    assert FlattenEach([ContentTypeEmpty, False]) == [ContentTypeEmpty, False];
    assert Splice(true, [ContentTypeEmpty, False]) == [ContentTypeEmpty];
    assert FlattenEach([False, Any([ContentTypeEmpty, False])]) == [False, ContentTypeEmpty];
    assert Splice(true, [False, ContentTypeEmpty]) == [ContentTypeEmpty];
    assert FlattenEach([False, True, ContentTypeEmpty])[1] == True;
  }

  lemma FlattenAllExamples()
    ensures Flatten(All([ContentTypeEmpty])) == ContentTypeEmpty
    ensures Flatten(All([True])) == True
    ensures Flatten(All([True, All([ContentTypeEmpty, True])])) == ContentTypeEmpty
    ensures Flatten(All([True, False, ContentTypeEmpty])) == False
    ensures Flatten(All([])) == True
  {
    assert FlattenEach([ContentTypeEmpty]) == [ContentTypeEmpty];
    assert Splice(false, [ContentTypeEmpty]) == [ContentTypeEmpty];
    assert FlattenEach([True]) == [True];
    assert Splice(false, [True]) == [];
    assert FlattenEach([ContentTypeEmpty, True]) == [ContentTypeEmpty, True];
    assert Splice(false, [ContentTypeEmpty, True]) == [ContentTypeEmpty];
    assert FlattenEach([True, All([ContentTypeEmpty, True])]) == [True, ContentTypeEmpty];
    assert Splice(false, [True, ContentTypeEmpty]) == [ContentTypeEmpty];
    assert FlattenEach([True, False, ContentTypeEmpty])[1] == False;
  }

  lemma FlattenNotExamples()
    ensures Flatten(Not(Not(All([ContentTypeEmpty])))) == ContentTypeEmpty
    ensures Flatten(Not(True)) == False
    ensures Flatten(Not(False)) == True
  {
    assert FlattenEach([ContentTypeEmpty]) == [ContentTypeEmpty];
    assert Splice(false, [ContentTypeEmpty]) == [ContentTypeEmpty];
  }

  // ---------------------------------------------------------------------------
  // matches: the stack machine

  /** A pending step: the remaining children of an `All` or an `Any`, or an
      inversion of the previous result. */
  datatype Op = OpAll(remaining: seq<RuleCondition>) | OpAny(remaining: seq<RuleCondition>) | OpNot

  predicate WellFormed(stack: seq<Op>) {
    forall i :: 0 <= i < |stack| ==> !stack[i].OpNot? ==> stack[i].remaining != []
  }

  /** The final result of `matches` once the condition on top of `stack` has
      produced `b`: pops each step in turn. */
  function Resume(stack: seq<Op>, b: bool, env: Env): Result<bool>
    decreases |stack|
  {
    if stack == [] then Ok(b)
    else
      var rest := stack[..|stack| - 1];
      match stack[|stack| - 1]
      case OpNot => Resume(rest, !b, env)
      case OpAll(remaining) =>
        if b then
          match EvalJunction(false, remaining, env)
          case Err(e) => Err(e)
          case Ok(b2) => Resume(rest, b2, env)
        else Resume(rest, b, env)
      case OpAny(remaining) =>
        if !b then
          match EvalJunction(true, remaining, env)
          case Err(e) => Err(e)
          case Ok(b2) => Resume(rest, b2, env)
        else Resume(rest, b, env)
  }

  /** A result followed by the pending steps of `stack`. */
  function Then(r: Result<bool>, stack: seq<Op>, env: Env): Result<bool> {
    match r
    case Err(e) => Err(e)
    case Ok(b) => Resume(stack, b, env)
  }

  function Size(c: RuleCondition): (r: nat)
    ensures r >= 1
    decreases c
  {
    match c
    case All(cs) => 1 + SizeAll(cs)
    case Any(cs) => 1 + SizeAll(cs)
    case Not(inner) => 1 + Size(inner)
    case _ => 1
  }

  function SizeAll(cs: seq<RuleCondition>): nat
    decreases cs
  {
    if cs == [] then 0 else Size(cs[0]) + SizeAll(cs[1..])
  }

  /** The work left on the stack, which every step of `matches` lowers. */
  function Weight(stack: seq<Op>): nat {
    if stack == [] then 0
    else
      Weight(stack[..|stack| - 1]) +
        match stack[|stack| - 1]
        case OpNot => 1
        case OpAll(remaining) => 1 + SizeAll(remaining)
        case OpAny(remaining) => 1 + SizeAll(remaining)
  }

  /** Pushing the rest of a junction and evaluating its first child gives the
      junction's value. */
  lemma JunctionStep(isAny: bool, cs: seq<RuleCondition>, stack: seq<Op>, env: Env)
    requires cs != []
    ensures var pushed := if |cs| > 1 then stack + [if isAny then OpAny(cs[1..]) else OpAll(cs[1..])] else stack;
      Then(Eval(cs[0], env), pushed, env) == Then(EvalJunction(isAny, cs, env), stack, env)
  {
    if |cs| > 1 {
      var pushed := stack + [if isAny then OpAny(cs[1..]) else OpAll(cs[1..])];
      assert pushed[..|pushed| - 1] == stack;
    } else {
      assert cs[1..] == [];
    }
  }

  /** `process_condition`: descends along first children, pushing the rest of
      each junction and each `Not`, until a leaf gives a result. */
  method ProcessCondition(cond: RuleCondition, env: Env, stack: seq<Op>) returns (r: Result<bool>, stack': seq<Op>)
    requires WellFormed(stack)
    ensures WellFormed(stack')
    ensures Then(r, stack', env) == Then(Eval(cond, env), stack, env)
    ensures Weight(stack') < Weight(stack) + Size(cond)
  {
    var cur := cond;
    stack' := stack;
    while true
      invariant WellFormed(stack')
      invariant Then(Eval(cur, env), stack', env) == Then(Eval(cond, env), stack, env)
      invariant Weight(stack') + Size(cur) <= Weight(stack) + Size(cond)
      decreases Size(cur)
    {
      if cur.All? {
        var cs := cur.conditions;
        if cs == [] {
          return Ok(true), stack';
        }
        JunctionStep(false, cs, stack', env);
        SizeStep(cs);
        if |cs| > 1 {
          stack' := PushOp(stack', OpAll(cs[1..]));
        }
        cur := cs[0];
      } else if cur.Any? {
        var cs := cur.conditions;
        if cs == [] {
          return Ok(false), stack';
        }
        JunctionStep(true, cs, stack', env);
        SizeStep(cs);
        if |cs| > 1 {
          stack' := PushOp(stack', OpAny(cs[1..]));
        }
        cur := cs[0];
      } else if cur.Not? {
        NotStep(cur.condition, stack', env);
        stack' := PushOp(stack', OpNot);
        cur := cur.condition;
      } else {
        return EvalLeaf(cur, env), stack';
      }
    }
  }

  /** Pushes a step; its weight adds to the stack's. */
  method PushOp(stack: seq<Op>, op: Op) returns (r: seq<Op>)
    requires WellFormed(stack) && (!op.OpNot? ==> op.remaining != [])
    ensures r == stack + [op] && WellFormed(r)
    ensures Weight(r) == Weight(stack) + if op.OpNot? then 1 else 1 + SizeAll(op.remaining)
  {
    r := stack + [op];
    assert r[..|stack|] == stack;
  }

  lemma SizeStep(cs: seq<RuleCondition>)
    requires cs != []
    ensures SizeAll(cs) == Size(cs[0]) + SizeAll(cs[1..])
  {
  }

  lemma NotStep(inner: RuleCondition, stack: seq<Op>, env: Env)
    ensures Then(Eval(inner, env), stack + [OpNot], env) == Then(Eval(Not(inner), env), stack, env)
  {
    assert (stack + [OpNot])[..|stack|] == stack;
  }

  /** `matches`: evaluates the condition with an explicit stack of pending
      steps, giving the same result as the reference evaluation. */
  /** The junction on top of the stack is not yet decided: its remaining
      children are pushed back without the first, which is then processed. */
  method ContinueJunction(isAny: bool, remaining: seq<RuleCondition>, rest: seq<Op>, env: Env) returns (next: Result<bool>, stack': seq<Op>)
    requires WellFormed(rest) && remaining != []
    ensures WellFormed(stack')
    ensures Then(next, stack', env) == Then(EvalJunction(isAny, remaining, env), rest, env)
    ensures Weight(stack') < Weight(rest) + 1 + SizeAll(remaining)
  {
    JunctionStep(isAny, remaining, rest, env);
    SizeStep(remaining);
    var pushed := rest;
    if |remaining| > 1 {
      pushed := PushOp(rest, if isAny then OpAny(remaining[1..]) else OpAll(remaining[1..]));
    }
    next, stack' := ProcessCondition(remaining[0], env, pushed);
  }

  method Matches(c: RuleCondition, env: Env) returns (r: Result<bool>)
    ensures r == Eval(c, env)
  {
    var first, stack := ProcessCondition(c, env, []);
    if first.Err? {
      return first;
    }
    var result := first.value;
    while stack != []
      invariant WellFormed(stack)
      invariant Resume(stack, result, env) == Eval(c, env)
      decreases Weight(stack)
    {
      var op := stack[|stack| - 1];
      var rest := stack[..|stack| - 1];
      assert rest + [op] == stack;
      match op {
        case OpAll(remaining) =>
          if result {
            var next, stack' := ContinueJunction(false, remaining, rest, env);
            if next.Err? {
              return next;
            }
            result, stack := next.value, stack';
          } else {
            stack := rest;
          }
        case OpAny(remaining) =>
          if !result {
            var next, stack' := ContinueJunction(true, remaining, rest, env);
            if next.Err? {
              return next;
            }
            result, stack := next.value, stack';
          } else {
            stack := rest;
          }
        case OpNot =>
          result := !result;
          stack := rest;
      }
    }
    return Ok(result);
  }
}
