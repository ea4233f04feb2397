/** Pieces of the ECMAScript variable-graph analyser: where assignments to
    a variable happen, how a template literal is evaluated, whether a node is
    inside a `try` block, and how conditional early returns are folded into
    the list of effects. */
module Graph {
  import opened Wrappers

  // ---------------------------------------------------------------------------
  // Assignment scopes

  datatype AssignmentScope = ModuleEval | Function

  /** Where all the assignments to a variable happened so far. */
  datatype AssignmentScopes = AllInModuleEvalScope | AllInFunctionScopes | Mixed

  /** `AssignmentScopes::new`. */
  function NewScopes(initial: AssignmentScope): AssignmentScopes {
    match initial
    case ModuleEval => AllInModuleEvalScope
    case Function => AllInFunctionScopes
  }

  /** `merge`: the state stays when the new assignment is of the same kind,
      and becomes `Mixed` otherwise. */
  function Merge(s: AssignmentScopes, other: AssignmentScope): (r: AssignmentScopes)
    ensures s == NewScopes(other) ==> r == s
    ensures s != NewScopes(other) ==> r == Mixed
  {
    if s == NewScopes(other) then s else Mixed
  }

  /** The state after the first assignment and then each later one. */
  function MergeAll(first: AssignmentScope, later: seq<AssignmentScope>): AssignmentScopes
    decreases |later|
  {
    if later == [] then NewScopes(first)
    else Merge(MergeAll(first, later[..|later| - 1]), later[|later| - 1])
  }

  /** `Mixed` is final. */
  lemma MixedStaysMixed(other: AssignmentScope)
    ensures Merge(Mixed, other) == Mixed
  {
  }

  /** The merged state says exactly where the assignments happened: all in
      module evaluation, all in functions, or in both. */
  lemma {:induction false} MergeAllMeaning(first: AssignmentScope, later: seq<AssignmentScope>)
    ensures MergeAll(first, later) == AllInModuleEvalScope <==> Function !in [first] + later
    ensures MergeAll(first, later) == AllInFunctionScopes <==> ModuleEval !in [first] + later
    decreases |later|
  {
    if later != [] {
      var prefix := later[..|later| - 1];
      MergeAllMeaning(first, prefix);
      assert [first] + later == ([first] + prefix) + [later[|later| - 1]];
    }
  }

  // ---------------------------------------------------------------------------
  // Template literals

  /** The values a template evaluates to. The substitutions' values come
      from the analyser's evaluation of the embedded expressions. */
  datatype TplValue = Str(s: string) | Concat(parts: seq<TplValue>) | UnknownEmpty | Evaluated(id: nat)

  /** A string part of a template: its raw text and its cooked text, which
      is missing for an invalid escape. */
  datatype Quasi = Quasi(raw: string, cooked: Option<string>)

  /** The value a string part contributes: nothing when it is empty. A
      missing cooked text contributes nothing here; it makes the whole
      template unknown. */
  function QuasiPiece(q: Quasi, raw: bool): seq<TplValue> {
    var text := if raw then q.raw else q.cooked.GetOr("");
    if text == [] then [] else [Str(text)]
  }

  lemma QuasiPieceOf(q: Quasi, raw: bool)
    ensures raw ==> QuasiPiece(q, raw) == if q.raw == [] then [] else [Str(q.raw)]
    ensures !raw && q.cooked.Some? ==> QuasiPiece(q, raw) == if q.cooked.value == [] then [] else [Str(q.cooked.value)]
  {
  }

  /** The values pushed for loop index `idx`: a string part at even indices,
      a substitution at odd ones. */
  function PieceAt(quasis: seq<Quasi>, exprs: seq<TplValue>, raw: bool, idx: nat): seq<TplValue>
    requires |quasis| == |exprs| + 1 && idx < |quasis| + |exprs|
  {
    if idx % 2 == 0 then QuasiPiece(quasis[idx / 2], raw) else [exprs[idx / 2]]
  }

  /** The values pushed for the first `n` loop indices. */
  function Pieces(quasis: seq<Quasi>, exprs: seq<TplValue>, raw: bool, n: nat): seq<TplValue>
    requires |quasis| == |exprs| + 1 && n <= |quasis| + |exprs|
  {
    if n == 0 then [] else Pieces(quasis, exprs, raw, n - 1) + PieceAt(quasis, exprs, raw, n - 1)
  }

  /** No value is the empty string, one value is itself, more are a
      concatenation. */
  function Combine(values: seq<TplValue>): (r: TplValue)
    ensures |values| == 0 ==> r == Str("")
    ensures |values| == 1 ==> r == values[0]
    ensures |values| >= 2 ==> r == Concat(values)
  {
    if |values| == 0 then Str("") else if |values| == 1 then values[0] else Concat(values)
  }

  /** A cooked text is missing in a string part before loop index `n`. */
  predicate CookedMissingBefore(quasis: seq<Quasi>, n: nat) {
    exists k :: 0 <= k < |quasis| && 2 * k < n && quasis[k].cooked.None?
  }

  /** One more loop index adds the string part it reads, if any. */
  lemma CookedMissingStep(quasis: seq<Quasi>, exprCount: nat, idx: nat)
    requires |quasis| == exprCount + 1 && idx < |quasis| + exprCount
    ensures CookedMissingBefore(quasis, idx + 1)
        <==> CookedMissingBefore(quasis, idx) || (idx % 2 == 0 && quasis[idx / 2].cooked.None?)
  {
    if idx % 2 == 0 && quasis[idx / 2].cooked.None? {
      assert 2 * (idx / 2) < idx + 1;
    }
    assert forall k :: 0 <= k < |quasis| && 2 * k < idx + 1 ==> 2 * k < idx || k == idx / 2;
  }

  /** `eval_tpl`: the template's parts in order, string parts and
      substitutions alternating and empty strings left out, combined; in
      cooked mode a missing cooked text makes the value unknown. */
  method EvalTpl(quasis: seq<Quasi>, exprs: seq<TplValue>, raw: bool) returns (r: TplValue)
    requires |quasis| == |exprs| + 1
    ensures !raw && CookedMissingBefore(quasis, |quasis| + |exprs|) ==> r == UnknownEmpty
    ensures raw || !CookedMissingBefore(quasis, |quasis| + |exprs|) ==>
      r == Combine(Pieces(quasis, exprs, raw, |quasis| + |exprs|))
  {
    var values: seq<TplValue> := [];
    var idx := 0;
    while idx < |quasis| + |exprs|
      invariant 0 <= idx <= |quasis| + |exprs|
      invariant values == Pieces(quasis, exprs, raw, idx)
      invariant raw || !CookedMissingBefore(quasis, idx)
    {
      CookedMissingStep(quasis, |exprs|, idx);
      assert Pieces(quasis, exprs, raw, idx + 1) == values + PieceAt(quasis, exprs, raw, idx);
      if idx % 2 == 0 {
        var q := quasis[idx / 2];
        QuasiPieceOf(q, raw);
        if raw {
          if q.raw != [] {
            values := values + [Str(q.raw)];
          }
        } else {
          match q.cooked {
            case Some(v) =>
              if v != [] {
                values := values + [Str(v)];
              }
            case None =>
              return UnknownEmpty;
          }
        }
      } else {
        values := values + [exprs[idx / 2]];
      }
      idx := idx + 1;
    }
    r := Combine(values);
  }

  /** With no empty string part, the values alternate: string part `k` at
      `2k`, substitution `k` at `2k + 1`. */
  lemma {:induction false} PiecesAlternate(quasis: seq<Quasi>, exprs: seq<TplValue>, raw: bool, n: nat)
    requires |quasis| == |exprs| + 1 && n <= |quasis| + |exprs|
    requires forall k :: 0 <= k < |quasis| ==> QuasiPiece(quasis[k], raw) != []
    ensures var p := Pieces(quasis, exprs, raw, n);
      && |p| == n
      && forall i :: 0 <= i < n ==>
           if i % 2 == 0 then [p[i]] == QuasiPiece(quasis[i / 2], raw) else p[i] == exprs[i / 2]
  {
    if n > 0 {
      PiecesAlternate(quasis, exprs, raw, n - 1);
      var prev := Pieces(quasis, exprs, raw, n - 1);
      var p := Pieces(quasis, exprs, raw, n);
      assert p == prev + PieceAt(quasis, exprs, raw, n - 1);
      assert forall i :: 0 <= i < n - 1 ==> p[i] == prev[i];
    }
  }

  /** With every string part empty, the values are the substitutions. */
  lemma {:induction false} PiecesOnlySubstitutions(quasis: seq<Quasi>, exprs: seq<TplValue>, raw: bool, n: nat)
    requires |quasis| == |exprs| + 1 && n <= |quasis| + |exprs|
    requires forall k :: 0 <= k < |quasis| ==> QuasiPiece(quasis[k], raw) == []
    ensures Pieces(quasis, exprs, raw, n) == exprs[..n / 2]
  {
    if n > 0 {
      PiecesOnlySubstitutions(quasis, exprs, raw, n - 1);
      if n % 2 == 0 {
        assert exprs[..n / 2] == exprs[..(n - 1) / 2] + [exprs[(n - 1) / 2]];
      }
    }
  }

  /** A template without substitutions is its text: `\`abc\`` is "abc", and
      an empty template is "". */
  lemma PlainTemplate(q: Quasi)
    requires q.cooked == Some(q.raw)
    ensures forall raw: bool :: Combine(Pieces([q], [], raw, 1)) == Str(q.raw)
  {
    forall raw: bool
      ensures Combine(Pieces([q], [], raw, 1)) == Str(q.raw)
    {
      assert Pieces([q], [], raw, 1) == QuasiPiece(q, raw);
    }
  }

  /** A template that is one substitution, `\`${x}\``, is the value of `x`. */
  lemma SingleSubstitution(x: TplValue, raw: bool)
    ensures Combine(Pieces([Quasi("", Some("")), Quasi("", Some(""))], [x], raw, 3)) == x
  {
    PiecesOnlySubstitutions([Quasi("", Some("")), Quasi("", Some(""))], [x], raw, 3);
  }

  // ---------------------------------------------------------------------------
  // is_in_try

  /** The kinds of AST parents `is_in_try` distinguishes: the bodies of the
      seven function-like nodes, the three parts of a `try` statement, and
      every other kind. */
  datatype AstParentKind =
    | ArrowExprBody | FunctionBody | ConstructorBody | ClassMethodFunction
    | GetterPropBody | SetterPropBody | MethodPropFunction
    | TryStmtBlock | TryStmtHandler | TryStmtFinalizer
    | OtherKind(name: string)

  predicate IsFunctionBoundary(k: AstParentKind) {
    k.ArrowExprBody? || k.FunctionBody? || k.ConstructorBody? || k.ClassMethodFunction?
      || k.GetterPropBody? || k.SetterPropBody? || k.MethodPropFunction?
  }

  /** `is_in_try`: the innermost function body or `try` block decides. */
  function IsInTry(path: seq<AstParentKind>): (r: bool)
    ensures r <==> exists i :: 0 <= i < |path| && path[i] == TryStmtBlock
                              && forall j :: i < j < |path| ==> !IsFunctionBoundary(path[j])
  {
    if path == [] then false
    else
      var last := path[|path| - 1];
      if IsFunctionBoundary(last) then false
      else if last == TryStmtBlock then true
      else
        var rest := path[..|path| - 1];
        assert forall i :: 0 <= i < |rest| ==> rest[i] == path[i];
        IsInTry(rest)
  }

  /** A function body cuts off the enclosing `try`: code in a function
      declared inside a `try` block is not in it. */
  lemma FunctionInsideTry(outer: seq<AstParentKind>, inner: seq<AstParentKind>)
    requires forall j :: 0 <= j < |inner| ==> inner[j] != TryStmtBlock
    ensures !IsInTry(outer + [TryStmtBlock, FunctionBody] + inner)
  {
    var p := outer + [TryStmtBlock, FunctionBody] + inner;
    assert p[|outer| + 1] == FunctionBody;
  }

  // ---------------------------------------------------------------------------
  // Effects and early returns

  /** An AST path, as the list of its parent kinds' codes. */
  type AstPath = seq<nat>

  /** The evaluated condition of an `if`; the analyser decides whether it is
      unknown. */
  datatype Condition = Known(id: nat) | UnknownCondition

  datatype AstPathRange = Exact(path: AstPath) | StartAfter(start: AstPath)

  datatype Effect =
    | ConditionalEffect(condition: Condition, kind: ConditionalKind, astPath: AstPath)
    | Unreachable(startAstPath: AstPath)
    | OtherEffect(id: nat)

  datatype EffectsBlock = EffectsBlock(effects: seq<Effect>, range: AstPathRange)

  /** The kinds of conditional an `if` statement produces. */
  datatype ConditionalKind =
    | If(cons: EffectsBlock)
    | IfElse(cons: EffectsBlock, alt: EffectsBlock)
    | Else(alt: EffectsBlock)
    | IfElseMultiple(conses: seq<EffectsBlock>, alts: seq<EffectsBlock>)

  /** An entry of the early-return stack: a block that always returns, or a
      conditional whose branch returns when the condition has
      `returnWhen`'s value. */
  datatype EarlyReturn =
    | Always(prevEffects: seq<Effect>, startAstPath: AstPath)
    | ConditionalReturn(prevEffects: seq<Effect>, startAstPath: AstPath, condition: Condition,
                        cons: Option<EffectsBlock>, alt: Option<EffectsBlock>,
                        conditionAstPath: AstPath, returnWhen: bool)

  function OptionList(b: Option<EffectsBlock>): seq<EffectsBlock> {
    if b.Some? then [b.value] else []
  }

  /** The blocks run when the condition holds, and those run when it does
      not. */
  function Sides(kind: ConditionalKind): (seq<EffectsBlock>, seq<EffectsBlock>) {
    match kind
    case If(t) => ([t], [])
    case IfElse(t, e) => ([t], [e])
    case Else(e) => ([], [e])
    case IfElseMultiple(ts, es) => (ts, es)
  }

  /** The conditional built when a conditional early return ends: `block`,
      the code after the `if`, runs on the side that does not return. */
  function EarlyReturnKind(cons: Option<EffectsBlock>, alt: Option<EffectsBlock>, returnWhen: bool,
                           block: EffectsBlock): ConditionalKind
  {
    match (cons, alt, returnWhen)
    case (None, None, false) => If(block)
    case (None, None, true) => IfElseMultiple([block], [])
    case (Some(t), None, false) => IfElseMultiple([t, block], [])
    case (Some(t), None, true) => IfElse(t, block)
    case (Some(t), Some(e), false) => IfElseMultiple([t, block], [e])
    case (Some(t), Some(e), true) => IfElseMultiple([t], [e, block])
    case (None, Some(e), false) => IfElse(block, e)
    case (None, Some(e), true) => IfElseMultiple([], [e, block])
  }

  /** The eight cases of the table, stated at once: each branch keeps its
      block, and the code after the `if` joins the branch that does not
      return. (The case of no blocks returning when true is written with the
      code after it among the blocks run when the condition holds.) */
  lemma EarlyReturnKindSides(cons: Option<EffectsBlock>, alt: Option<EffectsBlock>, returnWhen: bool,
                             block: EffectsBlock)
    ensures var (ts, es) := Sides(EarlyReturnKind(cons, alt, returnWhen, block));
      if cons.None? && alt.None? && returnWhen then ts == [block] && es == []
      else
        && ts == OptionList(cons) + (if returnWhen then [] else [block])
        && es == OptionList(alt) + (if returnWhen then [block] else [])
  {
  }

  /** One entry of `end_early_return_block` applied to the current effects:
      an always-returning block restores the effects from before it (marked
      unreachable in code-generation mode); a conditional one wraps the
      effects since it into the conditional. */
  function EndEntry(effects: seq<Effect>, entry: EarlyReturn, isCodeGen: bool): seq<Effect> {
    match entry
    case Always(prev, start) => if isCodeGen then prev + [Unreachable(start)] else prev
    case ConditionalReturn(prev, start, condition, cons, alt, conditionPath, returnWhen) =>
      var block := EffectsBlock(effects, StartAfter(start));
      prev + [ConditionalEffect(condition, EarlyReturnKind(cons, alt, returnWhen, block), conditionPath)]
  }

  /** The effects after draining the stack from its top, and whether some
      entry always returned. */
  function EndBlock(effects: seq<Effect>, stack: seq<EarlyReturn>, isCodeGen: bool): (seq<Effect>, bool)
    decreases |stack|
  {
    if stack == [] then (effects, false)
    else
      var top := stack[|stack| - 1];
      var r := EndBlock(EndEntry(effects, top, isCodeGen), stack[..|stack| - 1], isCodeGen);
      (r.0, r.1 || top.Always?)
  }

  /** The block always returns exactly when some entry of the stack is
      `Always`. */
  lemma {:induction false} EndBlockAlways(effects: seq<Effect>, stack: seq<EarlyReturn>, isCodeGen: bool)
    ensures EndBlock(effects, stack, isCodeGen).1 <==> exists i :: 0 <= i < |stack| && stack[i].Always?
    decreases |stack|
  {
    if stack != [] {
      var rest := stack[..|stack| - 1];
      EndBlockAlways(EndEntry(effects, stack[|stack| - 1], isCodeGen), rest, isCodeGen);
      assert forall i :: 0 <= i < |rest| ==> rest[i] == stack[i];
    }
  }

  /** The bottom entry decides the effects' prefix: when it always returns,
      the effects are those from before it (and the unreachable marker in
      code-generation mode), whatever the entries above it did. */
  lemma EndBlockBottomAlways(effects: seq<Effect>, prev: seq<Effect>, start: AstPath, above: seq<EarlyReturn>, isCodeGen: bool)
    ensures EndBlock(effects, [Always(prev, start)] + above, isCodeGen).0
         == if isCodeGen then prev + [Unreachable(start)] else prev
  {
    EndBlockBottom(effects, Always(prev, start), above, isCodeGen);
  }

  /** Draining runs the entries above the bottom first, then the bottom one. */
  lemma {:induction false} EndBlockBottom(effects: seq<Effect>, bottom: EarlyReturn, above: seq<EarlyReturn>, isCodeGen: bool)
    ensures EndBlock(effects, [bottom] + above, isCodeGen).0
         == EndEntry(EndBlock(effects, above, isCodeGen).0, bottom, isCodeGen)
    decreases |above|
  {
    var stack := [bottom] + above;
    if above == [] {
      assert stack[..|stack| - 1] == [];
    } else {
      assert stack[|stack| - 1] == above[|above| - 1];
      assert stack[..|stack| - 1] == [bottom] + above[..|above| - 1];
      EndBlockBottom(EndEntry(effects, above[|above| - 1], isCodeGen), bottom, above[..|above| - 1], isCodeGen);
    }
  }

  /** The state change of `add_conditional_if_effect_with_early_return`, as
      the new effects and early-return stack. */
  function AddConditionalIf(effects: seq<Effect>, stack: seq<EarlyReturn>, condition: Condition,
                            path: AstPath, conditionKind: nat,
                            cons: Option<EffectsBlock>, alt: Option<EffectsBlock>,
                            returnWhenTrue: bool, returnWhenFalse: bool): (seq<Effect>, seq<EarlyReturn>)
  {
    if cons.None? && alt.None? && !returnWhenFalse && !returnWhenTrue then (effects, stack)
    else if condition.UnknownCondition? then
      (effects + (if cons.Some? then cons.value.effects else []) + (if alt.Some? then alt.value.effects else []), stack)
    else if returnWhenTrue != returnWhenFalse then
      ([], stack + [ConditionalReturn(effects, path, condition, cons, alt, path + [conditionKind], returnWhenTrue)])
    else if cons.None? && alt.None? then (effects, stack)
    else
      var kind := if cons.Some? && alt.Some? then IfElse(cons.value, alt.value)
                  else if cons.Some? then If(cons.value) else Else(alt.value);
      var added := effects + [ConditionalEffect(condition, kind, path + [conditionKind])];
      if returnWhenTrue then ([], stack + [Always(added, path)]) else (added, stack)
  }

  /** The analyser's effect list and early-return stack. */
  class Analyzer {
    const isCodeGen: bool
    var effects: seq<Effect>
    var earlyReturnStack: seq<EarlyReturn>

    constructor (isCodeGen: bool)
      ensures this.isCodeGen == isCodeGen && effects == [] && earlyReturnStack == []
    {
      this.isCodeGen := isCodeGen;
      effects := [];
      earlyReturnStack := [];
    }

    /** `add_effect`. */
    method AddEffect(effect: Effect)
      modifies this
      ensures effects == old(effects) + [effect] && earlyReturnStack == old(earlyReturnStack)
    {
      effects := effects + [effect];
    }

    /** `end_early_return_block`: drains the stack from its top, folding each
        entry into the effects, and reports whether the block always
        returns. */
    method EndEarlyReturnBlock() returns (alwaysReturns: bool)
      modifies this
      ensures earlyReturnStack == []
      ensures (effects, alwaysReturns) == EndBlock(old(effects), old(earlyReturnStack), isCodeGen)
    {
      alwaysReturns := false;
      while earlyReturnStack != []
        invariant EndBlock(effects, earlyReturnStack, isCodeGen).0 == EndBlock(old(effects), old(earlyReturnStack), isCodeGen).0
        invariant (EndBlock(effects, earlyReturnStack, isCodeGen).1 || alwaysReturns) == EndBlock(old(effects), old(earlyReturnStack), isCodeGen).1
        decreases |earlyReturnStack|
      {
        var earlyReturn := earlyReturnStack[|earlyReturnStack| - 1];
        earlyReturnStack := earlyReturnStack[..|earlyReturnStack| - 1];
        match earlyReturn {
          case Always(prev, start) =>
            effects := prev;
            if isCodeGen {
              effects := effects + [Unreachable(start)];
            }
            alwaysReturns := true;
          case ConditionalReturn(prev, start, condition, cons, alt, conditionPath, returnWhen) =>
            var block := EffectsBlock(effects, StartAfter(start));
            effects := prev;
            var kind := EarlyReturnKind(cons, alt, returnWhen, block);
            effects := effects + [ConditionalEffect(condition, kind, conditionPath)];
        }
      }
    }

    /** `add_conditional_if_effect_with_early_return`. `path` is the parent
        path of the `if` statement and `conditionKind` the parent kind of its
        test; `cons` and `alt` are the non-empty branch blocks, and the two
        flags say whether each branch always returns. */
    method AddConditionalIfEffectWithEarlyReturn(condition: Condition, path: AstPath, conditionKind: nat,
                                                  cons: Option<EffectsBlock>, alt: Option<EffectsBlock>,
                                                  returnWhenTrue: bool, returnWhenFalse: bool)
      modifies this
      ensures (effects, earlyReturnStack)
           == AddConditionalIf(old(effects), old(earlyReturnStack), condition, path, conditionKind,
                               cons, alt, returnWhenTrue, returnWhenFalse)
    {
      if cons.None? && alt.None? && !returnWhenFalse && !returnWhenTrue {
        return;
      }
      if condition.UnknownCondition? {
        if cons.Some? {
          effects := effects + cons.value.effects;
        }
        if alt.Some? {
          effects := effects + alt.value.effects;
        }
        assert effects == old(effects) + (if cons.Some? then cons.value.effects else [])
                                        + (if alt.Some? then alt.value.effects else []);
        return;
      }
      if returnWhenTrue != returnWhenFalse {
        var prev := effects;
        effects := [];
        earlyReturnStack := earlyReturnStack + [ConditionalReturn(prev, path, condition, cons, alt, path + [conditionKind], returnWhenTrue)];
      } else {
        var kind;
        if cons.Some? && alt.Some? {
          kind := IfElse(cons.value, alt.value);
        } else if cons.Some? {
          kind := If(cons.value);
        } else if alt.Some? {
          kind := Else(alt.value);
        } else {
          return;
        }
        AddEffect(ConditionalEffect(condition, kind, path + [conditionKind]));
        if returnWhenFalse && returnWhenTrue {
          var prev := effects;
          effects := [];
          earlyReturnStack := earlyReturnStack + [Always(prev, path)];
        }
      }
    }
  }

  /** An `if` with no effects and no returns adds nothing. */
  lemma NothingToAdd(effects: seq<Effect>, stack: seq<EarlyReturn>, condition: Condition, path: AstPath, conditionKind: nat)
    ensures AddConditionalIf(effects, stack, condition, path, conditionKind, None, None, false, false) == (effects, stack)
  {
  }

  /** An unknown condition inlines both branches' effects and records no
      early return. */
  lemma UnknownConditionInlines(effects: seq<Effect>, stack: seq<EarlyReturn>, path: AstPath, conditionKind: nat,
                                cons: EffectsBlock, alt: EffectsBlock, returnWhenTrue: bool, returnWhenFalse: bool)
    ensures AddConditionalIf(effects, stack, UnknownCondition, path, conditionKind, Some(cons), Some(alt),
                             returnWhenTrue, returnWhenFalse)
         == (effects + cons.effects + alt.effects, stack)
  {
  }

  /** An `if` whose branches both return (and that has some effect) makes the
      enclosing block always return: ending the block reports it, and the
      effects are those up to and including the conditional. */
  lemma BothReturnAlways(effects: seq<Effect>, condition: Condition, path: AstPath, conditionKind: nat,
                         cons: Option<EffectsBlock>, alt: Option<EffectsBlock>, isCodeGen: bool)
    requires condition.Known?
    requires cons.Some? || alt.Some?
    ensures var (e, s) := AddConditionalIf(effects, [], condition, path, conditionKind, cons, alt, true, true);
      var kind := if cons.Some? && alt.Some? then IfElse(cons.value, alt.value)
                  else if cons.Some? then If(cons.value) else Else(alt.value);
      var added := effects + [ConditionalEffect(condition, kind, path + [conditionKind])];
      && EndBlock(e, s, isCodeGen).1
      && EndBlock(e, s, isCodeGen).0 == if isCodeGen then added + [Unreachable(path)] else added
  {
  }

  /** Without any branch effects, an `if` whose branches both return records
      no early return, so the enclosing block is not known to return. */
  lemma BothReturnWithoutEffects(effects: seq<Effect>, stack: seq<EarlyReturn>, path: AstPath, conditionKind: nat, id: nat)
    ensures AddConditionalIf(effects, stack, Known(id), path, conditionKind, None, None, true, true) == (effects, stack)
  {
  }

  /** A branch that returns when the condition holds wraps the rest of the
      block into the conditional's else side. */
  lemma ReturnWhenTrueWrapsRest(effects: seq<Effect>, id: nat, path: AstPath, conditionKind: nat,
                                cons: EffectsBlock, rest: seq<Effect>, isCodeGen: bool)
    ensures var (e, s) := AddConditionalIf(effects, [], Known(id), path, conditionKind, Some(cons), None, true, false);
      && e == [] && |s| == 1
      && EndBlock(rest, s, isCodeGen)
         == (effects + [ConditionalEffect(Known(id), IfElse(cons, EffectsBlock(rest, StartAfter(path))), path + [conditionKind])], false)
  {
  }
}
