/** The module asset context of Turbopack: how a source is turned into a
    module by running the module rules over it, how resolved externals are
    replaced by cached external modules, and the glob of side-effect-free
    packages. */
module Turbopack {
  import opened Wrappers
  import Text
  import Resolve
  import ExternalModule
  import NextServerResolve

  // ---------------------------------------------------------------------------
  // Externals

  /** The resolved external type a cached external type stands for. */
  function SourceType(t: ExternalModule.CachedExternalType): Resolve.ExternalType {
    match t
    case CommonJs => Resolve.CommonJs
    case EcmaScriptViaRequire => Resolve.EcmaScriptModule
    case EcmaScriptViaImport => Resolve.EcmaScriptModule
    case Global => Resolve.Global
    case Script => Resolve.Script
  }

  /** `replace_external`: the cached external module for a resolved
      external; URL externals are left as they are. The replacement keeps
      the request and the external's type, loads an ES module with
      `import()` exactly when imports of externals are enabled, and is
      asynchronous exactly for such imports and for scripts. */
  function ReplaceExternal(name: string, ty: Resolve.ExternalType, importExternals: bool, traced: bool)
    : (r: Option<ExternalModule.CachedExternalModule>)
    ensures r.None? <==> ty == Resolve.Url
    ensures r.Some? ==> r.value.request == name && r.value.traced == traced
    ensures r.Some? ==> SourceType(r.value.externalType) == ty
    ensures r.Some? ==> (r.value.externalType == ExternalModule.EcmaScriptViaImport <==> ty == Resolve.EcmaScriptModule && importExternals)
    ensures r.Some? ==> (ExternalModule.IsSelfAsync(r.value.externalType) <==> (ty == Resolve.EcmaScriptModule && importExternals) || ty == Resolve.Script)
  {
    var externalType: Option<ExternalModule.CachedExternalType> :=
      match ty
      case CommonJs => Some(ExternalModule.CommonJs)
      case EcmaScriptModule =>
        if importExternals then Some(ExternalModule.EcmaScriptViaImport) else Some(ExternalModule.EcmaScriptViaRequire)
      case Global => Some(ExternalModule.Global)
      case Script => Some(ExternalModule.Script)
      case Url => None;
    if externalType.None? then None
    else Some(ExternalModule.CachedExternalModule(name, externalType.value, traced))
  }

  // ---------------------------------------------------------------------------
  // Side-effect-free packages

  /** `side_effect_free_packages`: the glob of every file inside one of the
      packages, built by appending to a string. For a non-empty list it is
      the path glob that decides whether a package is external; an empty
      list gives a glob with no alternatives, where the externals code
      has no glob at all. */
  method SideEffectFreePackages(packages: seq<string>) returns (glob: string)
    ensures packages != [] ==> glob == NextServerResolve.PackagesGlob(packages).value.pathGlob
    ensures packages == [] ==> glob == "**/node_modules/{}/**" && NextServerResolve.PackagesGlob(packages).None?
  {
    glob := "";
    glob := glob + "**/node_modules/{";
    glob := glob + Text.Join(packages, ",");
    glob := glob + "}/**";
  }

  // ---------------------------------------------------------------------------
  // Module types and rules

  /** Transform lists, by the identity of each transform. */
  type Transforms = seq<nat>

  /** `ModuleType`, reduced to the parts the rule loop looks at. */
  datatype ModuleType =
    | Ecmascript(preprocess: Transforms, main: Transforms, postprocess: Transforms)
    | Typescript(preprocess: Transforms, main: Transforms, postprocess: Transforms, tsx: bool)
    | Custom(id: nat)
    | Json
    | OtherType(kind: nat)

  datatype RuleEffect =
    | Ignore
    | SourceTransforms(transforms: nat)
    | SetModuleType(moduleType: ModuleType)
    | ExtendEcmascriptTransforms(preprocess: Transforms, main: Transforms, postprocess: Transforms)

  datatype ModuleRule = ModuleRule(effects: seq<RuleEffect>)

  /** A source, by its ident and its content. */
  datatype Source = Source(ident: nat, content: nat)

  /** The `type` import attribute: none, `json`, or `bytes` (which does not
      fix a module type yet). */
  datatype TypeAttribute = NoAttribute | JsonAttribute | BytesAttribute

  /** What the rule loop reads from the module asset context: the rules, the
      rule conditions, the source transforms, the transitions and the
      custom module types' answer to extra transforms. */
  datatype Env = Env(
    rules: seq<ModuleRule>,
    ruleMatches: (nat, Source) -> bool,
    transform: (nat, Source) -> Source,
    transitionFor: Source -> Option<nat>,
    customExtend: (nat, Transforms, Transforms, Transforms) -> Option<nat>)

  datatype ModuleIssue = InvalidCustomModuleType | NotEcmascriptModuleType | MissingModuleType

  datatype ProcessResult =
    | Ignored
    | Unknown(source: Source)
    | Module(source: Source, moduleType: ModuleType)
    | ViaTransition(transition: nat, source: Source)

  /** The extra ECMAScript transforms of a rule applied to the current module
      type: the rule's pre-processing and main transforms go before the
      existing ones and its post-processing after them. A custom type may
      refuse them, any other type cannot take them, and without a type they
      are an error; each of these leaves the type as it was with an issue. */
  function ExtendModuleType(env: Env, current: Option<ModuleType>, pre: Transforms, main: Transforms, post: Transforms)
    : (r: (Option<ModuleType>, Option<ModuleIssue>))
    ensures r.1.None? <==> current.Some? && (current.value.Ecmascript? || current.value.Typescript? || (current.value.Custom? && env.customExtend(current.value.id, pre, main, post).Some?))
    ensures r.1.Some? ==> r.0 == current
    ensures current.Some? && current.value.Ecmascript? ==>
      r.0 == Some(Ecmascript(pre + current.value.preprocess, main + current.value.main, current.value.postprocess + post))
    ensures current.Some? && current.value.Typescript? ==>
      r.0 == Some(Typescript(pre + current.value.preprocess, main + current.value.main, current.value.postprocess + post, current.value.tsx))
  {
    match current
    case Some(Ecmascript(p, m, q)) => (Some(Ecmascript(pre + p, main + m, q + post)), None)
    case Some(Typescript(p, m, q, tsx)) => (Some(Typescript(pre + p, main + m, q + post, tsx)), None)
    case Some(Custom(id)) =>
      (match env.customExtend(id, pre, main, post)
       case Some(extended) => (Some(Custom(extended)), None)
       case None => (current, Some(InvalidCustomModuleType)))
    case Some(_) => (current, Some(NotEcmascriptModuleType))
    case None => (None, Some(MissingModuleType))
  }

  /** Two extensions in a row are one: the later rule's pre-processing and
      main transforms come first, its post-processing last. */
  lemma {:induction false} ExtendTwice(env: Env, p: Transforms, m: Transforms, q: Transforms, p1: Transforms, m1: Transforms, q1: Transforms, p2: Transforms, m2: Transforms, q2: Transforms)
    ensures var once := ExtendModuleType(env, Some(Ecmascript(p, m, q)), p1, m1, q1).0;
      ExtendModuleType(env, once, p2, m2, q2).0 == ExtendModuleType(env, Some(Ecmascript(p, m, q)), p2 + p1, m2 + m1, q1 + q2).0
  {
    assert p2 + (p1 + p) == (p2 + p1) + p;
    assert m2 + (m1 + m) == (m2 + m1) + m;
    assert (q + q1) + q2 == q + (q1 + q2);
  }

  // ---------------------------------------------------------------------------
  // The rule loop

  /** The state of the rule loop: the current source, the module type so
      far and the issues emitted. */
  datatype Running = Running(source: Source, moduleType: Option<ModuleType>, issues: seq<ModuleIssue>)

  /** Where the loop is after a step: running on, finished with a result, or
      restarting on a source whose ident a transform changed, with the rule
      that changed it marked as processed. */
  datatype Step =
    | Continue(state: Running)
    | Stop(result: ProcessResult, issues: seq<ModuleIssue>)
    | Restart(source: Source, rule: nat, issues: seq<ModuleIssue>)

  /** One effect of the matching rule number `i`. */
  function ApplyEffect(env: Env, original: Source, st: Running, effect: RuleEffect, i: nat): Step {
    match effect
    case Ignore => Stop(Ignored, st.issues)
    case SourceTransforms(t) =>
      var transformed := env.transform(t, st.source);
      if transformed.ident == original.ident then Continue(st.(source := transformed))
      else if env.transitionFor(transformed).Some? then Stop(ViaTransition(env.transitionFor(transformed).value, transformed), st.issues)
      else Restart(transformed, i, st.issues)
    case SetModuleType(mt) => Continue(st.(moduleType := Some(mt)))
    case ExtendEcmascriptTransforms(pre, main, post) =>
      var (mt, issue) := ExtendModuleType(env, st.moduleType, pre, main, post);
      Continue(Running(st.source, mt, st.issues + (if issue.Some? then [issue.value] else [])))
  }

  /** The effects of rule `i` in order, up to the first that ends the loop. */
  function ApplyEffects(env: Env, original: Source, st: Running, effects: seq<RuleEffect>, i: nat): Step {
    if effects == [] then Continue(st)
    else
      match ApplyEffects(env, original, st, effects[..|effects| - 1], i)
      case Continue(next) => ApplyEffect(env, original, next, effects[|effects| - 1], i)
      case other => other
  }

  /** Rule `i` is passed over: once a type attribute has fixed the module
      type, for a rule already processed, and for a rule that does not
      match the source. */
  predicate Skipped(env: Env, original: Source, hasTypeAttribute: bool, processed: seq<nat>, st: Running, i: nat) {
    (hasTypeAttribute && st.moduleType.Some?) || i in processed || !env.ruleMatches(i, original)
  }

  /** The loop over the first `k` rules. */
  function RunRules(env: Env, original: Source, hasTypeAttribute: bool, processed: seq<nat>, start: Running, k: nat): Step
    requires k <= |env.rules|
  {
    if k == 0 then Continue(start)
    else
      match RunRules(env, original, hasTypeAttribute, processed, start, k - 1)
      case Continue(st) =>
        if Skipped(env, original, hasTypeAttribute, processed, st, k - 1) then Continue(st)
        else ApplyEffects(env, original, st, env.rules[k - 1].effects, k - 1)
      case other => other
  }

  /** The module type the type attribute fixes before any rule runs. */
  function AttributeType(attribute: TypeAttribute): Option<ModuleType> {
    if attribute == JsonAttribute then Some(Json) else None
  }

  /** The rule indices not yet processed. */
  function Unprocessed(env: Env, processed: seq<nat>): set<nat> {
    set i: nat | i < |env.rules| && i !in processed
  }

  /** The result of a loop that ran to the end: no module type leaves the
      source unknown. */
  function Finish(st: Running): ProcessResult {
    if st.moduleType.None? then Unknown(st.source) else Module(st.source, st.moduleType.value)
  }

  /** `process_default`: the result and the issues it emits. */
  function Process(env: Env, source: Source, attribute: TypeAttribute, processed: seq<nat>): (ProcessResult, seq<ModuleIssue>)
    decreases |Unprocessed(env, processed)|
  {
    var start := Running(source, AttributeType(attribute), []);
    RestartIsUnprocessed(env, source, attribute != NoAttribute, processed, start, |env.rules|);
    match RunRules(env, source, attribute != NoAttribute, processed, start, |env.rules|)
    case Continue(st) => (Finish(st), st.issues)
    case Stop(result, issues) => (result, issues)
    case Restart(next, i, issues) =>
      UnprocessedShrinks(env, processed, i);
      var (result, more) := Process(env, next, attribute, processed + [i]);
      (result, issues + more)
  }

  lemma UnprocessedShrinks(env: Env, processed: seq<nat>, i: nat)
    requires i < |env.rules| && i !in processed
    ensures |Unprocessed(env, processed + [i])| < |Unprocessed(env, processed)|
  {
    assert Unprocessed(env, processed) == Unprocessed(env, processed + [i]) + {i};
  }

  /** A restart names a rule of the list that was not yet processed. */
  lemma {:induction false} RestartIsUnprocessed(env: Env, original: Source, hasTypeAttribute: bool, processed: seq<nat>, start: Running, k: nat)
    requires k <= |env.rules|
    ensures var step := RunRules(env, original, hasTypeAttribute, processed, start, k);
      step.Restart? ==> step.rule < k && step.rule !in processed
  {
    if k > 0 {
      RestartIsUnprocessed(env, original, hasTypeAttribute, processed, start, k - 1);
      var prev := RunRules(env, original, hasTypeAttribute, processed, start, k - 1);
      if prev.Continue? && !Skipped(env, original, hasTypeAttribute, processed, prev.state, k - 1) {
        EffectsRestartAt(env, original, prev.state, env.rules[k - 1].effects, k - 1);
      }
    }
  }

  lemma {:induction false} EffectsRestartAt(env: Env, original: Source, st: Running, effects: seq<RuleEffect>, i: nat)
    ensures var step := ApplyEffects(env, original, st, effects, i);
      step.Restart? ==> step.rule == i
    decreases |effects|
  {
    if effects != [] {
      EffectsRestartAt(env, original, st, effects[..|effects| - 1], i);
    }
  }

  /** Once the effects of a rule end the loop, later effects change nothing. */
  lemma {:induction false} EffectsStopPersist(env: Env, original: Source, st: Running, effects: seq<RuleEffect>, i: nat, j: nat)
    requires j <= |effects|
    requires !ApplyEffects(env, original, st, effects[..j], i).Continue?
    ensures ApplyEffects(env, original, st, effects, i) == ApplyEffects(env, original, st, effects[..j], i)
    decreases |effects|
  {
    if j < |effects| {
      assert effects[..|effects| - 1][..j] == effects[..j];
      EffectsStopPersist(env, original, st, effects[..|effects| - 1], i, j);
    } else {
      assert effects[..j] == effects;
    }
  }

  /** Once the loop has ended at some rule, later rules change nothing. */
  lemma {:induction false} RulesStopPersist(env: Env, original: Source, hasTypeAttribute: bool, processed: seq<nat>, start: Running, k: nat, n: nat)
    requires k <= n <= |env.rules|
    requires !RunRules(env, original, hasTypeAttribute, processed, start, k).Continue?
    ensures RunRules(env, original, hasTypeAttribute, processed, start, n) == RunRules(env, original, hasTypeAttribute, processed, start, k)
    decreases n
  {
    if k < n {
      RulesStopPersist(env, original, hasTypeAttribute, processed, start, k, n - 1);
    }
  }

  /** Effect `j` of an applied rule `i` ended the loop: that is how the
      whole loop ends. */
  lemma Stopped(env: Env, original: Source, hasTypeAttribute: bool, processed: seq<nat>, start: Running, before: Running, i: nat, j: nat)
    requires i < |env.rules| && j < |env.rules[i].effects|
    requires RunRules(env, original, hasTypeAttribute, processed, start, i) == Continue(before)
    requires !Skipped(env, original, hasTypeAttribute, processed, before, i)
    requires !ApplyEffects(env, original, before, env.rules[i].effects[..j + 1], i).Continue?
    ensures RunRules(env, original, hasTypeAttribute, processed, start, |env.rules|)
      == ApplyEffects(env, original, before, env.rules[i].effects[..j + 1], i)
  {
    EffectsStopPersist(env, original, before, env.rules[i].effects, i, j + 1);
    RulesStopPersist(env, original, hasTypeAttribute, processed, start, i + 1, |env.rules|);
  }

  /** `process_default`, as a loop over the rules and their effects: the
      result and the issues are those of `Process`. */
  method ProcessDefault(env: Env, source: Source, attribute: TypeAttribute, processed: seq<nat>)
    returns (result: ProcessResult, issues: seq<ModuleIssue>)
    ensures (result, issues) == Process(env, source, attribute, processed)
    decreases |Unprocessed(env, processed)|
  {
    var hasTypeAttribute := attribute != NoAttribute;
    var currentSource := source;
    var currentModuleType := AttributeType(attribute);
    issues := [];
    ghost var start := Running(currentSource, currentModuleType, issues);
    for i := 0 to |env.rules|
      invariant RunRules(env, source, hasTypeAttribute, processed, start, i) == Continue(Running(currentSource, currentModuleType, issues))
    {
      ghost var before := Running(currentSource, currentModuleType, issues);
      if !(hasTypeAttribute && currentModuleType.Some?) && i !in processed && env.ruleMatches(i, source) {
        var effects := env.rules[i].effects;
        for j := 0 to |effects|
          invariant ApplyEffects(env, source, before, effects[..j], i) == Continue(Running(currentSource, currentModuleType, issues))
        {
          assert effects[..j + 1][..j] == effects[..j];
          match effects[j] {
            case Ignore =>
              Stopped(env, source, hasTypeAttribute, processed, start, before, i, j);
              return Ignored, issues;
            case SourceTransforms(t) =>
              currentSource := env.transform(t, currentSource);
              if currentSource.ident != source.ident {
                Stopped(env, source, hasTypeAttribute, processed, start, before, i, j);
                var transition := env.transitionFor(currentSource);
                if transition.Some? {
                  return ViaTransition(transition.value, currentSource), issues;
                }
                UnprocessedShrinks(env, processed, i);
                var more;
                result, more := ProcessDefault(env, currentSource, attribute, processed + [i]);
                return result, issues + more;
              }
            case SetModuleType(mt) =>
              currentModuleType := Some(mt);
            case ExtendEcmascriptTransforms(pre, main, post) =>
              var (mt, issue) := ExtendModuleType(env, currentModuleType, pre, main, post);
              currentModuleType := mt;
              if issue.Some? {
                issues := issues + [issue.value];
              }
          }
        }
        assert effects[..|effects|] == effects;
      }
    }
    if currentModuleType.None? {
      return Unknown(currentSource), issues;
    }
    return Module(currentSource, currentModuleType.value), issues;
  }

  // ---------------------------------------------------------------------------
  // Properties of the rule loop

  /** Rules that are all passed over leave the loop where it started. */
  lemma {:induction false} AllSkipped(env: Env, original: Source, hasTypeAttribute: bool, processed: seq<nat>, start: Running, k: nat)
    requires k <= |env.rules|
    requires forall i :: 0 <= i < k ==> Skipped(env, original, hasTypeAttribute, processed, start, i)
    ensures RunRules(env, original, hasTypeAttribute, processed, start, k) == Continue(start)
  {
    if k > 0 {
      AllSkipped(env, original, hasTypeAttribute, processed, start, k - 1);
    }
  }

  /** A `json` type attribute fixes the module type before any rule runs,
      so every rule is passed over: the source becomes a JSON module as it
      is, without issues. */
  lemma JsonAttributeFixesType(env: Env, source: Source, processed: seq<nat>)
    ensures Process(env, source, JsonAttribute, processed) == (Module(source, Json), [])
  {
    AllSkipped(env, source, true, processed, Running(source, Some(Json), []), |env.rules|);
  }

  /** When no rule applies (each was processed or does not match), the
      source is unknown, or a JSON module under a `json` attribute. */
  lemma NoRuleApplies(env: Env, source: Source, attribute: TypeAttribute, processed: seq<nat>)
    requires forall i :: 0 <= i < |env.rules| ==> i in processed || !env.ruleMatches(i, source)
    ensures Process(env, source, attribute, processed)
      == (if attribute == JsonAttribute then Module(source, Json) else Unknown(source), [])
  {
    var start := Running(source, AttributeType(attribute), []);
    AllSkipped(env, source, attribute != NoAttribute, processed, start, |env.rules|);
  }

  /** The first rule that applies, with `Ignore` as its first effect: the
      source is ignored. */
  lemma FirstRuleIgnores(env: Env, source: Source, attribute: TypeAttribute, processed: seq<nat>, i: nat)
    requires attribute != JsonAttribute
    requires i < |env.rules| && i !in processed && env.ruleMatches(i, source)
    requires forall k :: 0 <= k < i ==> k in processed || !env.ruleMatches(k, source)
    requires env.rules[i].effects != [] && env.rules[i].effects[0] == Ignore
    ensures Process(env, source, attribute, processed) == (Ignored, [])
  {
    var h := attribute != NoAttribute;
    var start := Running(source, None, []);
    AllSkipped(env, source, h, processed, start, i);
    assert env.rules[i].effects[..1][..0] == [];
    Stopped(env, source, h, processed, start, start, i, 0);
  }

  /** The first rule that applies, with a source transform that changes
      the ident as its first effect and no transition for the new source:
      the rules run again over the new source, with that rule marked as
      processed. */
  lemma FirstRuleRestarts(env: Env, source: Source, attribute: TypeAttribute, processed: seq<nat>, i: nat, t: nat)
    requires attribute != JsonAttribute
    requires i < |env.rules| && i !in processed && env.ruleMatches(i, source)
    requires forall k :: 0 <= k < i ==> k in processed || !env.ruleMatches(k, source)
    requires env.rules[i].effects != [] && env.rules[i].effects[0] == SourceTransforms(t)
    requires env.transform(t, source).ident != source.ident && env.transitionFor(env.transform(t, source)).None?
    ensures Process(env, source, attribute, processed) == Process(env, env.transform(t, source), attribute, processed + [i])
  {
    var h := attribute != NoAttribute;
    var start := Running(source, None, []);
    AllSkipped(env, source, h, processed, start, i);
    assert env.rules[i].effects[..1][..0] == [];
    Stopped(env, source, h, processed, start, start, i, 0);
    var next := Process(env, env.transform(t, source), attribute, processed + [i]);
    assert [] + next.1 == next.1;
  }

  /** Effects that only set or extend the module type. */
  predicate TypeEffect(effect: RuleEffect) {
    effect.SetModuleType? || effect.ExtendEcmascriptTransforms?
  }

  lemma {:induction false} TypeEffectsContinue(env: Env, original: Source, st: Running, effects: seq<RuleEffect>, i: nat)
    requires forall e :: e in effects ==> TypeEffect(e)
    ensures ApplyEffects(env, original, st, effects, i).Continue?
    ensures ApplyEffects(env, original, st, effects, i).state.source == st.source
    ensures st.issues <= ApplyEffects(env, original, st, effects, i).state.issues
    decreases |effects|
  {
    if effects != [] {
      assert forall e :: e in effects[..|effects| - 1] ==> e in effects;
      TypeEffectsContinue(env, original, st, effects[..|effects| - 1], i);
      assert TypeEffect(effects[|effects| - 1]);
    }
  }

  lemma {:induction false} TypeRulesContinue(env: Env, original: Source, hasTypeAttribute: bool, processed: seq<nat>, start: Running, k: nat)
    requires k <= |env.rules|
    requires forall i, e :: 0 <= i < |env.rules| && e in env.rules[i].effects ==> TypeEffect(e)
    ensures RunRules(env, original, hasTypeAttribute, processed, start, k).Continue?
    ensures RunRules(env, original, hasTypeAttribute, processed, start, k).state.source == start.source
    decreases k
  {
    if k > 0 {
      TypeRulesContinue(env, original, hasTypeAttribute, processed, start, k - 1);
      var st := RunRules(env, original, hasTypeAttribute, processed, start, k - 1).state;
      TypeEffectsContinue(env, original, st, env.rules[k - 1].effects, k - 1);
    }
  }

  /** Rules that only set and extend module types keep the source: it
      becomes a module of some type, or stays unknown exactly when no type
      was set. */
  lemma TypeRulesKeepSource(env: Env, source: Source, attribute: TypeAttribute, processed: seq<nat>)
    requires forall i, e :: 0 <= i < |env.rules| && e in env.rules[i].effects ==> TypeEffect(e)
    ensures var r := Process(env, source, attribute, processed).0;
      (r.Unknown? || r.Module?) && r.source == source
  {
    var start := Running(source, AttributeType(attribute), []);
    TypeRulesContinue(env, source, attribute != NoAttribute, processed, start, |env.rules|);
  }
}
