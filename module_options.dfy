/** The module options of Turbopack: the conversion of webpack loader
    conditions into rule conditions, the selection of a nested options
    context by path, and the ordered list of module rules built from an
    options context. */
module ModuleOptions {
  import opened Wrappers
  import opened FsPath
  import opened RuleConditions

  // ---------------------------------------------------------------------------
  // Webpack loader conditions

  datatype ConditionPath = PathGlob(glob: string) | PathRegex(regex: nat)

  /** `ConditionItem` of a webpack loader rule. */
  datatype ConditionItem =
    | CondAll(items: seq<ConditionItem>)
    | CondAny(items: seq<ConditionItem>)
    | CondNot(item: ConditionItem)
    | Builtin(name: string)
    | Base(path: Option<ConditionPath>, content: Option<nat>)

  datatype BuiltinMatch = Matched | Unmatched | Invalid

  /** What the conversion reads: the project path of the execution context,
      the glob each pattern compiles to, and the set of built-in conditions. */
  datatype Webpack = Webpack(projectPath: FileSystemPath, globOf: string -> nat, builtin: string -> BuiltinMatch)

  const NotBuiltin := " is not a valid built-in condition"

  /** The condition of a glob: relative to the project when it names a
      directory, on the file name otherwise. */
  function GlobCondition(w: Webpack, glob: string): RuleCondition {
    if '/' in glob then ResourcePathGlob(w.projectPath, w.globOf(glob)) else ResourceBasePathGlob(w.globOf(glob))
  }

  /** A glob with a '/' is matched against the path relative to the project
      (when on the same file system), one without against the file name. */
  lemma GlobConditionEval(w: Webpack, glob: string, env: Env)
    ensures '/' in glob && w.projectPath.fs == env.path.fs ==>
      Eval(GlobCondition(w, glob), env) == Ok(env.globMatches(w.globOf(glob), env.relativePath(w.projectPath.path, env.path.path)))
    ensures '/' !in glob ==> Eval(GlobCondition(w, glob), env) == Ok(env.globMatches(w.globOf(glob), FileName(env.path.path)))
  {
    var c := GlobCondition(w, glob);
    assert Eval(c, env) == EvalLeaf(c, env);
    if '/' !in glob {
      assert c == ResourceBasePathGlob(w.globOf(glob));
      assert BaseName(env.path.path) == FileName(env.path.path);
    }
  }

  /** The condition item names a built-in condition the set does not know. */
  predicate HasInvalidBuiltin(w: Webpack, item: ConditionItem)
    decreases item
  {
    match item
    case CondAll(items) => AnyInvalidBuiltin(w, items)
    case CondAny(items) => AnyInvalidBuiltin(w, items)
    case CondNot(inner) => HasInvalidBuiltin(w, inner)
    case Builtin(name) => w.builtin(name) == Invalid
    case Base(_, _) => false
  }

  predicate AnyInvalidBuiltin(w: Webpack, items: seq<ConditionItem>)
    decreases items
  {
    items != [] && (HasInvalidBuiltin(w, items[0]) || AnyInvalidBuiltin(w, items[1..]))
  }

  /** The path and content conditions of a `Base` item. */
  function BaseConditions(w: Webpack, path: Option<ConditionPath>, content: Option<nat>): seq<RuleCondition> {
    (match path
     case Some(PathGlob(glob)) => [GlobCondition(w, glob)]
     case Some(PathRegex(regex)) => [ResourcePathEsRegex(regex)]
     case None => [])
    + (if content.Some? then [ResourceContentEsRegex(content.value)] else [])
  }

  /** `rule_condition_from_webpack_condition`: `All`, `Any` and `Not` map to
      themselves, a built-in condition to a constant, a base item to the
      conjunction of its path and content tests; it fails exactly when a
      built-in condition is unknown. */
  function FromWebpack(w: Webpack, item: ConditionItem): (r: Result<RuleCondition>)
    ensures r.Err? <==> HasInvalidBuiltin(w, item)
    decreases item
  {
    match item
    case CondAll(items) =>
      (match FromWebpackEach(w, items)
       case Ok(cs) => Ok(All(cs))
       case Err(e) => Err(e))
    case CondAny(items) =>
      (match FromWebpackEach(w, items)
       case Ok(cs) => Ok(Any(cs))
       case Err(e) => Err(e))
    case CondNot(inner) =>
      (match FromWebpack(w, inner)
       case Ok(c) => Ok(Not(c))
       case Err(e) => Err(e))
    case Builtin(name) =>
      (match w.builtin(name)
       case Matched => Ok(True)
       case Unmatched => Ok(False)
       case Invalid => Err("\"" + name + "\"" + NotBuiltin))
    case Base(path, content) => Ok(All(BaseConditions(w, path, content)))
  }

  /** The items converted in order; the first failure is the result. */
  function FromWebpackEach(w: Webpack, items: seq<ConditionItem>): (r: Result<seq<RuleCondition>>)
    ensures r.Err? <==> AnyInvalidBuiltin(w, items)
    ensures r.Ok? ==> |r.value| == |items|
    decreases items
  {
    if items == [] then Ok([])
    else
      match FromWebpack(w, items[0])
      case Err(e) => Err(e)
      case Ok(c) =>
        match FromWebpackEach(w, items[1..])
        case Err(e) => Err(e)
        case Ok(cs) => Ok([c] + cs)
  }

  /** What a webpack condition means for a source: `All`, `Any` and `Not`
      as logic, a built-in condition by the set, a path glob relative to
      the project or on the file name, a regular expression on the path or
      the text content. */
  predicate Holds(w: Webpack, item: ConditionItem, env: Env)
    decreases item
  {
    match item
    case CondAll(items) => HoldsAll(w, items, env)
    case CondAny(items) => HoldsAny(w, items, env)
    case CondNot(inner) => !Holds(w, inner, env)
    case Builtin(name) => w.builtin(name) == Matched
    case Base(path, content) => PathHolds(w, path, env) && ContentHolds(content, env)
  }

  predicate HoldsAll(w: Webpack, items: seq<ConditionItem>, env: Env)
    decreases items
  {
    items == [] || (Holds(w, items[0], env) && HoldsAll(w, items[1..], env))
  }

  predicate HoldsAny(w: Webpack, items: seq<ConditionItem>, env: Env)
    decreases items
  {
    items != [] && (Holds(w, items[0], env) || HoldsAny(w, items[1..], env))
  }

  predicate PathHolds(w: Webpack, path: Option<ConditionPath>, env: Env) {
    match path
    case None => true
    case Some(PathRegex(regex)) => env.regexMatches(regex, env.path.path)
    case Some(PathGlob(glob)) =>
      var id := w.globOf(glob);
      if '/' !in glob then env.globMatches(id, FileName(env.path.path))
      else if w.projectPath.fs == env.path.fs then env.globMatches(id, env.relativePath(w.projectPath.path, env.path.path))
      else env.globMatches(id, env.path.path)
  }

  predicate ContentHolds(content: Option<nat>, env: Env) {
    match content
    case None => true
    case Some(regex) => env.content.Content? && env.content.text.Some? && env.regexMatches(regex, env.content.text.value)
  }

  /** A converted condition, evaluated on a source whose content is text or
      missing, means what the webpack condition means. */
  lemma {:induction false} FromWebpackEval(w: Webpack, item: ConditionItem, env: Env)
    requires FromWebpack(w, item).Ok?
    requires env.content != Content(None)
    ensures Eval(FromWebpack(w, item).value, env) == Ok(Holds(w, item, env))
    decreases item
  {
    match item
    case CondAll(items) => FromWebpackEachEval(w, items, env, false);
    case CondAny(items) => FromWebpackEachEval(w, items, env, true);
    case CondNot(inner) => FromWebpackEval(w, inner, env);
    case Builtin(name) =>
    case Base(path, content) => BaseEval(w, path, content, env);
  }

  lemma {:induction false} FromWebpackEachEval(w: Webpack, items: seq<ConditionItem>, env: Env, isAny: bool)
    requires FromWebpackEach(w, items).Ok?
    requires env.content != Content(None)
    ensures EvalJunction(isAny, FromWebpackEach(w, items).value, env)
      == Ok(if isAny then HoldsAny(w, items, env) else HoldsAll(w, items, env))
    decreases items
  {
    if items != [] {
      var cs := FromWebpackEach(w, items).value;
      FromWebpackEval(w, items[0], env);
      FromWebpackEachEval(w, items[1..], env, isAny);
      assert cs[1..] == FromWebpackEach(w, items[1..]).value;
    }
  }

  lemma BaseEval(w: Webpack, path: Option<ConditionPath>, content: Option<nat>, env: Env)
    requires env.content != Content(None)
    ensures Eval(All(BaseConditions(w, path, content)), env) == Ok(PathHolds(w, path, env) && ContentHolds(content, env))
  {
    var pathConditions := BaseConditions(w, path, None);
    var cs := BaseConditions(w, path, content);
    PathConditionsEval(w, path, env);
    if content.Some? {
      var contentCondition := ResourceContentEsRegex(content.value);
      assert cs == pathConditions + [contentCondition];
      assert Eval(contentCondition, env) == Ok(ContentHolds(content, env));
      EvalJunctionAppend(false, pathConditions, [contentCondition], env);
      assert [contentCondition][1..] == [];
    } else {
      assert cs == pathConditions;
    }
  }

  lemma PathConditionsEval(w: Webpack, path: Option<ConditionPath>, env: Env)
    ensures EvalJunction(false, BaseConditions(w, path, None), env) == Ok(PathHolds(w, path, env))
  {
    var pathConditions := BaseConditions(w, path, None);
    match path
    case None =>
      assert pathConditions == [];
    case Some(p) =>
      var c := if p.PathGlob? then GlobCondition(w, p.glob) else ResourcePathEsRegex(p.regex);
      assert pathConditions == [c];
      assert [c][1..] == [];
      if p.PathGlob? {
        GlobConditionEval(w, p.glob, env);
      }
      assert Eval(c, env) == Ok(PathHolds(w, path, env));
  }

  // ---------------------------------------------------------------------------
  // Options contexts

  datatype PostCssOptions = PostCssOptions(hasPackage: bool)

  /** A webpack loader rule: its optional condition and its loaders. */
  datatype LoaderRule = LoaderRule(condition: Option<ConditionItem>, loaders: nat)

  datatype LoaderOptions = LoaderOptions(hasRunnerPackage: bool, rules: seq<(string, LoaderRule)>)

  /** `ModuleOptionsContext`, reduced to what decides the rule list: nested
      contexts chosen by path, the CSS, PostCSS, webpack-loader, TypeScript
      and MDX switches, whether an execution context is present, the CSS
      module condition and the extra module rules. */
  datatype Context = Context(
    contextRules: seq<(nat, Context)>,
    enableRawCss: bool,
    postcss: Option<PostCssOptions>,
    webpackLoaders: Option<LoaderOptions>,
    enableTypescript: bool,
    enableMdx: bool,
    hasExecutionContext: bool,
    moduleCssCondition: Option<RuleCondition>,
    moduleRules: seq<nat>)

  /** The first context rule whose condition matches the path. */
  function FirstMatch(matches: (nat, FileSystemPath) -> bool, rules: seq<(nat, Context)>, path: FileSystemPath): (r: Option<nat>)
    ensures r.Some? ==> r.value < |rules| && matches(rules[r.value].0, path)
    ensures r.Some? ==> forall k :: 0 <= k < r.value ==> !matches(rules[k].0, path)
    ensures r.None? ==> forall k :: 0 <= k < |rules| ==> !matches(rules[k].0, path)
  {
    if rules == [] then None
    else if matches(rules[0].0, path) then Some(0)
    else
      match FirstMatch(matches, rules[1..], path)
      case Some(i) => Some(i + 1)
      case None => None
  }

  /** The loop over the context rules of `ModuleOptions::new`. */
  method SelectContext(matches: (nat, FileSystemPath) -> bool, rules: seq<(nat, Context)>, path: FileSystemPath)
    returns (r: Option<nat>)
    ensures r == FirstMatch(matches, rules, path)
  {
    for i := 0 to |rules|
      invariant forall k :: 0 <= k < i ==> !matches(rules[k].0, path)
    {
      if matches(rules[i].0, path) {
        FirstMatchIs(matches, rules, path, i);
        return Some(i);
      }
    }
    FirstMatchIs(matches, rules, path, |rules|);
    return None;
  }

  /** The first match is determined by where the conditions first hold. */
  lemma {:induction false} FirstMatchIs(matches: (nat, FileSystemPath) -> bool, rules: seq<(nat, Context)>, path: FileSystemPath, i: nat)
    requires i <= |rules| && forall k :: 0 <= k < i ==> !matches(rules[k].0, path)
    requires i < |rules| ==> matches(rules[i].0, path)
    ensures FirstMatch(matches, rules, path) == if i < |rules| then Some(i) else None
  {
    if i > 0 {
      FirstMatchIs(matches, rules[1..], path, i - 1);
    }
  }

  /** The path is needed exactly where a package is resolved from it:
      PostCSS without a configured package when raw CSS is off, and webpack
      loaders without a configured loader runner. */
  predicate NeedPath(ctx: Context) {
    (!ctx.enableRawCss && ctx.postcss.Some? && !ctx.postcss.value.hasPackage)
    || (ctx.webpackLoaders.Some? && !ctx.webpackLoaders.value.hasRunnerPackage)
  }

  // ---------------------------------------------------------------------------
  // Rules

  datatype DefaultRule =
    | JsonRule | JsRule | MjsRule | CjsRule | DeclarationRule | NodeAddonRule | WasmRule | WatRule
    | ExtensionlessRule | StaticAssetRule | UrlRule | NewUrlRule | CssUrlRule

  datatype TypeScriptRule = TsRule | TsxRule | MtsRule | MtsxRule | CtsRule | CtsxRule

  datatype CssRule =
    | RawCss | RawCssModule | PlainCss | CssModule | CssModuleAtImport | CssModuleInner | CssModuleAnalyze

  /** A rule of the list, by where it comes from. */
  datatype BuiltRule =
    | Default(defaultRule: DefaultRule)
    | TypeScript(typeScriptRule: TypeScriptRule)
    | WebpackLoader(condition: RuleCondition, loaders: nat)
    | PostCss
    | Css(cssRule: CssRule)
    | Mdx
    | Custom(rule: nat)

  const ExecutionContextForLoaders := "execution_context is required for webpack_loaders"
  const ExecutionContextForPostCss := "execution_context is required for the postcss_transform"
  const NeedPathIncorrect := "need_path in ModuleOptions::new is incorrect"

  /** Reference types of the CSS module conditions. */
  const CssInner: nat := 0
  const CssAnalyze: nat := 1

  function DefaultRules(): (r: seq<BuiltRule>)
    ensures |r| == 13 && forall x :: x in r ==> x.Default?
  {
    [ Default(JsonRule), Default(JsRule), Default(MjsRule), Default(CjsRule), Default(DeclarationRule),
      Default(NodeAddonRule), Default(WasmRule), Default(WatRule), Default(ExtensionlessRule),
      Default(StaticAssetRule), Default(UrlRule), Default(NewUrlRule), Default(CssUrlRule) ]
  }

  function TypeScriptRules(ctx: Context): (r: seq<BuiltRule>)
    ensures forall x :: x in r ==> x.TypeScript?
  {
    if ctx.enableTypescript
    then [TypeScript(TsRule), TypeScript(TsxRule), TypeScript(MtsRule), TypeScript(MtsxRule), TypeScript(CtsRule), TypeScript(CtsxRule)]
    else []
  }

  /** The CSS module condition: the configured one, else a `.module.css`
      path or a `text/css+module` content type. */
  function ModuleCssCondition(ctx: Context): RuleCondition {
    if ctx.moduleCssCondition.Some? then ctx.moduleCssCondition.value
    else Any([ResourcePathEndsWith(".module.css"), ContentTypeStartsWith("text/css+module")])
  }

  /** Not a CSS module, or one referenced as the inner or analysed part. */
  function ModuleCssExternal(ctx: Context): RuleCondition {
    Any([Not(ModuleCssCondition(ctx)), ReferenceType(CssInner), ReferenceType(CssAnalyze)])
  }

  /** The condition of a webpack loader rule before flattening: its glob,
      its own condition, not a virtual source, and the CSS-module guard. */
  function LoaderCondition(w: Webpack, external: RuleCondition, key: string, rule: LoaderRule): Result<RuleCondition> {
    if rule.condition.None? then Ok(All([GlobCondition(w, key), Not(ResourceIsVirtualSource), external]))
    else
      match FromWebpack(w, rule.condition.value)
      case Err(e) => Err(e)
      case Ok(c) => Ok(All([GlobCondition(w, key), c, Not(ResourceIsVirtualSource), external]))
  }

  /** The rule a webpack loader rule becomes: none when its flattened
      condition is `False`. */
  function LoaderRuleOf(c: RuleCondition, rule: LoaderRule): seq<BuiltRule> {
    if Flatten(c) == False then [] else [WebpackLoader(Flatten(c), rule.loaders)]
  }

  /** The webpack loader rules in order; the first failing condition is the
      result. */
  function LoaderRules(w: Webpack, external: RuleCondition, rules: seq<(string, LoaderRule)>): (r: Result<seq<BuiltRule>>)
    ensures r.Ok? ==> forall x :: x in r.value ==> x.WebpackLoader? && x.condition != False
  {
    if rules == [] then Ok([])
    else
      var last := rules[|rules| - 1];
      match LoaderRules(w, external, rules[..|rules| - 1])
      case Err(e) => Err(e)
      case Ok(prev) =>
        match LoaderCondition(w, external, last.0, last.1)
        case Err(e) => Err(e)
        case Ok(c) => Ok(prev + LoaderRuleOf(c, last.1))
  }

  function LoaderSection(w: Webpack, path: Option<FileSystemPath>, ctx: Context): Result<seq<BuiltRule>> {
    if ctx.webpackLoaders.None? then Ok([])
    else if !ctx.hasExecutionContext then Err(ExecutionContextForLoaders)
    else if !ctx.webpackLoaders.value.hasRunnerPackage && path.None? then Err(NeedPathIncorrect)
    else LoaderRules(w, ModuleCssExternal(ctx), ctx.webpackLoaders.value.rules)
  }

  function ModuleCssRules(): seq<BuiltRule> {
    [Css(PlainCss), Css(CssModule), Css(CssModuleAtImport), Css(CssModuleInner), Css(CssModuleAnalyze)]
  }

  function CssSection(path: Option<FileSystemPath>, ctx: Context): Result<seq<BuiltRule>> {
    if ctx.enableRawCss then Ok([Css(RawCss), Css(RawCssModule)])
    else if ctx.postcss.None? then Ok(ModuleCssRules())
    else if !ctx.hasExecutionContext then Err(ExecutionContextForPostCss)
    else if !ctx.postcss.value.hasPackage && path.None? then Err(NeedPathIncorrect)
    else Ok([PostCss] + ModuleCssRules())
  }

  /** The MDX rule; `enableMdx` is on when either MDX switch of the
      options is. */
  function MdxRules(ctx: Context): seq<BuiltRule> {
    if ctx.enableMdx then [Mdx] else []
  }

  function CustomRules(moduleRules: seq<nat>): (r: seq<BuiltRule>)
    ensures |r| == |moduleRules| && forall i :: 0 <= i < |r| ==> r[i] == Custom(moduleRules[i])
  {
    seq(|moduleRules|, i requires 0 <= i < |moduleRules| => Custom(moduleRules[i]))
  }

  /** The rule list of an options context, or the first error. */
  function Rules(w: Webpack, path: Option<FileSystemPath>, ctx: Context): Result<seq<BuiltRule>> {
    match LoaderSection(w, path, ctx)
    case Err(e) => Err(e)
    case Ok(loaders) =>
      match CssSection(path, ctx)
      case Err(e) => Err(e)
      case Ok(css) => Ok(TypeScriptRules(ctx) + DefaultRules() + loaders + css + MdxRules(ctx) + CustomRules(ctx.moduleRules))
  }

  /** `ModuleOptions::new`: the first nested context whose condition
      matches the path decides; otherwise the rules of this context, built
      with the path only where it is needed. */
  function New(matches: (nat, FileSystemPath) -> bool, w: Webpack, path: FileSystemPath, ctx: Context): Result<seq<BuiltRule>>
    decreases ctx
  {
    match FirstMatch(matches, ctx.contextRules, path)
    case Some(i) =>
      assert ctx.contextRules[i] in ctx.contextRules;
      New(matches, w, path, ctx.contextRules[i].1)
    case None => Rules(w, if NeedPath(ctx) then Some(path) else None, ctx)
  }

  /** Dropping the path where it is not needed never changes the rules. */
  lemma NeedPathSuffices(w: Webpack, path: FileSystemPath, ctx: Context)
    ensures Rules(w, if NeedPath(ctx) then Some(path) else None, ctx) == Rules(w, Some(path), ctx)
  {
  }

  /** The first nested context whose condition holds decides the rules; when
      none holds, they are this context's rules as if the path were always
      given. */
  lemma NewDecidedBy(matches: (nat, FileSystemPath) -> bool, w: Webpack, path: FileSystemPath, ctx: Context, i: nat)
    requires i <= |ctx.contextRules| && forall k :: 0 <= k < i ==> !matches(ctx.contextRules[k].0, path)
    requires i < |ctx.contextRules| ==> matches(ctx.contextRules[i].0, path)
    ensures i < |ctx.contextRules| ==> New(matches, w, path, ctx) == New(matches, w, path, ctx.contextRules[i].1)
    ensures i == |ctx.contextRules| ==> New(matches, w, path, ctx) == Rules(w, Some(path), ctx)
  {
    FirstMatchIs(matches, ctx.contextRules, path, i);
    NeedPathSuffices(w, path, ctx);
  }

  /** The order of the rules: the TypeScript rules before the defaults, the
      loader, CSS and MDX rules after them, the extra module rules last;
      no loader rule has the condition `False`. */
  lemma RuleOrder(w: Webpack, path: Option<FileSystemPath>, ctx: Context)
    ensures var r := Rules(w, path, ctx);
      var ts := |TypeScriptRules(ctx)|;
      r.Ok? ==>
        r.value[..ts] == TypeScriptRules(ctx)
        && r.value[ts..ts + 13] == DefaultRules()
        && r.value[|r.value| - |ctx.moduleRules|..] == CustomRules(ctx.moduleRules)
        && (forall x :: x in r.value && x.WebpackLoader? ==> x.condition != False)
  {
    var r := Rules(w, path, ctx);
    if r.Ok? {
      var ts, defaults := TypeScriptRules(ctx), DefaultRules();
      var loaders, css := LoaderSection(w, path, ctx).value, CssSection(path, ctx).value;
      var mdx, custom := MdxRules(ctx), CustomRules(ctx.moduleRules);
      Sections(ts, defaults, loaders, css, mdx, custom);
      forall x | x in r.value && x.WebpackLoader?
        ensures x.condition != False
      {
        assert x in loaders || x in css;
      }
    }
  }

  /** Where the six parts of a concatenation are, and what is in it. */
  lemma Sections<T>(a: seq<T>, b: seq<T>, c: seq<T>, d: seq<T>, e: seq<T>, f: seq<T>)
    ensures var s := a + b + c + d + e + f;
      s[..|a|] == a && s[|a|..|a| + |b|] == b && s[|s| - |f|..] == f
      && forall x :: x in s <==> x in a || x in b || x in c || x in d || x in e || x in f
  {
  }

  /** Dropping a loader rule whose condition flattens to `False` loses no
      match: that condition never holds where it evaluates; a kept rule's
      flattened condition holds exactly where the original does. */
  lemma DroppedLoaderNeverMatches(w: Webpack, external: RuleCondition, key: string, rule: LoaderRule, env: Env)
    requires LoaderCondition(w, external, key, rule).Ok?
    requires Eval(LoaderCondition(w, external, key, rule).value, env).Ok?
    ensures var c := LoaderCondition(w, external, key, rule).value;
      LoaderRuleOf(c, rule) == [] ==> Eval(c, env) == Ok(false)
    ensures var c := LoaderCondition(w, external, key, rule).value;
      LoaderRuleOf(c, rule) != [] ==> Eval(LoaderRuleOf(c, rule)[0].condition, env) == Eval(c, env)
  {
    FlattenEval(LoaderCondition(w, external, key, rule).value, env);
  }

  /** A failure at some loader rule is the result of the whole list. */
  lemma {:induction false} LoaderErrorPersists(w: Webpack, external: RuleCondition, rules: seq<(string, LoaderRule)>, k: nat)
    requires k <= |rules| && LoaderRules(w, external, rules[..k]).Err?
    ensures LoaderRules(w, external, rules) == LoaderRules(w, external, rules[..k])
    decreases |rules|
  {
    if k < |rules| {
      assert rules[..|rules| - 1][..k] == rules[..k];
      LoaderErrorPersists(w, external, rules[..|rules| - 1], k);
    } else {
      assert rules[..k] == rules;
    }
  }

  /** The body of the loop over the webpack loader rules: the rule's
      condition is built and flattened, and the rule is kept unless the
      condition is `False`. */
  method LoaderRuleFor(w: Webpack, external: RuleCondition, key: string, rule: LoaderRule)
    returns (r: Result<seq<BuiltRule>>)
    ensures LoaderCondition(w, external, key, rule).Err? ==> r == Err(LoaderCondition(w, external, key, rule).msg)
    ensures LoaderCondition(w, external, key, rule).Ok? ==> r == Ok(LoaderRuleOf(LoaderCondition(w, external, key, rule).value, rule))
  {
    var conditions := [GlobCondition(w, key)];
    if rule.condition.Some? {
      var c := FromWebpack(w, rule.condition.value);
      if c.Err? {
        return Err(c.msg);
      }
      conditions := conditions + [c.value];
      conditions := conditions + [Not(ResourceIsVirtualSource), external];
      assert conditions == [GlobCondition(w, key), c.value, Not(ResourceIsVirtualSource), external];
    } else {
      conditions := conditions + [Not(ResourceIsVirtualSource), external];
      assert conditions == [GlobCondition(w, key), Not(ResourceIsVirtualSource), external];
    }
    var all := FlattenInPlace(All(conditions));
    if all != False {
      return Ok([WebpackLoader(all, rule.loaders)]);
    }
    return Ok([]);
  }

  /** The webpack loader part of `new_internal`: each loader rule's
      condition is built, flattened and pushed unless it is `False`. */
  method PushLoaderRules(w: Webpack, path: Option<FileSystemPath>, ctx: Context, rules: seq<BuiltRule>)
    returns (r: Result<seq<BuiltRule>>)
    ensures LoaderSection(w, path, ctx).Err? ==> r == Err(LoaderSection(w, path, ctx).msg)
    ensures LoaderSection(w, path, ctx).Ok? ==> r == Ok(rules + LoaderSection(w, path, ctx).value)
  {
    if ctx.webpackLoaders.None? {
      assert rules + [] == rules;
      return Ok(rules);
    }
    if !ctx.hasExecutionContext {
      return Err(ExecutionContextForLoaders);
    }
    if !ctx.webpackLoaders.value.hasRunnerPackage && path.None? {
      return Err(NeedPathIncorrect);
    }
    var loaderRules := ctx.webpackLoaders.value.rules;
    var external := ModuleCssExternal(ctx);
    var pushed := rules;
    for i := 0 to |loaderRules|
      invariant LoaderRules(w, external, loaderRules[..i]).Ok?
      invariant pushed == rules + LoaderRules(w, external, loaderRules[..i]).value
    {
      assert loaderRules[..i + 1][..i] == loaderRules[..i];
      ghost var prev := LoaderRules(w, external, loaderRules[..i]).value;
      var rule := LoaderRuleFor(w, external, loaderRules[i].0, loaderRules[i].1);
      if rule.Err? {
        LoaderErrorPersists(w, external, loaderRules, i + 1);
        return Err(rule.msg);
      }
      pushed := pushed + rule.value;
      assert pushed == rules + (prev + rule.value);
    }
    assert loaderRules[..|loaderRules|] == loaderRules;
    return Ok(pushed);
  }

  /** The CSS part of `new_internal`: the raw CSS rules, or the optional
      PostCSS rule followed by the CSS and CSS module rules. */
  method PushCssRules(path: Option<FileSystemPath>, ctx: Context, rules: seq<BuiltRule>)
    returns (r: Result<seq<BuiltRule>>)
    ensures CssSection(path, ctx).Err? ==> r == Err(CssSection(path, ctx).msg)
    ensures CssSection(path, ctx).Ok? ==> r == Ok(rules + CssSection(path, ctx).value)
  {
    var pushed := rules;
    if ctx.enableRawCss {
      pushed := pushed + [Css(RawCss), Css(RawCssModule)];
    } else {
      if ctx.postcss.Some? {
        if !ctx.hasExecutionContext {
          return Err(ExecutionContextForPostCss);
        }
        if !ctx.postcss.value.hasPackage && path.None? {
          return Err(NeedPathIncorrect);
        }
        pushed := pushed + [PostCss];
        pushed := pushed + ModuleCssRules();
        assert pushed == rules + ([PostCss] + ModuleCssRules());
      } else {
        pushed := pushed + ModuleCssRules();
      }
    }
    return Ok(pushed);
  }

  /** `ModuleOptions::new_internal`: the rule list built by splicing,
      pushing and extending, as `Rules` describes it. */
  method NewInternal(w: Webpack, path: Option<FileSystemPath>, ctx: Context) returns (r: Result<seq<BuiltRule>>)
    ensures r == Rules(w, path, ctx)
  {
    var rules := DefaultRules();
    if ctx.enableTypescript {
      rules := TypeScriptRules(ctx) + rules;
    }
    assert rules == TypeScriptRules(ctx) + DefaultRules();
    var withLoaders := PushLoaderRules(w, path, ctx, rules);
    if withLoaders.Err? {
      return withLoaders;
    }
    var withCss := PushCssRules(path, ctx, withLoaders.value);
    if withCss.Err? {
      return withCss;
    }
    rules := withCss.value;
    if ctx.enableMdx {
      rules := rules + [Mdx];
    }
    rules := rules + CustomRules(ctx.moduleRules);
    assert rules == TypeScriptRules(ctx) + DefaultRules() + LoaderSection(w, path, ctx).value
      + CssSection(path, ctx).value + MdxRules(ctx) + CustomRules(ctx.moduleRules);
    return Ok(rules);
  }
}
