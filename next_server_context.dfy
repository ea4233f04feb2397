/** The resolve options of the Next.js Node.js server contexts: which
    context types resolve with the `react-server` condition, the list of
    packages kept external and its conflict with the transpiled packages,
    the custom resolve conditions, and the resolve plugins each context
    type gets. */
module NextServerContext {
  import opened Wrappers
  import Text
  import NextUtil
  import NextServerResolve

  /** `ServerContextType`, without the directories the variants carry. */
  datatype ServerContextType =
    | Pages
    | PagesApi
    | AppSsr
    | AppRsc
    | AppRoute
    | Middleware
    | Instrumentation

  /** `should_use_react_server_condition`. */
  predicate ShouldUseReactServerCondition(ty: ServerContextType) {
    ty.AppRsc? || ty.AppRoute? || ty.Middleware? || ty.Instrumentation?
  }

  // ---------------------------------------------------------------------------
  // External packages

  /** The packages of `packages` that `others` also lists, in order. */
  function Common(packages: seq<string>, others: seq<string>): (r: seq<string>)
    ensures forall p :: p in r <==> p in packages && p in others
  {
    if packages == [] then []
    else
      var last := packages[|packages| - 1];
      Common(packages[..|packages| - 1], others) + (if last in others then [last] else [])
  }

  /** The packages of `packages` that `dropped` does not list, in order. */
  function Without(packages: seq<string>, dropped: seq<string>): (r: seq<string>)
    ensures forall p :: p in r <==> p in packages && p !in dropped
  {
    if packages == [] then []
    else
      var last := packages[|packages| - 1];
      Without(packages[..|packages| - 1], dropped) + (if last in dropped then [] else [last])
  }

  /** `transpiled_packages.iter().filter(|package| server_external_packages.contains(package))`. */
  method ConflictingPackages(transpiled: seq<string>, serverExternal: seq<string>) returns (conflicting: seq<string>)
    ensures conflicting == Common(transpiled, serverExternal)
  {
    conflicting := [];
    for i := 0 to |transpiled|
      invariant conflicting == Common(transpiled[..i], serverExternal)
    {
      assert transpiled[..i + 1][..i] == transpiled[..i];
      if transpiled[i] in serverExternal {
        conflicting := conflicting + [transpiled[i]];
      }
    }
    assert transpiled[..|transpiled|] == transpiled;
  }

  /** `external_packages.retain(|item| !transpiled_packages.contains(item))`. */
  method Retain(packages: seq<string>, transpiled: seq<string>) returns (kept: seq<string>)
    ensures kept == Without(packages, transpiled)
  {
    kept := [];
    for i := 0 to |packages|
      invariant kept == Without(packages[..i], transpiled)
    {
      assert packages[..i + 1][..i] == packages[..i];
      if packages[i] !in transpiled {
        kept := kept + [packages[i]];
      }
    }
    assert packages[..|packages|] == packages;
  }

  const ConflictMessage := "The packages specified in the 'transpilePackages' conflict with the 'serverExternalPackages': "

  /** The debug rendering of a list of package names: quoted, comma
      separated, in brackets. */
  function DebugList(names: seq<string>): string {
    "[" + Text.Join(seq(|names|, i requires 0 <= i < |names| => "\"" + names[i] + "\""), ", ") + "]"
  }

  /** The external packages of `get_server_resolve_options_context`: the
      predefined server-external packages and the configured ones, less the
      transpiled packages (including those whose imports are optimised);
      an error naming the packages that are both transpiled and configured
      external. */
  method ExternalPackages(defaults: seq<string>, transpiled: seq<string>, optimizePackageImports: seq<string>, serverExternal: seq<string>)
    returns (r: Result<seq<string>>)
    ensures r.Err? <==> exists p :: p in transpiled + optimizePackageImports && p in serverExternal
    ensures r.Err? ==> r.msg == ConflictMessage + DebugList(Common(transpiled + optimizePackageImports, serverExternal))
    ensures r.Ok? ==> r.value == Without(defaults + serverExternal, transpiled + optimizePackageImports)
  {
    var allTranspiled := transpiled + optimizePackageImports;
    var conflicting := ConflictingPackages(allTranspiled, serverExternal);
    if conflicting != [] {
      assert conflicting[0] in allTranspiled;
      return Err(ConflictMessage + DebugList(conflicting));
    }
    var external := defaults + serverExternal;
    external := Retain(external, allTranspiled);
    return Ok(external);
  }

  /** Without a conflict every configured server-external package stays
      external, and no transpiled package is external. */
  lemma ExternalsKeepConfigured(defaults: seq<string>, transpiled: seq<string>, serverExternal: seq<string>)
    requires Common(transpiled, serverExternal) == []
    ensures forall p :: p in serverExternal ==> p in Without(defaults + serverExternal, transpiled)
    ensures forall p :: p in transpiled ==> p !in Without(defaults + serverExternal, transpiled)
  {
    forall p | p in serverExternal
      ensures p !in transpiled
    {
      assert p in transpiled ==> p in Common(transpiled, serverExternal);
    }
  }

  // ---------------------------------------------------------------------------
  // Resolve conditions

  /** The custom resolve conditions: the mode's, the Node.js runtime's, then
      `react-server` for the server-component contexts and `next-js` with
      cache components enabled. */
  method CustomConditions(modeConditions: seq<string>, ty: ServerContextType, enableCacheComponents: bool)
    returns (conditions: seq<string>)
    ensures |conditions| == |modeConditions| + 1 + (if ShouldUseReactServerCondition(ty) then 1 else 0) + (if enableCacheComponents then 1 else 0)
    ensures conditions[..|modeConditions|] == modeConditions && conditions[|modeConditions|] == "node"
    ensures "react-server" in conditions[|modeConditions| + 1..] <==> ShouldUseReactServerCondition(ty)
    ensures "next-js" in conditions[|modeConditions| + 1..] <==> enableCacheComponents
    ensures ShouldUseReactServerCondition(ty) ==> conditions[|modeConditions| + 1] == "react-server"
    ensures enableCacheComponents ==> conditions[|conditions| - 1] == "next-js"
  {
    conditions := modeConditions;
    conditions := conditions + NextUtil.CustomResolveConditions(NextUtil.NodeJs);
    if ShouldUseReactServerCondition(ty) {
      conditions := conditions + ["react-server"];
    }
    if enableCacheComponents {
      conditions := conditions + ["next-js"];
    }
    ghost var tail := conditions[|modeConditions| + 1..];
    assert tail == (if ShouldUseReactServerCondition(ty) then ["react-server"] else []) + (if enableCacheComponents then ["next-js"] else []);
  }

  // ---------------------------------------------------------------------------
  // Resolve plugins

  datatype ResolvePlugin =
    | NextFontLocal
    | ModuleFeatureReport
    | InvalidClientOnly
    | InvalidStyledJsxClientOnly
    | NextNodeSharedRuntime
    | ExternalCjsModules(selection: NextServerResolve.ExternalPredicate)
    | NextExternal

  /** The plugins that run before resolving: the local-font plugin for the
      page-rendering contexts, the module-feature report for all, then the
      invalid `client-only` and `styled-jsx` guards exactly for the contexts
      that use the `react-server` condition. */
  method BeforeResolvePlugins(ty: ServerContextType) returns (plugins: seq<ResolvePlugin>)
    ensures NextFontLocal in plugins <==> ty.Pages? || ty.AppSsr? || ty.AppRsc?
    ensures ModuleFeatureReport in plugins
    ensures InvalidClientOnly in plugins <==> ShouldUseReactServerCondition(ty)
    ensures InvalidStyledJsxClientOnly in plugins <==> ShouldUseReactServerCondition(ty)
    ensures ShouldUseReactServerCondition(ty) ==> plugins[|plugins| - 2..] == [InvalidClientOnly, InvalidStyledJsxClientOnly]
    ensures forall p :: p in plugins ==> p.NextFontLocal? || p.ModuleFeatureReport? || p.InvalidClientOnly? || p.InvalidStyledJsxClientOnly?
  {
    match ty {
      case Pages | AppSsr | AppRsc =>
        plugins := [NextFontLocal, ModuleFeatureReport];
      case PagesApi | AppRoute | Middleware | Instrumentation =>
        plugins := [ModuleFeatureReport];
    }
    match ty {
      case Pages | PagesApi =>
      case AppRsc | AppRoute | Middleware | Instrumentation =>
        plugins := plugins + [InvalidClientOnly];
        plugins := plugins + [InvalidStyledJsxClientOnly];
      case AppSsr =>
    }
  }

  /** The plugins that run after resolving: the shared-runtime plugin, the
      externals plugin, the `next/dist` externals plugin. The Pages contexts
      externalise every package but the transpiled ones unless their
      dependencies are bundled; every other context, and the Pages contexts
      when bundling, externalise only the listed external packages. */
  function AfterResolvePlugins(ty: ServerContextType, bundlePagesRouterDependencies: bool, externals: seq<string>, transpiled: seq<string>)
    : (r: seq<ResolvePlugin>)
    ensures |r| == 3 && r[0] == NextNodeSharedRuntime && r[1].ExternalCjsModules? && r[2] == NextExternal
    ensures r[1].selection.AllExcept? <==> (ty.Pages? || ty.PagesApi?) && !bundlePagesRouterDependencies
    ensures r[1].selection.AllExcept? ==> r[1].selection.exceptions == transpiled
    ensures r[1].selection.Only? ==> r[1].selection.externals == externals
  {
    var serverExternalPackagesPlugin := ExternalCjsModules(NextServerResolve.Only(externals));
    var externalCjsModulesPlugin :=
      if bundlePagesRouterDependencies then serverExternalPackagesPlugin
      else ExternalCjsModules(NextServerResolve.AllExcept(transpiled));
    match ty
    case Pages | PagesApi => [NextNodeSharedRuntime, externalCjsModulesPlugin, NextExternal]
    case _ => [NextNodeSharedRuntime, serverExternalPackagesPlugin, NextExternal]
  }

  /** The packages an externals predicate picks, by package name: all but
      the exceptions, or only the listed ones. */
  predicate Selects(selection: NextServerResolve.ExternalPredicate, package: string) {
    match selection
    case AllExcept(exceptions) => package !in exceptions
    case Only(externals) => package in externals
  }

  /** Whatever the context and the bundling setting, the externals plugin
      never picks a transpiled package and, when nothing conflicts, always
      picks a configured server-external package. */
  lemma {:induction false} ExternalsPluginSelection(ty: ServerContextType, bundle: bool, defaults: seq<string>, transpiled: seq<string>, serverExternal: seq<string>, p: string)
    requires Common(transpiled, serverExternal) == []
    ensures var plugin := AfterResolvePlugins(ty, bundle, Without(defaults + serverExternal, transpiled), transpiled)[1];
      (p in transpiled ==> !Selects(plugin.selection, p))
      && (p in serverExternal ==> Selects(plugin.selection, p))
  {
    ExternalsKeepConfigured(defaults, transpiled, serverExternal);
  }
}
