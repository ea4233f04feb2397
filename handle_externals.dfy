/** The externals decision of Next.js's rspack binding: for a request seen
    while bundling the server, whether the module stays external ("commonjs
    <path>" or "module <path>"), is bundled (no result), or is an error.
    The regular expressions of the source are written out as predicates on
    the request; the resolver is a parameter. Paths are Unix paths. */
module HandleExternals {
  import opened Wrappers
  import opened Text

  // ---------------------------------------------------------------------------
  // Layers

  const WebpackBundledLayers: seq<string> :=
    ["rsc", "action-browser", "ssr", "app-pages-browser", "shared", "instrument", "middleware"]

  const WebpackServerOnlyLayers: seq<string> := ["rsc", "action-browser", "instrument", "middleware"]

  /** `is_webpack_bundled_layer`. */
  predicate IsBundledLayer(layer: Option<string>) {
    layer.Some? && layer.value in WebpackBundledLayers
  }

  /** `should_use_react_server_condition`. */
  predicate ShouldUseReactServerCondition(layer: Option<string>) {
    layer.Some? && layer.value in WebpackServerOnlyLayers
  }

  /** Every server-only layer is a bundled layer. */
  lemma ServerOnlyLayersAreBundled(layer: Option<string>)
    ensures ShouldUseReactServerCondition(layer) ==> IsBundledLayer(layer)
    ensures !IsBundledLayer(None) && IsBundledLayer(Some("ssr")) && !ShouldUseReactServerCondition(Some("ssr"))
  {
  }

  // ---------------------------------------------------------------------------
  // Paths and patterns

  /** `normalize_path_sep`: every backslash becomes a slash. */
  function NormalizePathSep(path: string): (r: string)
    ensures |r| == |path| && '\\' !in r
    ensures forall i :: 0 <= i < |path| && path[i] != '\\' ==> r[i] == path[i]
  {
    ReplaceChar(path, '\\', '/')
  }

  /** Normalizing twice is normalizing once. */
  lemma NormalizePathSepIdempotent(path: string)
    ensures NormalizePathSep(NormalizePathSep(path)) == NormalizePathSep(path)
  {
  }

  /** No newline in `s`: the part a `.*` of the source's patterns can match. */
  predicate NoNewline(s: string) {
    '\n' !in s
  }

  /** `^(react|react-dom|react-server-dom-webpack)($|/)`. */
  predicate IsReactPackage(request: string) {
    IsPackageOrSubpath(request, "react") || IsPackageOrSubpath(request, "react-dom")
    || IsPackageOrSubpath(request, "react-server-dom-webpack")
  }

  /** The request names the package or a path inside it. */
  predicate IsPackageOrSubpath(request: string, pkg: string) {
    request == pkg || StartsWith(request, pkg + "/")
  }

  /** `.*<suffix>$` from index `from` on: the text ends with the suffix and
      has no newline between `from` and the suffix. */
  predicate SuffixAfter(s: string, from: nat, suffix: string) {
    from + |suffix| <= |s| && EndsWith(s, suffix) && NoNewline(s[from..|s| - |suffix|])
  }

  /** `.*(<suffix>|...)$` from index `from` on, for one of the suffixes. */
  predicate AnySuffixAfter(s: string, from: nat, suffixes: seq<string>) {
    suffixes != [] && (SuffixAfter(s, from, suffixes[0]) || AnySuffixAfter(s, from, suffixes[1..]))
  }

  /** A pattern `^<prefix>.*<suffix>$`, the prefix spelled with "/" for
      `[/\\]`, for one of the suffixes. */
  predicate PrefixAndSuffix(s: string, prefix: string, suffixes: seq<string>) {
    StartsWith(NormalizePathSep(s), prefix) && AnySuffixAfter(s, |prefix|, suffixes)
  }

  /** `^next[/\\]dist[/\\]shared[/\\]lib[/\\]image-loader`. */
  predicate IsNextImageLoader(request: string) {
    StartsWith(NormalizePathSep(request), "next/dist/shared/lib/image-loader")
  }

  /** `^next[/\\]dist[/\\]compiled[/\\]next-server`. */
  predicate IsNextServer(request: string) {
    StartsWith(NormalizePathSep(request), "next/dist/compiled/next-server")
  }

  /** `^next[/\\]dist[/\\]shared[/\\](?!lib[/\\]router[/\\]router)`. */
  predicate IsNextSharedCjs(request: string) {
    var s := NormalizePathSep(request);
    StartsWith(s, "next/dist/shared/") && !StartsWith(s[17..], "lib/router/router")
  }

  /** `^next[/\\]dist[/\\]esm[/\\]shared[/\\](?!lib[/\\]router[/\\]router)`. */
  predicate IsNextSharedEsm(request: string) {
    var s := NormalizePathSep(request);
    StartsWith(s, "next/dist/esm/shared/") && !StartsWith(s[21..], "lib/router/router")
  }

  /** `^next[/\\]dist[/\\]compiled[/\\].*\.c?js$`. */
  predicate IsNextCompiledCjs(request: string) {
    PrefixAndSuffix(request, "next/dist/compiled/", [".js", ".cjs"])
  }

  /** `^next[/\\]dist[/\\]compiled[/\\].*\.mjs$`. */
  predicate IsNextCompiledMjs(request: string) {
    PrefixAndSuffix(request, "next/dist/compiled/", [".mjs"])
  }

  /** `node_modules[/\\]@babel[/\\]runtime[/\\]`. */
  predicate IsBabelRuntime(path: string) {
    Contains(NormalizePathSep(path), "node_modules/@babel/runtime/")
  }

  /** `node_modules[/\\]webpack|node_modules[/\\]css-loader`. */
  predicate IsWebpackOrCssLoader(path: string) {
    Contains(NormalizePathSep(path), "node_modules/webpack") || Contains(NormalizePathSep(path), "node_modules/css-loader")
  }

  /** A pattern `<infix>.*<suffix>$` matching with the infix at `i`, the
      infix spelled with "/" for `[/\\]`. */
  predicate InfixAt(s: string, infix: string, suffixes: seq<string>, i: nat) {
    OccursAt(NormalizePathSep(s), infix, i) && AnySuffixAfter(s, i + |infix|, suffixes)
  }

  /** The pattern `<infix>.*<suffix>$` anywhere in the path. */
  predicate InfixAndSuffix(s: string, infix: string, suffixes: seq<string>) {
    exists i: nat | i <= |s| :: InfixAt(s, infix, suffixes, i)
  }

  /** `node_modules[/\\].*\.[mc]?js$`. */
  predicate IsNodeModulesFile(path: string) {
    InfixAndSuffix(path, "node_modules/", [".js", ".mjs", ".cjs"])
  }

  /** `next[/\\]dist(([/\\])esm)?[/\\].*(\.external(\.js)?)$`; the optional
      "esm" part is covered by the `.*` that follows it. */
  predicate IsNextExternalFile(path: string) {
    InfixAndSuffix(path, "next/dist/", [".external", ".external.js"])
  }

  /** The leftmost match of `.*?next[/\\]dist` replaced by "next/dist": the
      match ends at the first "next/dist" and starts after the last newline
      before it. */
  function ReplaceNextDist(path: string): (r: string)
    ensures Find(NormalizePathSep(path), "next/dist").None? ==> r == path
  {
    match Find(NormalizePathSep(path), "next/dist")
    case None => path
    case Some(j) =>
      var start := match LastIndexOf(path[..j], '\n') case None => 0 case Some(n) => n + 1;
      path[..start] + "next/dist" + path[j + 9..]
  }

  /** `resolve_next_external`: a Next.js file ending in ".external" or
      ".external.js" is required as "commonjs" from its "next/dist" path. */
  function ResolveNextExternal(localRes: string): (r: Option<string>)
    ensures r.Some? <==> IsNextExternalFile(localRes)
    ensures r.Some? ==> StartsWith(r.value, "commonjs ") && '\\' !in r.value
  {
    if IsNextExternalFile(localRes) then Some("commonjs " + NormalizePathSep(ReplaceNextDist(localRes))) else None
  }

  /** An occurrence of a text is one of each of its prefixes. */
  lemma OccursAtPrefix(s: string, t: string, u: string, i: nat)
    requires OccursAt(s, t + u, i)
    ensures OccursAt(s, t, i)
  {
    assert s[i..i + |t|] == (t + u)[..|t|];
  }

  /** In a path without newlines the match of `.*?next[/\\]dist` starts at
      the beginning. */
  lemma ReplaceNextDistNoNewline(path: string, j: nat)
    requires NoNewline(path) && Find(NormalizePathSep(path), "next/dist") == Some(j)
    ensures ReplaceNextDist(path) == "next/dist" + path[j + 9..]
  {
    assert forall c | c in path[..j] :: c in path;
    assert LastIndexOf(path[..j], '\n').None?;
  }

  /** Normalizing keeps a prefix without backslashes. */
  lemma NormalizeKeepsPrefix(s: string, prefix: string)
    requires StartsWith(s, prefix) && '\\' !in prefix
    ensures StartsWith(NormalizePathSep(s), prefix)
  {
    var out := NormalizePathSep(s);
    forall k | 0 <= k < |prefix| ensures out[k] == prefix[k] {
      assert s[k] == prefix[k];
    }
  }

  /** For a path without newlines the external path starts at "next/dist". */
  lemma ResolveNextExternalPath(localRes: string)
    requires IsNextExternalFile(localRes) && NoNewline(localRes)
    ensures StartsWith(ResolveNextExternal(localRes).value, "commonjs next/dist")
  {
    var s := NormalizePathSep(localRes);
    var i: nat :| i <= |localRes| && InfixAt(localRes, "next/dist/", [".external", ".external.js"], i);
    OccursAtPrefix(s, "next/dist", "/", i);
    var j := Find(s, "next/dist").value;
    ReplaceNextDistNoNewline(localRes, j);
    var out := NormalizePathSep("next/dist" + localRes[j + 9..]);
    NormalizeKeepsPrefix("next/dist" + localRes[j + 9..], "next/dist");
    assert ResolveNextExternal(localRes) == Some("commonjs " + out);
    StartsWithConcat("commonjs ", out, "next/dist");
    CommonjsNextDist();
  }

  /** The two literals spell the external prefix. */
  lemma CommonjsNextDist()
    ensures "commonjs " + "next/dist" == "commonjs next/dist"
  {
  }

  /** A prefix of the tail gives a prefix of the whole. */
  lemma StartsWithConcat(a: string, b: string, p: string)
    requires StartsWith(b, p)
    ensures StartsWith(a + b, a + p)
  {
    assert (a + b)[..|a + p|] == a + b[..|p|];
  }

  /** `Path::parent` of a Unix path: the text before the last "/", "/" for
      a file at the root, "" for a bare name, and none for "" or "/". */
  function ParentDir(path: string): (r: Option<string>)
    ensures r.Some? ==> |r.value| < |path|
  {
    if path == "" || path == "/" then None
    else match LastIndexOf(path, '/')
      case None => Some("")
      case Some(0) => Some("/")
      case Some(i) => Some(path[..i])
  }

  // ---------------------------------------------------------------------------
  // Packages

  /** One package of `is_resource_in_packages`: below its mapped directory
      if it has one, else inside a "node_modules" folder of its name. */
  predicate InPackage(resource: string, pkg: string, dirs: Option<map<string, string>>) {
    if dirs.Some? && pkg in dirs.value then StartsWith(resource, dirs.value[pkg] + "/")
    else Contains(resource, "/node_modules/" + pkg + "/")
  }

  /** `is_resource_in_packages`: the resource belongs to one of the
      packages. */
  function IsResourceInPackages(resource: string, packages: seq<string>, dirs: Option<map<string, string>>): (r: bool)
    ensures r <==> exists i :: 0 <= i < |packages| && InPackage(resource, packages[i], dirs)
  {
    if packages == [] then false
    else InPackage(resource, packages[0], dirs) || IsResourceInPackages(resource, packages[1..], dirs)
  }

  /** No packages contain nothing, and a mapped package is matched by its
      directory only, never by a "node_modules" path. */
  lemma ResourceInPackagesCases(resource: string, pkg: string, dir: string)
    ensures !IsResourceInPackages(resource, [], None)
    ensures IsResourceInPackages(resource, [pkg], Some(map[pkg := dir])) <==> StartsWith(resource, dir + "/")
    ensures IsResourceInPackages(resource, [pkg], None) <==> Contains(resource, "/node_modules/" + pkg + "/")
  {
  }

  // ---------------------------------------------------------------------------
  // resolve_external

  /** The resolver options the source uses: for a require or an import, and
      the "base" ones that ignore aliases. */
  datatype ResolveOptionsKind = NodeCjs | NodeEsm | NodeBaseCjs | NodeBaseEsm

  /** The resolver: options, context directory and request give the path, if
      any, and whether it is ESM, or an error. */
  type Resolver = (ResolveOptionsKind, string, string) -> Result<(Option<string>, bool)>

  /** `EsmExternalsConfig`: `None`, loose, or enabled. */
  datatype EsmExternalsConfig = Off | On | Loose

  /** `ResolveResult` of the binding. */
  datatype Resolution = Resolution(res: Option<string>, isEsm: bool, localRes: Option<string>)

  /** ESM resolution is tried first only when ESM externals are enabled and
      an import asked for ESM. */
  function PreferEsmOptions(esm: EsmExternalsConfig, isEsmRequested: bool): (r: seq<bool>)
    ensures r == [true, false] <==> esm != Off && isEsmRequested
    ensures r == [false] <==> !(esm != Off && isEsmRequested)
  {
    if esm != Off && isEsmRequested then [true, false] else [false]
  }

  /** The inputs of one call of `resolve_external`. */
  datatype ExternalQuery = ExternalQuery(
    dir: string, esm: EsmExternalsConfig, ctx: string, request: string, isEsmRequested: bool,
    resolve: Resolver, localCallback: bool, baseResolveCheck: bool)

  /** The loop of `resolve_external` over the remaining options, from the
      current path and ESM flag. A failed resolution clears the path but
      keeps the ESM flag. */
  function ResolveLoop(q: ExternalQuery, options: seq<bool>, res: Option<string>, isEsm: bool): Resolution {
    if options == [] then Resolution(res, isEsm, None)
    else
      var outcome := q.resolve(if options[0] then NodeEsm else NodeCjs, q.ctx, q.request);
      var res1 := if outcome.Ok? then outcome.value.0 else None;
      var esm1 := if outcome.Ok? then outcome.value.1 else isEsm;
      if res1.None? then ResolveLoop(q, options[1..], res1, esm1)
      else if !q.isEsmRequested && esm1 && q.esm != Loose then ResolveLoop(q, options[1..], res1, esm1)
      else if q.localCallback then Resolution(None, false, ResolveNextExternal(res1.value))
      else if q.baseResolveCheck && BaseOutcome(q, esm1) != (res1, esm1) then ResolveLoop(q, options[1..], None, esm1)
      else Resolution(res1, esm1, None)
  }

  /** The resolution from the project directory with the base options. */
  function BaseOutcome(q: ExternalQuery, isEsm: bool): (Option<string>, bool) {
    var base := q.resolve(if isEsm then NodeBaseEsm else NodeBaseCjs, q.dir, q.request);
    if base.Ok? then base.value else (None, false)
  }

  /** `resolve_external`: tries the options in turn and stops at the first
      resolution that is acceptable and, when checked, agrees with the base
      resolution. */
  method ResolveExternal(q: ExternalQuery) returns (r: Resolution)
    ensures r == ResolveLoop(q, PreferEsmOptions(q.esm, q.isEsmRequested), None, false)
  {
    var options := PreferEsmOptions(q.esm, q.isEsmRequested);
    var res: Option<string> := None;
    var isEsm := false;
    var i := 0;
    while i < |options|
      invariant 0 <= i <= |options|
      invariant ResolveLoop(q, options[i..], res, isEsm) == ResolveLoop(q, options, None, false)
    {
      assert options[i..][1..] == options[i + 1..];
      var kind := if options[i] then NodeEsm else NodeCjs;
      var outcome := q.resolve(kind, q.ctx, q.request);
      if outcome.Ok? {
        res := outcome.value.0;
        isEsm := outcome.value.1;
      } else {
        res := None;
      }
      if res.None? {
        i := i + 1;
        continue;
      }
      if !q.isEsmRequested && isEsm && q.esm != Loose {
        i := i + 1;
        continue;
      }
      if q.localCallback {
        return Resolution(None, false, ResolveNextExternal(res.value));
      }
      if q.baseResolveCheck {
        var baseKind := if isEsm then NodeBaseEsm else NodeBaseCjs;
        var base := q.resolve(baseKind, q.dir, q.request);
        var baseRes: Option<string> := None;
        var baseIsEsm := false;
        if base.Ok? {
          baseRes := base.value.0;
          baseIsEsm := base.value.1;
        }
        if baseRes != res || isEsm != baseIsEsm {
          res := None;
          i := i + 1;
          continue;
        }
      }
      return Resolution(res, isEsm, None);
    }
    assert options[i..] == [];
    return Resolution(res, isEsm, None);
  }

  /** A path that comes out of the loop, when required ESM modules are not
      let through, came from the resolver, and when checked the base
      resolution agrees with it. */
  lemma {:induction false} ResolveLoopFound(q: ExternalQuery, options: seq<bool>, isEsm: bool)
    requires !q.localCallback && (q.isEsmRequested || q.esm == Loose)
    ensures var r := ResolveLoop(q, options, None, isEsm);
      r.res.Some? ==>
        && (exists k :: 0 <= k < |options| && q.resolve(if options[k] then NodeEsm else NodeCjs, q.ctx, q.request) == Ok((r.res, r.isEsm)))
        && (q.baseResolveCheck ==> BaseOutcome(q, r.isEsm) == (r.res, r.isEsm))
  {
    if options != [] {
      var outcome := q.resolve(if options[0] then NodeEsm else NodeCjs, q.ctx, q.request);
      var res1 := if outcome.Ok? then outcome.value.0 else None;
      var esm1 := if outcome.Ok? then outcome.value.1 else isEsm;
      if res1.Some? && !(q.baseResolveCheck && BaseOutcome(q, esm1) != (res1, esm1)) {
        assert q.resolve(if options[0] then NodeEsm else NodeCjs, q.ctx, q.request) == Ok((res1, esm1));
      } else {
        ResolveLoopFound(q, options[1..], esm1);
        var r := ResolveLoop(q, options, None, isEsm);
        assert r == ResolveLoop(q, options[1..], None, esm1);
        if r.res.Some? {
          var k :| 0 <= k < |options[1..]| && q.resolve(if options[1..][k] then NodeEsm else NodeCjs, q.ctx, q.request) == Ok((r.res, r.isEsm));
          assert options[1..][k] == options[k + 1];
        }
      }
    }
  }

  /** A local path comes only with the callback, and then no path does. */
  lemma {:induction false} ResolveLoopLocal(q: ExternalQuery, options: seq<bool>, res: Option<string>, isEsm: bool)
    ensures var r := ResolveLoop(q, options, res, isEsm);
      && (r.localRes.Some? ==> q.localCallback && r.res.None? && StartsWith(r.localRes.value, "commonjs "))
  {
    if options != [] {
      var outcome := q.resolve(if options[0] then NodeEsm else NodeCjs, q.ctx, q.request);
      var res1 := if outcome.Ok? then outcome.value.0 else None;
      var esm1 := if outcome.Ok? then outcome.value.1 else isEsm;
      ResolveLoopLocal(q, options[1..], res1, esm1);
      ResolveLoopLocal(q, options[1..], None, esm1);
    }
  }

  // ---------------------------------------------------------------------------
  // handle_externals

  const BarrelOptimizationPrefix := "__barrel_optimize__"

  const ImportNextWarning := "commonjs " + "next/dist/lib/import-next-warning"

  /** `request.starts_with('.') || Path::new(&request).is_absolute()`. */
  predicate IsLocal(request: string) {
    StartsWith(request, ".") || StartsWith(request, "/")
  }

  /** The fixed part of `ExternalHandler`. The opt-out pattern comes from
      the configuration and the never-external pattern from a crate that is
      not part of this model, so both are predicates. */
  datatype HandlerConfig = HandlerConfig(
    bundlePagesRouterDependencies: Option<bool>,
    esmExternals: EsmExternalsConfig,
    optOutBundling: string -> bool,
    neverExternal: string -> bool,
    transpiledPackages: seq<string>,
    dir: string,
    defaultOverrides: map<string, string>)

  /** The requests below "next/dist/": compiled-in image loader, CommonJS or
      ESM runtime files, or a ".external" file. */
  function NextDistDecision(request: string): (r: Option<string>)
    ensures r.Some? ==> StartsWith(r.value, "commonjs ") || StartsWith(r.value, "module ")
  {
    if IsNextImageLoader(request) then None
    else if IsNextServer(request) then Some("commonjs " + request)
    else if IsNextSharedCjs(request) || IsNextCompiledCjs(request) then Some("commonjs " + request)
    else if IsNextSharedEsm(request) || IsNextCompiledMjs(request) then Some("module " + request)
    else ResolveNextExternal(request)
  }

  /** The decisions `handle_externals` takes before resolving, if any. */
  function EarlyDecision(config: HandlerConfig, request: string, layer: Option<string>): (r: Option<Option<string>>)
    ensures r.Some? && r.value.Some? ==> StartsWith(r.value.value, "commonjs ") || StartsWith(r.value.value, "module ")
  {
    var isLocal := IsLocal(request);
    if request == "next" then Some(Some(ImportNextWarning))
    else if !isLocal && IsReactPackage(request) && !IsBundledLayer(layer) then Some(Some("commonjs " + request))
    else if !isLocal && config.neverExternal(request) then Some(None)
    else if Contains(request, "@swc/helpers") then Some(None)
    else if StartsWith(request, BarrelOptimizationPrefix) then Some(None)
    else if ShouldUseReactServerCondition(layer) && request == "next/dist/compiled/@vercel/og/index.node.js" then
      Some(Some("module " + request))
    else if StartsWith(request, "next/dist/") then Some(NextDistDecision(request))
    else None
  }

  /** A path without back-slashes is its own normal form. */
  lemma PlainPathSep(s: string)
    requires '\\' !in s
    ensures NormalizePathSep(s) == s
  {
  }

  /** The compiled-in image loader below "next/dist/shared/" is bundled. */
  lemma NextImageLoaderBundled(rest: string)
    requires '\\' !in rest
    ensures NextDistDecision("next/dist/shared/lib/image-loader" + rest) == None
  {
    var loader := "next/dist/shared/lib/image-loader" + rest;
    PlainPathSep(loader);
    assert loader[..|"next/dist/shared/lib/image-loader"|] == "next/dist/shared/lib/image-loader";
  }

  /** A string that differs from a text at some index does not start with it. */
  lemma DiffersAt(s: string, prefix: string, i: nat)
    requires i < |s| && i < |prefix| && s[i] != prefix[i]
    ensures !StartsWith(s, prefix)
  {
    if |prefix| <= |s| {
      assert s[..|prefix|][i] == s[i];
    }
  }

  /** Past a known beginning, a prefix test continues on the rest. */
  lemma StartsWithAfter(a: string, rest: string, p: string)
    requires |a| <= |p| && p[..|a|] == a
    ensures StartsWith(a + rest, p) <==> StartsWith(rest, p[|a|..])
  {
    assert p == a + p[|a|..];
    if |p| <= |a + rest| {
      assert (a + rest)[..|p|] == a + rest[..|p| - |a|];
    }
  }

  /** Appending text that starts with a character a prefix lacks does not
      make a string start with that prefix. */
  lemma StartsWithAppended(rest: string, tail: string, p: string)
    requires tail != [] && tail[0] !in p && !StartsWith(rest, p)
    ensures !StartsWith(rest + tail, p)
  {
    if |rest| >= |p| {
      assert (rest + tail)[..|p|] == rest[..|p|];
    } else if |rest + tail| >= |p| {
      assert (rest + tail)[..|p|][|rest|] == tail[0];
    }
  }

  /** A shared runtime file other than the router and the image loader is
      external as CommonJS. */
  lemma NextSharedCommonJs(rest: string)
    requires '\\' !in rest
    requires !StartsWith(rest, "lib/image-loader") && !StartsWith(rest, "lib/router/router")
    ensures var shared := "next/dist/shared/" + rest; NextDistDecision(shared) == Some("commonjs " + shared)
  {
    var shared := "next/dist/shared/" + rest;
    PlainPathSep(shared);
    assert shared[..17] == "next/dist/shared/" && shared[17..] == rest;
    StartsWithAfter("next/dist/shared/", rest, "next/dist/shared/lib/image-loader");
    DiffersAt(shared, "next/dist/compiled/next-server", 10);
    assert IsNextSharedCjs(shared);
    assert NextDistDecision(shared) == Some("commonjs " + shared);
  }

  /** The same file below "next/dist/esm/shared/" is external as ESM. */
  lemma NextSharedEsm(rest: string)
    requires '\\' !in rest && !StartsWith(rest, "lib/router/router")
    ensures var esm := "next/dist/esm/shared/" + rest; NextDistDecision(esm) == Some("module " + esm)
  {
    var esm := "next/dist/esm/shared/" + rest;
    PlainPathSep(esm);
    assert esm[..21] == "next/dist/esm/shared/" && esm[21..] == rest;
    assert esm[10] == 'e';
    DiffersAt(esm, "next/dist/shared/lib/image-loader", 10);
    DiffersAt(esm, "next/dist/compiled/next-server", 10);
    DiffersAt(esm, "next/dist/shared/", 10);
    DiffersAt(esm, "next/dist/compiled/", 10);
    assert IsNextSharedEsm(esm);
    assert NextDistDecision(esm) == Some("module " + esm);
  }

  /** The compiled Next.js server is external as CommonJS. */
  lemma NextServerCommonJs(rest: string)
    requires '\\' !in rest
    ensures var server := "next/dist/compiled/next-server" + rest; NextDistDecision(server) == Some("commonjs " + server)
  {
    var server := "next/dist/compiled/next-server" + rest;
    PlainPathSep(server);
    assert server[..30] == "next/dist/compiled/next-server" && server[10] == 'c';
    DiffersAt(server, "next/dist/shared/lib/image-loader", 10);
    assert IsNextServer(server);
  }

  /** A compiled ".js" file is external as CommonJS. */
  lemma NextCompiledJs(rest: string)
    requires '\\' !in rest && '\n' !in rest
    ensures var js := "next/dist/compiled/" + rest + ".js"; NextDistDecision(js) == Some("commonjs " + js)
  {
    var js := "next/dist/compiled/" + rest + ".js";
    PlainPathSep(js);
    assert js[..19] == "next/dist/compiled/" && js[10] == 'c';
    DiffersAt(js, "next/dist/shared/lib/image-loader", 10);
    DiffersAt(js, "next/dist/shared/", 10);
    assert js[|js| - 3..] == ".js" && js[19..|js| - 3] == rest;
    assert SuffixAfter(js, 19, ".js");
    assert IsNextCompiledCjs(js);
    assert NextDistDecision(js) == Some("commonjs " + js);
  }

  /** A name ending in ".mjs" matches neither CommonJS suffix. */
  lemma MjsNotCjs(mjs: string)
    requires |mjs| >= 4 && mjs[|mjs| - 4..] == ".mjs"
    ensures !AnySuffixAfter(mjs, 19, [".js", ".cjs"])
  {
    assert mjs[|mjs| - 4..][1] == mjs[|mjs| - 3] == mjs[|mjs| - 3..][0];
    assert !SuffixAfter(mjs, 19, ".js");
    assert !SuffixAfter(mjs, 19, ".cjs");
    assert [".js", ".cjs"][1..] == [".cjs"] && [".cjs"][1..] == [];
    assert !AnySuffixAfter(mjs, 19, [".cjs"]);
  }

  /** A compiled ".mjs" file is external as ESM. */
  lemma NextCompiledMjs(rest: string)
    requires '\\' !in rest && '\n' !in rest && !StartsWith(rest, "next-server")
    ensures var mjs := "next/dist/compiled/" + rest + ".mjs"; NextDistDecision(mjs) == Some("module " + mjs)
  {
    var mjs := "next/dist/compiled/" + rest + ".mjs";
    PlainPathSep(mjs);
    assert mjs[..19] == "next/dist/compiled/" && mjs[10] == 'c';
    DiffersAt(mjs, "next/dist/shared/lib/image-loader", 10);
    assert mjs == "next/dist/compiled/" + (rest + ".mjs");
    StartsWithAfter("next/dist/compiled/", rest + ".mjs", "next/dist/compiled/next-server");
    StartsWithAppended(rest, ".mjs", "next-server");
    DiffersAt(mjs, "next/dist/shared/", 10);
    assert mjs[|mjs| - 4..] == ".mjs";
    MjsNotCjs(mjs);
    DiffersAt(mjs, "next/dist/esm/shared/", 10);
    assert mjs[19..|mjs| - 4] == rest;
    assert SuffixAfter(mjs, 19, ".mjs");
    assert IsNextCompiledMjs(mjs);
    assert NextDistDecision(mjs) == Some("module " + mjs);
  }

  /** The shared router matches none of the runtime prefixes. */
  lemma RouterUnmatched(router: string)
    requires NormalizePathSep(router) == router && StartsWith(router, "next/dist/shared/lib/router/router")
    ensures !IsNextImageLoader(router) && !IsNextServer(router) && !IsNextSharedCjs(router)
    ensures !StartsWith(router, "next/dist/compiled/") && !IsNextSharedEsm(router)
  {
    assert router[..34][10] == router[10] && router[..34][21] == router[21];
    DiffersAt(router, "next/dist/shared/lib/image-loader", 21);
    DiffersAt(router, "next/dist/compiled/", 10);
    DiffersAt(router, "next/dist/compiled/next-server", 10);
    DiffersAt(router, "next/dist/esm/shared/", 10);
    assert router[17..][..17] == router[..34][17..];
  }

  /** The shared router is left to the ".external" rule. */
  lemma NextRouterFallsThrough(rest: string)
    requires '\\' !in rest
    ensures var router := "next/dist/shared/lib/router/router" + rest;
      NextDistDecision(router) == ResolveNextExternal(router)
  {
    var router := "next/dist/shared/lib/router/router" + rest;
    PlainPathSep(router);
    assert router[..34] == "next/dist/shared/lib/router/router";
    RouterUnmatched(router);
  }

  /** The query `handle_externals` resolves a request with. */
  function QueryFor(config: HandlerConfig, ctx: string, request: string, isEsmRequested: bool, resolve: Resolver): ExternalQuery {
    ExternalQuery(config.dir, config.esmExternals, ctx, request, isEsmRequested, resolve, IsLocal(request), true)
  }

  /** The resolved path the decision continues with: the default override
      for "styled-jsx/style", else the resolution's path. */
  function ResolvedPath(config: HandlerConfig, request: string, r: Resolution): Option<string> {
    if request == "styled-jsx/style" then
      if "styled-jsx/style" in config.defaultOverrides then Some(config.defaultOverrides["styled-jsx/style"]) else None
    else r.res
  }

  /** The directories of the transpiled packages: each package's
      "package.json" resolved, and its parent directory kept. */
  function PackageDirs(config: HandlerConfig, ctx: string, request: string, isEsmRequested: bool,
                       resolve: Resolver, packages: seq<string>): map<string, string> {
    if packages == [] then map[]
    else
      var dirs := PackageDirs(config, ctx, request, isEsmRequested, resolve, packages[..|packages| - 1]);
      var pkg := packages[|packages| - 1];
      var found := ResolveLoop(
        ExternalQuery(config.dir, config.esmExternals, ctx, pkg + "/package.json", isEsmRequested, resolve, IsLocal(request), true),
        PreferEsmOptions(config.esmExternals, isEsmRequested), None, false).res;
      if found.Some? && ParentDir(found.value).Some? then dirs[pkg := ParentDir(found.value).value] else dirs
  }

  /** `resolve_bundling_opt_out_packages`: a file inside "node_modules" that
      is neither bundled for the pages router nor a transpiled package stays
      external with its type. */
  function BundlingOptOut(config: HandlerConfig, res: string, isAppLayer: bool, externalType: string,
                          isOptOut: bool, request: string, dirs: Option<map<string, string>>): (r: Option<string>)
    ensures r.Some? ==> r.value == externalType + " " + request
    ensures r.Some? <==>
              && IsNodeModulesFile(res)
              && !(!isAppLayer && config.bundlePagesRouterDependencies == Some(true) && !isOptOut)
              && !IsResourceInPackages(res, config.transpiledPackages, dirs)
  {
    if IsNodeModulesFile(res) then
      var bundlePages := !isAppLayer && (config.bundlePagesRouterDependencies == Some(true)) && !isOptOut;
      if !(bundlePages || IsResourceInPackages(res, config.transpiledPackages, dirs)) then Some(externalType + " " + request)
      else None
    else None
  }

  const EsmRequireErrorTail := ") need to be imported. Use 'import' to reference the package instead. https://nextjs.org/docs/messages/import-esm-externals"

  /** The error for a required ESM package. */
  function EsmRequireError(request: string): string {
    "ESM packages (" + request + EsmRequireErrorTail
  }

  /** The resolution `handle_externals` continues with when no early
      decision is taken. */
  function ResolutionOf(config: HandlerConfig, ctx: string, request: string, dependencyType: string, resolve: Resolver): Resolution {
    ResolveLoop(QueryFor(config, ctx, request, dependencyType == "esm", resolve),
                PreferEsmOptions(config.esmExternals, dependencyType == "esm"), None, false)
  }

  /** `handle_externals` as a whole: the result and the package directories
      afterwards. */
  function Decide(config: HandlerConfig, dirs: Option<map<string, string>>, ctx: string, request: string,
                  dependencyType: string, layer: Option<string>, resolve: Resolver): (Result<Option<string>>, Option<map<string, string>>)
  {
    var early := EarlyDecision(config, request, layer);
    if early.Some? then (Ok(early.value), dirs)
    else DecideResolved(config, dirs, ctx, request, dependencyType, layer, resolve,
                        ResolutionOf(config, ctx, request, dependencyType, resolve))
  }

  /** `handle_externals` once the request is resolved. */
  function DecideResolved(config: HandlerConfig, dirs: Option<map<string, string>>, ctx: string, request: string,
                          dependencyType: string, layer: Option<string>, resolve: Resolver, resolution: Resolution)
    : (Result<Option<string>>, Option<map<string, string>>)
  {
    var isEsmRequested := dependencyType == "esm";
    var isAppLayer := IsBundledLayer(layer);
    if resolution.localRes.Some? then (Ok(resolution.localRes), dirs)
    else
      var res := ResolvedPath(config, request, resolution);
      if res.None? then (Ok(None), dirs)
      else
        var isOptOut := config.optOutBundling(res.value);
        if !isOptOut && isAppLayer then (Ok(None), dirs)
        else if !isEsmRequested && resolution.isEsm && config.esmExternals != Loose && !IsLocal(request) then
          (Err(EsmRequireError(request)), dirs)
        else
          var externalType := if resolution.isEsm then "module" else "commonjs";
          if IsBabelRuntime(res.value) || IsWebpackOrCssLoader(res.value) then (Ok(None), dirs)
          else
            var dirs' := if config.transpiledPackages != [] && dirs.None?
              then Some(PackageDirs(config, ctx, request, isEsmRequested, resolve, config.transpiledPackages))
              else dirs;
            (Ok(BundlingOptOut(config, res.value, isAppLayer, externalType, isOptOut, request, dirs')), dirs')
  }

  /** `ExternalHandler`: the configuration and the package directories,
      resolved once on first need. */
  class ExternalHandler {
    const config: HandlerConfig
    var resolvedExternalPackageDirs: Option<map<string, string>>

    constructor (config: HandlerConfig)
      ensures this.config == config && resolvedExternalPackageDirs.None?
    {
      this.config := config;
      resolvedExternalPackageDirs := None;
    }

    /** `handle_externals`. */
    method HandleExternals(ctx: string, request: string, dependencyType: string, layer: Option<string>, resolve: Resolver)
      returns (r: Result<Option<string>>)
      modifies this
      ensures (r, resolvedExternalPackageDirs)
           == Decide(config, old(resolvedExternalPackageDirs), ctx, request, dependencyType, layer, resolve)
    {
      var early := EarlyDecision(config, request, layer);
      if early.Some? {
        return Ok(early.value);
      }
      var resolution := ResolveExternal(QueryFor(config, ctx, request, dependencyType == "esm", resolve));
      r := HandleResolved(ctx, request, dependencyType, layer, resolve, resolution);
    }

    /** The part of `handle_externals` after the request is resolved. */
    method HandleResolved(ctx: string, request: string, dependencyType: string, layer: Option<string>, resolve: Resolver,
                          resolution: Resolution)
      returns (r: Result<Option<string>>)
      modifies this
      ensures (r, resolvedExternalPackageDirs)
           == DecideResolved(config, old(resolvedExternalPackageDirs), ctx, request, dependencyType, layer, resolve, resolution)
    {
      var isAppLayer := IsBundledLayer(layer);
      var isEsmRequested := dependencyType == "esm";
      if resolution.localRes.Some? {
        return Ok(resolution.localRes);
      }
      var res := ResolvedPath(config, request, resolution);
      if res.None? {
        return Ok(None);
      }
      var isOptOut := config.optOutBundling(res.value);
      if !isOptOut && isAppLayer {
        return Ok(None);
      }
      if !isEsmRequested && resolution.isEsm && config.esmExternals != Loose && !IsLocal(request) {
        return Err(EsmRequireError(request));
      }
      var externalType := if resolution.isEsm then "module" else "commonjs";
      if IsBabelRuntime(res.value) {
        return Ok(None);
      }
      if IsWebpackOrCssLoader(res.value) {
        return Ok(None);
      }
      if config.transpiledPackages != [] && resolvedExternalPackageDirs.None? {
        var resolvedDirs := ResolvePackageDirs(ctx, request, isEsmRequested, resolve);
        resolvedExternalPackageDirs := Some(resolvedDirs);
      }
      r := Ok(BundlingOptOut(config, res.value, isAppLayer, externalType, isOptOut, request, resolvedExternalPackageDirs));
    }

    /** The loop resolving every transpiled package's directory. */
    method ResolvePackageDirs(ctx: string, request: string, isEsmRequested: bool, resolve: Resolver)
      returns (dirs: map<string, string>)
      ensures dirs == PackageDirs(config, ctx, request, isEsmRequested, resolve, config.transpiledPackages)
    {
      dirs := map[];
      var packages := config.transpiledPackages;
      for k := 0 to |packages|
        invariant dirs == PackageDirs(config, ctx, request, isEsmRequested, resolve, packages[..k])
      {
        assert packages[..k + 1][..k] == packages[..k];
        var pkg := packages[k];
        var found := ResolveExternal(ExternalQuery(config.dir, config.esmExternals, ctx, pkg + "/package.json",
                                                   isEsmRequested, resolve, IsLocal(request), true));
        if found.res.Some? {
          var parent := ParentDir(found.res.value);
          if parent.Some? {
            dirs := dirs[pkg := parent.value];
          }
        }
      }
      assert packages[..|packages|] == packages;
    }
  }

  // ---------------------------------------------------------------------------
  // Properties of the decision

  /** "next" is answered with the warning module before anything else. */
  lemma NextFirst(config: HandlerConfig, dirs: Option<map<string, string>>, ctx: string, dependencyType: string,
                  layer: Option<string>, resolve: Resolver)
    ensures Decide(config, dirs, ctx, "next", dependencyType, layer, resolve) == (Ok(Some(ImportNextWarning)), dirs)
  {
  }

  /** A React package asked for outside the bundled layers is required as
      CommonJS. */
  lemma ReactOutsideBundledLayers(config: HandlerConfig, dirs: Option<map<string, string>>, ctx: string, request: string,
                                  dependencyType: string, layer: Option<string>, resolve: Resolver)
    requires !IsLocal(request) && IsReactPackage(request) && !IsBundledLayer(layer)
    ensures Decide(config, dirs, ctx, request, dependencyType, layer, resolve) == (Ok(Some("commonjs " + request)), dirs)
  {
  }

  /** The SWC helpers and barrel-optimized requests are always bundled,
      unless they are React package requests outside the bundled layers. */
  lemma HelpersAndBarrelsBundled(config: HandlerConfig, dirs: Option<map<string, string>>, ctx: string, request: string,
                                 dependencyType: string, layer: Option<string>, resolve: Resolver)
    requires Contains(request, "@swc/helpers") || StartsWith(request, BarrelOptimizationPrefix)
    requires !(!IsLocal(request) && IsReactPackage(request) && !IsBundledLayer(layer))
    ensures Decide(config, dirs, ctx, request, dependencyType, layer, resolve) == (Ok(None), dirs)
  {
  }

  /** A resolved module that is not opted out of bundling and is asked for
      from a bundled layer is bundled. */
  lemma BundledLayerBundles(config: HandlerConfig, dirs: Option<map<string, string>>, ctx: string, request: string,
                            dependencyType: string, layer: Option<string>, resolve: Resolver, resolution: Resolution)
    requires resolution.localRes.None? && IsBundledLayer(layer)
    requires var res := ResolvedPath(config, request, resolution); res.Some? && !config.optOutBundling(res.value)
    ensures DecideResolved(config, dirs, ctx, request, dependencyType, layer, resolve, resolution) == (Ok(None), dirs)
  {
  }

  /** Requiring a package that resolved to ESM is an error, outside loose
      mode and for a request that is not local. */
  lemma RequiredEsmFails(config: HandlerConfig, dirs: Option<map<string, string>>, ctx: string, request: string,
                         dependencyType: string, layer: Option<string>, resolve: Resolver, resolution: Resolution)
    requires resolution.localRes.None? && resolution.isEsm
    requires var res := ResolvedPath(config, request, resolution);
      res.Some? && (config.optOutBundling(res.value) || !IsBundledLayer(layer))
    requires dependencyType != "esm" && config.esmExternals != Loose && !IsLocal(request)
    ensures DecideResolved(config, dirs, ctx, request, dependencyType, layer, resolve, resolution) == (Err(EsmRequireError(request)), dirs)
  {
  }

  /** The Babel runtime helpers, webpack and css-loader are bundled once
      the request got past the layer and ESM checks. */
  lemma RuntimeHelpersBundled(config: HandlerConfig, dirs: Option<map<string, string>>, ctx: string, request: string,
                              dependencyType: string, layer: Option<string>, resolve: Resolver, resolution: Resolution)
    requires resolution.localRes.None?
    requires var res := ResolvedPath(config, request, resolution);
      res.Some? && (config.optOutBundling(res.value) || !IsBundledLayer(layer))
      && (IsBabelRuntime(res.value) || IsWebpackOrCssLoader(res.value))
    requires !(dependencyType != "esm" && resolution.isEsm && config.esmExternals != Loose && !IsLocal(request))
    ensures DecideResolved(config, dirs, ctx, request, dependencyType, layer, resolve, resolution) == (Ok(None), dirs)
  {
  }

  /** Every external is written "commonjs <path>" or "module <path>". */
  lemma ExternalsAreTyped(config: HandlerConfig, dirs: Option<map<string, string>>, ctx: string, request: string,
                          dependencyType: string, layer: Option<string>, resolve: Resolver)
    ensures var r := Decide(config, dirs, ctx, request, dependencyType, layer, resolve).0;
      r.Ok? && r.value.Some? ==> StartsWith(r.value.value, "commonjs ") || StartsWith(r.value.value, "module ")
  {
    var q := QueryFor(config, ctx, request, dependencyType == "esm", resolve);
    ResolveLoopLocal(q, PreferEsmOptions(config.esmExternals, dependencyType == "esm"), None, false);
  }

  /** The package directories are resolved at most once: once known they
      stay as they are, and they are only filled in when packages are to be
      transpiled. */
  lemma PackageDirsOnce(config: HandlerConfig, dirs: Option<map<string, string>>, ctx: string, request: string,
                        dependencyType: string, layer: Option<string>, resolve: Resolver)
    ensures var dirs' := Decide(config, dirs, ctx, request, dependencyType, layer, resolve).1;
      && (dirs.Some? ==> dirs' == dirs)
      && (config.transpiledPackages == [] ==> dirs' == dirs)
  {
  }
}
