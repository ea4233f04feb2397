/** The accessors of `NextConfig` that compute a setting from the loaded
    configuration: the page extensions in matching order, the asset prefix,
    the chunk suffix, and the defaults that depend on the mode. */
module NextConfig {
  import opened Wrappers
  import opened Text

  // ---------------------------------------------------------------------------
  // Page extensions

  predicate LongestFirst(s: seq<string>) {
    forall i, j :: 0 <= i < j < |s| ==> |s[i]| >= |s[j]|
  }

  /** The extensions of length `n`, in order. */
  function OfLength(s: seq<string>, n: nat): seq<string> {
    if s == [] then []
    else OfLength(s[..|s| - 1], n) + (if |s[|s| - 1]| == n then [s[|s| - 1]] else [])
  }

  /** Inserts `x` after the last element at least as long. */
  function InsertByLength(s: seq<string>, x: string): seq<string> {
    if s == [] || |s[|s| - 1]| >= |x| then s + [x]
    else InsertByLength(s[..|s| - 1], x) + [s[|s| - 1]]
  }

  /** `page_extensions`: the configured extensions sorted by length,
      longest first, by a stable sort. */
  function PageExtensions(extensions: seq<string>): seq<string> {
    if extensions == [] then []
    else InsertByLength(PageExtensions(extensions[..|extensions| - 1]), extensions[|extensions| - 1])
  }

  /** Every element of an insertion is at least as long as a bound that
      holds for the list and the new element. */
  lemma {:induction false} InsertByLengthBound(s: seq<string>, x: string, m: nat)
    requires forall i :: 0 <= i < |s| ==> |s[i]| >= m
    requires |x| >= m
    ensures forall i :: 0 <= i < |InsertByLength(s, x)| ==> |InsertByLength(s, x)[i]| >= m
  {
    if s != [] && |s[|s| - 1]| < |x| {
      InsertByLengthBound(s[..|s| - 1], x, m);
    }
  }

  /** Inserting into a list sorted longest first keeps it so. */
  lemma {:induction false} InsertByLengthSorted(s: seq<string>, x: string)
    requires LongestFirst(s)
    ensures LongestFirst(InsertByLength(s, x))
  {
    if s != [] && |s[|s| - 1]| < |x| {
      var init := s[..|s| - 1];
      InsertByLengthSorted(init, x);
      InsertByLengthBound(init, x, |s[|s| - 1]|);
    }
  }

  /** An insertion adds `x` after the elements of its length. */
  lemma {:induction false} InsertByLengthOfLength(s: seq<string>, x: string, n: nat)
    ensures OfLength(InsertByLength(s, x), n) == OfLength(s, n) + (if |x| == n then [x] else [])
  {
    if s == [] || |s[|s| - 1]| >= |x| {
      assert (s + [x])[..|s + [x]| - 1] == s;
    } else {
      var init := s[..|s| - 1];
      var last := s[|s| - 1];
      var t := InsertByLength(init, x);
      InsertByLengthOfLength(init, x, n);
      assert (t + [last])[..|t + [last]| - 1] == t;
      assert s == init + [last];
    }
  }

  /** The page extensions are sorted longest first. */
  lemma {:induction false} PageExtensionsSorted(extensions: seq<string>)
    ensures LongestFirst(PageExtensions(extensions))
  {
    if extensions != [] {
      var init := extensions[..|extensions| - 1];
      PageExtensionsSorted(init);
      InsertByLengthSorted(PageExtensions(init), extensions[|extensions| - 1]);
    }
  }

  /** The page extensions of each length keep their configured order. */
  lemma {:induction false} PageExtensionsOfLength(extensions: seq<string>, n: nat)
    ensures OfLength(PageExtensions(extensions), n) == OfLength(extensions, n)
  {
    if extensions != [] {
      var init := extensions[..|extensions| - 1];
      PageExtensionsOfLength(init, n);
      InsertByLengthOfLength(PageExtensions(init), extensions[|extensions| - 1], n);
    }
  }

  /** The page extensions are sorted longest first, and the extensions of
      each length keep their configured order: this is the stable sort. */
  lemma PageExtensionsSpec(extensions: seq<string>)
    ensures LongestFirst(PageExtensions(extensions))
    ensures forall n: nat :: OfLength(PageExtensions(extensions), n) == OfLength(extensions, n)
  {
    PageExtensionsSorted(extensions);
    forall n: nat ensures OfLength(PageExtensions(extensions), n) == OfLength(extensions, n) {
      PageExtensionsOfLength(extensions, n);
    }
  }

  /** Keeping the extensions of each length keeps them all: the page
      extensions are a permutation of the configured ones. */
  lemma {:induction false} OfLengthCovers(s: seq<string>, t: seq<string>)
    requires forall n: nat :: OfLength(s, n) == OfLength(t, n)
    ensures multiset(s) == multiset(t)
  {
    forall x: string ensures multiset(s)[x] == multiset(t)[x] {
      OfLengthCount(s, x);
      OfLengthCount(t, x);
      assert OfLength(s, |x|) == OfLength(t, |x|);
    }
  }

  lemma {:induction false} OfLengthCount(s: seq<string>, x: string)
    ensures multiset(s)[x] == multiset(OfLength(s, |x|))[x]
  {
    if s != [] {
      OfLengthCount(s[..|s| - 1], x);
      assert s == s[..|s| - 1] + [s[|s| - 1]];
    }
  }

  /** The page extensions are the configured ones, reordered. */
  lemma PageExtensionsPermutation(extensions: seq<string>)
    ensures multiset(PageExtensions(extensions)) == multiset(extensions)
  {
    PageExtensionsSpec(extensions);
    OfLengthCovers(PageExtensions(extensions), extensions);
  }

  // ---------------------------------------------------------------------------
  // Asset prefix and chunk suffix

  /** `str::trim_end_matches('/')`. */
  function TrimEndSlashes(s: string): (r: string)
    ensures r <= s && !EndsWith(r, "/")
    ensures forall i :: |r| <= i < |s| ==> s[i] == '/'
  {
    if s == [] || s[|s| - 1] != '/' then s else TrimEndSlashes(s[..|s| - 1])
  }

  /** `computed_asset_prefix`: the asset prefix if one is set, else the base
      path, else nothing, without trailing slashes, followed by "/_next/". */
  function ComputedAssetPrefix(assetPrefix: Option<string>, basePath: Option<string>): (r: string)
    ensures EndsWith(r, "/_next/")
  {
    TrimEndSlashes(if assetPrefix.Some? then assetPrefix.value else if basePath.Some? then basePath.value else "")
      + "/_next/"
  }

  /** The prefix is the chosen path up to its trailing slashes, so a path
      without them is kept as it is and one with them ends in exactly one
      slash before "_next". */
  lemma ComputedAssetPrefixSpec(assetPrefix: Option<string>, basePath: Option<string>)
    ensures var chosen := if assetPrefix.Some? then assetPrefix.value else if basePath.Some? then basePath.value else "";
      var head := ComputedAssetPrefix(assetPrefix, basePath)[..|ComputedAssetPrefix(assetPrefix, basePath)| - 7];
      && head <= chosen && !EndsWith(head, "/")
      && (forall i :: |head| <= i < |chosen| ==> chosen[i] == '/')
      && (!EndsWith(chosen, "/") ==> head == chosen)
  {
    var chosen := if assetPrefix.Some? then assetPrefix.value else if basePath.Some? then basePath.value else "";
    var r := ComputedAssetPrefix(assetPrefix, basePath);
    assert r[..|r| - 7] == TrimEndSlashes(chosen);
  }

  /** Trimming trailing slashes twice is trimming once. */
  lemma TrimEndSlashesIdempotent(s: string)
    ensures TrimEndSlashes(TrimEndSlashes(s)) == TrimEndSlashes(s)
  {
  }

  /** `chunk_suffix_path`: "?dpl=" followed by the deployment id, if set. */
  function ChunkSuffixPath(deploymentId: Option<string>): (r: Option<string>)
    ensures r.Some? <==> deploymentId.Some?
    ensures r.Some? ==> StartsWith(r.value, "?dpl=")
  {
    if deploymentId.Some? then Some("?dpl=" + deploymentId.value) else None
  }

  /** The deployment id can be read back from the suffix. */
  lemma ChunkSuffixPathRoundTrip(deploymentId: Option<string>)
    requires deploymentId.Some?
    ensures ChunkSuffixPath(deploymentId).value[5..] == deploymentId.value
  {
  }

  // ---------------------------------------------------------------------------
  // Mode-dependent settings

  datatype NextMode = Development | Build

  datatype ModuleIds = Named | Deterministic

  /** `module_ids`: always named in development, where hot reloading needs
      names; the configured kind, else deterministic, in a build. */
  function ModuleIdsFor(mode: NextMode, configured: Option<ModuleIds>): (r: ModuleIds)
    ensures mode == Development ==> r == Named
    ensures mode == Build && configured.Some? ==> r == configured.value
    ensures mode == Build && configured.None? ==> r == Deterministic
  {
    match mode
    case Development => Named
    case Build => if configured.Some? then configured.value else Deterministic
  }

  /** `turbo_minify`: the configured value, else on exactly in a build. */
  function TurboMinify(mode: NextMode, configured: Option<bool>): (r: bool)
    ensures configured.Some? ==> r == configured.value
    ensures configured.None? ==> (r <==> mode == Build)
  {
    if configured.Some? then configured.value else mode == Build
  }

  /** `turbopack_remove_unused_exports`: the configured value, else on
      exactly in a build. */
  function RemoveUnusedExports(mode: NextMode, configured: Option<bool>): (r: bool)
    ensures configured.Some? ==> r == configured.value
    ensures configured.None? ==> (r <==> mode == Build)
  {
    if configured.Some? then configured.value else mode == Build
  }

  /** `turbo_scope_hoisting`: always off in development; the configured
      value, else on, in a build. */
  function ScopeHoisting(mode: NextMode, configured: Option<bool>): (r: bool)
    ensures mode == Development ==> !r
    ensures mode == Build ==> (r <==> configured != Some(false))
  {
    match mode
    case Development => false
    case Build => if configured.Some? then configured.value else true
  }

  /** In development neither the configured module ids nor scope hoisting
      have any effect. */
  lemma DevelopmentIgnoresConfig(ids: Option<ModuleIds>, ids': Option<ModuleIds>, hoist: Option<bool>, hoist': Option<bool>)
    ensures ModuleIdsFor(Development, ids) == ModuleIdsFor(Development, ids')
    ensures ScopeHoisting(Development, hoist) == ScopeHoisting(Development, hoist')
  {
  }

  // ---------------------------------------------------------------------------
  // Flags with fallbacks

  /** `enable_use_cache`: the explicit flag, else the cache components
      flag, else off. */
  function EnableUseCache(useCache: Option<bool>, cacheComponents: Option<bool>): (r: bool)
    ensures useCache.Some? ==> r == useCache.value
    ensures useCache.None? ==> r == (cacheComponents == Some(true))
  {
    if useCache.Some? then useCache.value else if cacheComponents.Some? then cacheComponents.value else false
  }

  /** `enable_root_params`: the explicit flag, else the cache components
      flag, else off. */
  function EnableRootParams(rootParams: Option<bool>, cacheComponents: Option<bool>): (r: bool)
    ensures rootParams.Some? ==> r == rootParams.value
    ensures rootParams.None? ==> r == (cacheComponents == Some(true))
  {
    if rootParams.Some? then rootParams.value else if cacheComponents.Some? then cacheComponents.value else false
  }

  /** The setting of `esmExternals`. */
  datatype EsmExternals = Bool(enabled: bool) | Loose

  /** `import_externals`: a boolean setting as it is, on when unset, and an
      error for "loose". */
  function ImportExternals(setting: Option<EsmExternals>): (r: Result<bool>)
    ensures r.Err? <==> setting == Some(Loose)
    ensures r.Err? ==> r.msg == "esmExternals = \"loose\" is not supported"
    ensures r.Ok? ==> (r.value <==> setting != Some(Bool(false)))
  {
    match setting
    case Some(Bool(b)) => Ok(b)
    case Some(Loose) => Err("esmExternals = \"loose\" is not supported")
    case None => Ok(true)
  }

  const DefaultCacheKinds: set<string> := {"default", "remote", "private"}

  /** `cache_kinds`: the default kinds and the names of the configured cache
      handlers. */
  function CacheKinds(handlers: Option<seq<string>>): (r: set<string>)
    ensures DefaultCacheKinds <= r
    ensures forall k :: k in r <==> k in DefaultCacheKinds || (handlers.Some? && k in handlers.value)
  {
    DefaultCacheKinds + (if handlers.Some? then set k | k in handlers.value else {})
  }

  /** Naming a default kind as a handler adds nothing. */
  lemma CacheKindsDefaultHandlers()
    ensures CacheKinds(Some(["default", "remote"])) == DefaultCacheKinds
    ensures CacheKinds(None) == DefaultCacheKinds
  {
  }
}
