/** The route segment config of the app router (`dynamic`, `revalidate`,
    `fetchCache`, ...): how a segment's config inherits from its parents,
    how configs of parallel routes are combined, and how a loader tree's
    config is assembled. */
module SegmentConfig {
  import opened Wrappers
  import opened Text
  import opened NextUtil

  datatype NextSegmentDynamic = Auto | ForceDynamic | Error | ForceStatic

  datatype NextSegmentFetchCache =
    | FetchAuto | DefaultCache | OnlyCache | ForceCache | DefaultNoStore | OnlyNoStore | ForceNoStore

  datatype NextRevalidate = Never | RevalidateForceCache | Frequency(seconds: nat)

  /** A middleware matcher: a plain source string or a structured matcher. */
  datatype MiddlewareMatcherKind = MatcherStr(s: string) | Matcher(source: string)

  /** The value of a segment config. `generateStaticParams` holds the span
      (here an offset) of that export. */
  datatype ConfigValue = ConfigValue(
    dynamic: Option<NextSegmentDynamic>,
    dynamicParams: Option<bool>,
    revalidate: Option<NextRevalidate>,
    fetchCache: Option<NextSegmentFetchCache>,
    runtime: Option<NextRuntime>,
    preferredRegion: Option<seq<string>>,
    middlewareMatcher: Option<seq<MiddlewareMatcherKind>>,
    generateImageMetadata: bool,
    generateSitemaps: bool,
    generateStaticParams: Option<nat>)

  const DefaultValue := ConfigValue(None, None, None, None, None, None, None, false, false, None)

  /** `Option::or`. */
  function OrElse<T>(a: Option<T>, b: Option<T>): (r: Option<T>)
    ensures a.Some? ==> r == a
    ensures a.None? ==> r == b
  {
    if a.Some? then a else b
  }

  // ---------------------------------------------------------------------------
  // Specification on values

  /** The config after `apply_parent_config`: each of the six inheritable
      fields keeps its own value when set and takes the parent's otherwise. */
  function WithParent(c: ConfigValue, parent: ConfigValue): (r: ConfigValue)
  {
    c.(dynamic := OrElse(c.dynamic, parent.dynamic),
       dynamicParams := OrElse(c.dynamicParams, parent.dynamicParams),
       revalidate := OrElse(c.revalidate, parent.revalidate),
       fetchCache := OrElse(c.fetchCache, parent.fetchCache),
       runtime := OrElse(c.runtime, parent.runtime),
       preferredRegion := OrElse(c.preferredRegion, parent.preferredRegion))
  }

  /** The message naming a field whose sibling values conflict. */
  function ConflictMessage(name: string): string {
    "Sibling segment configs have conflicting values for " + name
  }

  /** `merge_parallel` of one field. */
  function MergeParallel<T(==)>(a: Option<T>, b: Option<T>, name: string): (r: Result<Option<T>>)
    ensures r.Err? <==> a.Some? && b.Some? && a != b
    ensures r.Err? ==> r.msg == ConflictMessage(name)
    ensures r.Ok? ==> r.value == OrElse(a, b)
  {
    match (a, b)
    case (Some(x), Some(y)) => if x != y then Err(ConflictMessage(name)) else Ok(a)
    case (None, Some(_)) => Ok(b)
    case _ => Ok(a)
  }

  /** Merging one field is symmetric whenever it succeeds. */
  lemma MergeParallelSymmetric<T>(a: Option<T>, b: Option<T>, name: string)
    ensures MergeParallel(a, b, name).Ok? <==> MergeParallel(b, a, name).Ok?
    ensures MergeParallel(a, b, name).Ok? ==> MergeParallel(a, b, name).value == MergeParallel(b, a, name).value
  {
  }

  /** The six fields compared across parallel routes, in the order they are
      checked, with the names used in messages. */
  const FieldNames: seq<string> := ["dynamic", "dynamicParams", "revalidate", "fetchCache", "runtime", "preferredRegion"]

  /** Field `k` (in the order of `FieldNames`) holds two different values. */
  predicate ConflictAt(c: ConfigValue, p: ConfigValue, k: nat) {
    if k == 0 then MergeParallel(c.dynamic, p.dynamic, "").Err?
    else if k == 1 then MergeParallel(c.dynamicParams, p.dynamicParams, "").Err?
    else if k == 2 then MergeParallel(c.revalidate, p.revalidate, "").Err?
    else if k == 3 then MergeParallel(c.fetchCache, p.fetchCache, "").Err?
    else if k == 4 then MergeParallel(c.runtime, p.runtime, "").Err?
    else if k == 5 then MergeParallel(c.preferredRegion, p.preferredRegion, "").Err?
    else false
  }

  /** The first conflicting field from `k` on, or 6 when there is none. */
  function FirstConflict(c: ConfigValue, p: ConfigValue, k: nat): (r: nat)
    requires k <= 6
    requires forall j :: 0 <= j < k ==> !ConflictAt(c, p, j)
    ensures k <= r <= 6
    ensures forall j :: 0 <= j < r ==> !ConflictAt(c, p, j)
    ensures r < 6 ==> ConflictAt(c, p, r)
    decreases 6 - k
  {
    if k == 6 || ConflictAt(c, p, k) then k else FirstConflict(c, p, k + 1)
  }

  /** The config with the first `k` checked fields merged with `p`'s. */
  function MergedUpTo(c: ConfigValue, p: ConfigValue, k: nat): ConfigValue {
    c.(dynamic := if k > 0 then OrElse(c.dynamic, p.dynamic) else c.dynamic,
       dynamicParams := if k > 1 then OrElse(c.dynamicParams, p.dynamicParams) else c.dynamicParams,
       revalidate := if k > 2 then OrElse(c.revalidate, p.revalidate) else c.revalidate,
       fetchCache := if k > 3 then OrElse(c.fetchCache, p.fetchCache) else c.fetchCache,
       runtime := if k > 4 then OrElse(c.runtime, p.runtime) else c.runtime,
       preferredRegion := if k > 5 then OrElse(c.preferredRegion, p.preferredRegion) else c.preferredRegion)
  }

  /** The state and outcome of `apply_parallel_config`: fields are merged in
      order and the first conflict stops it, leaving later fields as they were. */
  function ApplyParallel(c: ConfigValue, p: ConfigValue): (r: (ConfigValue, Result<()>))
  {
    match MergeParallel(c.dynamic, p.dynamic, "dynamic")
    case Err(m) => (c, Err(m))
    case Ok(v0) =>
      var c0 := c.(dynamic := v0);
      match MergeParallel(c0.dynamicParams, p.dynamicParams, "dynamicParams")
      case Err(m) => (c0, Err(m))
      case Ok(v1) =>
        var c1 := c0.(dynamicParams := v1);
        match MergeParallel(c1.revalidate, p.revalidate, "revalidate")
        case Err(m) => (c1, Err(m))
        case Ok(v2) =>
          var c2 := c1.(revalidate := v2);
          match MergeParallel(c2.fetchCache, p.fetchCache, "fetchCache")
          case Err(m) => (c2, Err(m))
          case Ok(v3) =>
            var c3 := c2.(fetchCache := v3);
            match MergeParallel(c3.runtime, p.runtime, "runtime")
            case Err(m) => (c3, Err(m))
            case Ok(v4) =>
              var c4 := c3.(runtime := v4);
              match MergeParallel(c4.preferredRegion, p.preferredRegion, "preferredRegion")
              case Err(m) => (c4, Err(m))
              case Ok(v5) => (c4.(preferredRegion := v5), Ok(()))
  }

  /** `apply_parallel_config` fails exactly at the first conflicting field,
      naming it; the fields before it are merged and the others untouched.
      Without conflict every field is merged. */
  lemma ApplyParallelFirstConflict(c: ConfigValue, p: ConfigValue, k: nat)
    requires k <= 6
    requires forall j :: 0 <= j < k ==> !ConflictAt(c, p, j)
    requires k < 6 ==> ConflictAt(c, p, k)
    ensures ApplyParallel(c, p).0 == MergedUpTo(c, p, k)
    ensures ApplyParallel(c, p).1 == if k == 6 then Ok(()) else Err(ConflictMessage(FieldNames[k]))
  {
    assert k > 0 ==> !ConflictAt(c, p, 0);
    assert k > 1 ==> !ConflictAt(c, p, 1);
    assert k > 2 ==> !ConflictAt(c, p, 2);
    assert k > 3 ==> !ConflictAt(c, p, 3);
    assert k > 4 ==> !ConflictAt(c, p, 4);
    assert k > 5 ==> !ConflictAt(c, p, 5);
    ApplyParallelStages(c, p, k);
  }

  /** `ApplyParallelFirstConflict` with the first conflict spelled out field
      by field. */
  lemma ApplyParallelStages(c: ConfigValue, p: ConfigValue, k: nat)
    requires k <= 6
    requires k > 0 ==> MergeParallel(c.dynamic, p.dynamic, "").Ok?
    requires k > 1 ==> MergeParallel(c.dynamicParams, p.dynamicParams, "").Ok?
    requires k > 2 ==> MergeParallel(c.revalidate, p.revalidate, "").Ok?
    requires k > 3 ==> MergeParallel(c.fetchCache, p.fetchCache, "").Ok?
    requires k > 4 ==> MergeParallel(c.runtime, p.runtime, "").Ok?
    requires k > 5 ==> MergeParallel(c.preferredRegion, p.preferredRegion, "").Ok?
    requires k == 0 ==> MergeParallel(c.dynamic, p.dynamic, "").Err?
    requires k == 1 ==> MergeParallel(c.dynamicParams, p.dynamicParams, "").Err?
    requires k == 2 ==> MergeParallel(c.revalidate, p.revalidate, "").Err?
    requires k == 3 ==> MergeParallel(c.fetchCache, p.fetchCache, "").Err?
    requires k == 4 ==> MergeParallel(c.runtime, p.runtime, "").Err?
    requires k == 5 ==> MergeParallel(c.preferredRegion, p.preferredRegion, "").Err?
    ensures ApplyParallel(c, p) == (MergedUpTo(c, p, k), if k == 6 then Ok(()) else Err(ConflictMessage(FieldNames[k])))
  {
    if k > 0 { MergeOk(c.dynamic, p.dynamic, "dynamic"); }
    if k == 0 { MergeErr(c.dynamic, p.dynamic, "dynamic"); }
    if k > 1 { MergeOk(c.dynamicParams, p.dynamicParams, "dynamicParams"); }
    if k == 1 { MergeErr(c.dynamicParams, p.dynamicParams, "dynamicParams"); }
    if k > 2 { MergeOk(c.revalidate, p.revalidate, "revalidate"); }
    if k == 2 { MergeErr(c.revalidate, p.revalidate, "revalidate"); }
    if k > 3 { MergeOk(c.fetchCache, p.fetchCache, "fetchCache"); }
    if k == 3 { MergeErr(c.fetchCache, p.fetchCache, "fetchCache"); }
    if k > 4 { MergeOk(c.runtime, p.runtime, "runtime"); }
    if k == 4 { MergeErr(c.runtime, p.runtime, "runtime"); }
    if k > 5 { MergeOk(c.preferredRegion, p.preferredRegion, "preferredRegion"); }
    if k == 5 { MergeErr(c.preferredRegion, p.preferredRegion, "preferredRegion"); }
  }

  /** One field without conflict merges. */
  lemma MergeOk<T>(a: Option<T>, b: Option<T>, name: string)
    requires MergeParallel(a, b, "").Ok?
    ensures MergeParallel(a, b, name) == Ok(OrElse(a, b))
  {
  }

  /** One conflicting field fails with its name. */
  lemma MergeErr<T>(a: Option<T>, b: Option<T>, name: string)
    requires MergeParallel(a, b, "").Err?
    ensures MergeParallel(a, b, name) == Err(ConflictMessage(name))
  {
  }

  /** Without conflicts the order of parallel routes does not matter for the
      six compared fields. */
  lemma ApplyParallelSymmetric(c: ConfigValue, p: ConfigValue)
    requires ApplyParallel(c, p).1.Ok?
    ensures ApplyParallel(p, c).1.Ok?
    ensures WithParent(DefaultValue, ApplyParallel(c, p).0) == WithParent(DefaultValue, ApplyParallel(p, c).0)
  {
    ApplyParallelFirstConflict(c, p, FirstConflict(c, p, 0));
    forall j | 0 <= j < 6 ensures !ConflictAt(p, c, j) {
      MergeParallelSymmetric(c.dynamic, p.dynamic, "");
      MergeParallelSymmetric(c.dynamicParams, p.dynamicParams, "");
      MergeParallelSymmetric(c.revalidate, p.revalidate, "");
      MergeParallelSymmetric(c.fetchCache, p.fetchCache, "");
      MergeParallelSymmetric(c.runtime, p.runtime, "");
      MergeParallelSymmetric(c.preferredRegion, p.preferredRegion, "");
    }
    ApplyParallelFirstConflict(p, c, 6);
  }

  /** Applying the same parent twice changes nothing more. */
  lemma WithParentIdempotent(c: ConfigValue, parent: ConfigValue)
    ensures WithParent(WithParent(c, parent), parent) == WithParent(c, parent)
  {
  }

  /** Applying parents one after the other is applying the first parent,
      itself completed by the second. */
  lemma WithParentChain(c: ConfigValue, p: ConfigValue, q: ConfigValue)
    ensures WithParent(WithParent(c, p), q) == WithParent(c, WithParent(p, q))
  {
  }

  // ---------------------------------------------------------------------------
  // The config object

  class NextSegmentConfig {
    var dynamic: Option<NextSegmentDynamic>
    var dynamicParams: Option<bool>
    var revalidate: Option<NextRevalidate>
    var fetchCache: Option<NextSegmentFetchCache>
    var runtime: Option<NextRuntime>
    var preferredRegion: Option<seq<string>>
    var middlewareMatcher: Option<seq<MiddlewareMatcherKind>>
    var generateImageMetadata: bool
    var generateSitemaps: bool
    var generateStaticParams: Option<nat>

    function Value(): ConfigValue
      reads this
    {
      ConfigValue(dynamic, dynamicParams, revalidate, fetchCache, runtime, preferredRegion,
        middlewareMatcher, generateImageMetadata, generateSitemaps, generateStaticParams)
    }

    /** `NextSegmentConfig::default()`. */
    constructor Default()
      ensures Value() == DefaultValue
    {
      dynamic, dynamicParams, revalidate, fetchCache, runtime := None, None, None, None, None;
      preferredRegion, middlewareMatcher := None, None;
      generateImageMetadata, generateSitemaps, generateStaticParams := false, false, None;
    }

    /** A config holding the given value (the parsed config of one file). */
    constructor Of(v: ConfigValue)
      ensures Value() == v
    {
      dynamic, dynamicParams, revalidate, fetchCache, runtime := v.dynamic, v.dynamicParams, v.revalidate, v.fetchCache, v.runtime;
      preferredRegion, middlewareMatcher := v.preferredRegion, v.middlewareMatcher;
      generateImageMetadata, generateSitemaps, generateStaticParams := v.generateImageMetadata, v.generateSitemaps, v.generateStaticParams;
    }

    /** `apply_parent_config`: unset inheritable fields take the parent's values. */
    method ApplyParentConfig(parent: NextSegmentConfig)
      modifies this
      ensures Value() == WithParent(old(Value()), old(parent.Value()))
    {
      var p := parent.Value();
      dynamic := OrElse(dynamic, p.dynamic);
      dynamicParams := OrElse(dynamicParams, p.dynamicParams);
      revalidate := OrElse(revalidate, p.revalidate);
      fetchCache := OrElse(fetchCache, p.fetchCache);
      runtime := OrElse(runtime, p.runtime);
      preferredRegion := OrElse(preferredRegion, p.preferredRegion);
    }

    /** `apply_parallel_config`: merges field by field and stops at the first
      conflict. */
    method ApplyParallelConfig(parallel: NextSegmentConfig) returns (r: Result<()>)
      requires parallel != this
      modifies this
      ensures (Value(), r) == ApplyParallel(old(Value()), old(parallel.Value()))
    {
      var m0 := MergeParallel(dynamic, parallel.dynamic, "dynamic");
      if m0.Err? { return Err(m0.msg); }
      dynamic := m0.value;
      var m1 := MergeParallel(dynamicParams, parallel.dynamicParams, "dynamicParams");
      if m1.Err? { return Err(m1.msg); }
      dynamicParams := m1.value;
      var m2 := MergeParallel(revalidate, parallel.revalidate, "revalidate");
      if m2.Err? { return Err(m2.msg); }
      revalidate := m2.value;
      var m3 := MergeParallel(fetchCache, parallel.fetchCache, "fetchCache");
      if m3.Err? { return Err(m3.msg); }
      fetchCache := m3.value;
      var m4 := MergeParallel(runtime, parallel.runtime, "runtime");
      if m4.Err? { return Err(m4.msg); }
      runtime := m4.value;
      var m5 := MergeParallel(preferredRegion, parallel.preferredRegion, "preferredRegion");
      if m5.Err? { return Err(m5.msg); }
      preferredRegion := m5.value;
      return Ok(());
    }
  }

  // ---------------------------------------------------------------------------
  // Loader trees

  /** A loader tree: its parallel routes and the configs parsed from its page,
      default and layout files (when present). */
  datatype LoaderTree = LoaderTree(
    parallelRoutes: seq<LoaderTree>,
    page: Option<ConfigValue>,
    default: Option<ConfigValue>,
    layout: Option<ConfigValue>)

  /** The present files' configs, page first, then default, then layout. */
  function FileConfigs(t: LoaderTree): (r: seq<ConfigValue>)
    ensures |r| <= 3
  {
    (if t.page.Some? then [t.page.value] else [])
      + (if t.default.Some? then [t.default.value] else [])
      + (if t.layout.Some? then [t.layout.value] else [])
  }

  /** Parallel configs merged one after the other into `c`. */
  function MergeAll(c: ConfigValue, configs: seq<ConfigValue>): Result<ConfigValue>
    decreases |configs|
  {
    if configs == [] then Ok(c)
    else
      var (c', r) := ApplyParallel(c, configs[0]);
      if r.Err? then Err(r.msg) else MergeAll(c', configs[1..])
  }

  /** Parent configs applied one after the other. */
  function WithParents(c: ConfigValue, parents: seq<ConfigValue>): ConfigValue
    decreases |parents|
  {
    if parents == [] then c else WithParents(WithParent(c, parents[0]), parents[1..])
  }

  /** The config of a loader tree. */
  function TreeConfig(t: LoaderTree): Result<ConfigValue>
    decreases t, 1
  {
    var children :- ChildConfigs(t.parallelRoutes);
    var merged :- MergeAll(DefaultValue, children);
    Ok(WithParents(merged, FileConfigs(t)))
  }

  /** The configs of parallel routes, failing with the first failure. */
  function ChildConfigs(ts: seq<LoaderTree>): Result<seq<ConfigValue>>
    decreases ts, 0
  {
    if ts == [] then Ok([])
    else
      var first :- TreeConfig(ts[0]);
      var rest :- ChildConfigs(ts[1..]);
      Ok([first] + rest)
  }

  /** Parents closer to the segment win: the page's values take precedence
      over the default's, which take precedence over the layout's; values
      merged from parallel routes take precedence over all three. */
  lemma TreeConfigPrecedence(t: LoaderTree)
    requires TreeConfig(t).Ok?
    ensures var merged := MergeAll(DefaultValue, ChildConfigs(t.parallelRoutes).value).value;
      var files := FileConfigs(t);
      TreeConfig(t).value == WithParent(merged, WithParents(DefaultValue, files))
  {
    var merged := MergeAll(DefaultValue, ChildConfigs(t.parallelRoutes).value).value;
    WithParentsChain(merged, FileConfigs(t));
  }

  /** Applying parents in turn is applying their combination once. */
  lemma {:induction false} WithParentsChain(c: ConfigValue, parents: seq<ConfigValue>)
    ensures WithParents(c, parents) == WithParent(c, WithParents(DefaultValue, parents))
    decreases |parents|
  {
    if parents != [] {
      var p := parents[0];
      WithParentsChain(WithParent(c, p), parents[1..]);
      WithParentsChain(WithParent(DefaultValue, p), parents[1..]);
      WithParentChain(c, p, WithParents(DefaultValue, parents[1..]));
      WithParentChain(DefaultValue, p, WithParents(DefaultValue, parents[1..]));
    }
  }

  /** The non-inheritable fields of a loader tree's config keep their
      defaults: the tree merge never sets them. */
  lemma {:induction false} TreeConfigKeepsOtherFields(t: LoaderTree)
    requires TreeConfig(t).Ok?
    ensures TreeConfig(t).value.middlewareMatcher.None?
    ensures !TreeConfig(t).value.generateImageMetadata && !TreeConfig(t).value.generateSitemaps
    ensures TreeConfig(t).value.generateStaticParams.None?
  {
    var merged := MergeAll(DefaultValue, ChildConfigs(t.parallelRoutes).value).value;
    MergeAllKeepsOtherFields(DefaultValue, ChildConfigs(t.parallelRoutes).value);
    WithParentsKeepsOtherFields(merged, FileConfigs(t));
  }

  predicate OtherFieldsDefault(c: ConfigValue) {
    c.middlewareMatcher.None? && !c.generateImageMetadata && !c.generateSitemaps && c.generateStaticParams.None?
  }

  lemma {:induction false} MergeAllKeepsOtherFields(c: ConfigValue, configs: seq<ConfigValue>)
    requires OtherFieldsDefault(c) && MergeAll(c, configs).Ok?
    ensures OtherFieldsDefault(MergeAll(c, configs).value)
    decreases |configs|
  {
    if configs != [] {
      ApplyParallelFirstConflict(c, configs[0], FirstConflict(c, configs[0], 0));
      MergeAllKeepsOtherFields(ApplyParallel(c, configs[0]).0, configs[1..]);
    }
  }

  lemma {:induction false} WithParentsKeepsOtherFields(c: ConfigValue, parents: seq<ConfigValue>)
    requires OtherFieldsDefault(c)
    ensures OtherFieldsDefault(WithParents(c, parents))
    decreases |parents|
  {
    if parents != [] {
      WithParentsKeepsOtherFields(WithParent(c, parents[0]), parents[1..]);
    }
  }

  /** `parse_segment_config_from_loader_tree_internal`, with the per-file
      configs given. */
  method ParseLoaderTree(t: LoaderTree) returns (r: Result<NextSegmentConfig>)
    ensures r.Ok? <==> TreeConfig(t).Ok?
    ensures r.Err? ==> r.msg == TreeConfig(t).msg
    ensures r.Ok? ==> fresh(r.value) && r.value.Value() == TreeConfig(t).value
    decreases t, 1
  {
    var config := new NextSegmentConfig.Default();
    var children := ParseChildren(t.parallelRoutes);
    if children.Err? {
      return Err(children.msg);
    }
    var merged := MergeParallelConfigs(config, children.value);
    if merged.Err? {
      return Err(merged.msg);
    }
    ApplyParents(config, FileConfigs(t));
    return Ok(config);
  }

  /** The loop applying each parallel route's config, stopping at the first
      conflict. */
  method MergeParallelConfigs(config: NextSegmentConfig, trees: seq<NextSegmentConfig>) returns (r: Result<()>)
    requires forall k :: 0 <= k < |trees| ==> trees[k] != config
    modifies config
    ensures var m := MergeAll(old(config.Value()), old(Values(trees)));
      (r.Ok? <==> m.Ok?) && (r.Err? ==> r.msg == m.msg) && (r.Ok? ==> config.Value() == m.value)
  {
    ghost var expected := MergeAll(config.Value(), Values(trees));
    var i := 0;
    while i < |trees|
      invariant 0 <= i <= |trees|
      invariant Values(trees) == old(Values(trees))
      invariant expected == MergeAll(config.Value(), Values(trees[i..]))
    {
      var tree := trees[i];
      assert Values(trees[i..]) == [tree.Value()] + Values(trees[i + 1..]);
      var res := config.ApplyParallelConfig(tree);
      if res.Err? {
        return Err(res.msg);
      }
      i := i + 1;
    }
    return Ok(());
  }

  /** The loop applying the page, default and layout configs as parents. */
  method ApplyParents(config: NextSegmentConfig, files: seq<ConfigValue>)
    modifies config
    ensures config.Value() == WithParents(old(config.Value()), files)
  {
    var j := 0;
    while j < |files|
      invariant 0 <= j <= |files|
      invariant WithParents(config.Value(), files[j..]) == WithParents(old(config.Value()), files)
    {
      assert files[j..][1..] == files[j + 1..];
      var parent := new NextSegmentConfig.Of(files[j]);
      config.ApplyParentConfig(parent);
      j := j + 1;
    }
  }

  function Values(cs: seq<NextSegmentConfig>): (r: seq<ConfigValue>)
    reads set c | c in cs
    ensures |r| == |cs|
    ensures forall k :: 0 <= k < |cs| ==> r[k] == cs[k].Value()
  {
    if cs == [] then [] else [cs[0].Value()] + Values(cs[1..])
  }

  /** The configs of the parallel routes, each a fresh object. */
  method ParseChildren(ts: seq<LoaderTree>) returns (r: Result<seq<NextSegmentConfig>>)
    ensures r.Ok? <==> ChildConfigs(ts).Ok?
    ensures r.Err? ==> r.msg == ChildConfigs(ts).msg
    ensures r.Ok? ==> forall k :: 0 <= k < |r.value| ==> fresh(r.value[k])
    ensures r.Ok? ==> Values(r.value) == ChildConfigs(ts).value
    decreases ts, 0
  {
    if ts == [] {
      return Ok([]);
    }
    var first := ParseLoaderTree(ts[0]);
    if first.Err? {
      return Err(first.msg);
    }
    var rest := ParseChildren(ts[1..]);
    if rest.Err? {
      return Err(rest.msg);
    }
    return Ok([first.value] + rest.value);
  }

  // ---------------------------------------------------------------------------
  // Static strings

  /** The analysed value of an export, reduced to what this parser inspects. */
  datatype JsValue = JsStr(s: string) | JsArray(items: seq<JsValue>) | JsOther

  const NeedsStaticStrings := " needs to be a static string or array of static strings."

  /** The issue reported for the item at `index` of an array that is not a
      static string. */
  function EntryIssue(subKey: string, index: nat): string {
    "Entry `" + subKey + "[" + Decimal(index) + "]`" + NeedsStaticStrings
  }

  /** The strings of an array, in order. */
  function StringItems(items: seq<JsValue>): (r: seq<string>)
    ensures |r| <= |items|
  {
    if items == [] then []
    else
      var init := StringItems(items[..|items| - 1]);
      var last := items[|items| - 1];
      if last.JsStr? then init + [last.s] else init
  }

  /** The issues for the array's items that are not strings. */
  function ItemIssues(subKey: string, items: seq<JsValue>): (r: seq<string>)
    ensures |r| <= |items|
  {
    if items == [] then []
    else
      var init := ItemIssues(subKey, items[..|items| - 1]);
      var last := items[|items| - 1];
      if last.JsStr? then init else init + [EntryIssue(subKey, |items| - 1)]
  }

  /** `parse_static_string_or_array_from_js_value`, returning the issues it
      emits. */
  method ParseStaticStringOrArray(key: string, subKey: string, value: JsValue)
    returns (r: Option<seq<string>>, issues: seq<string>)
    ensures value.JsStr? ==> r == Some([value.s]) && issues == []
    ensures value.JsArray? ==> r == Some(StringItems(value.items)) && issues == ItemIssues(subKey, value.items)
    ensures value.JsOther? ==> r == None && issues == [
      if subKey != key then "`" + subKey + "`" + NeedsStaticStrings else "It" + NeedsStaticStrings]
  {
    match value
    case JsStr(s) =>
      return Some([s]), [];
    case JsArray(items) =>
      var result := [];
      issues := [];
      var i := 0;
      while i < |items|
        invariant 0 <= i <= |items|
        invariant result == StringItems(items[..i])
        invariant issues == ItemIssues(subKey, items[..i])
      {
        assert items[..i + 1][..i] == items[..i];
        if items[i].JsStr? {
          result := result + [items[i].s];
        } else {
          issues := issues + [EntryIssue(subKey, i)];
        }
        i := i + 1;
      }
      assert items[..|items|] == items;
      return Some(result), issues;
    case JsOther =>
      var message := if subKey != key then "`" + subKey + "`" + NeedsStaticStrings else "It" + NeedsStaticStrings;
      return None, [message];
  }

  /** Every item is either kept as a string or reported. */
  lemma {:induction false} ItemsKeptOrReported(subKey: string, items: seq<JsValue>)
    ensures |StringItems(items)| + |ItemIssues(subKey, items)| == |items|
  {
    if items != [] {
      ItemsKeptOrReported(subKey, items[..|items| - 1]);
    }
  }

  /** An array of strings is read back as those strings, with no issue. */
  lemma {:induction false} StringArrayRoundTrip(subKey: string, strings: seq<string>)
    ensures StringItems(seq(|strings|, i requires 0 <= i < |strings| => JsStr(strings[i]))) == strings
    ensures ItemIssues(subKey, seq(|strings|, i requires 0 <= i < |strings| => JsStr(strings[i]))) == []
  {
    if strings != [] {
      var items := seq(|strings|, i requires 0 <= i < |strings| => JsStr(strings[i]));
      var init := strings[..|strings| - 1];
      StringArrayRoundTrip(subKey, init);
      assert items[..|items| - 1] == seq(|init|, i requires 0 <= i < |init| => JsStr(init[i]));
      assert init + [strings[|strings| - 1]] == strings;
    }
  }
}
